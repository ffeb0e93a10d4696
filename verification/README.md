# DeusMagi client core in Dafny

This project models the logic at the heart of the DeusMagi game client.

- **The connection state machine.** The main loop walks `game_status_chain` from `ST_INIT` through the metaserver list, the connection, the crypto handshake and the file requests. Around it sit the keepalive tracker and the shutdown and keepalive checks of the main loop.
- **The intro screen's server list.** This covers the version gate of `list_handle_enter`, the trust colour of each entry, the Port and Players columns, the `--connect` auto-connect and the Refresh button.
- **The command-line options** `--server` and `--connect`.
- **Input handling.** The key table with its auto-repeat, mouse dragging, synthetic key presses, and the movement and fire packets of `move_keys`.
- **The toolkit pieces:** buttons, range buttons and progress dots.
- **Three widgets:** the frames-per-second counter, the protections table and the chat input line.

Every C integer whose width matters is modelled explicitly.

- `uint32_t` tick arithmetic wraps modulo 2^32 (`CInt.Add32`, `CInt.Sub32`).
- A `uint32_t` difference stored into an `int` is read as two's complement (`CInt.ToInt32`).
- C's `/` truncates toward zero (`CInt.TruncDiv`).
- `atoi`, `"%d"` formatting and `strcasecmp` have their own definitions in `Text`.

The tick counter, the mouse state, texture sizes and the outcomes of calls into code outside the model are all parameters. Those outcomes are opening a socket, verifying a host, processing the server files, key bindings and markup escaping.

The modules follow the source:

- `Client`: player states and server entries;
- `Keepalive`;
- `Options`;
- `StatusChain`: `game_status_chain` and the main loop around it;
- `Intro`;
- `Move`;
- `Event`;
- `Button`;
- `RangeButtons`;
- `Progress`;
- `Fps`;
- `Protections`;
- `Input`;
- helper modules `Maybe`, `CInt` and `Text`.

`keepalive_ping_avg` is a running average, `avg + (ping - avg) / n` with C's truncating division, and not the mean of the round-trip times. For round-trip times 0, 3, 3 and 3 it gives 1, where the mean is 2.25 (`Keepalive.AverageIsNotTheMean`).

## Model

| member | source | states |
|---|---|---|
| Client.StatesStrictlyOrdered | src/include/main.h:214-309 | The 19 player states are numbered 0..18 in declaration order. Every state is listed, and distinct states have distinct numbers, so comparisons such as `state > ST_CONNECT` mean "further along". |
| Client.MainLoopGates | src/client/main.c:744-808 | The intro screen, shown while `cpl.state <= ST_WAITFORPLAY` (line 808), is shown exactly in the states where the chain runs (`cpl.state != ST_PLAY`, line 755). The idle states are exactly `ST_INIT`..`ST_WAITLOOP`. The connected states are those after `ST_CONNECT`. |
| Client.ConnectPort | src/client/main.c:259-262 | A connection uses the crypto port whenever crypto is enabled (port ≠ -1), and the plain port otherwise. |
| Client.PublicKey | src/include/main.h:95-97 | A parsed certificate's key is used whenever a certificate exists, even when that key is absent. The entry's own key is used otherwise. |
| Client.CertificateShadowsPubkey | src/include/main.h:95-97 | A certificate without a key leaves the server with no key, whatever key the entry itself carries. |
| Keepalive.Reset | src/client/main.c:93-108 | After a reset no probe is outstanding, every counter and statistic is zero, and the last keepalive time is now. The tracker invariant holds. |
| Keepalive.Send | src/client/main.c:113-128 | A send takes the next id and records the probe as outstanding at the current tick, which becomes the last keepalive time. The id is fresh, so exactly one probe is added and the invariant is kept. |
| Keepalive.OnReply | src/client/main.c:144-168 | A reply matches exactly when its id is outstanding. A match removes the probe, records the 32-bit round-trip time and counts the reply. Any other id changes nothing. The invariant is kept. |
| Keepalive.MissedIsOutstanding | src/client/main.c:133-141 | The "missed" figure (probes sent minus replies) equals the number of outstanding probes, so it is never negative. |
| Keepalive.ReplyUndoesSend | src/client/main.c:118-127 | A reply to the probe just sent restores the outstanding set and measures the time since that send. |
| Keepalive.OnReplyExtendsReplay | src/client/main.c:157-160 | Each match extends the history of round-trip times: the stored average is the running average over every time since the reset. |
| Keepalive.FirstReplySetsAverage | src/client/main.c:157-160 | The first reply after a reset sets the average to its own round-trip time. |
| Keepalive.AverageWithinRange | src/client/main.c:157-160 | The running average always lies between the smallest and the largest round-trip time seen. |
| Keepalive.AverageIsNotTheMean | src/client/main.c:157-160 | For round-trip times 0, 3, 3 and 3 the average is 1, while the mean is 2.25. |
| Options.ServerOption | src/client/main.c:216-244 | A `--server` entry is named after its host. Its ports are never 0: 0 falls back to 1728, and a crypto port of 0 falls back to -1. |
| Options.ServerOptionRoundTrip | src/client/main.c:216-244 | `--server "host port crypto"` with non-zero numbers yields exactly that host, port and crypto port. |
| Options.ServerOptionDefaults | src/client/main.c:236-240 | A `--server` naming only a host gets port 1728 and crypto disabled. |
| Options.ConnectOption | src/client/main.c:482-499 | An empty argument changes no setting, and a setting changes only to a non-empty field. |
| Options.ConnectOptionRoundTrip | src/client/main.c:482-499 | Four fields joined by ':' set exactly the non-empty fields and keep the others; only the last field may contain ':'. |
| Options.ConnectOptionServerOnly | src/client/main.c:487-495 | An argument without ':' sets only the server. |
| Text.AtoiItoa | src/gui/misc/intro.c:236-247 | A number printed with `"%d"` reads back as the same number with `atoi`. |
| Text.WordsOfJoin | src/client/main.c:216-235 | Words joined by single spaces come back as those same words from `string_get_word`. |
| Text.SplitJoin | src/client/main.c:487 | The fields produced by `string_split`, joined by the separator, give back the input. |
| Text.FieldsOfJoin | src/client/main.c:487 | Fields joined by the separator split back into the same fields, when only the last field may contain the separator. |
| Text.CaseEqualIffSameLower | src/gui/misc/intro.c:362 | Two names compare equal ignoring case exactly when their lower-case forms are equal. |
| StatusChain.Chain | src/client/main.c:201-358 | One step of the chain always returns 1 and keeps the keepalive tracker consistent. |
| StatusChain.ListEntries | src/client/main.c:207-244 | The rebuilt server list has localhost first, then one entry per `--server` option in order. |
| StatusChain.MetaActions | src/client/main.c:206-247 | `ST_META` clears the list, adds localhost and then each `--server` entry in order, and queries the metaserver. Nothing else happens. |
| StatusChain.ConnectOutcome | src/client/main.c:269-316 | `ST_CONNECT` reaches `ST_WAITCRYPTO` exactly for a reachable, verified crypto server with a key. It reaches `ST_START_DATA` exactly for a reachable, verified plain server, and `ST_START` otherwise. A socket is opened, on the right port and securely for crypto, unless the key is missing. |
| StatusChain.NoKeyNoConnection | src/client/main.c:277-286 | A crypto server without a key record goes back to `ST_START` with only the refusal reported, and the socket is not touched. |
| StatusChain.CryptoOnlyWhenVerified | src/client/main.c:297-316 | The crypto hello is sent exactly when a step enters `ST_WAITCRYPTO`. That happens only from `ST_CONNECT`, for a verified crypto server with a key, with the socket open. |
| StatusChain.ConnectHello | src/client/main.c:306-316 | Within `ST_CONNECT`, the hello goes out exactly when the step enters `ST_WAITCRYPTO`, and then the host was verified and the socket is open. |
| StatusChain.NoHelloElsewhere | src/client/main.c:201-358 | No state other than `ST_CONNECT` sends the hello or enters `ST_WAITCRYPTO`. |
| StatusChain.LinearTransitions | src/client/main.c:203-268 | Each unconditional state (`ST_INIT`, `ST_META`, `ST_START`, `ST_STARTCONNECT`, `ST_START_DATA`, `ST_VERSION`, `ST_REQUEST_FILES_LISTING`) moves to the next state in the enum on every call. |
| StatusChain.FileTransitions | src/client/main.c:344-352 | The two file waits advance exactly when processing has finished, and otherwise leave the session unchanged with no action. |
| StatusChain.OtherStatesUnchanged | src/client/main.c:353-357 | Every other state is left unchanged. Only `ST_WAITFORPLAY` clears the map. |
| StatusChain.ChainMovesForward | src/client/main.c:201-358 | The chain never moves backward except to `ST_START` from `ST_CONNECT`. It skips only `ST_WAITCRYPTO`, for a plain server. |
| StatusChain.ChainKeepalive | src/client/main.c:258-323 | The tracker is reset in `ST_STARTCONNECT`. In `ST_START_DATA` a probe with the next id is sent and announced. No other state touches the tracker. |
| StatusChain.StartClosesSocket | src/client/main.c:248-257 | `ST_START` closes a socket exactly when one is open, and leaves none open. |
| StatusChain.LoopStep | src/client/main.c:728-761 | One pass of the main loop keeps the tracker consistent. |
| StatusChain.LoopKeepalive | src/client/main.c:728-751 | A shutdown returns to `ST_START`, except in `ST_STARTCONNECT`, and does nothing else. A connected client sends a keepalive first exactly when more than two minutes have passed, measured across tick wrap-around. |
| StatusChain.NoLeadingKeepalive | src/client/main.c:317-323 | No chain step begins with a keepalive, so the loop's own keepalive is the only one that can come first. |
| Intro.AccumulateVersion | src/gui/misc/intro.c:59-63 | The version loop computes the sum of component i × 256^i, modulo 2^32. |
| Intro.PackBounds | src/gui/misc/intro.c:59-63 | Byte-sized components pack into a number below 256^n. |
| Intro.UnpackPack | src/gui/misc/intro.c:59-63 | For byte-sized components the packed number gives the components back. |
| Intro.MinComponentsEncodeServerVersion | src/include/config.h:55-60 | `SERVER_VERSION` 0x04 encodes version 4. |
| Intro.OlderThanIrreflexive | src/include/config.h:55-60 | No version is older than itself. |
| Intro.OlderThanTrailingZero | src/include/config.h:55-60 | Trailing zero components do not change a comparison. |
| Intro.GatesAgreeOnOneComponent | src/gui/misc/intro.c:65 | For one-component versions the gate as written and the intended gate agree. |
| Intro.ServerAt | src/gui/misc/intro.c:53-57 | There is a server exactly for positions inside the list, and it is the entry at that position. |
| Intro.HandleEnter | src/gui/misc/intro.c:44-77 | With no server on the selected row nothing happens. Otherwise that server is selected, and the login starts exactly when its version passes the intended gate. |
| Intro.HandleEnterAsWritten | src/gui/misc/intro.c:44-77 | The same, with the login started exactly when the packed number is 0 or at least 4. |
| Intro.OutdatedServerAccepted | src/gui/misc/intro.c:59-71 | A server reporting a version such as 3.9 is accepted as written but refused by the intended gate. |
| Intro.MinorVersionGates | src/gui/misc/intro.c:65 | For a version major.minor with major < 4 and minor > 0, the packed number passes the written test but the version is older than 4. |
| Intro.HandleEnterGate | src/gui/misc/intro.c:53-71 | With the corrected gate, exactly versions that are all zeros or not older than 4 start the login, for any number of components. |
| Intro.ComponentsOfNumbers | src/gui/misc/intro.c:59-62 | A version written as dot-separated decimal numbers reads back as those numbers. |
| Intro.TrustColor | src/gui/misc/intro.c:88-123 | Entries typed in by the user keep the list colour. A metaserver entry is gray without crypto. With crypto it is green when a certificate names both addresses, yellow when a certificate lacks one, orange with only a public key, and gray otherwise. |
| Intro.ColorAndPublicKey | src/gui/misc/intro.c:102-122 | A gray crypto entry has no key, so it cannot connect. An orange one connects with its own key. A green or yellow one connects with the certificate's key. |
| Intro.ColumnsReadBack | src/gui/misc/intro.c:236-247 | Reading the columns back gives the connection port, and the player count exactly when it is known. |
| Intro.FirstMatch | src/gui/misc/intro.c:359-362 | The result is the first entry whose name equals the given name ignoring case, or nothing when no entry matches. |
| Intro.AutoConnectStep | src/gui/misc/intro.c:356-374 | Enter is pressed only while the client is idle and a server was named. After a press the name is forgotten unless reconnecting. When Enter is not pressed, nothing changes. |
| Intro.AutoConnectSelectsMatch | src/gui/misc/intro.c:356-374 | Enter is pressed exactly when the client is idle and some entry matches. The selected row is then the first entry matching the name. |
| Intro.Refresh | src/gui/misc/intro.c:403-407 | Refresh rebuilds the list (`ST_META`) unless a metaserver query is still in flight. |
| StatusChain.RefreshRebuildsList | src/gui/misc/intro.c:403-407 | After a refresh with no query in flight, the state is idle, and the next chain step clears the list, adds localhost and the `--server` entries, queries the metaserver and moves on to `ST_START`. With a query in flight, the next step is the same as without the click. |
| Move.MirrorDir | src/events/move.c:65-130 | Mirroring a keypad direction swaps east and west and keeps north and south. |
| Move.DirFromOffset | src/events/move.c:74-129 | Every offset gives a keypad direction from 1 to 9. |
| Move.DirFromTile | src/events/move.c:65-130 | The result is a keypad direction, and it is 5 exactly for the player's own tile. |
| Move.OffsetNotPlayer | src/events/move.c:70-129 | Any other tile never gives 5. |
| Move.RowDirections | src/events/move.c:77-78 | On the player's row, west is 4 and east is 6. |
| Move.ColumnDirections | src/events/move.c:80-129 | In the player's column, north is 8 and south is 2. |
| Move.NeverPointsAway | src/events/move.c:83-129 | A tile to the north never gives a southern direction, and likewise for south, east and west. |
| Move.SlopeSign | src/events/move.c:77-81 | The slope measure has the sign of x / y. |
| Move.MirrorSymmetry | src/events/move.c:83-129 | Mirroring a tile east-west mirrors its direction, except on sector boundaries. |
| Move.Compass | src/events/move.c:17-19 | The server's direction codes run from 0 to 8, and 0 means no step. |
| Move.FireTableIsCompass | src/events/move.c:17-19 | `directions_fire` maps each keypad key to the compass code of the step it stands for. |
| Move.KeypadOf | src/events/move.c:17-19 | Every direction code comes from a keypad direction. |
| Move.FireTablePermutation | src/events/move.c:17-19 | The table is a permutation of 0..8 whose inverse is `KeypadOf`, and key 5 is sent as 0. |
| Move.FirePacket | src/events/move.c:21-33 | A fire packet carries the direction code, followed by the tag exactly when the tag is non-zero. |
| Move.MoveKeys | src/events/move.c:21-52 | Fire mode fires without a target. Otherwise 5 stops, and any other key moves with the run flag. No packet is sent exactly when the key is looked up in `directions_fire` but is not a keypad direction, because C would read outside the table. |
| Move.NoDirectionGuardedOnlyForMove | src/events/move.c:26-47 | Key 0 moves with direction code 0, but in fire mode it has no table entry and sends nothing. |
| Move.MoveKeysDecode | src/events/move.c:35-52 | The direction byte of every move or fire packet leads back to the key pressed. |
| Event.KeyDown | src/events/event.c:149-156 | A key that was up becomes pressed and not repeated, with its repeat time 175 ticks ahead. A held key or an out-of-range scancode changes nothing, and no other key changes. |
| Event.KeyUp | src/events/event.c:157-160 | A key-up releases exactly that key and keeps its time and flag. |
| Event.KeyDownWhileHeld | src/events/event.c:151 | Repeated key-down events for a held key change nothing. |
| Event.KeyUpDownRestarts | src/events/event.c:149-160 | Releasing a key and pressing it again restarts its repeat delay from the new tick. |
| Event.AutoRepeat | src/events/event.c:228-239 | Exactly the pressed non-modifier keys whose repeat time has passed are marked repeated with their next time from `LastTick`, and one key-down is pushed for each, in table order. Every other entry is unchanged. |
| Event.FirstRepeatDelay | src/events/event.c:149-239 | Without a wrap, a freshly pressed key first repeats once more than 205 ticks have passed. |
| Event.RepeatInterval | src/events/event.c:234-235 | Without a wrap, a repeated key is due again only after more than 60 ticks. |
| Event.RepeatEveryFrameNearWrap | src/events/event.c:234-235 | Within 60 ticks of the counter wrapping, a repeated key is due again on the same tick. |
| Event.DraggingStart | src/events/event.c:63-80 | Starting a drag records the tag and the start point, and forgets the last position and the callback. |
| Event.DraggingStop | src/events/event.c:87-90 | Stopping clears the tag and leaves everything else about the drag as it was: the start, the last position and the callback flag. |
| Event.DragThreshold | src/events/event.c:14-35 | A drag counts only once the pointer leaves the 5×5 square around its start. A stopped drag never counts. |
| Event.DraggingNeedRedraw | src/events/event.c:37-61 | A redraw is needed exactly when the drag counts and the pointer moved since the last check, and the new position is then recorded. |
| Event.NeedRedrawOnce | src/events/event.c:53-58 | Asking twice with the pointer still redraws at most once. The first ask after a start redraws exactly when the drag counts. |
| Event.PushKeyOnce | src/events/event.c:255-259 | A key-down is followed by a key-up of the same key and modifiers. |
| Event.PushKeyOnceReleases | src/events/event.c:244-259 | The pushed key-down and key-up pass through the scancode-indexed key table. The entry they reach ends up released, with its repeat delay restarted if the key was up. Every other entry is left as it was. |
| Button.Create | src/gui/toolkit/button.c:41-62 | A new button sits at the origin and is not hovered, pressed, forced or disabled. All its clocks are zero. |
| Button.DetermineTexture | src/gui/toolkit/button.c:25-34 | The pressed texture is used exactly while pressed, if it exists. The hover texture is used exactly while hovered and not shown pressed, if it exists. |
| Button.TexturePriority | src/gui/toolkit/button.c:25-34 | Pressing outranks hovering, and a missing texture falls back to the normal one. |
| Button.MouseOverRectangle | src/gui/toolkit/include/button.h:10 | The hit test covers exactly the half-open rectangle at the button's corner in window coordinates. |
| Button.HitsIgnoresHoverTexture | src/gui/toolkit/button.c:214-225 | The hover texture never affects the event hit test, because the hover flag is cleared before the texture is chosen. |
| Button.HandleEvent | src/gui/toolkit/button.c:198-254 | The result is 1 exactly for a left click inside an enabled button, which presses it and schedules a repeat at 750 ticks. A button-up releases the button. A disabled button only loses its hover flag. Otherwise the hover flag follows the hit, and the hover clock restarts only on entering. |
| Button.HoverKeepsClock | src/gui/toolkit/button.c:238-251 | The first motion into a button starts the hover clock and allows a tooltip. Later motions inside keep the clock and ask for no redraw. |
| Button.PressThenRelease | src/gui/toolkit/button.c:208-237 | A press hides the tooltip, and a release anywhere unpresses the button. |
| Button.NeedRedraw | src/gui/toolkit/button.c:103-128 | The hover flag is dropped when the pointer leaves. An unforced press is dropped when the pointer leaves or the mouse state is not exactly left. The result is true exactly when something changed. |
| Button.CreateIsIdle | src/gui/toolkit/button.c:25-128 | A new button shows its normal texture and offers no tooltip. It needs no redraw wherever the mouse is and whatever its buttons are. |
| Button.Show | src/gui/toolkit/button.c:137-187 | A forced press is shown as pressed. The repeat fires exactly when pressed with a callback and the interval has passed, and then the clock restarts at 150 ticks. The redraw flag is cleared. Nothing else changes: the position, the textures, the forced and disabled flags, the hover clock and the repeat callback are kept. |
| Button.RepeatSchedule | src/gui/toolkit/button.c:180-184 | After a click held inside, the first repeat comes after more than 750 ticks and later ones after more than 150. |
| Button.ReleaseStopsRepeat | src/gui/toolkit/button.c:120-124 | Letting go, or leaving the button, ends an unforced press with no repeat. |
| RangeButtons.Show | src/gui/toolkit/range_buttons.c:30-63 | The result is 1 exactly for a debounced left hold strictly inside the left button or the right one. The left button lowers the value by `advance`, the right one raises it, and the tick is recorded. Otherwise nothing changes. |
| RangeButtons.ButtonsDisjoint | src/gui/toolkit/range_buttons.c:48-53 | No position is strictly inside both buttons. |
| RangeButtons.EdgesDoNothing | src/gui/toolkit/range_buttons.c:46-58 | The edge pixels and the seam between the buttons do nothing. |
| RangeButtons.DebounceHolds | src/gui/toolkit/range_buttons.c:46 | After a step at a non-zero tick, nothing happens for the next 125 ticks. |
| RangeButtons.StepAtTickZeroIsForgotten | src/gui/toolkit/range_buttons.c:46-51 | A step taken at tick 0 is recorded as "no step yet", so the next call may step again at once. |
| RangeButtons.DownThenUp | src/gui/toolkit/range_buttons.c:48-58 | A step down followed, after the debounce, by a step up restores the value. |
| Progress.Create | src/gui/toolkit/progress.c:15-20 | The first dot is lit and the indicator is not done. |
| Progress.CreateCycles | src/gui/toolkit/progress.c:15-51 | A new indicator lights only the first of the five dots. After k steps it lights dot k mod 5. |
| Progress.Lights | src/gui/toolkit/progress.c:38-41 | Dot i is lit exactly when it is the current dot or the indicator is done. |
| Progress.OneDotLit | src/gui/toolkit/progress.c:39 | While not done exactly one dot is lit. Once done, all five are lit. |
| Progress.NextDot | src/gui/toolkit/progress.c:46-51 | For any of the five dots, the next dot is (d + 1) mod 5: one to the right, and back to the first after the last. |
| Progress.Show | src/gui/toolkit/progress.c:44-52 | The dot moves only when not done and more than 275 ticks have passed. It then advances by exactly one, modulo 5, and the clock restarts at the current tick. The dot stays among the five. |
| Progress.DoneIsFrozen | src/gui/toolkit/progress.c:44 | A done indicator never changes. |
| Progress.StepsCycle | src/gui/toolkit/progress.c:44-52 | After k steps the lit dot is (d + k) mod 5. |
| Progress.Width | src/gui/toolkit/progress.c:62-67 | The width runs from the first dot's left edge to the last dot's right edge. |
| Progress.DotsSpaced | src/gui/toolkit/progress.c:40 | Neighbouring dots are exactly 2 pixels apart. |
| Fps.Init | src/gui/widgets/fps.c:83-92 | All counts start at zero, with the window starting now. |
| Fps.Count | src/gui/widgets/fps.c:62-63 | Each call counts one frame, plus one real frame when drawn, in 32-bit arithmetic. |
| Fps.Rollover | src/gui/widgets/fps.c:67-76 | The counts become the figures and restart from zero. A redraw is asked for exactly when the figures change. |
| Fps.BackgroundAsWritten | src/gui/widgets/fps.c:56-78 | The function as written counts, and rolls over exactly when `lasttime < ticks - 1000` in `uint32_t`. A rollover shows the counts, this frame included, and restarts them at zero from `ticks`. A redraw is asked for exactly when the figures change. |
| Fps.RollsOverWithinFirstSecond | src/gui/widgets/fps.c:66 | A widget started at tick 5 rolls over at tick 10, when the window is not over. |
| Fps.AsWrittenEarlyRollover | src/gui/widgets/fps.c:66 | While ticks < 1000, the written test fires for every earlier `lasttime`. |
| Fps.Background | src/gui/widgets/fps.c:56-78 | With the corrected test, a call only counts until more than 1000 ticks have passed. Then the figures become the window's counts and the counts restart. A redraw is asked for exactly when the figures change. |
| Fps.TestsAgreeInsideRange | src/gui/widgets/fps.c:66 | Once ticks ≥ 1000, with no wrap since `lasttime`, the two tests agree. |
| Fps.Drawn | src/gui/widgets/fps.c:63 | The number of drawn frames is between 0 and the number of calls. |
| Fps.RunCountsFrames | src/gui/widgets/fps.c:56-78 | Inside one window the accounting counts every call and every drawn frame and leaves the figures alone. |
| Fps.ShowsWindowCount | src/gui/widgets/fps.c:66-76 | Closing a fresh window shows the number of calls in it, the closing one included, and the number of frames drawn. |
| Protections.ColorOf | src/gui/widgets/protections.c:39-48 | Values are colored gray exactly at 0, red exactly when negative, orange exactly at 100 or more, and white otherwise. |
| Protections.ColorMonotone | src/gui/widgets/protections.c:39-48 | More protection never gives a lower band. |
| Protections.Box | src/gui/widgets/protections.c:27-28 | A box's size is half the room left by the padding, with C division. |
| Protections.BoxCorner | src/gui/widgets/protections.c:29-30 | Box i's corner lies in column i % 2 and row i / 2. |
| Protections.BoxesFit | src/gui/widgets/protections.c:15-30 | In a widget large enough for the padding, the four boxes lie at least 10 pixels inside and never overlap. |
| Protections.GroupLines | src/gui/widgets/protections.c:39-54 | Group i shows slots 5i to 5i+4, in order. |
| Protections.Draw | src/gui/widgets/protections.c:12-59 | Nothing is drawn without a redraw. Otherwise each whole group of five is drawn in its box, with each value and its colour. |
| Protections.SlotsDrawnOnce | src/gui/widgets/protections.c:23-53 | Every slot of every whole group is drawn exactly once, as line k % 5 of group k / 5. |
| Input.Init | src/gui/widgets/input.c:99-112 | The field starts empty, limited to 250 characters. |
| Input.InitSendsNothing | src/gui/widgets/input.c:11-112 | A freshly initialised widget, once shown, sends nothing on Enter: Enter only closes it, and the field stays empty. |
| Input.HandleEnter | src/gui/widgets/input.c:11-36 | Enter hides the widget. A command is sent exactly when the text is non-empty: the escaped text after '/', and otherwise the prepended text followed by the escaped text. |
| Input.HandleEvent | src/gui/widgets/input.c:54-86 | A hidden widget or a non-key event does nothing. The quick get/drop key or Enter sends as Enter does. The quick path always consumes the key, while Enter then consumes it only if the text field handles it. Escape hides and consumes. Tab consumes and changes nothing. Any other key changes nothing and is consumed exactly when the text field handles it. Anything sent leaves the widget hidden. |
| Input.EscapeCloses | src/gui/widgets/input.c:74-76 | Escape closes the widget and sends nothing. |
| Input.SentOnce | src/gui/widgets/input.c:11-71 | After Enter the widget ignores every key, so a line is sent at most once. |
| Input.SentCommandCarriesText | src/gui/widgets/input.c:24-29 | Without escaping, the command sent is the slash line as typed, or the prepended text followed by the line. |

## Left out

- Rendering, textures, fonts, sound, markup and message text are left out. These include the `"%02d"` value text of the protections widget, the coloured messages of the chain, and the text drawn by the fps widget. Only what is drawn where, and with what, is modelled.
- Sockets, packets and SDL are left out. Packet contents other than the direction bytes of `move_keys` are not modelled. The outcomes of opening a socket, verifying the host and processing the server files are parameters (`StatusChain.World`).
- `DoClient`, `popup_destroy_all`, the memory check, animation and sounds in the main loop are left out. They are outside the connection logic.
- `string_get_word`, `string_split`, `text_escape_markup` and `server_get_id` are not part of this model. The first two are defined in `Text` from how they are used: words separated by runs of the delimiter, and fields cut at the first `max - 1` separators. The 15-character limit on a version word (`char number[16]`) is not modelled. `server_get_id` is taken to return NULL for a position outside the list. `text_escape_markup` is a parameter.
- The key-binding match (`keybind_command_matches_event`), `text_input_event` and `help_handle_tabulator` are parameters or have no effect in the model. So does the `keys[].time` update made by the quick get/drop path of the input widget.
- Text.Atoi: does not model the undefined behaviour of C's `atoi` on out-of-range numbers, because the values read are ports and version parts.
- Intro.AccumulateVersion: does not model the undefined behaviour of `atoi(number) << (i * CHAR_BIT)`, which is a signed overflow for large components, a left shift of a negative value for a negative component such as `atoi("-1")`, and, from the fifth component on, a shift by 32 or more bits. The model instead adds c·256^i exactly and reduces the sum modulo 2^32, so a fifth or later component adds nothing.
- Move.DirFromOffset: does not model overflow of `x * 100` or `-300 * x`, because map offsets are small.
- Keepalive.OnReply: the running average and `keepalive_ping_num` are unbounded integers, so their overflow after 2^31 replies is not modelled.
- Keepalive.Send: `++keepalive_id` is a signed `int` in the source, but here it is an unbounded integer, so its overflow after 2^31 probes is not modelled.
- RangeButtons.Show: `*val -= advance` is taken exactly, with no `int` overflow. `SDL_GetTicks()` is called twice in `range_buttons_show`, once for the debounce test and once to record the step, and both calls are modelled as one tick `now`.
- Protections.Draw: values are unbounded integers and not `int32`. The length of `cpl.stats.protection` is not visible, so `Draw` requires at most four whole groups, which is what `box[4]` can hold.
- Fps.RunCountsFrames: assumes every call reports 0 or 1 drawn frames and that the counts stay below 2^32.
- Event.FirstRepeatDelay: assumes the tick counter does not wrap between the press and the repeat. The wrap is covered separately by Event.RepeatEveryFrameNearWrap.
- Button.Show: `SDL_GetTicks()` is called twice in `button_show`. Both calls are modelled as one tick `now`.
- Progress.Show: `SDL_GetTicks()` is read once for the test and again for the stored tick. Both reads are modelled as one tick `now`.
- StatusChain.LoopStep: the main loop reads `SDL_GetTicks()` for the keepalive test, and `keepalive_send` reads it again for the probe's time. Both reads are modelled as the one tick `w.now`.
- Event.PushKeyOnce: the pushed events carry only their type, key and modifiers, which is all the source sets.
- Event.PushKeyOnceReleases: `event_push_key` leaves the pushed events' scancode unset, so which key-table entry they reach is undetermined in C. The lemma takes that scancode as a parameter and holds for every value.
- Progress.Width: the dots are taken to have one width for the lit and the unlit texture.
- Move.MoveKeys: fire mode with key 0, and any key outside 0..9 that is looked up in `directions_fire`, reads outside the table, which is undefined in C. The model returns no packet for these keys and says nothing about what C would send.
- Input.Init: whether the widget starts shown is decided by the widget framework, which is not part of this model.
- Input.HandleEvent: `send_command_check` is modelled as sending the command, and its own checks are not modelled.

## Findings

| source | as written | input that shows it | evidently intended | confidence | as-written member | corrected member |
|---|---|---|---|---|---|---|
| src/gui/misc/intro.c:59-71 with src/include/config.h:55-60 | The version components are packed least significant first (`major + minor * 256 + …`), and the packed number is compared numerically with `SERVER_VERSION` 0x04. | A server reporting version "3.9" packs to 2307, which is not below 4, so the login starts although 3.9 is older than the required 4. | Refuse a non-zero version that is older than the minimum, comparing component by component from the first. | not executed | Intro.HandleEnterAsWritten, Intro.OutdatedServerAccepted | Intro.HandleEnter, Intro.HandleEnterGate |
| src/gui/widgets/fps.c:66 | The window test `tmp->lasttime < ticks - 1000` subtracts in `uint32_t`. | With `lasttime` 5 and `ticks` 10, `ticks - 1000` wraps to 4294966306 and the test fires after 5 ticks. During the counter's first second the figures reset on every frame. | Roll over once more than 1000 ticks have passed since `lasttime`, i.e. `ticks - lasttime > 1000`. | not executed | Fps.BackgroundAsWritten, Fps.RollsOverWithinFirstSecond | Fps.Background, Fps.ShowsWindowCount |
