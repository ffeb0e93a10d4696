/**
 * `game_status_chain`, the step of the client's connection sequence the main
 * loop runs once per frame while not playing, and the part of the main loop
 * around it: the shutdown check and the periodic keepalive.
 *
 * Everything the chain does to the outside world is recorded as a list of
 * actions; the outcomes it depends on (whether the socket opened, whether
 * the server's certificate matched its address, whether the file listing
 * and the files have been processed) come in as a `World`.
 */
module StatusChain {
  import opened CInt
  import opened Maybe
  import opened Client
  import opened Keepalive
  import opened Options
  import Intro

  /** Why a connection attempt was abandoned; each is reported in red. */
  datatype ConnectError = NoPublicKey | ConnectionFailed | HostNotVerified

  /** What one step does outside the session state, in order. */
  datatype Action =
    | ClearMap
    | MetaserverClear
    | MetaserverAdd(entry: ServerEntry)
    | MetaserverQuery
    | SocketClose
    | EffectStop
    | ResourcesReload
    | Announce(name: string, port: int)             // "Trying server ..."
    | Report(error: ConnectError)
    | SocketOpen(host: string, port: int, secure: bool)
    | SocketThreadStart
    | ClearPlayer
    | SendCryptoHello
    | SendVersion
    | SendKeepalive(id: int)
    | SendSetup
    | RetrieveFilesListing
    | LoadServerFiles(pass: int)

  /** The outcomes of the calls the chain makes into code not modelled here. */
  datatype World = World(
    now: Uint32,              // SDL_GetTicks()
    openSucceeds: bool,       // client_socket_open
    hostVerified: bool,       // metaserver_cert_verify_host
    listingProcessed: bool,   // server_files_listing_processed
    filesProcessed: bool)     // server_files_processed

  datatype Session = Session(
    state: PlayerState,
    selected: Option<Server>, // selected_server
    socketOpen: bool,         // csocket.sc != NULL
    keepalive: Tracker)

  datatype Step = Step(session: Session, actions: seq<Action>, ret: int)

  /** The states in which the chain reads the selected server. */
  predicate NeedsServer(st: PlayerState) {
    st == StartConnect || st == Connect
  }

  /** The entries a rebuilt server list receives: localhost, then one per `--server` option. */
  function ListEntries(servers: seq<string>): (es: seq<ServerEntry>)
    ensures |es| == |servers| + 1 && es[0] == LocalhostEntry
    ensures forall i :: 0 <= i < |servers| ==> es[i + 1] == ServerOption(servers[i])
  {
    var options := OptionEntries(servers);
    var es := [LocalhostEntry] + options;
    assert forall i :: 0 <= i < |servers| ==> es[i + 1] == options[i];
    es
  }

  /** One entry per `--server` option, in order. */
  function OptionEntries(servers: seq<string>): (os: seq<ServerEntry>)
    ensures |os| == |servers|
    ensures forall i :: 0 <= i < |servers| ==> os[i] == ServerOption(servers[i])
  {
    seq(|servers|, i requires 0 <= i < |servers| => ServerOption(servers[i]))
  }

  function AddAll(es: seq<ServerEntry>): (acts: seq<Action>)
    ensures |acts| == |es|
    ensures forall i :: 0 <= i < |es| ==> acts[i] == MetaserverAdd(es[i])
  {
    seq(|es|, i requires 0 <= i < |es| => MetaserverAdd(es[i]))
  }

  /**
   * What `ST_META` does: clear the server list, add localhost and then one
   * entry per `--server` option in order, and query the metaserver; nothing
   * else.
   */
  function MetaActions(servers: seq<string>): (acts: seq<Action>)
    ensures |acts| == |servers| + 3
    ensures acts[0] == MetaserverClear && acts[1] == MetaserverAdd(LocalhostEntry)
    ensures forall i :: 0 <= i < |servers| ==> acts[i + 2] == MetaserverAdd(ServerOption(servers[i]))
    ensures acts[|servers| + 2] == MetaserverQuery
    ensures forall a :: a in acts ==> a.MetaserverClear? || a.MetaserverAdd? || a.MetaserverQuery?
  {
    var adds := AddAll(ListEntries(servers));
    var acts := [MetaserverClear] + adds + [MetaserverQuery];
    assert forall i :: 0 <= i < |adds| ==> acts[i + 1] == adds[i];
    acts
  }

  /**
   * `ST_CONNECT`: the crypto port and a secure socket are used whenever the
   * server has crypto; a secure server without a public key, a failed open
   * and a failed address check each abandon the attempt back to `ST_START`.
   */
  function ConnectStep(s: Session, server: Server, w: World): Step {
    var secure := HasCrypto(server);
    var port := ConnectPort(server);
    if secure && PublicKey(server).None? then
      Step(s.(state := Start), [Report(NoPublicKey)], 1)
    else if !w.openSucceeds then
      Step(s.(state := Start, socketOpen := false),
           [SocketOpen(server.hostname, port, secure), Report(ConnectionFailed)], 1)
    else if !w.hostVerified then
      Step(s.(state := Start, socketOpen := true),
           [SocketOpen(server.hostname, port, secure), Report(HostNotVerified)], 1)
    else
      var started := [SocketOpen(server.hostname, port, secure), SocketThreadStart, ClearPlayer];
      if secure then
        Step(s.(state := WaitCrypto, socketOpen := true), started + [SendCryptoHello], 1)
      else
        Step(s.(state := StartData, socketOpen := true), started, 1)
  }

  /**
   * One call of `game_status_chain`; `servers` are the `--server` options and
   * the result is always 1. The keepalive tracker stays consistent.
   */
  function Chain(s: Session, servers: seq<string>, w: World): (r: Step)
    requires NeedsServer(s.state) ==> s.selected.Some?
    ensures r.ret == 1
    ensures Valid(s.keepalive) ==> Valid(r.session.keepalive)
  {
    match s.state
    case Init => Step(s.(state := Meta), [ClearMap], 1)
    case Meta =>
      Step(s.(state := Start),
           MetaActions(servers), 1)
    case Start =>
      var close := if s.socketOpen then [SocketClose] else [];
      Step(s.(state := WaitLoop, socketOpen := false),
           close + [EffectStop, ClearMap, ResourcesReload], 1)
    case StartConnect =>
      var server := s.selected.value;
      Step(s.(state := Connect, keepalive := Reset(w.now)),
           [Announce(server.name, ConnectPort(server))], 1)
    case Connect => ConnectStep(s, s.selected.value, w)
    case StartData =>
      var k := Send(s.keepalive, w.now);
      Step(s.(state := WaitVersion, keepalive := k), [SendVersion, SendKeepalive(k.lastId)], 1)
    case Version => Step(s.(state := WaitSetup), [SendSetup], 1)
    case RequestFilesListing =>
      Step(s.(state := WaitRequestFilesListing), [RetrieveFilesListing, LoadServerFiles(0)], 1)
    case WaitRequestFilesListing =>
      if w.listingProcessed then Step(s.(state := RequestFiles), [], 1) else Step(s, [], 1)
    case RequestFiles =>
      if w.filesProcessed then Step(s.(state := Login), [LoadServerFiles(1)], 1) else Step(s, [], 1)
    case WaitForPlay => Step(s, [ClearMap], 1)
    case _ => Step(s, [], 1)
  }

  // ---------------------------------------------------------------------
  // ST_CONNECT
  // ---------------------------------------------------------------------

  /**
   * The outcome of `ST_CONNECT` in full: the next state is `ST_WAITCRYPTO`
   * exactly for a reachable, verified crypto server with a key,
   * `ST_START_DATA` exactly for a reachable, verified plain server, and
   * `ST_START` in every other case. A socket is opened (on the crypto port,
   * securely, when the server has crypto) unless the key is missing.
   */
  lemma ConnectOutcome(s: Session, w: World)
    requires s.state == Connect && s.selected.Some?
    ensures var server := s.selected.value;
            var r := Chain(s, [], w);
            var reachable := w.openSucceeds && w.hostVerified;
            && (r.session.state == WaitCrypto <==>
                  HasCrypto(server) && PublicKey(server).Some? && reachable)
            && (r.session.state == StartData <==> !HasCrypto(server) && reachable)
            && (r.session.state == Start <==>
                  (HasCrypto(server) && PublicKey(server).None?) || !reachable)
            && (r.session.state in {WaitCrypto, StartData, Start})
            && ((exists a :: a in r.actions && a.SocketOpen?) <==>
                  !(HasCrypto(server) && PublicKey(server).None?))
            && (forall a :: a in r.actions && a.SocketOpen? ==>
                  a == SocketOpen(server.hostname, ConnectPort(server), HasCrypto(server)))
  {
    var server := s.selected.value;
    var r := Chain(s, [], w);
    if !(HasCrypto(server) && PublicKey(server).None?) {
      assert r.actions[0].SocketOpen?;
    }
  }

  /** A server without a public key record is refused before any connection is attempted. */
  lemma NoKeyNoConnection(s: Session, servers: seq<string>, w: World)
    requires s.state == Connect && s.selected.Some?
    requires HasCrypto(s.selected.value) && PublicKey(s.selected.value).None?
    ensures var r := Chain(s, servers, w);
            r.session.state == Start && r.actions == [Report(NoPublicKey)]
            && r.session.socketOpen == s.socketOpen
  {
  }

  /**
   * Only a verified secure connection reaches the crypto handshake: the
   * handshake is sent exactly when the step enters `ST_WAITCRYPTO`, and then
   * the server has a key and the socket is open.
   */
  lemma CryptoOnlyWhenVerified(s: Session, servers: seq<string>, w: World)
    requires NeedsServer(s.state) ==> s.selected.Some?
    ensures var r := Chain(s, servers, w);
            (SendCryptoHello in r.actions <==> r.session.state == WaitCrypto && s.state != WaitCrypto)
            && (SendCryptoHello in r.actions ==>
                  && s.state == Connect
                  && HasCrypto(s.selected.value) && PublicKey(s.selected.value).Some?
                  && w.hostVerified && r.session.socketOpen)
  {
    if s.state == Connect {
      ConnectHello(s, s.selected.value, w);
    } else if s.state != StartConnect {
      NoHelloElsewhere(s, servers, w);
    }
  }

  /** In `ST_CONNECT` the handshake goes out exactly when a keyed crypto server was reached and verified. */
  lemma ConnectHello(s: Session, server: Server, w: World)
    ensures var r := ConnectStep(s, server, w);
            && (SendCryptoHello in r.actions <==> r.session.state == WaitCrypto)
            && (SendCryptoHello in r.actions ==>
                  HasCrypto(server) && PublicKey(server).Some? && w.hostVerified && r.session.socketOpen)
  {
  }

  /** No state but `ST_CONNECT` sends the handshake or enters `ST_WAITCRYPTO`. */
  lemma NoHelloElsewhere(s: Session, servers: seq<string>, w: World)
    requires s.state != Connect && s.state != StartConnect
    ensures var r := Chain(s, servers, w);
            SendCryptoHello !in r.actions && (r.session.state == WaitCrypto ==> s.state == WaitCrypto)
  {
    if s.state == Meta {
      assert Chain(s, servers, w).actions == MetaActions(servers);
    }
  }

  // ---------------------------------------------------------------------
  // The shape of the sequence
  // ---------------------------------------------------------------------

  /** The unconditional one-place advances of the chain. */
  function Successor(st: PlayerState): Option<PlayerState> {
    match st
    case Init => Some(Meta)
    case Meta => Some(Start)
    case Start => Some(WaitLoop)
    case StartConnect => Some(Connect)
    case StartData => Some(WaitVersion)
    case Version => Some(WaitSetup)
    case RequestFilesListing => Some(WaitRequestFilesListing)
    case _ => None
  }

  /** The states whose step depends on an outside outcome. */
  predicate Gated(st: PlayerState) {
    st == Connect || st == WaitRequestFilesListing || st == RequestFiles
  }

  /**
   * A state with a successor moves to it on every call, whatever the outside
   * world does, and that successor is the next state in the enum.
   */
  lemma LinearTransitions(s: Session, servers: seq<string>, w: World)
    requires NeedsServer(s.state) ==> s.selected.Some?
    requires Successor(s.state).Some?
    ensures Chain(s, servers, w).session.state == Successor(s.state).value
    ensures Ord(Successor(s.state).value) == Ord(s.state) + 1
  {
  }

  /**
   * The two waits on the server files advance one place exactly when their
   * processing has finished, and otherwise leave the session as it was.
   */
  lemma FileTransitions(s: Session, servers: seq<string>, w: World)
    requires s.state == WaitRequestFilesListing || s.state == RequestFiles
    ensures var r := Chain(s, servers, w);
            var ready := if s.state == RequestFiles then w.filesProcessed else w.listingProcessed;
            && (ready ==> Ord(r.session.state) == Ord(s.state) + 1)
            && (!ready ==> r.session == s && r.actions == [])
  {
  }

  /**
   * Every state that neither has a successor nor waits on an outcome is left
   * alone: the session is unchanged and nothing but the map clearing of
   * `ST_WAITFORPLAY` happens.
   */
  lemma OtherStatesUnchanged(s: Session, servers: seq<string>, w: World)
    requires Successor(s.state).None? && !Gated(s.state)
    ensures var r := Chain(s, servers, w);
            && r.session == s
            && r.actions == (if s.state == WaitForPlay then [ClearMap] else [])
  {
  }

  /**
   * The chain never jumps backwards except to `ST_START`, which only an
   * abandoned connection attempt returns to, and never skips ahead by more
   * than the one state a plain connection does not need (`ST_WAITCRYPTO`).
   */
  lemma ChainMovesForward(s: Session, servers: seq<string>, w: World)
    requires NeedsServer(s.state) ==> s.selected.Some?
    ensures var t := Chain(s, servers, w).session.state;
            || t == s.state
            || Ord(t) == Ord(s.state) + 1
            || (s.state == Connect && t == StartData && Ord(t) == Ord(s.state) + 2)
            || (s.state == Connect && t == Start)
  {
  }

  // ---------------------------------------------------------------------
  // Keepalive and server list
  // ---------------------------------------------------------------------

  /**
   * The tracker is reset when a connection is started, one probe is sent
   * (and announced with its id) when game data starts, and nothing else in
   * the chain touches it.
   */
  lemma ChainKeepalive(s: Session, servers: seq<string>, w: World)
    requires NeedsServer(s.state) ==> s.selected.Some?
    ensures var r := Chain(s, servers, w);
            && (s.state == StartConnect ==> r.session.keepalive == Reset(w.now))
            && (s.state == StartData ==>
                  && r.session.keepalive == Send(s.keepalive, w.now)
                  && SendKeepalive(s.keepalive.lastId + 1) in r.actions)
            && (s.state != StartConnect && s.state != StartData ==>
                  r.session.keepalive == s.keepalive)
  {
  }

  /** `ST_START` closes a socket exactly when one is open and leaves none open. */
  lemma StartClosesSocket(s: Session, servers: seq<string>, w: World)
    requires s.state == Start
    ensures var r := Chain(s, servers, w);
            && !r.session.socketOpen && r.session.state == WaitLoop
            && (SocketClose in r.actions <==> s.socketOpen)
  {
  }

  // ---------------------------------------------------------------------
  // The main loop around the chain
  // ---------------------------------------------------------------------

  /** Two minutes in ticks: the interval between keepalives while connected. */
  const KeepaliveInterval: int := 2 * 60 * 1000

  /**
   * One pass of the main loop's connection handling: a shut-down socket sends
   * the client back to `ST_START` (unless a connection is just being
   * started) and ends the pass; otherwise a connected client sends a
   * keepalive when more than two minutes have passed since the last one, and
   * a client not yet playing runs one step of the chain.
   */
  function LoopStep(s: Session, shutdown: bool, servers: seq<string>, w: World): (r: Step)
    requires NeedsServer(s.state) ==> s.selected.Some?
    ensures Valid(s.keepalive) ==> Valid(r.session.keepalive)
  {
    if shutdown then
      Step(if s.state != StartConnect then s.(state := Start) else s, [], 1)
    else
      var due := IsConnected(s.state) && Sub32(w.now, s.keepalive.lastSent) > KeepaliveInterval;
      var k := if due then Send(s.keepalive, w.now) else s.keepalive;
      var ping := if due then [SendKeepalive(k.lastId)] else [];
      var s1 := s.(keepalive := k);
      if RunsChain(s1.state) then
        var r := Chain(s1, servers, w);
        Step(r.session, ping + r.actions, r.ret)
      else
        Step(s1, ping, 1)
  }

  /**
   * A keepalive goes out from the main loop exactly when the client is
   * connected and more than two minutes (measured across tick wrap-around)
   * have passed since the last one; a shutdown never interrupts
   * `ST_STARTCONNECT` and otherwise always leads back to `ST_START`.
   */
  lemma LoopKeepalive(s: Session, shutdown: bool, servers: seq<string>, w: World)
    requires NeedsServer(s.state) ==> s.selected.Some?
    ensures var r := LoopStep(s, shutdown, servers, w);
            && (shutdown ==> r.session.state == (if s.state == StartConnect then StartConnect else Start)
                             && r.actions == [])
            && (!shutdown && IsConnected(s.state) ==>
                  (|r.actions| > 0 && r.actions[0] == SendKeepalive(s.keepalive.lastId + 1)
                   <==> Sub32(w.now, s.keepalive.lastSent) > KeepaliveInterval))
  {
    var r := LoopStep(s, shutdown, servers, w);
    if !shutdown && IsConnected(s.state) && Sub32(w.now, s.keepalive.lastSent) <= KeepaliveInterval {
      assert r.actions == Chain(s, servers, w).actions;
      NoLeadingKeepalive(s, servers, w);
    }
  }

  /** No step of the chain starts with a keepalive; the one in `ST_START_DATA` follows the version. */
  lemma NoLeadingKeepalive(s: Session, servers: seq<string>, w: World)
    requires NeedsServer(s.state) ==> s.selected.Some?
    ensures var acts := Chain(s, servers, w).actions;
            |acts| > 0 ==> !acts[0].SendKeepalive?
  {
  }

  /**
   * The Refresh button of the server list: with no metaserver query in
   * flight, the next chain step rebuilds the list and moves on to
   * `ST_START`; with one in flight, the state and so the next step are as
   * they were.
   */
  lemma RefreshRebuildsList(s: Session, querying: bool, servers: seq<string>, w: World)
    requires NeedsServer(s.state) ==> s.selected.Some?
    ensures var next := Intro.Refresh(s.state, querying);
            && (!querying ==> IsIdle(next) && Chain(s.(state := next), servers, w) == Step(s.(state := Start), MetaActions(servers), 1))
            && (querying ==> Chain(s.(state := next), servers, w) == Chain(s, servers, w))
  {
  }
}
