/**
 * The rules of the intro screen's server list: turning a server's dotted
 * version string into a number and gating connections on it, the colour
 * that tells how far a metaserver entry can be trusted, the Port and
 * Players columns, the auto-connect of `--connect`, and the Refresh button.
 */
module Intro {
  import opened CInt
  import opened Maybe
  import opened Text
  import opened Client

  // ---------------------------------------------------------------------
  // Version numbers
  // ---------------------------------------------------------------------

  /** `SERVER_VERSION`: the minimum version, least significant component first. */
  const ServerVersion: int := 0x04

  /** The components `ServerVersion` stands for: version 4. */
  const MinComponents: seq<int> := [4]

  function Pow256(i: nat): (p: nat)
    ensures p >= 1
  {
    if i == 0 then 1 else 256 * Pow256(i - 1)
  }

  /** `atoi` of each word. */
  function AtoiAll(ws: seq<string>): (ns: seq<int>)
    ensures |ns| == |ws|
    ensures forall i :: 0 <= i < |ws| ==> ns[i] == Atoi(ws[i])
  {
    if |ws| == 0 then [] else [Atoi(ws[0])] + AtoiAll(ws[1..])
  }

  /** The numbers read from the dot-separated parts of a version string. */
  function Components(version: string): (cs: seq<int>)
    ensures |cs| == |Words(version, '.')|
  {
    AtoiAll(Words(version, '.'))
  }

  /** Component `i` weighted by `256^i` (`<< (i * CHAR_BIT)`), summed, first component lowest. */
  function Pack(cs: seq<int>): int {
    if |cs| == 0 then 0 else cs[0] + 256 * Pack(cs[1..])
  }

  /** The bytes of `v`, lowest first, as many as asked for. */
  function Unpack(v: nat, n: nat): (cs: seq<int>)
    ensures |cs| == n
  {
    if n == 0 then [] else [v % 256] + Unpack(v / 256, n - 1)
  }

  predicate IsByte(c: int) {
    0 <= c < 256
  }

  predicate AllBytes(cs: seq<int>) {
    forall i :: 0 <= i < |cs| ==> IsByte(cs[i])
  }

  /** The `uint32_t` the version loop of `list_handle_enter` accumulates. */
  function VersionNumberOf(version: string): Uint32 {
    Wrap32(Pack(Components(version)))
  }

  lemma {:induction false} PackSnoc(cs: seq<int>, c: int)
    ensures Pack(cs + [c]) == Pack(cs) + c * Pow256(|cs|)
  {
    if |cs| > 0 {
      assert (cs + [c])[1..] == cs[1..] + [c];
      PackSnoc(cs[1..], c);
    }
  }

  /**
   * The version loop of `list_handle_enter`: each component, shifted into
   * its byte, is added to a `uint32_t` accumulator that starts at 0.
   */
  method AccumulateVersion(cs: seq<int>) returns (v: Uint32)
    ensures v == Wrap32(Pack(cs))
  {
    v := 0;
    var i := 0;
    while i < |cs|
      invariant 0 <= i <= |cs|
      invariant v == Wrap32(Pack(cs[..i]))
    {
      var term := cs[i] * Pow256(i);
      PackSnoc(cs[..i], cs[i]);
      assert cs[..i + 1] == cs[..i] + [cs[i]];
      WrapAdd(Pack(cs[..i]), term);
      v := Add32(v, term);
      i := i + 1;
    }
    assert cs[..|cs|] == cs;
  }

  /** Up to four byte-sized components fit in the number without overlapping. */
  lemma {:induction false} PackBounds(cs: seq<int>)
    requires AllBytes(cs)
    ensures 0 <= Pack(cs) < Pow256(|cs|)
  {
    if |cs| > 0 {
      PackBounds(cs[1..]);
    }
  }

  /**
   * For up to four components of one byte each the version number is an
   * exact encoding: its bytes give the components back.
   */
  lemma {:induction false} UnpackPack(cs: seq<int>)
    requires AllBytes(cs)
    ensures Pack(cs) >= 0 && Unpack(Pack(cs), |cs|) == cs
  {
    PackBounds(cs);
    if |cs| > 0 {
      var rest := cs[1..];
      UnpackPack(rest);
      PackBounds(rest);
      assert Pack(cs) % 256 == cs[0] && Pack(cs) / 256 == Pack(rest);
    }
  }

  lemma FourBytesFit(cs: seq<int>)
    requires AllBytes(cs) && |cs| <= 4
    ensures Wrap32(Pack(cs)) == Pack(cs)
  {
    PackBounds(cs);
    assert Pow256(4) == Two32;
    PowMonotone(|cs|, 4);
  }

  lemma {:induction false} PowMonotone(i: nat, j: nat)
    requires i <= j
    ensures Pow256(i) <= Pow256(j)
  {
    if i < j {
      PowMonotone(i, j - 1);
    }
  }

  /** The gate as written: a non-zero number below `SERVER_VERSION` is refused. */
  predicate AcceptedAsWritten(v: Uint32) {
    !(v != 0 && v < ServerVersion)
  }

  /** A component, reading a missing one as 0. */
  function ComponentAt(cs: seq<int>, i: nat): int {
    if i < |cs| then cs[i] else 0
  }

  /**
   * Version `a` is older than version `b`: the first component where they
   * differ (missing components reading as 0) is smaller in `a`.
   */
  predicate OlderThan(a: seq<int>, b: seq<int>)
    decreases |a| + |b|
  {
    if |a| == 0 && |b| == 0 then false
    else
      var x := ComponentAt(a, 0);
      var y := ComponentAt(b, 0);
      x < y || (x == y && OlderThan(if |a| > 0 then a[1..] else [], if |b| > 0 then b[1..] else []))
  }

  /** Every component is zero: the number the loop builds is then 0, "version unknown". */
  predicate AllZero(cs: seq<int>) {
    forall i :: 0 <= i < |cs| ==> cs[i] == 0
  }

  /**
   * The gate as intended: a version whose components are all zero is let
   * through as unknown, any other must not be older than version 4.
   */
  predicate Accepted(cs: seq<int>) {
    AllZero(cs) || !OlderThan(cs, MinComponents)
  }

  /** The minimum components are what `SERVER_VERSION` encodes. */
  lemma MinComponentsEncodeServerVersion()
    ensures Pack(MinComponents) == ServerVersion
    ensures Unpack(ServerVersion, 1) == MinComponents
  {
    assert MinComponents[1..] == [];
  }

  /** No version is older than itself. */
  lemma {:induction false} OlderThanIrreflexive(a: seq<int>)
    ensures !OlderThan(a, a)
    decreases |a|
  {
    if |a| > 0 {
      OlderThanIrreflexive(a[1..]);
    }
  }

  /** Trailing zero components do not change a comparison: "4" and "4.0" are the same version. */
  lemma {:induction false} OlderThanTrailingZero(a: seq<int>, b: seq<int>)
    ensures OlderThan(a + [0], b) == OlderThan(a, b)
    decreases |a| + |b|
  {
    if |a| == 0 {
      assert [0][1..] == [];
      ZeroAgainst(b);
    } else {
      assert (a + [0])[1..] == a[1..] + [0];
      OlderThanTrailingZero(a[1..], if |b| > 0 then b[1..] else []);
    }
  }

  /** A single zero component compares like no component at all. */
  lemma ZeroAgainst(b: seq<int>)
    ensures OlderThan([0], b) == OlderThan([], b)
  {
    assert [0][1..] == [];
  }

  /**
   * For a one-component version the two gates agree: the byte-reversed
   * number is then the component itself.
   */
  lemma GatesAgreeOnOneComponent(c: int)
    requires IsByte(c)
    ensures AcceptedAsWritten(Wrap32(Pack([c]))) <==> Accepted([c])
  {
    assert [c][1..] == [];
    assert MinComponents[1..] == [];
  }

  // ---------------------------------------------------------------------
  // list_handle_enter
  // ---------------------------------------------------------------------

  /** `server_get_id`: the entry at a position of the list, if there is one. */
  function ServerAt(servers: seq<Server>, id: int): (s: Option<Server>)
    ensures s.Some? <==> 0 <= id < |servers|
    ensures s.Some? ==> s.value == servers[id]
  {
    if 0 <= id < |servers| then Some(servers[id]) else None
  }

  datatype EnterOutcome = NoServer | Outdated | StartLogin

  datatype Enter = Enter(selected: Option<Server>, outcome: EnterOutcome)

  /**
   * Enter (or Play) on the server list with the corrected gate: the server
   * on the selected row (rows count from 1) becomes the selected server;
   * without one nothing else happens, an outdated one is refused, and any
   * other starts the login.
   */
  function HandleEnter(servers: seq<Server>, rowSelected: int): (e: Enter)
    ensures e.selected == ServerAt(servers, rowSelected - 1)
    ensures e.outcome == NoServer <==> e.selected.None?
    ensures e.selected.Some? ==>
              (e.outcome == StartLogin <==> Accepted(Components(e.selected.value.version)))
  {
    match ServerAt(servers, rowSelected - 1)
    case None => Enter(None, NoServer)
    case Some(server) =>
      if Accepted(Components(server.version)) then Enter(Some(server), StartLogin)
      else Enter(Some(server), Outdated)
  }

  /** `list_handle_enter` as written, gating on the byte-reversed number. */
  function HandleEnterAsWritten(servers: seq<Server>, rowSelected: int): (e: Enter)
    ensures e.selected == ServerAt(servers, rowSelected - 1)
    ensures e.outcome == NoServer <==> e.selected.None?
    ensures e.selected.Some? ==>
              (e.outcome == StartLogin <==> AcceptedAsWritten(VersionNumberOf(e.selected.value.version)))
  {
    match ServerAt(servers, rowSelected - 1)
    case None => Enter(None, NoServer)
    case Some(server) =>
      if AcceptedAsWritten(VersionNumberOf(server.version)) then Enter(Some(server), StartLogin)
      else Enter(Some(server), Outdated)
  }

  /** Numbers in decimal, one word each. */
  function Decimals(ns: seq<int>): (ws: seq<string>)
    ensures |ws| == |ns|
    ensures forall i :: 0 <= i < |ns| ==> ws[i] == Itoa(ns[i])
    ensures AllWords(ws, '.')
  {
    if |ns| == 0 then []
    else
      var rest := Decimals(ns[1..]);
      ItoaHasNoDot(ns[0]);
      assert ([Itoa(ns[0])] + rest)[1..] == rest;
      [Itoa(ns[0])] + rest
  }

  /** A version written as dot-separated numbers reads back as those numbers. */
  lemma ComponentsOfNumbers(ns: seq<int>)
    ensures Components(JoinWords(Decimals(ns), '.')) == ns
  {
    WordsOfJoin(Decimals(ns), '.');
    AtoiAllDecimals(ns);
  }

  lemma {:induction false} AtoiAllDecimals(ns: seq<int>)
    ensures AtoiAll(Decimals(ns)) == ns
  {
    if |ns| > 0 {
      AtoiAllDecimals(ns[1..]);
      AtoiItoa(ns[0]);
      assert Decimals(ns)[1..] == Decimals(ns[1..]);
    }
  }

  lemma ItoaHasNoDot(n: int)
    ensures IsWord(Itoa(n), '.')
  {
    var s := Itoa(n);
    if n < 0 {
      assert forall i :: 1 <= i < |s| ==> IsDigit(s[i]);
    } else {
      assert forall i :: 0 <= i < |s| ==> IsDigit(s[i]);
    }
  }

  /**
   * A server reporting a version such as 3.9 (major below 4, a non-zero
   * minor) is older than the required version 4, yet the number the loop
   * builds for it, major + minor * 256 (2307 for 3.9), is not below 4: the
   * gate as written starts the login where the intended gate refuses.
   */
  lemma OutdatedServerAccepted(servers: seq<Server>, major: int, minor: int)
    requires 0 <= major < 4 && 1 <= minor < 256
    requires |servers| > 0 && servers[0].version == JoinWords(Decimals([major, minor]), '.')
    ensures HandleEnterAsWritten(servers, 1).outcome == StartLogin
    ensures HandleEnter(servers, 1).outcome == Outdated
  {
    var cs := [major, minor];
    ComponentsOfNumbers(cs);
    MinorVersionGates(major, minor);
    assert Components(servers[0].version) == cs;
  }

  /** The two gates on a two-component version with a major below 4 and a non-zero minor. */
  lemma MinorVersionGates(major: int, minor: int)
    requires 0 <= major < 4 && 1 <= minor < 256
    ensures AcceptedAsWritten(Wrap32(Pack([major, minor])))
    ensures !Accepted([major, minor])
  {
    var cs := [major, minor];
    assert cs[1..] == [minor];
    assert cs[1..][1..] == [];
    assert Pack(cs[1..][1..]) == 0;
    assert Pack(cs[1..]) == minor;
    assert Pack(cs) == major + 256 * minor;
    assert cs[1] != 0;
    assert MinComponents[1..] == [];
    assert OlderThan(cs, MinComponents);
  }

  /**
   * With the corrected gate, exactly versions not older than 4 (and those
   * whose components are all zero) start the login, whatever their number
   * of components.
   */
  lemma HandleEnterGate(servers: seq<Server>, rowSelected: int, cs: seq<int>)
    requires 1 <= rowSelected <= |servers|
    requires Components(servers[rowSelected - 1].version) == cs
    ensures HandleEnter(servers, rowSelected).outcome == StartLogin <==> AllZero(cs) || !OlderThan(cs, [4])
    ensures HandleEnter(servers, rowSelected).selected == Some(servers[rowSelected - 1])
  {
  }

  // ---------------------------------------------------------------------
  // Trust colours
  // ---------------------------------------------------------------------

  datatype Color = Gray | Yellow | Green | Orange

  /** Both addresses are in the certificate, so the address a server resolves to can be checked. */
  predicate CertHasBothAddresses(info: CertInfo) {
    info.ipv4.Some? && info.ipv6.Some?
  }

  /**
   * `list_text_color`: entries typed in by the user keep the list's colour
   * (`None`); metaserver entries are gray unless they have crypto, and then
   * green with a certificate naming both addresses, yellow with a
   * certificate missing one, orange with only a public key.
   */
  function TrustColor(s: Server): (c: Option<Color>)
    ensures c.None? <==> !s.isMeta
    ensures c == Some(Green) <==> s.isMeta && HasCrypto(s) && s.certInfo.Some? && CertHasBothAddresses(s.certInfo.value)
    ensures c == Some(Yellow) <==> s.isMeta && HasCrypto(s) && s.certInfo.Some? && !CertHasBothAddresses(s.certInfo.value)
    ensures c == Some(Orange) <==> s.isMeta && HasCrypto(s) && s.certInfo.None? && s.certPubkey.Some?
    ensures c == Some(Gray) <==> s.isMeta && (!HasCrypto(s) || (s.certInfo.None? && s.certPubkey.None?))
  {
    if !s.isMeta then None
    else if !HasCrypto(s) then Some(Gray)
    else match s.certInfo
      case Some(info) =>
        if info.ipv4.None? || info.ipv6.None? then Some(Yellow) else Some(Green)
      case None =>
        if s.certPubkey.Some? then Some(Orange) else Some(Gray)
  }

  /**
   * What the colour says about connecting: a gray metaserver entry with a
   * crypto port has no public key at all (so `ST_CONNECT` refuses it), an
   * orange one connects with its own key, and a green or yellow one with the
   * certificate's key, whatever key the entry itself carries.
   */
  lemma ColorAndPublicKey(s: Server)
    requires s.isMeta && HasCrypto(s)
    ensures TrustColor(s) == Some(Gray) ==> PublicKey(s).None?
    ensures TrustColor(s) == Some(Orange) ==> PublicKey(s) == s.certPubkey && PublicKey(s).Some?
    ensures TrustColor(s) in {Some(Green), Some(Yellow)} ==> PublicKey(s) == s.certInfo.value.pubkey
  {
  }

  // ---------------------------------------------------------------------
  // Server list columns
  // ---------------------------------------------------------------------

  /** The Port column: the port a connection would use, in decimal. */
  function PortColumn(s: Server): (text: string)
    ensures |text| > 0
  {
    Itoa(ConnectPort(s))
  }

  /** The Players column: the count in decimal, or "-" when it is unknown. */
  function PlayersColumn(s: Server): (text: string)
    ensures |text| > 0
  {
    if s.player >= 0 then Itoa(s.player) else "-"
  }

  /**
   * Reading the columns back gives the connection port, and the player count
   * exactly when it is known: "-" shows for a negative count and for nothing
   * else.
   */
  lemma ColumnsReadBack(s: Server)
    ensures Atoi(PortColumn(s)) == (if HasCrypto(s) then s.portCrypto else s.port)
    ensures PlayersColumn(s) == "-" <==> s.player < 0
    ensures s.player >= 0 ==> Atoi(PlayersColumn(s)) == s.player
  {
    AtoiItoa(ConnectPort(s));
    if s.player >= 0 {
      AtoiItoa(s.player);
      assert |Itoa(s.player)| == 1 ==> IsDigit(Itoa(s.player)[0]);
    }
  }

  // ---------------------------------------------------------------------
  // Auto-connect and refresh
  // ---------------------------------------------------------------------

  /** The position of the first entry whose name equals `name`, ignoring case. */
  function FirstMatch(servers: seq<Server>, name: string): (k: Option<nat>)
    ensures k.Some? ==> k.value < |servers| && CaseEqual(name, servers[k.value].name)
    ensures k.Some? ==> forall j :: 0 <= j < k.value ==> !CaseEqual(name, servers[j].name)
    ensures k.None? ==> forall j :: 0 <= j < |servers| ==> !CaseEqual(name, servers[j].name)
  {
    if |servers| == 0 then None
    else if CaseEqual(name, servers[0].name) then Some(0)
    else match FirstMatch(servers[1..], name)
      case None => None
      case Some(k) => Some(k + 1)
  }

  datatype AutoConnect = AutoConnect(rowSelected: int, connectServer: Option<string>, pressEnter: bool)

  /**
   * The auto-connect at the end of `intro_show`: while no connection is
   * under way and a server was named with `--connect`, the first entry with
   * that name (ignoring case) is selected and Enter is pressed for it; the
   * name is then forgotten unless reconnecting is on. Without a match
   * nothing changes.
   */
  function AutoConnectStep(state: PlayerState, servers: seq<Server>, rowSelected: int,
                           connectServer: Option<string>, reconnect: bool): (a: AutoConnect)
    ensures a.pressEnter ==> IsIdle(state) && connectServer.Some?
    ensures !a.pressEnter ==> a == AutoConnect(rowSelected, connectServer, false)
    ensures a.pressEnter ==> a.connectServer == (if reconnect then connectServer else None)
  {
    if connectServer.Some? && IsIdle(state) then
      match FirstMatch(servers, connectServer.value)
      case Some(k) => AutoConnect(k + 1, if reconnect then connectServer else None, true)
      case None => AutoConnect(rowSelected, connectServer, false)
    else AutoConnect(rowSelected, connectServer, false)
  }

  /**
   * The Enter the auto-connect presses selects the first entry named like
   * the `--connect` server; it is pressed exactly when such an entry exists
   * and the client is idle.
   */
  lemma AutoConnectSelectsMatch(state: PlayerState, servers: seq<Server>, rowSelected: int,
                                name: string, reconnect: bool)
    ensures var a := AutoConnectStep(state, servers, rowSelected, Some(name), reconnect);
            && (a.pressEnter <==> IsIdle(state) && exists j :: 0 <= j < |servers| && CaseEqual(name, servers[j].name))
            && (a.pressEnter ==>
                  var sel := ServerAt(servers, a.rowSelected - 1);
                  && sel.Some? && CaseEqual(name, sel.value.name)
                  && forall j :: 0 <= j < a.rowSelected - 1 ==> !CaseEqual(name, servers[j].name))
  {
    if IsIdle(state) {
      match FirstMatch(servers, name)
      case Some(k) =>
        assert ServerAt(servers, k) == Some(servers[k]);
      case None =>
    }
  }

  /**
   * The Refresh button: the list is rebuilt (state `ST_META`) unless a
   * metaserver query is still in flight, in which case nothing changes.
   */
  function Refresh(state: PlayerState, querying: bool): (next: PlayerState)
    ensures querying ==> next == state
    ensures !querying ==> next == Meta && Before(next, StartConnect)
  {
    if !querying then Meta else state
  }
}
