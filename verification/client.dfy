/**
 * The client-wide declarations the connection logic rests on: the ordered
 * player states, the server list entries with their certificate
 * information, and the rule that picks a server's public key.
 */
module Client {
  import opened Maybe

  /** The connection states, in declaration order (the C enum's values 0..18). */
  datatype PlayerState =
    | Init                     // just initialised the client
    | Meta                     // re-download the metaserver list
    | Start                    // close an open socket, prepare for connection
    | WaitLoop                 // waiting for a server to be selected
    | StartConnect             // a server was selected: start connecting
    | Connect                  // open the connection
    | WaitCrypto               // wait for the crypto handshake
    | StartData                // start sending game data
    | WaitVersion              // wait for the server's version
    | Version                  // server version received
    | WaitSetup                // wait for the setup command
    | RequestFilesListing      // request the server files listing
    | WaitRequestFilesListing  // wait for the listing request to complete
    | RequestFiles             // request server files as necessary
    | Login                    // choosing the account
    | WaitLogin                // waiting for the login response
    | Characters               // choosing the character
    | WaitForPlay              // waiting for the data needed to play
    | Play                     // playing

  /** The integer value of a state in the C enum. */
  function Ord(s: PlayerState): nat {
    match s
    case Init => 0
    case Meta => 1
    case Start => 2
    case WaitLoop => 3
    case StartConnect => 4
    case Connect => 5
    case WaitCrypto => 6
    case StartData => 7
    case WaitVersion => 8
    case Version => 9
    case WaitSetup => 10
    case RequestFilesListing => 11
    case WaitRequestFilesListing => 12
    case RequestFiles => 13
    case Login => 14
    case WaitLogin => 15
    case Characters => 16
    case WaitForPlay => 17
    case Play => 18
  }

  /** The states in the order they are declared. */
  const AllStates: seq<PlayerState> := [
    Init, Meta, Start, WaitLoop, StartConnect, Connect, WaitCrypto, StartData,
    WaitVersion, Version, WaitSetup, RequestFilesListing, WaitRequestFilesListing,
    RequestFiles, Login, WaitLogin, Characters, WaitForPlay, Play]

  predicate Before(a: PlayerState, b: PlayerState) {
    Ord(a) < Ord(b)
  }

  /**
   * The enum is strictly ordered in declaration order, so comparisons such
   * as `state > ST_CONNECT` mean "further along the connection sequence",
   * and distinct states have distinct values.
   */
  lemma StatesStrictlyOrdered()
    ensures |AllStates| == 19
    ensures forall i :: 0 <= i < |AllStates| ==> Ord(AllStates[i]) == i
    ensures forall i, j :: 0 <= i < j < |AllStates| ==> Before(AllStates[i], AllStates[j])
    ensures forall s: PlayerState :: s in AllStates
    ensures forall a: PlayerState, b: PlayerState :: Ord(a) == Ord(b) ==> a == b
  {
    forall s: PlayerState
      ensures s in AllStates
    {
      assert AllStates[Ord(s)] == s;
    }
  }

  /** The main loop walks the connection chain in every state but `ST_PLAY`. */
  predicate RunsChain(s: PlayerState) {
    s != Play
  }

  /** `cpl.state <= ST_WAITFORPLAY`: the intro screen is drawn. */
  predicate ShowsIntro(s: PlayerState) {
    Ord(s) <= Ord(WaitForPlay)
  }

  /** `cpl.state > ST_CONNECT`: a connection is up, keepalives are due and packets are read. */
  predicate IsConnected(s: PlayerState) {
    Ord(s) > Ord(Connect)
  }

  /** `cpl.state < ST_STARTCONNECT`: no connection attempt is under way. */
  predicate IsIdle(s: PlayerState) {
    Ord(s) < Ord(StartConnect)
  }

  /**
   * Because `ST_PLAY` is the largest state, the intro screen is shown exactly
   * when the chain runs; idle states are exactly the four before a server is
   * chosen, and connected states are those after `ST_CONNECT`.
   */
  lemma MainLoopGates(s: PlayerState)
    ensures ShowsIntro(s) <==> RunsChain(s)
    ensures IsIdle(s) <==> s in {Init, Meta, Start, WaitLoop}
    ensures IsConnected(s) <==> !IsIdle(s) && s != StartConnect && s != Connect
  {
  }

  // ---------------------------------------------------------------------
  // Server list entries
  // ---------------------------------------------------------------------

  /** `server_cert_info_t`: the parsed certificate; either IP address may be absent. */
  datatype CertInfo = CertInfo(
    name: string,
    hostname: string,
    port: int,
    portCrypto: int,
    ipv4: Option<string>,
    ipv6: Option<string>,
    pubkey: Option<string>)

  /** `server_struct`: one entry of the server list. */
  datatype Server = Server(
    name: string,
    hostname: string,
    version: string,
    desc: string,
    player: int,          // players online, negative when unknown
    port: int,
    portCrypto: int,      // -1 when crypto is disabled
    certPubkey: Option<string>,
    cert: Option<string>,
    certInfo: Option<CertInfo>,
    isMeta: bool)         // learned from the metaserver

  /** The crypto port value that means "crypto disabled"; no other value does. */
  const CryptoDisabled: int := -1

  predicate HasCrypto(s: Server) {
    s.portCrypto != CryptoDisabled
  }

  /** The port a connection to `s` uses: the crypto port whenever crypto is enabled. */
  function ConnectPort(s: Server): (port: int)
    ensures HasCrypto(s) ==> port == s.portCrypto
    ensures !HasCrypto(s) ==> port == s.port
  {
    if s.portCrypto != -1 then s.portCrypto else s.port
  }

  /**
   * `METASERVER_GET_PUBKEY`: the certificate's key whenever a parsed
   * certificate exists, even when that key is absent, and the entry's own
   * key otherwise.
   */
  function PublicKey(s: Server): (key: Option<string>)
    ensures s.certInfo.Some? ==> key == s.certInfo.value.pubkey
    ensures s.certInfo.None? ==> key == s.certPubkey
  {
    match s.certInfo
    case Some(info) => info.pubkey
    case None => s.certPubkey
  }

  /** A certificate without a key hides the entry's own key: the server then has no key at all. */
  lemma CertificateShadowsPubkey(s: Server)
    requires s.certInfo.Some? && s.certInfo.value.pubkey.None?
    ensures PublicKey(s).None?
  {
  }
}
