/**
 * The two command-line options the connection logic consumes: `--server`
 * entries ("host port crypto_port"), turned into server list entries when
 * the list is rebuilt, and `--connect` ("server:account:password:character"),
 * which fills the auto-connect settings.
 */
module Options {
  import opened Maybe
  import opened Text

  /** The port used when none is given. */
  const DefaultPort: int := 1728

  /** The arguments of one `metaserver_add` call. */
  datatype ServerEntry = ServerEntry(
    hostname: string,
    port: int,
    portCrypto: int,
    name: string,
    version: string,
    desc: string)

  /** The entry always put first in the rebuilt list. */
  const LocalhostEntry: ServerEntry :=
    ServerEntry("localhost", DefaultPort, -1, "Localhost", "local",
                "Localhost. Start server before you try to connect.")

  /**
   * One `--server` option: the first three space-separated words are the
   * host, the port and the crypto port; a port that reads as 0 (absent or not
   * a number) becomes 1728, and a crypto port that reads as 0 becomes -1,
   * "crypto disabled". The host doubles as the entry's name.
   */
  function ServerOption(arg: string): (e: ServerEntry)
    ensures e.name == e.hostname
    ensures e.port != 0 && e.portCrypto != 0
  {
    var host := WordAt(arg, ' ', 0);
    var port := Atoi(WordAt(arg, ' ', 1));
    var portCrypto := Atoi(WordAt(arg, ' ', 2));
    ServerEntry(host,
                if port != 0 then port else DefaultPort,
                if portCrypto != 0 then portCrypto else -1,
                host,
                "user server",
                "Server from command line --server option.")
  }

  /** A fully written `--server host port crypto` option yields exactly those values. */
  lemma ServerOptionRoundTrip(host: string, port: int, portCrypto: int)
    requires IsWord(host, ' ')
    requires port != 0 && portCrypto != 0
    ensures var e := ServerOption(host + " " + Itoa(port) + " " + Itoa(portCrypto));
            e.hostname == host && e.name == host && e.port == port && e.portCrypto == portCrypto
  {
    var ws := [host, Itoa(port), Itoa(portCrypto)];
    ItoaIsWord(port);
    ItoaIsWord(portCrypto);
    assert AllWords(ws[2..], ' ') by { assert ws[2..][1..] == []; }
    assert AllWords(ws[1..], ' ') by { assert ws[1..][1..] == ws[2..]; }
    assert AllWords(ws, ' ');
    assert JoinWords(ws, ' ') == host + " " + Itoa(port) + " " + Itoa(portCrypto) by {
      assert ws[1..] == [Itoa(port), Itoa(portCrypto)];
      assert ws[1..][1..] == [Itoa(portCrypto)];
      assert JoinWords(ws[1..], ' ') == Itoa(port) + " " + Itoa(portCrypto);
      assert JoinWords(ws, ' ') == host + " " + (Itoa(port) + " " + Itoa(portCrypto));
    }
    WordsOfJoin(ws, ' ');
    AtoiItoa(port);
    AtoiItoa(portCrypto);
  }

  /** A `--server` option naming only a host gets the default port and no crypto. */
  lemma ServerOptionDefaults(host: string)
    requires IsWord(host, ' ')
    ensures var e := ServerOption(host);
            e.hostname == host && e.port == DefaultPort && e.portCrypto == -1
  {
    WordAtOneWord(host);
    AtoiEmpty();
  }

  lemma ItoaIsWord(n: int)
    ensures IsWord(Itoa(n), ' ')
  {
    var s := Itoa(n);
    if n < 0 {
      assert forall i :: 1 <= i < |s| ==> IsDigit(s[i]);
    } else {
      assert forall i :: 0 <= i < |s| ==> IsDigit(s[i]);
    }
  }

  // ---------------------------------------------------------------------
  // --connect
  // ---------------------------------------------------------------------

  /** Number of `--connect` fields: server, account, password, character. */
  const ConnectFields: nat := 4

  /**
   * `clioptions_option_connect`: the argument is split at ':' into at most
   * four fields; every non-empty field replaces the setting at its position
   * and an empty field leaves that setting as it was.
   */
  function ConnectOption(connect: seq<Option<string>>, arg: string): (r: seq<Option<string>>)
    requires |connect| == ConnectFields
    ensures |r| == ConnectFields
    ensures arg == "" ==> r == connect
    ensures forall i :: 0 <= i < ConnectFields && r[i] != connect[i] ==> r[i].Some? && r[i].value != ""
  {
    var fs := Split(arg, ':', ConnectFields);
    seq(ConnectFields, i requires 0 <= i < ConnectFields =>
      if i < |fs| && fs[i] != "" then Some(fs[i]) else connect[i])
  }

  /**
   * Writing the four fields out with ':' between them sets exactly the
   * non-empty ones; the last field may itself contain ':'.
   */
  lemma ConnectOptionRoundTrip(connect: seq<Option<string>>, fields: seq<string>)
    requires |connect| == ConnectFields && |fields| == ConnectFields
    requires forall i :: 0 <= i < ConnectFields - 1 ==> Lacks(fields[i], ':')
    ensures var r := ConnectOption(connect, Join(fields, ':'));
            forall i :: 0 <= i < ConnectFields ==>
              r[i] == if fields[i] != "" then Some(fields[i]) else connect[i]
  {
    assert FieldsShape(fields[3..], ':', 1);
    assert fields[2..][1..] == fields[3..];
    assert FieldsShape(fields[2..], ':', 2);
    assert fields[1..][1..] == fields[2..];
    assert FieldsShape(fields[1..], ':', 3);
    assert FieldsShape(fields, ':', 4);
    FieldsOfJoin(fields, ':', ConnectFields);
    JoinLength(fields, ':');
  }

  /** An argument with no ':' at all only names the server. */
  lemma ConnectOptionServerOnly(connect: seq<Option<string>>, server: string)
    requires |connect| == ConnectFields
    requires |server| > 0 && ':' !in server
    ensures ConnectOption(connect, server) == [Some(server)] + connect[1..]
  {
  }
}
