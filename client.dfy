/** The client engine (client/client.go): argument checks and defaults, the dial target, the bounded dial
    retry of `connect`, the bounded FIFO of `NewMsg` and the bounded write retry of `monitorMessages`.
    Dial and write outcomes are oracles; sleeps are returned as their length in seconds. */
module ClientEngine {
  import opened Types
  import opened Seqs
  import opened Text

  /** Port used when the caller passes 0. */
  const DefaultPort := 8080
  /** Dial attempts made by one `connect`. */
  const MaxDials := 5
  /** Write attempts made for one message. */
  const MaxWrites := 5
  /** Capacity of the outbound message channel. */
  const QueueCapacity := 100

  datatype Error =
    | UrlRequired   // "remote K8MQ server url required, eg 'k8mq.default.svc'"
    | NoResponse    // "Remote K8MQ server did not respond", wrapping the last dial error

  /** One `conn.Write(data)` call of the send loop. */
  datatype ConnWrite = ConnWrite(to: WsConn, data: Bytes)

  /** The validated construction arguments. */
  datatype Settings = Settings(serverUrl: string, port: int)

  /** The argument checks of `NewClient`: an empty server URL is an error; port 0 means the default port. */
  function Configure(serverUrl: string, port: int): (r: Result<Settings, Error>)
    ensures r.Failure? <==> serverUrl == ""
    ensures r.Failure? ==> r.error == UrlRequired
    ensures r.Success? ==> r.value.serverUrl == serverUrl && r.value.port != 0
    ensures r.Success? && port != 0 ==> r.value.port == port
    ensures r.Success? && port == 0 ==> r.value.port == DefaultPort
  {
    if |serverUrl| == 0 then Failure(UrlRequired)
    else Success(Settings(serverUrl, if port == 0 then DefaultPort else port))
  }

  /** The dial target `ws://<serverUrl>:<port>/que`. */
  function DialUrl(serverUrl: string, port: int): string {
    "ws://" + (serverUrl + ":" + IntToDecimal(port)) + "/que"
  }

  /** Reads a dial target back into host and port: the port is what follows the last ':'. */
  function ParseDialUrl(url: string): Option<Settings> {
    if |url| >= 9 && url[..5] == "ws://" && url[|url| - 4..] == "/que" then
      var mid := url[5..|url| - 4];
      match LastIndex(mid, ':')
      case None => None
      case Some(k) =>
        match ParseInt(mid[k + 1..])
        case None => None
        case Some(p) => Some(Settings(mid[..k], p))
    else None
  }

  /** The dial target determines the host and the port it was built from. */
  lemma DialUrlRoundTrip(serverUrl: string, port: int)
    ensures ParseDialUrl(DialUrl(serverUrl, port)) == Some(Settings(serverUrl, port))
  {
    var d := IntToDecimal(port);
    forall c | c in d ensures c != ':' {
      IntDecimalChars(port, c);
    }
    IntDecimalRoundTrip(port);
    ParseTarget(serverUrl, d, port);
  }

  /** A target whose port text has no ':' and reads as `port` splits back into host and port. */
  lemma ParseTarget(host: string, d: string, port: int)
    requires ':' !in d && ParseInt(d) == Some(port)
    ensures ParseDialUrl("ws://" + (host + ":" + d) + "/que") == Some(Settings(host, port))
  {
    var mid := host + ":" + d;
    var url := "ws://" + mid + "/que";
    Unwrap(mid);
    SplitAtLastColon(host, d);
    ParseWrapped(url, mid, |host|, port);
  }

  lemma ParseWrapped(url: string, mid: string, k: nat, port: int)
    requires |url| >= 9 && url[..5] == "ws://" && url[|url| - 4..] == "/que" && url[5..|url| - 4] == mid
    requires LastIndex(mid, ':') == Some(k) && ParseInt(mid[k + 1..]) == Some(port)
    ensures ParseDialUrl(url) == Some(Settings(mid[..k], port))
  {
  }

  lemma Unwrap(mid: string)
    ensures var url := "ws://" + mid + "/que";
            |url| >= 9 && url[..5] == "ws://" && url[|url| - 4..] == "/que" && url[5..|url| - 4] == mid
  {
    var url := "ws://" + mid + "/que";
    assert url[..5] == "ws://";
    assert url[|url| - 4..] == "/que";
    assert url[5..|url| - 4] == mid;
  }

  lemma SplitAtLastColon(host: string, d: string)
    requires ':' !in d
    ensures var mid := host + ":" + d;
            LastIndex(mid, ':') == Some(|host|) && mid[..|host|] == host && mid[|host| + 1..] == d
  {
    var mid := host + ":" + d;
    assert mid[|host|] == ':';
    forall k | |host| < k < |mid| ensures mid[k] != ':' {
      assert mid[k] == d[k - |host| - 1];
    }
    var r := LastIndex(mid, ':');
    assert r.Some? && r.value == |host|;
    assert mid[..|host|] == host;
    assert mid[|host| + 1..] == d;
  }

  // ----- exponential backoff -----

  function Pow2(n: nat): (r: nat)
    ensures r >= 1
  {
    if n == 0 then 1 else 2 * Pow2(n - 1)
  }

  /** The sleeps after failed attempts 0 .. n-1: attempt i is followed by 2^i seconds. */
  function Backoffs(n: nat): (d: seq<nat>)
    ensures |d| == n
  {
    seq(n, i requires 0 <= i => Pow2(i))
  }

  function Sum(s: seq<nat>): nat {
    if s == [] then 0 else Sum(s[..|s| - 1]) + s[|s| - 1]
  }

  lemma BackoffsAppend(n: nat)
    ensures Backoffs(n + 1) == Backoffs(n) + [Pow2(n)]
  {
  }

  /** After n failed attempts the engine has slept 2^n - 1 seconds in all. */
  lemma {:induction false} TotalBackoff(n: nat)
    ensures Sum(Backoffs(n)) == Pow2(n) - 1
  {
    if n > 0 {
      TotalBackoff(n - 1);
      BackoffsAppend(n - 1);
      assert Backoffs(n)[..n - 1] == Backoffs(n - 1);
    }
  }

  /** The schedule of a connect or message that fails every attempt: 1, 2, 4, 8 and 16 seconds, 31 in all. */
  lemma FullSchedule()
    ensures Backoffs(MaxDials) == [1, 2, 4, 8, 16] && Backoffs(MaxWrites) == Backoffs(MaxDials)
    ensures Sum(Backoffs(MaxDials)) == 31
  {
    TotalBackoff(MaxDials);
  }

  // ----- bounded retry -----

  /** Index of the first successful attempt among attempts 0 .. n-1, or n when all of them fail. */
  function FirstSuccess(ok: nat -> bool, n: nat): (r: nat)
    ensures r <= n
    ensures forall i :: 0 <= i < r ==> !ok(i)
    ensures r < n ==> ok(r)
  {
    if n == 0 then 0
    else
      var r0 := FirstSuccess(ok, n - 1);
      if r0 < n - 1 then r0 else if ok(n - 1) then n - 1 else n
  }

  /** Dial attempt i of this `connect` to `url` succeeds. */
  function DialSucceeds(dial: (string, nat) -> Option<WsConn>, url: string): nat -> bool {
    (i: nat) => dial(url, i).Some?
  }

  /** A message is delivered when there is a connection and one of its write attempts succeeds. */
  predicate Delivered(connected: bool, ok: nat -> bool) {
    connected && FirstSuccess(ok, MaxWrites) < MaxWrites
  }

  /** Write calls made for one message: none without a connection, else up to and including the first success. */
  function WriteCount(connected: bool, ok: nat -> bool): nat {
    if !connected then 0
    else if FirstSuccess(ok, MaxWrites) < MaxWrites then FirstSuccess(ok, MaxWrites) + 1
    else MaxWrites
  }

  /** Sleeps taken for one message: one after every attempt that did not succeed. */
  function SleepCount(connected: bool, ok: nat -> bool): nat {
    if connected then FirstSuccess(ok, MaxWrites) else MaxWrites
  }

  /** Which messages of a drain are delivered; message k's attempts are `writeOk(k)`. */
  function Outcomes(msgs: seq<Bytes>, connected: bool, writeOk: nat -> (nat -> bool)): (f: seq<bool>)
    ensures |f| == |msgs|
  {
    seq(|msgs|, k requires 0 <= k => Delivered(connected, writeOk(k)))
  }

  /** Messages whose first write succeeds on a stable connection all arrive, each once, in enqueue order. */
  lemma StableConnectionDeliversInOrder(msgs: seq<Bytes>, writeOk: nat -> (nat -> bool))
    requires forall k :: 0 <= k < |msgs| ==> writeOk(k)(0)
    ensures Pick(msgs, Outcomes(msgs, true, writeOk), true) == msgs
    ensures Pick(msgs, Outcomes(msgs, true, writeOk), false) == []
  {
    var f := Outcomes(msgs, true, writeOk);
    forall k | 0 <= k < |f| ensures f[k] {
      assert FirstSuccess(writeOk(k), MaxWrites) == 0;
    }
    PickAll(msgs, f);
  }

  /** Without a connection every message of a drain is logged as undelivered. */
  lemma NoConnectionDeliversNothing(msgs: seq<Bytes>, writeOk: nat -> (nat -> bool))
    ensures Pick(msgs, Outcomes(msgs, false, writeOk), true) == []
    ensures Pick(msgs, Outcomes(msgs, false, writeOk), false) == msgs
  {
    var f := Outcomes(msgs, false, writeOk);
    var g := seq(|f|, k requires 0 <= k < |f| => !f[k]);
    forall k | 0 <= k < |g| ensures g[k] {
      assert !Delivered(false, writeOk(k));
    }
    PickAll(msgs, g);
    PickNegate(msgs, f, g);
  }

  /** The client. `conn` is the current websocket (None while disconnected), `messages` the pending FIFO,
      `failedLog` the messages logged as "couldn't write to the k8mq server". */
  class Client {
    const serverUrl: string
    const port: int
    var running: bool
    var conn: Option<WsConn>
    var messages: seq<Bytes>
    var failedLog: seq<Bytes>

    ghost predicate Valid()
      reads this
    {
      serverUrl != "" && port != 0 && |messages| <= QueueCapacity
    }

    constructor (settings: Settings)
      requires settings.serverUrl != "" && settings.port != 0
      ensures Valid()
      ensures serverUrl == settings.serverUrl && port == settings.port
      ensures running && conn == None && messages == [] && failedLog == []
    {
      serverUrl, port := settings.serverUrl, settings.port;
      running := true;
      conn := None;
      messages, failedLog := [], [];
    }

    /** `connect`: up to `MaxDials` dials of `DialUrl(serverUrl, port)`, sleeping 2^i seconds after failed
        attempt i. The first success becomes `conn`; after `MaxDials` failures `conn` is untouched and an
        error is returned. */
    method Connect(dial: (string, nat) -> Option<WsConn>) returns (err: Option<Error>, attempts: nat, delays: seq<nat>)
      modifies this`conn
      ensures var url := DialUrl(serverUrl, port);
              var k := FirstSuccess(DialSucceeds(dial, url), MaxDials);
              && (k < MaxDials ==> err == None && conn == dial(url, k) && attempts == k + 1 && delays == Backoffs(k))
              && (k == MaxDials ==> err == Some(NoResponse) && conn == old(conn) && attempts == MaxDials
                                    && delays == Backoffs(MaxDials))
    {
      var url := DialUrl(serverUrl, port);
      ghost var ok := DialSucceeds(dial, url);
      delays, attempts := [], 0;
      for i := 0 to MaxDials
        invariant attempts == i && delays == Backoffs(i)
        invariant forall j :: 0 <= j < i ==> !ok(j)
        invariant conn == old(conn)
      {
        var c := dial(url, i);
        attempts := attempts + 1;
        if c.Some? {
          assert ok(i);
          conn := c;
          err := None;
          return;
        }
        assert !ok(i);
        BackoffsAppend(i);
        delays := delays + [Pow2(i)];
      }
      err := Some(NoResponse);
    }

    /** `NewMsg`: the message joins the back of the FIFO (the caller blocks while it is full). */
    method NewMsg(msg: Bytes)
      requires Valid() && |messages| < QueueCapacity
      modifies this`messages
      ensures Valid()
      ensures messages == old(messages) + [msg]
    {
      messages := messages + [msg];
    }

    /** The write loop `monitorMessages` runs for one message: up to `MaxWrites` attempts, no write while
        there is no connection, stopping at the first success, with a sleep of 2^i seconds after attempt i
        when it did not succeed. */
    method WriteWithRetry(msg: Bytes, ok: nat -> bool) returns (delivered: bool, writes: seq<ConnWrite>, delays: seq<nat>)
      ensures delivered == Delivered(conn.Some?, ok)
      ensures |writes| == WriteCount(conn.Some?, ok) && |writes| <= MaxWrites
      ensures conn.None? ==> writes == []
      ensures forall j :: 0 <= j < |writes| ==> conn.Some? && writes[j] == ConnWrite(conn.value, msg)
      ensures delivered ==> |writes| >= 1 && ok(|writes| - 1) && forall i :: 0 <= i < |writes| - 1 ==> !ok(i)
      ensures delays == Backoffs(SleepCount(conn.Some?, ok))
    {
      delivered, writes, delays := false, [], [];
      for i := 0 to MaxWrites
        invariant conn.Some? ==> |writes| == i && forall j :: 0 <= j < i ==> !ok(j)
        invariant conn.None? ==> writes == []
        invariant forall j :: 0 <= j < |writes| ==> conn.Some? && writes[j] == ConnWrite(conn.value, msg)
        invariant delays == Backoffs(i) && !delivered
      {
        if conn.Some? {
          writes := writes + [ConnWrite(conn.value, msg)];
          if ok(i) {
            delivered := true;
            break;
          }
        }
        BackoffsAppend(i);
        delays := delays + [Pow2(i)];
      }
    }

    /** `monitorMessages` draining the FIFO: every pending message is taken in order and written with retry;
        a message that fails every attempt is logged and dropped, never re-enqueued. */
    method MonitorMessages(writeOk: nat -> (nat -> bool)) returns (sent: seq<Bytes>)
      requires Valid()
      modifies this`messages, this`failedLog
      ensures Valid() && messages == []
      ensures sent == Pick(old(messages), Outcomes(old(messages), conn.Some?, writeOk), true)
      ensures failedLog == old(failedLog) + Pick(old(messages), Outcomes(old(messages), conn.Some?, writeOk), false)
      ensures IsSubseq(sent, old(messages))
      ensures |sent| + |failedLog| - |old(failedLog)| == |old(messages)|
    {
      var pending := messages;
      ghost var log0 := failedLog;
      ghost var f := Outcomes(pending, conn.Some?, writeOk);
      sent := [];
      for k := 0 to |pending|
        invariant messages == pending[k..]
        invariant sent == Pick(pending[..k], f[..k], true)
        invariant failedLog == log0 + Pick(pending[..k], f[..k], false)
      {
        var msg := pending[k];
        messages := messages[1..];
        var delivered, _, _ := WriteWithRetry(msg, writeOk(k));
        assert delivered == f[k];
        if delivered {
          PickTake(pending, f, k, sent);
          sent := sent + [msg];
        } else {
          PickSkip(pending, f, k, log0, failedLog);
          failedLog := failedLog + [msg];
        }
      }
      PickWhole(pending, f);
    }
  }

  /** `NewClient`: check the arguments, build the client and connect; a failed connect is returned as the
      error and no client is returned. */
  method NewClient(serverUrl: string, port: int, dial: (string, nat) -> Option<WsConn>) returns (c: Client?, err: Option<Error>)
    ensures c == null <==> err.Some?
    ensures serverUrl == "" ==> err == Some(UrlRequired)
    ensures serverUrl != "" ==>
              var url := DialUrl(serverUrl, if port == 0 then DefaultPort else port);
              var k := FirstSuccess(DialSucceeds(dial, url), MaxDials);
              && (err.None? <==> k < MaxDials)
              && (err.Some? ==> err == Some(NoResponse))
              && (c != null ==> c.conn == dial(url, k))
    ensures c != null ==> fresh(c) && c.Valid() && c.serverUrl == serverUrl
                          && c.port == (if port == 0 then DefaultPort else port)
                          && c.running && c.messages == [] && c.failedLog == []
  {
    var cfg := Configure(serverUrl, port);
    if cfg.Failure? {
      return null, Some(cfg.error);
    }
    var client := new Client(cfg.value);
    var e, _, _ := client.Connect(dial);
    if e.Some? {
      return null, e;
    }
    c, err := client, None;
  }
}
