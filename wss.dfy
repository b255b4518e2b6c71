/** What a broker connection handler sees and does: the outcome of the upgrade, the results of successive
    `ReadMessage` calls, and the effects it produces, in order. Shared by both handler revisions. */
module Wss {
  import opened Types
  import opened Text

  /** Close status codes of section 7.4.1 of RFC 6455 that the handlers treat as benign. */
  const NormalClosure := 1000
  const NoStatusReceived := 1005
  const AbnormalClosure := 1006

  /** Fragments of error texts the handlers treat as benign. */
  const NormalClosureText := "websocket: close 1000"
  const NoStatusText := "websocket: close 1005"
  const AbnormalClosureText := "websocket: close 1006"
  const ClosedConnText := "use of closed network connection"

  /** "websocket: close " followed by the status code. */
  function CloseText(code: int): string {
    "websocket: close " + IntToDecimal(code)
  }

  /** The text of a websocket close error: `CloseText(code)`, then whatever the library adds. */
  function CloseErrorText(code: int, rest: string): string {
    CloseText(code) + rest
  }

  /** The three close fragments are the close-error texts of codes 1000, 1005 and 1006. */
  lemma CloseFragments()
    ensures CloseText(NormalClosure) == NormalClosureText
    ensures CloseText(NoStatusReceived) == NoStatusText
    ensures CloseText(AbnormalClosure) == AbnormalClosureText
  {
    assert NatToDecimal(1) == "1" && NatToDecimal(10) == "10" && NatToDecimal(100) == "100";
    assert NatToDecimal(1000) == "1000" && NatToDecimal(1005) == "1005" && NatToDecimal(1006) == "1006";
  }

  /** A close status code from 1000 to 1009 renders as "websocket: close 100" and its last digit. */
  lemma CloseTextOf(code: int)
    requires NormalClosure <= code < NormalClosure + 10
    ensures CloseText(code) == "websocket: close 100" + [DigitChar(code - NormalClosure)]
  {
    assert NatToDecimal(1) == "1" && NatToDecimal(10) == "10" && NatToDecimal(100) == "100";
    assert code / 10 == 100 && code % 10 == code - NormalClosure;
    assert NatToDecimal(code) == NatToDecimal(100) + [DigitChar(code - NormalClosure)];
  }

  /** In a close text 'w' occurs only at the start, and 'u' not at all. */
  lemma CloseTextLetters(code: int, i: nat)
    requires i < |CloseText(code)|
    ensures 0 < i ==> CloseText(code)[i] != 'w'
    ensures CloseText(code)[i] != 'u'
  {
    var head := "websocket: close ";
    var d := IntToDecimal(code);
    if i < |head| {
      assert CloseText(code)[i] == head[i];
    } else {
      assert CloseText(code)[i] == d[i - |head|];
      IntDecimalChars(code, d[i - |head|]);
    }
  }

  /** The close text of one code from 1000 to 1009 is not found in the error text of another, unless it
      is in what follows the code. */
  lemma CloseAvoidsOther(code: int, other: int, rest: string)
    requires NormalClosure <= code < NormalClosure + 10 && NormalClosure <= other < NormalClosure + 10
    requires code != other && !Contains(rest, CloseText(other))
    ensures !Contains(CloseErrorText(code, rest), CloseText(other))
  {
    var head, sub := CloseText(code), CloseText(other);
    CloseTextOf(code);
    CloseTextOf(other);
    forall i: nat | i < |head| ensures MismatchAt(head, sub, i) {
      if i == 0 {
        assert head[20] != sub[20];
      } else {
        CloseTextLetters(code, i);
        assert head[i] != sub[0];
      }
    }
    NotContainsJoin(head, rest, sub);
  }

  /** The closed-connection phrase is not found in a close error text unless it is in what follows the code. */
  lemma CloseAvoidsClosedConn(code: int, rest: string)
    requires !Contains(rest, ClosedConnText)
    ensures !Contains(CloseErrorText(code, rest), ClosedConnText)
  {
    var head := CloseText(code);
    forall i: nat | i < |head| ensures MismatchAt(head, ClosedConnText, i) {
      CloseTextLetters(code, i);
      assert head[i] != ClosedConnText[0];
    }
    NotContainsJoin(head, rest, ClosedConnText);
  }

  /** Result of the websocket upgrade of the request. */
  datatype Upgrade = Upgraded(conn: WsConn) | UpgradeFailed(text: string)

  /** Result of one `ReadMessage` call. */
  datatype ReadResult = Frame(messageType: int, data: Bytes) | ReadError(text: string)

  /** Observable effects of a handler. */
  datatype Effect =
    | Admit(ctx: Ctx, conn: WsConn)     // que.AddConnection(ctx, c)
    | ToReader(data: Bytes)             // the server's reader callback
    | Rebroadcast(data: Bytes)          // que.NewMsg(msg)
    | Received(messageType: int, data: Bytes)  // the "received message" info line
    | Log(line: string)                 // a warning or error line
    | Closed(conn: WsConn)              // the deferred c.Close()

  /** `OPTS.Info`: emitted only with at least two verbose flags. */
  function Info(verbosity: nat, messageType: int, data: Bytes): seq<Effect> {
    if verbosity >= 2 then [Received(messageType, data)] else []
  }

  /** `OPTS.Warn`: emitted only with at least one verbose flag. */
  function Warn(verbosity: nat, line: string): seq<Effect> {
    if verbosity >= 1 then [Log(line)] else []
  }

  /** The payload one effect passes on, to the reader or to the que. */
  function ForwardedBy(e: Effect): seq<Bytes> {
    match e
    case ToReader(d) => [d]
    case Rebroadcast(d) => [d]
    case _ => []
  }

  /** The payloads a handler passed on, in order. */
  function Forwarded(effects: seq<Effect>): seq<Bytes> {
    if effects == [] then [] else ForwardedBy(effects[0]) + Forwarded(effects[1..])
  }

  /** The payloads of the text frames read before the first read error, in order. */
  function TextPayloads(frames: seq<ReadResult>): seq<Bytes> {
    if frames == [] then []
    else
      match frames[0]
      case ReadError(_) => []
      case Frame(t, d) => (if t == TextMessage then [d] else []) + TextPayloads(frames[1..])
  }

  lemma {:induction false} ForwardedAppend(a: seq<Effect>, b: seq<Effect>)
    ensures Forwarded(a + b) == Forwarded(a) + Forwarded(b)
  {
    if a == [] {
      assert a + b == b;
    } else {
      var ab := a + b;
      assert ab[0] == a[0] && ab[1..] == a[1..] + b;
      assert Forwarded(ab) == ForwardedBy(a[0]) + Forwarded(a[1..] + b);
      ForwardedAppend(a[1..], b);
      assert Forwarded(a) == ForwardedBy(a[0]) + Forwarded(a[1..]);
    }
  }

  /** One turn of a read loop: an info line that passes nothing on, the dispatch, and the rest. */
  lemma ForwardedStep(info: seq<Effect>, act: seq<Effect>, rest: seq<Effect>)
    requires forall k :: 0 <= k < |info| ==> !info[k].ToReader? && !info[k].Rebroadcast?
    ensures Forwarded(info + act + rest) == Forwarded(act) + Forwarded(rest)
  {
    var head := info + act;
    ForwardedAppend(head, rest);
    ForwardedAppend(info, act);
    ForwardedNone(info);
    assert Forwarded(head) == Forwarded(act);
  }

  /** Log lines, info lines and admissions pass nothing on. */
  lemma ForwardedNone(effects: seq<Effect>)
    requires forall k :: 0 <= k < |effects| ==> !effects[k].ToReader? && !effects[k].Rebroadcast?
    ensures Forwarded(effects) == []
  {
    if effects != [] {
      ForwardedNone(effects[1..]);
    }
  }
}
