/** The broker's connection handler (server/handler_que.go): `wssErr` decides which read errors are benign,
    `wssHandle` admits the upgraded connection and then dispatches text frames to the reader or to a
    rebroadcast until the first read error. */
module Handler {
  import opened Types
  import opened Text
  import opened Wss
  import opened Seqs

  /** `wssErr`'s tests: normal closure (1000), no status (1005), abnormal closure (1006), or a read on a
      connection this side already closed. */
  predicate IsBenign(err: string) {
    || Contains(err, NormalClosureText)
    || Contains(err, NoStatusText)
    || Contains(err, AbnormalClosureText)
    || Contains(err, ClosedConnText)
  }

  /** `wssErr`: a benign error is ignored; any other goes to `Warn`. */
  function WssErr(verbosity: nat, err: string): (effects: seq<Effect>)
    ensures effects == [] || effects == [Log("k8mq wss error " + err)]
    ensures effects != [] <==> !IsBenign(err) && verbosity >= 1
  {
    if IsBenign(err) then [] else Warn(verbosity, "k8mq wss error " + err)
  }

  /** What one text-or-other frame causes after its info line: a text frame goes to the reader when one is
      set and is rebroadcast otherwise; any other frame is skipped. */
  function Dispatch(messageType: int, data: Bytes, hasReader: bool): seq<Effect> {
    if messageType != TextMessage then []
    else if hasReader then [ToReader(data)]
    else [Rebroadcast(data)]
  }

  /** The read loop: frames are handled in order; the first read error is passed to `wssErr`, ends the
      loop and closes the connection. A sequence without an error leaves the loop waiting for more. */
  function ReadLoop(conn: WsConn, frames: seq<ReadResult>, hasReader: bool, verbosity: nat): seq<Effect> {
    if frames == [] then []
    else
      match frames[0]
      case ReadError(e) => WssErr(verbosity, e) + [Closed(conn)]
      case Frame(t, d) => Info(verbosity, t, d) + Dispatch(t, d, hasReader) + ReadLoop(conn, frames[1..], hasReader, verbosity)
  }

  /** `wssHandle`: an upgrade failure is warned about and nothing else happens; otherwise the connection
      is admitted and then read. */
  function Handle(ctx: Ctx, upgrade: Upgrade, frames: seq<ReadResult>, hasReader: bool, verbosity: nat): seq<Effect> {
    match upgrade
    case UpgradeFailed(e) => Warn(verbosity, "k8mq wss upgrade error " + e)
    case Upgraded(c) => [Admit(ctx, c)] + ReadLoop(c, frames, hasReader, verbosity)
  }

  /** The handler's loop, with `continue` for skipped frames and `break` at the first read error. */
  method WssHandle(ctx: Ctx, upgrade: Upgrade, frames: seq<ReadResult>, hasReader: bool, verbosity: nat)
    returns (effects: seq<Effect>)
    ensures effects == Handle(ctx, upgrade, frames, hasReader, verbosity)
  {
    if upgrade.UpgradeFailed? {
      effects := Warn(verbosity, "k8mq wss upgrade error " + upgrade.text);
      return;
    }
    var c := upgrade.conn;
    ghost var goal := Handle(ctx, upgrade, frames, hasReader, verbosity);
    effects := [Admit(ctx, c)];
    var i := 0;
    while i < |frames|
      invariant i <= |frames|
      invariant effects + ReadLoop(c, frames[i..], hasReader, verbosity) == goal
    {
      var r := frames[i];
      ReadLoopAt(c, frames, i, hasReader, verbosity);
      if r.ReadError? {
        effects := effects + (WssErr(verbosity, r.text) + [Closed(c)]);
        break;
      }
      ghost var before := effects;
      ghost var rest := ReadLoop(c, frames[i + 1..], hasReader, verbosity);
      ghost var step := Info(verbosity, r.messageType, r.data) + Dispatch(r.messageType, r.data, hasReader);
      assert before + (step + rest) == goal;
      AppendAssoc(before, step, rest);
      effects := effects + Info(verbosity, r.messageType, r.data);
      if r.messageType != TextMessage {
        assert step == Info(verbosity, r.messageType, r.data) + [];
        assert effects == before + step;
        i := i + 1;
        continue;
      }
      if hasReader {
        effects := effects + [ToReader(r.data)];
      } else {
        effects := effects + [Rebroadcast(r.data)];
      }
      assert effects == before + step;
      i := i + 1;
    }
    if i == |frames| {
      assert frames[i..] == [];
    }
  }

  /** One turn of the read loop, unfolded at position i. */
  lemma ReadLoopAt(conn: WsConn, frames: seq<ReadResult>, i: nat, hasReader: bool, verbosity: nat)
    requires i < |frames|
    ensures frames[i].ReadError? ==>
              ReadLoop(conn, frames[i..], hasReader, verbosity) == WssErr(verbosity, frames[i].text) + [Closed(conn)]
    ensures frames[i].Frame? ==>
              ReadLoop(conn, frames[i..], hasReader, verbosity)
              == Info(verbosity, frames[i].messageType, frames[i].data)
                 + Dispatch(frames[i].messageType, frames[i].data, hasReader)
                 + ReadLoop(conn, frames[i + 1..], hasReader, verbosity)
  {
    assert frames[i..][0] == frames[i] && frames[i..][1..] == frames[i + 1..];
  }

  // ----- properties of wssErr -----

  /** Close errors with status 1000, 1005 or 1006 are benign whatever text follows the code, and are not logged. */
  lemma BenignCloseCodes(code: int, rest: string, verbosity: nat)
    requires code == NormalClosure || code == NoStatusReceived || code == AbnormalClosure
    ensures IsBenign(CloseErrorText(code, rest)) && WssErr(verbosity, CloseErrorText(code, rest)) == []
  {
    CloseFragments();
    ContainsPrefix(CloseText(code), rest);
  }

  /** A read on a connection this side already closed is benign wherever the phrase appears. */
  lemma BenignClosedConnection(pre: string, post: string, verbosity: nat)
    ensures IsBenign(pre + ClosedConnText + post) && WssErr(verbosity, pre + ClosedConnText + post) == []
  {
    ContainsInfix(pre, ClosedConnText, post);
  }

  /** A close with status 1001 (going away) is not benign, whatever non-benign text the library adds after
      the code: it is warned about once verbose output is on. */
  lemma GoingAwayIsLogged(rest: string, verbosity: nat)
    requires !IsBenign(rest)
    ensures !IsBenign(CloseErrorText(1001, rest))
    ensures WssErr(verbosity, CloseErrorText(1001, rest))
         == (if verbosity >= 1 then [Log("k8mq wss error " + CloseErrorText(1001, rest))] else [])
  {
    CloseFragments();
    CloseAvoidsOther(1001, NormalClosure, rest);
    CloseAvoidsOther(1001, NoStatusReceived, rest);
    CloseAvoidsOther(1001, AbnormalClosure, rest);
    CloseAvoidsClosedConn(1001, rest);
  }

  // ----- properties of wssHandle -----

  lemma {:induction false} ReadLoopAdmitsNothing(conn: WsConn, frames: seq<ReadResult>, hasReader: bool, verbosity: nat)
    ensures forall k :: 0 <= k < |ReadLoop(conn, frames, hasReader, verbosity)| ==> !ReadLoop(conn, frames, hasReader, verbosity)[k].Admit?
  {
    if frames != [] && frames[0].Frame? {
      ReadLoopAdmitsNothing(conn, frames[1..], hasReader, verbosity);
    }
  }

  /** An upgrade failure returns before the connection is admitted. */
  lemma UpgradeFailureNotAdmitted(ctx: Ctx, e: string, frames: seq<ReadResult>, hasReader: bool, verbosity: nat)
    ensures forall k :: 0 <= k < |Handle(ctx, UpgradeFailed(e), frames, hasReader, verbosity)| ==>
              !Handle(ctx, UpgradeFailed(e), frames, hasReader, verbosity)[k].Admit?
    ensures Forwarded(Handle(ctx, UpgradeFailed(e), frames, hasReader, verbosity)) == []
  {
    ForwardedNone(Handle(ctx, UpgradeFailed(e), frames, hasReader, verbosity));
  }

  /** An upgraded connection is admitted exactly once, before anything read from it has an effect. */
  lemma AdmittedOnceFirst(ctx: Ctx, c: WsConn, frames: seq<ReadResult>, hasReader: bool, verbosity: nat)
    ensures var h := Handle(ctx, Upgraded(c), frames, hasReader, verbosity);
            h[0] == Admit(ctx, c) && forall k :: 0 < k < |h| ==> !h[k].Admit?
  {
    var h := Handle(ctx, Upgraded(c), frames, hasReader, verbosity);
    ReadLoopAdmitsNothing(c, frames, hasReader, verbosity);
    forall k | 0 < k < |h| ensures !h[k].Admit? {
      assert h[k] == ReadLoop(c, frames, hasReader, verbosity)[k - 1];
    }
  }

  /** Exactly the text frames read before the first read error are passed on, in the order read; other
      frames are skipped. */
  lemma {:induction false} ForwardsTextFrames(conn: WsConn, frames: seq<ReadResult>, hasReader: bool, verbosity: nat)
    ensures Forwarded(ReadLoop(conn, frames, hasReader, verbosity)) == TextPayloads(frames)
  {
    if frames != [] {
      match frames[0]
      case ReadError(e) =>
        ForwardedNone(WssErr(verbosity, e) + [Closed(conn)]);
      case Frame(t, d) =>
        var act := Dispatch(t, d, hasReader);
        ForwardsTextFrames(conn, frames[1..], hasReader, verbosity);
        ForwardedStep(Info(verbosity, t, d), act, ReadLoop(conn, frames[1..], hasReader, verbosity));
        assert Forwarded(act) == (if t == TextMessage then [d] else []);
    }
  }

  /** With a reader set nothing is rebroadcast; without one nothing goes to a reader. */
  lemma {:induction false} ReaderOrRebroadcast(conn: WsConn, frames: seq<ReadResult>, hasReader: bool, verbosity: nat)
    ensures forall x :: x in ReadLoop(conn, frames, hasReader, verbosity) ==>
              (hasReader ==> !x.Rebroadcast?) && (!hasReader ==> !x.ToReader?)
  {
    if frames != [] && frames[0].Frame? {
      ReaderOrRebroadcast(conn, frames[1..], hasReader, verbosity);
    }
  }

  /** The first read error ends the loop: nothing read after it has any effect. */
  lemma {:induction false} ErrorEndsLoop(conn: WsConn, pre: seq<ReadResult>, e: string, post: seq<ReadResult>, hasReader: bool, verbosity: nat)
    ensures ReadLoop(conn, pre + [ReadError(e)] + post, hasReader, verbosity)
         == ReadLoop(conn, pre + [ReadError(e)], hasReader, verbosity)
  {
    if pre == [] {
      assert ([] + [ReadError(e)] + post)[0] == ReadError(e);
      assert ([] + [ReadError(e)])[0] == ReadError(e);
    } else {
      assert (pre + [ReadError(e)] + post)[1..] == pre[1..] + [ReadError(e)] + post;
      assert (pre + [ReadError(e)])[1..] == pre[1..] + [ReadError(e)];
      if pre[0].Frame? {
        ErrorEndsLoop(conn, pre[1..], e, post, hasReader, verbosity);
      }
    }
  }
}
