/** The older revision of the connection handler (server/main/handler_que.go): its `wssErr` does not treat
    normal closure (1000) as benign and records errors through `StackTrace`, which logs whatever the
    verbosity; its `wssHandle` has no reader and rebroadcasts every text frame. */
module HandlerMain {
  import opened Types
  import opened Text
  import opened Wss
  import opened Seqs
  import Handler

  /** `wssErr`'s tests in this revision: no status (1005), abnormal closure (1006), or a read on a
      connection this side already closed. */
  predicate IsBenign(err: string) {
    || Contains(err, NoStatusText)
    || Contains(err, AbnormalClosureText)
    || Contains(err, ClosedConnText)
  }

  /** `StackTrace` of an error: its text is logged unconditionally (stack lines are not modelled). */
  function StackTrace(err: string): seq<Effect> {
    [Log(err)]
  }

  /** `wssErr`: a benign error is ignored; any other is recorded. */
  function WssErr(err: string): (effects: seq<Effect>)
    ensures effects == [] || effects == [Log(err)]
    ensures effects == [] <==> IsBenign(err)
  {
    if IsBenign(err) then [] else StackTrace(err)
  }

  /** The read loop: each frame's info line, then a rebroadcast if it is a text frame; the first read error
      is passed to `wssErr`, ends the loop and closes the connection. */
  function ReadLoop(conn: WsConn, frames: seq<ReadResult>, verbosity: nat): seq<Effect> {
    if frames == [] then []
    else
      match frames[0]
      case ReadError(e) => WssErr(e) + [Closed(conn)]
      case Frame(t, d) =>
        Info(verbosity, t, d) + (if t == TextMessage then [Rebroadcast(d)] else []) + ReadLoop(conn, frames[1..], verbosity)
  }

  /** `wssHandle`: an upgrade failure is recorded and nothing else happens; otherwise the connection is
      admitted and then read. */
  function Handle(ctx: Ctx, upgrade: Upgrade, frames: seq<ReadResult>, verbosity: nat): seq<Effect> {
    match upgrade
    case UpgradeFailed(e) => StackTrace(e)
    case Upgraded(c) => [Admit(ctx, c)] + ReadLoop(c, frames, verbosity)
  }

  /** The handler's loop, with `continue` for skipped frames and `break` at the first read error. */
  method WssHandle(ctx: Ctx, upgrade: Upgrade, frames: seq<ReadResult>, verbosity: nat) returns (effects: seq<Effect>)
    ensures effects == Handle(ctx, upgrade, frames, verbosity)
  {
    if upgrade.UpgradeFailed? {
      effects := StackTrace(upgrade.text);
      return;
    }
    var c := upgrade.conn;
    ghost var goal := Handle(ctx, upgrade, frames, verbosity);
    effects := [Admit(ctx, c)];
    var i := 0;
    while i < |frames|
      invariant i <= |frames|
      invariant effects + ReadLoop(c, frames[i..], verbosity) == goal
    {
      var r := frames[i];
      ReadLoopAt(c, frames, i, verbosity);
      if r.ReadError? {
        effects := effects + (WssErr(r.text) + [Closed(c)]);
        break;
      }
      ghost var before := effects;
      ghost var rest := ReadLoop(c, frames[i + 1..], verbosity);
      ghost var step := Info(verbosity, r.messageType, r.data) + (if r.messageType == TextMessage then [Rebroadcast(r.data)] else []);
      assert before + (step + rest) == goal;
      AppendAssoc(before, step, rest);
      effects := effects + Info(verbosity, r.messageType, r.data);
      if r.messageType != TextMessage {
        assert step == Info(verbosity, r.messageType, r.data) + [];
        assert effects == before + step;
        i := i + 1;
        continue;
      }
      effects := effects + [Rebroadcast(r.data)];
      assert effects == before + step;
      i := i + 1;
    }
    if i == |frames| {
      assert frames[i..] == [];
    }
  }

  /** One turn of the read loop, unfolded at position i. */
  lemma ReadLoopAt(conn: WsConn, frames: seq<ReadResult>, i: nat, verbosity: nat)
    requires i < |frames|
    ensures frames[i].ReadError? ==> ReadLoop(conn, frames[i..], verbosity) == WssErr(frames[i].text) + [Closed(conn)]
    ensures frames[i].Frame? ==>
              ReadLoop(conn, frames[i..], verbosity)
              == Info(verbosity, frames[i].messageType, frames[i].data)
                 + (if frames[i].messageType == TextMessage then [Rebroadcast(frames[i].data)] else [])
                 + ReadLoop(conn, frames[i + 1..], verbosity)
  {
    assert frames[i..][0] == frames[i] && frames[i..][1..] == frames[i + 1..];
  }

  // ----- properties of wssErr, and how it differs from the newer revision -----

  /** Close errors with status 1005 or 1006 are benign whatever text follows the code. */
  lemma BenignCloseCodes(code: int, rest: string)
    requires code == NoStatusReceived || code == AbnormalClosure
    ensures IsBenign(CloseErrorText(code, rest)) && WssErr(CloseErrorText(code, rest)) == []
  {
    CloseFragments();
    ContainsPrefix(CloseText(code), rest);
  }

  /** In this revision a normal closure (1000) is not benign, whatever non-benign text the library adds
      after the code, and is logged whatever the verbosity, while the newer revision ignores it. */
  lemma NormalClosureDiffers(rest: string, verbosity: nat)
    requires !IsBenign(rest)
    ensures !IsBenign(CloseErrorText(NormalClosure, rest))
    ensures WssErr(CloseErrorText(NormalClosure, rest)) == [Log(CloseErrorText(NormalClosure, rest))]
    ensures Handler.IsBenign(CloseErrorText(NormalClosure, rest))
    ensures Handler.WssErr(verbosity, CloseErrorText(NormalClosure, rest)) == []
  {
    CloseFragments();
    CloseAvoidsOther(NormalClosure, NoStatusReceived, rest);
    CloseAvoidsOther(NormalClosure, AbnormalClosure, rest);
    CloseAvoidsClosedConn(NormalClosure, rest);
    Handler.BenignCloseCodes(NormalClosure, rest, verbosity);
  }

  /** Every error this revision ignores the newer one ignores too; the newer one ignores more exactly for
      the texts that hold the normal-closure fragment. */
  lemma BenignRevisions(err: string)
    ensures IsBenign(err) ==> Handler.IsBenign(err)
    ensures Handler.IsBenign(err) && !IsBenign(err) <==> Contains(err, NormalClosureText) && !IsBenign(err)
  {
  }

  // ----- properties of wssHandle -----

  /** An upgrade failure returns before the connection is admitted and passes nothing on. */
  lemma UpgradeFailureNotAdmitted(ctx: Ctx, e: string, frames: seq<ReadResult>, verbosity: nat)
    ensures Handle(ctx, UpgradeFailed(e), frames, verbosity) == [Log(e)]
  {
  }

  lemma {:induction false} ReadLoopAdmitsNothing(conn: WsConn, frames: seq<ReadResult>, verbosity: nat)
    ensures forall x :: x in ReadLoop(conn, frames, verbosity) ==> !x.Admit? && !x.ToReader?
  {
    if frames != [] && frames[0].Frame? {
      ReadLoopAdmitsNothing(conn, frames[1..], verbosity);
    }
  }

  /** An upgraded connection is admitted exactly once, before the read loop starts; no frame goes to a reader. */
  lemma AdmittedOnceFirst(ctx: Ctx, c: WsConn, frames: seq<ReadResult>, verbosity: nat)
    ensures var h := Handle(ctx, Upgraded(c), frames, verbosity);
            h[0] == Admit(ctx, c) && forall k :: 0 < k < |h| ==> !h[k].Admit? && !h[k].ToReader?
  {
    var h := Handle(ctx, Upgraded(c), frames, verbosity);
    ReadLoopAdmitsNothing(c, frames, verbosity);
    forall k | 0 < k < |h| ensures !h[k].Admit? && !h[k].ToReader? {
      assert h[k] == ReadLoop(c, frames, verbosity)[k - 1];
    }
  }

  /** Every text frame read before the first read error is rebroadcast, in order; other frames are skipped. */
  lemma {:induction false} RebroadcastsTextFrames(conn: WsConn, frames: seq<ReadResult>, verbosity: nat)
    ensures Forwarded(ReadLoop(conn, frames, verbosity)) == TextPayloads(frames)
  {
    if frames != [] {
      match frames[0]
      case ReadError(e) =>
        ForwardedNone(WssErr(e) + [Closed(conn)]);
      case Frame(t, d) =>
        var act: seq<Effect> := if t == TextMessage then [Rebroadcast(d)] else [];
        RebroadcastsTextFrames(conn, frames[1..], verbosity);
        ForwardedStep(Info(verbosity, t, d), act, ReadLoop(conn, frames[1..], verbosity));
        assert Forwarded(act) == (if t == TextMessage then [d] else []);
    }
  }

  /** The first read error ends the loop: nothing read after it has any effect. */
  lemma {:induction false} ErrorEndsLoop(conn: WsConn, pre: seq<ReadResult>, e: string, post: seq<ReadResult>, verbosity: nat)
    ensures ReadLoop(conn, pre + [ReadError(e)] + post, verbosity) == ReadLoop(conn, pre + [ReadError(e)], verbosity)
  {
    if pre == [] {
      assert ([] + [ReadError(e)] + post)[0] == ReadError(e);
      assert ([] + [ReadError(e)])[0] == ReadError(e);
    } else {
      assert (pre + [ReadError(e)] + post)[1..] == pre[1..] + [ReadError(e)] + post;
      assert (pre + [ReadError(e)])[1..] == pre[1..] + [ReadError(e)];
      if pre[0].Frame? {
        ErrorEndsLoop(conn, pre[1..], e, post, verbosity);
      }
    }
  }

  /** Without a reader, both revisions pass on the same payloads for the same frames. */
  lemma SameForwardingWithoutReader(conn: WsConn, frames: seq<ReadResult>, verbosity: nat)
    ensures Forwarded(ReadLoop(conn, frames, verbosity)) == Forwarded(Handler.ReadLoop(conn, frames, false, verbosity))
  {
    RebroadcastsTextFrames(conn, frames, verbosity);
    Handler.ForwardsTextFrames(conn, frames, false, verbosity);
  }
}
