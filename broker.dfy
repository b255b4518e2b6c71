/** The broker's connection list (server/models/que.go): admission appends, each broadcast rebuilds the list.
    The two goroutines are run as one sequential stream of calls on a `Que`; the liveness of a request
    context and the outcome of a websocket write are oracles passed to each broadcast. */
module Broker {
  import opened Types
  import opened Seqs

  /** An admitted connection: a websocket handle and the context of the request that opened it. */
  class QueConn {
    const client: WsConn
    const ctx: Ctx

    constructor (ctx: Ctx, client: WsConn)
      ensures this.ctx == ctx && this.client == client
    {
      this.client := client;
      this.ctx := ctx;
    }
  }

  /** One call of `WriteMessage(messageType, data)` on a connection. */
  datatype Write = Write(to: WsConn, messageType: int, data: Bytes)

  /** The entry's context has not ended (`ctx.Err() == nil`). */
  function LiveTest(live: Ctx -> bool): QueConn -> bool {
    (e: QueConn) => live(e.ctx)
  }

  /** The write of this broadcast to the entry's connection returned no error. */
  function WriteTest(writeOk: WsConn -> bool): QueConn -> bool {
    (e: QueConn) => writeOk(e.client)
  }

  /** The write of this broadcast to the entry's connection returned an error. */
  function FailTest(writeOk: WsConn -> bool): QueConn -> bool {
    (e: QueConn) => !writeOk(e.client)
  }

  /** The entries a broadcast writes to: those whose context is live, in list order. */
  function Targets(list: seq<QueConn>, live: Ctx -> bool): seq<QueConn> {
    Filter(list, LiveTest(live))
  }

  /** The list a broadcast leaves behind: the live entries whose write succeeded, in list order. */
  function Survivors(list: seq<QueConn>, live: Ctx -> bool, writeOk: WsConn -> bool): (r: seq<QueConn>)
    ensures IsSubseq(r, list) && |r| <= |list|
    ensures forall e :: e in r ==> e in list && live(e.ctx) && writeOk(e.client)
    ensures forall e :: e in list && live(e.ctx) && writeOk(e.client) ==> e in r
  {
    var t := Targets(list, live);
    FilterIsSubseq(list, LiveTest(live));
    FilterIsSubseq(t, WriteTest(writeOk));
    SubseqTransitive(Filter(t, WriteTest(writeOk)), t, list);
    Filter(t, WriteTest(writeOk))
  }

  /** The entries whose write failed, in list order: each is logged as "client write failed, removing from
      que list" and left out of the new list. With the survivors they split the targets. */
  function Failures(list: seq<QueConn>, live: Ctx -> bool, writeOk: WsConn -> bool): (r: seq<QueConn>)
    ensures forall e :: e in r ==> e in list && live(e.ctx) && !writeOk(e.client)
    ensures forall e :: e in list && live(e.ctx) && !writeOk(e.client) ==> e in r
    ensures |Survivors(list, live, writeOk)| + |r| == |Targets(list, live)|
  {
    var t := Targets(list, live);
    forall k | 0 <= k < |t| ensures FailTest(writeOk)(t[k]) == !WriteTest(writeOk)(t[k]) {
    }
    FilterSplit(t, WriteTest(writeOk), FailTest(writeOk));
    Filter(t, FailTest(writeOk))
  }

  /** The writes a broadcast of `msg` makes: one text frame to each target, in list order. */
  function WritesTo(targets: seq<QueConn>, msg: Bytes): (w: seq<Write>)
    ensures |w| == |targets|
  {
    seq(|targets|, i requires 0 <= i < |targets| => Write(targets[i].client, TextMessage, msg))
  }

  /** The body of one `monitorMessages` iteration: walk the list, write `msg` to each live entry and keep
      those whose write succeeded; `failed` are those logged as failed. A failed write does not stop the walk. */
  method Rebuild(list: seq<QueConn>, msg: Bytes, live: Ctx -> bool, writeOk: WsConn -> bool)
    returns (newList: seq<QueConn>, writes: seq<Write>, failed: seq<QueConn>)
    ensures newList == Survivors(list, live, writeOk)
    ensures writes == WritesTo(Targets(list, live), msg)
    ensures failed == Failures(list, live, writeOk)
  {
    newList, writes, failed := [], [], [];
    for i := 0 to |list|
      invariant newList == Filter(Targets(list[..i], live), WriteTest(writeOk))
      invariant writes == WritesTo(Targets(list[..i], live), msg)
      invariant failed == Filter(Targets(list[..i], live), FailTest(writeOk))
    {
      var conn := list[i];
      TargetsStep(list, i, live);
      if live(conn.ctx) {
        OutcomeStep(Targets(list[..i], live), conn, msg, writeOk);
        var ok := writeOk(conn.client);
        writes := writes + [Write(conn.client, TextMessage, msg)];
        if ok {
          newList := newList + [conn];
        } else {
          failed := failed + [conn];
        }
      }
    }
    assert list[..|list|] == list;
  }

  /** How the targets grow when the walk reaches `list[i]`. */
  lemma TargetsStep(list: seq<QueConn>, i: nat, live: Ctx -> bool)
    requires i < |list|
    ensures var e, t := list[i], Targets(list[..i], live);
            && (!live(e.ctx) ==> Targets(list[..i + 1], live) == t)
            && (live(e.ctx) ==> Targets(list[..i + 1], live) == t + [e])
  {
    var e := list[i];
    assert list[..i + 1] == list[..i] + [e];
    FilterAppend(list[..i], e, LiveTest(live));
    assert LiveTest(live)(e) == live(e.ctx);
  }

  /** How the writes, the survivors and the failures grow when a target `e` joins the targets `t`. */
  lemma OutcomeStep(t: seq<QueConn>, e: QueConn, msg: Bytes, writeOk: WsConn -> bool)
    ensures WritesTo(t + [e], msg) == WritesTo(t, msg) + [Write(e.client, TextMessage, msg)]
    ensures Filter(t + [e], WriteTest(writeOk)) == Filter(t, WriteTest(writeOk)) + (if writeOk(e.client) then [e] else [])
    ensures Filter(t + [e], FailTest(writeOk)) == Filter(t, FailTest(writeOk)) + (if writeOk(e.client) then [] else [e])
  {
    FilterAppend(t, e, WriteTest(writeOk));
    assert WriteTest(writeOk)(e) == writeOk(e.client);
    FilterAppend(t, e, FailTest(writeOk));
    assert FailTest(writeOk)(e) == !writeOk(e.client);
    assert WritesTo(t + [e], msg) == WritesTo(t, msg) + [Write(e.client, TextMessage, msg)];
  }

  /** Every live entry receives the broadcast, whatever happened to the writes before it. */
  lemma WriteToEveryLiveEntry(list: seq<QueConn>, live: Ctx -> bool, msg: Bytes, k: nat)
    requires k < |list| && live(list[k].ctx)
    ensures Write(list[k].client, TextMessage, msg) in WritesTo(Targets(list, live), msg)
  {
    var t := Targets(list, live);
    assert list[k] in t;
    var j :| 0 <= j < |t| && t[j] == list[k];
    assert WritesTo(t, msg)[j] == Write(list[k].client, TextMessage, msg);
  }

  /** A broadcast writes only text frames holding `msg`, and only to connections of live entries. */
  lemma WritesOnlyToLive(list: seq<QueConn>, live: Ctx -> bool, msg: Bytes, w: Write)
    requires w in WritesTo(Targets(list, live), msg)
    ensures w.messageType == TextMessage && w.data == msg
    ensures exists e :: e in list && live(e.ctx) && e.client == w.to
  {
    var t := Targets(list, live);
    var j :| 0 <= j < |t| && WritesTo(t, msg)[j] == w;
    assert t[j] in t;
  }

  /** The broker's que. `inOpen` and `messagesOpen` say whether `monitorIn` and `monitorMessages` are still
      running; `dropped` (ghost) holds every entry a broadcast has removed. */
  class Que {
    var list: seq<QueConn>
    var inOpen: bool
    var messagesOpen: bool
    ghost var dropped: set<QueConn>

    /** No entry is listed twice, and no dropped entry is listed again. */
    ghost predicate Valid()
      reads this
    {
      Distinct(list) && forall e :: e in list ==> e !in dropped
    }

    /** `NewQue`: an empty list, both loops running. */
    constructor ()
      ensures Valid()
      ensures list == [] && inOpen && messagesOpen && dropped == {}
    {
      list := [];
      inOpen, messagesOpen := true, true;
      dropped := {};
    }

    /** `AddConnection` followed by the `monitorIn` iteration that receives the new entry: it is
        appended at the end and nothing before it changes. Once `monitorIn` has stopped, nothing is admitted. */
    method AddConnection(ctx: Ctx, c: WsConn) returns (entry: QueConn)
      requires Valid()
      modifies this
      ensures Valid()
      ensures fresh(entry) && entry.ctx == ctx && entry.client == c
      ensures list == if old(inOpen) then old(list) + [entry] else old(list)
      ensures inOpen == old(inOpen) && messagesOpen == old(messagesOpen) && dropped == old(dropped)
    {
      entry := new QueConn(ctx, c);
      if inOpen {
        assert entry !in list;
        list := list + [entry];
      }
    }

    /** `monitorIn` ends (a nil connection, or its channel closed by `closeAndWait`), so no later admission
        is processed. */
    method StopMonitorIn()
      requires Valid()
      modifies this
      ensures Valid()
      ensures !inOpen
      ensures list == old(list) && messagesOpen == old(messagesOpen) && dropped == old(dropped)
    {
      inOpen := false;
    }

    /** `NewMsg` followed by the `monitorMessages` iteration that receives it: the list becomes the live
        entries whose write succeeded, in their original order; every other entry is dropped for good, and
        `failed` are the entries whose write failed, one log line each.
        Once `monitorMessages` has stopped, nothing is written and the list is unchanged. */
    method NewMsg(msg: Bytes, live: Ctx -> bool, writeOk: WsConn -> bool) returns (writes: seq<Write>, failed: seq<QueConn>)
      requires Valid()
      modifies this
      ensures Valid()
      ensures old(messagesOpen) ==> list == Survivors(old(list), live, writeOk)
      ensures old(messagesOpen) ==> writes == WritesTo(Targets(old(list), live), msg)
      ensures old(messagesOpen) ==> failed == Failures(old(list), live, writeOk)
      ensures old(messagesOpen) ==> dropped == old(dropped) + (set e | e in old(list) && e !in list)
      ensures !old(messagesOpen) ==> list == old(list) && writes == [] && failed == [] && dropped == old(dropped)
      ensures forall e :: e in failed ==> e in dropped
      ensures IsSubseq(list, old(list)) && |list| <= |old(list)|
      ensures old(dropped) <= dropped && forall e :: e in dropped ==> e !in list
      ensures inOpen == old(inOpen) && messagesOpen == old(messagesOpen)
    {
      if !messagesOpen {
        writes, failed := [], [];
        SubseqReflexive(list);
        return;
      }
      var newList;
      newList, writes, failed := Rebuild(list, msg, live, writeOk);
      SubseqDistinct(newList, list);
      dropped := dropped + (set e | e in list && e !in newList);
      forall e | e in newList ensures e !in dropped {
        SubseqMembers(newList, list, e);
      }
      list := newList;
    }

    /** `monitorMessages` ends (a nil message, or its channel closed by `closeAndWait`), so no later broadcast
        is processed. */
    method StopMonitorMessages()
      requires Valid()
      modifies this
      ensures Valid()
      ensures !messagesOpen
      ensures list == old(list) && inOpen == old(inOpen) && dropped == old(dropped)
    {
      messagesOpen := false;
    }
  }
}
