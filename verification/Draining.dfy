/** When the drain of a connection comes to its end: on a connection that stays up it
    does so without further calls, unless what it waits for was rejected. */
module Draining {
  import opened Bytes
  import opened Connection

  /** What goes on by itself: the links, the server and the continuations of the
      client, but no call of the program and no change of the connection. */
  predicate Unaided(a: Action) {
    a.AMicrotask? || a.ServerTakes? || a.AReceive? || a.AAfterDrain? || a.AAfterDrains? || a.AClose?
  }

  predicate AllUnaided(run: seq<Action>) {
    forall i :: 0 <= i < |run| ==> Unaided(run[i])
  }

  ghost predicate Alive(c: Client) {
    c.up && c.connected && !c.closed
  }

  /** The connection waits for its last flush, and that was not rejected. */
  ghost predicate AwaitsFlush(c: Client) {
    c.last.Some? && c.last.value !in c.rejected
  }

  // ------------------------------------------------- no deferred is forgotten

  ghost predicate Accounted(c: Client) {
    && c.nextId >= 1 && (c.last.Some? ==> c.last.value >= 1)
    && forall id :: 1 <= id < c.nextId ==> id in c.pongs || id in c.resolved || id in c.rejected
  }

  lemma StepAccounted(w: World, a: Action)
    requires Accounted(w.c) && Legal(w, a)
    ensures Accounted(Next(w, a).c)
  {
    if IsClientCall(a) {
      CallAccounted(w, a);
    } else if a.APrepare? {
      PrepareAccounted(w.c);
    } else if a.AReceive? {
      ReceiveAccounted(w);
    } else {
      OtherAccounted(w, a);
    }
  }

  lemma CallAccounted(w: World, a: Action)
    requires Accounted(w.c) && IsClientCall(a)
    ensures Accounted(Next(w, a).c)
  {
    hide Next, Pings, Extra, Pipe;
    CallAppends(w, a);
    var c, c', added := w.c, Next(w, a).c, Pings(Extra(w.c, a));
    assert c'.pongs == c.pongs + added;
    if added != [] {
      assert c'.pongs[|c.pongs|] == c.nextId;
    }
    assert c'.last == c.last || c'.last == Some(c.nextId) by { CallLast(w, a); }
  }

  lemma CallLast(w: World, a: Action)
    requires IsClientCall(a)
    ensures Next(w, a).c.last == w.c.last || Next(w, a).c.last == Some(w.c.nextId)
  {
    CallAppends(w, a);
  }

  lemma PrepareAccounted(c: Client)
    requires Accounted(c)
    ensures Accounted(Prepare(c))
  {
    var c' := Prepare(c);
    assert c'.pongs[0] == c.nextId;
    assert forall id :: id in c.pongs ==> id in AsSet(c.pongs);
  }

  lemma ReceiveAccounted(w: World)
    requires Accounted(w.c) && w.toClient != []
    ensures Accounted(Receive(w).c)
  {
    var c := w.c;
    match w.toClient[0]
    case Info => assert OnInfo(c).pongs == c.pongs;
    case Pong(_) =>
      if c.pongs != [] {
        assert c.pongs == [c.pongs[0]] + c.pongs[1..];
      }
    case PingEvent =>
    case Msg(m) =>
  }

  lemma OtherAccounted(w: World, a: Action)
    requires Accounted(w.c) && Legal(w, a) && !IsClientCall(a) && !a.APrepare? && !a.AReceive?
    ensures Accounted(Next(w, a).c)
  {
    hide Announces, Idle, Settled;
  }

  lemma {:induction false} RunAccounted(w: World, run: seq<Action>)
    requires Accounted(w.c) && LegalRun(w, run)
    ensures Accounted(After(w, run).c)
    decreases |run|
  {
    hide Accounted, Legal, Next;
    if run != [] {
      StepAccounted(w, run[0]);
      RunAccounted(Next(w, run[0]), run[1..]);
    }
  }

  // ------------------------------------------------------- what is to be done

  /** An event makes at most one command, and a command at most one event that makes
      none. */
  function EventsWeight(s: seq<Event>): nat {
    if s == [] then 0 else (if s[0].PingEvent? then 3 else 1) + EventsWeight(s[1..])
  }

  lemma {:induction false} WeightAppend(s: seq<Event>, e: Event)
    ensures EventsWeight(s + [e]) == EventsWeight(s) + if e.PingEvent? then 3 else 1
  {
    if s == [] {
      assert s + [e] == [e] && [e][1..] == [];
    } else {
      assert (s + [e])[0] == s[0] && (s + [e])[1..] == s[1..] + [e];
      WeightAppend(s[1..], e);
    }
  }

  function Weight(w: World): nat {
    3 * |w.c.outbound| + 2 * |w.c.wire| + EventsWeight(w.toClient)
  }

  function Phase(c: Client): nat { if c.waiting.Some? then 1 else 0 }

  /** Goes on towards the end, with the same publishes. */
  ghost predicate Onward(w: World, w': World) {
    && Alive(w'.c) && w'.c.published == w.c.published
    && (w'.c.waiting.Some? || AwaitsFlush(w'.c))
    && (Phase(w'.c) < Phase(w.c)
        || (Phase(w'.c) == Phase(w.c) && |w'.c.drains| < |w.c.drains|)
        || (Phase(w'.c) == Phase(w.c) && w'.c.drains == w.c.drains && Weight(w') < Weight(w)))
  }

  ghost predicate Draining(w: World) {
    Safe(w) && Accounted(w.c) && Alive(w.c) && (w.c.waiting.Some? || AwaitsFlush(w.c))
  }

  lemma SendOnward(w: World)
    requires Draining(w) && w.c.outbound != []
    ensures Legal(w, AMicrotask) && Onward(w, Next(w, AMicrotask))
  {
    hide Numbers, PubsKept, PongsInOrder, Sids, Conserved, DrainsOk, MarksOk, Accounted, EventsWeight;
  }

  lemma TakeOnward(w: World)
    requires Draining(w) && w.c.wire != []
    ensures Legal(w, ServerTakes) && Onward(w, Next(w, ServerTakes))
  {
    hide Safe, Accounted, EventsWeight;
    TakeClient(w);
    if w.c.wire[0].Ping? {
      WeightAppend(w.toClient, Pong(w.c.wire[0].id));
    }
  }

  lemma ReceiveOnward(w: World)
    requires Draining(w) && w.toClient != []
    ensures Legal(w, AReceive) && Onward(w, Next(w, AReceive))
  {
    hide Numbers, PubsKept, PongsInOrder, Sids, Conserved, DrainsOk, MarksOk, Accounted, OnMsg;
    match w.toClient[0]
    case Info => assert w.c.infoReceived;
    case Pong(_) =>
    case PingEvent =>
    case Msg(m) => MsgOnward(w.c, m);
  }

  lemma MsgOnward(c: Client, m: Message)
    ensures OnMsg(c, m) == c.(received := OnMsg(c, m).received, dispatched := OnMsg(c, m).dispatched)
  {
  }

  /** With nothing on its way every deferred is settled. */
  lemma NothingOnItsWay(w: World)
    requires Draining(w) && w.c.outbound == [] && w.c.wire == [] && w.toClient == []
    ensures w.c.pongs == [] && w.reached == w.c.published
  {
    hide Numbers, Sids, Conserved, DrainsOk, MarksOk, Accounted;
    assert Pipe(w.c) == [];
  }

  lemma CancelOnward(w: World, id: nat)
    requires Draining(w) && id in w.c.drains && w.c.pongs == []
    ensures Legal(w, AAfterDrain(id)) && Onward(w, Next(w, AAfterDrain(id)))
  {
    hide PubsKept, PongsInOrder, Sids, Quiet, Conserved, DrainsOk, MarksOk, Accounted;
    assert w.c.drains.Keys == (w.c.drains - {id}).Keys + {id};
  }

  lemma FlushOnward(w: World)
    requires Draining(w) && w.c.drains == map[] && w.c.waiting.Some?
    ensures Legal(w, AAfterDrains) && Onward(w, Next(w, AAfterDrains))
  {
    hide PubsKept, PongsInOrder, Sids, Conserved, DrainsOk, MarksOk, Accounted;
  }

  lemma CloseAtLast(w: World)
    requires Draining(w) && w.c.pongs == [] && w.c.waiting.None?
    ensures Legal(w, AClose)
  {
    hide PubsKept, PongsInOrder, Sids, Quiet, Conserved, DrainsOk, MarksOk;
  }

  /** What happens next when nobody calls. */
  lemma Proceeds(w: World) returns (a: Action)
    requires Draining(w)
    ensures Legal(w, a) && Unaided(a)
    ensures if a.AClose? then w.reached == w.c.published else Onward(w, Next(w, a))
  {
    hide Draining, Onward, Legal, Next;
    if w.c.outbound != [] {
      SendOnward(w);
      return AMicrotask;
    }
    if w.c.wire != [] {
      TakeOnward(w);
      return ServerTakes;
    }
    if w.toClient != [] {
      ReceiveOnward(w);
      return AReceive;
    }
    NothingOnItsWay(w);
    if w.c.waiting.None? {
      CloseAtLast(w);
      return AClose;
    }
    if w.c.drains == map[] {
      FlushOnward(w);
      return AAfterDrains;
    }
    var id :| id in w.c.drains;
    CancelOnward(w, id);
    return AAfterDrain(id);
  }

  /** So the drain ends, and every publish has reached the server then. */
  lemma {:induction false} DrainEnds(w: World) returns (run: seq<Action>)
    requires Draining(w)
    ensures LegalRun(w, run) && AllUnaided(run)
    ensures After(w, run).c.closed && After(w, run).reached == w.c.published
    decreases Phase(w.c), |w.c.drains|, Weight(w)
  {
    var a := Proceeds(w);
    hide Legal, Safe, Accounted, Weight;
    var w' := Next(w, a);
    if a.AClose? {
      run := [a];
      CloseCloses(w);
      RunNothing(w');
      assert run[1..] == [];
    } else {
      assert Draining(w') by {
        StepSafe(w, a);
        StepAccounted(w, a);
      }
      hide Next;
      var rest := DrainEnds(w');
      run := [a] + rest;
      assert run[1..] == rest;
    }
  }

  lemma CloseCloses(w: World)
    ensures Next(w, AClose).c.closed && Next(w, AClose).reached == w.reached
  {
  }

  // --------------------------------------------------------- and when it does not

  lemma StaysOpen(w: World, a: Action)
    requires Safe(w) && Legal(w, a) && Unaided(a) && !w.c.closed && w.c.waiting.None? && !AwaitsFlush(w.c)
    ensures var c := Next(w, a).c; !c.closed && c.waiting.None? && !AwaitsFlush(c)
  {
    hide PubsKept, PongsInOrder, Sids, Quiet, Conserved, DrainsOk, MarksOk;
    if a.AReceive? {
      hide Receive;
      ReceiveKeepsMarks(w);
      ReceiveKeepsWaiting(w);
    }
  }

  lemma ReceiveKeepsWaiting(w: World)
    requires w.toClient != []
    ensures var c, c' := w.c, Receive(w).c; c'.last == c.last && c'.waiting == c.waiting && c'.closed == c.closed
  {
    hide OnMsg;
    match w.toClient[0]
    case Info => assert OnInfo(w.c).last == w.c.last;
    case Pong(_) =>
    case PingEvent =>
    case Msg(m) => MsgOnward(w.c, m);
  }

  lemma {:induction false} NeverCloses(w: World, run: seq<Action>)
    requires Safe(w) && LegalRun(w, run) && AllUnaided(run)
    requires !w.c.closed && w.c.waiting.None? && !AwaitsFlush(w.c)
    ensures !After(w, run).c.closed
    decreases |run|
  {
    hide Safe, Legal, Next, Unaided, AwaitsFlush;
    if run != [] {
      StaysOpen(w, run[0]);
      StepSafe(w, run[0]);
      NeverCloses(Next(w, run[0]), run[1..]);
    }
  }

  ghost predicate CanClose(w: World) {
    exists more :: LegalRun(w, more) && AllUnaided(more) && After(w, more).c.closed
  }

  /** In every run, a connection that is up can come to its close without further calls
      exactly when it waits for drains, or for a last flush that was not rejected. */
  lemma ClosesIff(run: seq<Action>)
    requires LegalRun(Start(), run) && Alive(After(Start(), run).c)
    ensures var w := After(Start(), run);
            CanClose(w) <==> w.c.waiting.Some? || AwaitsFlush(w.c)
  {
    hide LegalRun, After, Safe, AwaitsFlush, Accounted;
    var w := After(Start(), run);
    Reachable(run);
    assert Accounted(Start().c) by { StartAccounted(); }
    RunAccounted(Start(), run);
    if w.c.waiting.Some? || AwaitsFlush(w.c) {
      var more := DrainEnds(w);
    } else {
      forall more | LegalRun(w, more) && AllUnaided(more)
        ensures !After(w, more).c.closed
      {
        NeverCloses(w, more);
      }
    }
  }

  lemma StartAccounted()
    ensures Accounted(Start().c)
  {
  }

  /** A connection that waits for its last flush is lost: the flush is rejected. */
  lemma RejectedExample() returns (run: seq<Action>)
    ensures LegalRun(Start(), run)
    ensures var c := After(Start(), run).c; c.last.Some? && c.last.value in c.rejected && !c.closed
  {
    hide LegalRun, After;
    run := HandshakeExample();
    RunMore(Start(), run, AEstablished([]));
    run := run + [AEstablished([])];
    RunMore(Start(), run, AWaitForDrains);
    run := run + [AWaitForDrains];
    RunMore(Start(), run, AAfterDrains);
    run := run + [AAfterDrains];
    var c := After(Start(), run).c;
    assert c.last == Some(2) && c.pongs == [2];
    RunMore(Start(), run, ALost);
    run := run + [ALost];
    RunMore(Start(), run, APrepare);
    run := run + [APrepare];
    assert 2 in [2];
  }
}
