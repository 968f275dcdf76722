/** What the server is subscribed to: every subscription of the client that is not being
    drained, and nothing else, once it has taken what is on its way; also after the
    connection was lost and made again. */
module Announced {
  import opened Bytes
  import opened Connection

  function Taken(subs: set<nat>, cmd: Command): set<nat> {
    match cmd
    case Sub(sid) => subs + {sid}
    case Unsub(sid) => subs - {sid}
    case _ => subs
  }

  /** The subscriptions when all these commands have been taken. */
  function SubsAfter(subs: set<nat>, cmds: seq<Command>): set<nat>
    decreases |cmds|
  {
    if cmds == [] then subs else SubsAfter(Taken(subs, cmds[0]), cmds[1..])
  }

  lemma {:induction false} SubsAppend(subs: set<nat>, a: seq<Command>, b: seq<Command>)
    ensures SubsAfter(subs, a + b) == SubsAfter(SubsAfter(subs, a), b)
    decreases |a|
  {
    if a == [] {
      assert a + b == b;
    } else {
      assert (a + b)[0] == a[0] && (a + b)[1..] == a[1..] + b;
      SubsAppend(Taken(subs, a[0]), a[1..], b);
    }
  }

  lemma SubsMore(subs: set<nat>, cmds: seq<Command>, cmd: Command)
    ensures SubsAfter(subs, cmds + [cmd]) == Taken(SubsAfter(subs, cmds), cmd)
  {
    SubsAppend(subs, cmds, [cmd]);
    assert [cmd][1..] == [];
  }

  /** What becomes of one subscription does not depend on the others. */
  lemma {:induction false} OneByOne(s: set<nat>, t: set<nat>, cmds: seq<Command>, sid: nat)
    requires sid in s <==> sid in t
    ensures sid in SubsAfter(s, cmds) <==> sid in SubsAfter(t, cmds)
    decreases |cmds|
  {
    if cmds != [] {
      OneByOne(Taken(s, cmds[0]), Taken(t, cmds[0]), cmds[1..], sid);
    }
  }

  lemma {:induction false} NeverSubscribed(s: set<nat>, cmds: seq<Command>, sid: nat)
    requires sid !in s && Sub(sid) !in cmds
    ensures sid !in SubsAfter(s, cmds)
    decreases |cmds|
  {
    if cmds != [] {
      assert cmds[0] in cmds;
      NeverSubscribed(Taken(s, cmds[0]), cmds[1..], sid);
    }
  }

  lemma {:induction false} OtherCommands(s: set<nat>, cmds: seq<Command>)
    requires forall cmd :: cmd in cmds ==> !cmd.Sub? && !cmd.Unsub?
    ensures SubsAfter(s, cmds) == s
    decreases |cmds|
  {
    if cmds != [] {
      assert cmds[0] in cmds;
      OtherCommands(s, cmds[1..]);
    }
  }

  lemma {:induction false} AllSubscribed(s: set<nat>, all: seq<Command>)
    requires forall i :: 0 <= i < |all| ==> all[i].Sub?
    ensures forall sid :: sid in SubsAfter(s, all) <==> sid in s || Sub(sid) in all
    decreases |all|
  {
    if all != [] {
      AllSubscribed(Taken(s, all[0]), all[1..]);
      assert all == [all[0]] + all[1..];
    }
  }

  // --------------------------------------------------------------- the invariant

  /** The subscriptions whose drain goes on. */
  function Draining(c: Client): set<nat> {
    set id | id in c.drains && id !in c.rejected :: c.drains[id]
  }

  ghost predicate NoneRejected(c: Client) {
    forall id :: id in c.drains ==> id !in c.rejected
  }

  /** Before the handshake is over everything is still to be announced, ahead of what is
      buffered. */
  ghost predicate ToBeAnnounced(c: Client) {
    && SubsAfter(c.subs, c.outbound) == c.subs - Draining(c)
    && (forall id :: id in c.drains && id in c.rejected ==> Sub(c.drains[id]) !in c.outbound)
  }

  ghost predicate Known(w: World) {
    SubsAfter(w.serverSubs, Pipe(w.c)) == w.c.subs - Draining(w.c) && NoneRejected(w.c)
  }

  ghost predicate Announced(w: World) {
    w.c.up ==> if w.c.connected then Known(w) else ToBeAnnounced(w.c)
  }

  /** What a call changes: commands behind others, and which subscriptions there are. */
  lemma CallBooks(w: World, a: Action)
    requires IsClientCall(a)
    ensures var c, c' := w.c, Next(w, a).c;
            && Next(w, a) == w.(c := c') && Pipe(c') == Pipe(c) + Extra(c, a)
            && ((c.connected && c.infoReceived) || c'.outbound == c.outbound + Extra(c, a))
            && c'.up == c.up && c'.connected == c.connected && c'.rejected == c.rejected
            && c'.subs == (if a.ASubscribe? then c.subs + {c.sidCounter + 1}
                           else if a.AUnsubscribe? then c.subs - {a.sid} else c.subs)
            && c'.drains == if a.ADrain? && a.sid in c.subs && a.sid !in c.drains.Values
                            then c.drains[c.nextId := a.sid] else c.drains
  {
    hide Next, Pipe, Pings, Extra;
    CallAppends(w, a);
    ExtraPings(w.c, a);
  }

  /** A call has on `subs` the effect that its commands have at the server. */
  lemma CallEffect(c: Client, c': Client, a: Action, s: set<nat>)
    requires IsClientCall(a) && s == c.subs - Draining(c)
    requires forall id :: id in c.drains ==> id < c.nextId && c.drains[id] <= c.sidCounter
    requires forall id :: id in c.rejected ==> id < c.nextId
    requires c'.rejected == c.rejected
    requires c'.subs == (if a.ASubscribe? then c.subs + {c.sidCounter + 1}
                         else if a.AUnsubscribe? then c.subs - {a.sid} else c.subs)
    requires c'.drains == if a.ADrain? && a.sid in c.subs && a.sid !in c.drains.Values
                          then c.drains[c.nextId := a.sid] else c.drains
    ensures SubsAfter(s, Extra(c, a)) == c'.subs - Draining(c')
  {
    if a.ADrain? && a.sid in c.subs && a.sid !in c.drains.Values {
      DrainingMore(c, c', a.sid);
      SubsMore(s, [Unsub(a.sid)], Ping(c.nextId));
      SubsMore(s, [], Unsub(a.sid));
      assert [Unsub(a.sid)] + [Ping(c.nextId)] == Extra(c, a) && [] + [Unsub(a.sid)] == [Unsub(a.sid)];
    } else {
      assert Draining(c') == Draining(c);
      if Extra(c, a) != [] {
        SubsMore(s, [], Extra(c, a)[0]);
        assert Extra(c, a) == [] + [Extra(c, a)[0]];
      }
      if a.ASubscribe? {
        assert c.sidCounter + 1 !in Draining(c);
      }
    }
  }

  lemma DrainingMore(c: Client, c': Client, sid: nat)
    requires c'.drains == c.drains[c.nextId := sid] && c'.rejected == c.rejected
    requires c.nextId !in c.drains && c.nextId !in c.rejected
    ensures Draining(c') == Draining(c) + {sid}
  {
    forall x | x in Draining(c')
      ensures x in Draining(c) + {sid}
    {
      var id :| id in c'.drains && id !in c'.rejected && c'.drains[id] == x;
    }
    forall x | x in Draining(c)
      ensures x in Draining(c')
    {
      var id :| id in c.drains && id !in c.rejected && c.drains[id] == x;
      assert id in c'.drains && c'.drains[id] == x;
    }
    assert c.nextId in c'.drains && c'.drains[c.nextId] == sid;
  }

  lemma CallAnnounced(w: World, a: Action)
    requires Base(w) && Announced(w) && IsClientCall(a)
    ensures Announced(Next(w, a))
  {
    hide Next, Extra, Pipe, Draining, SubsAfter, PubsKept, PongsInOrder, Sids, Conserved, Pings;
    CallBooks(w, a);
    if w.c.up {
      var c, c' := w.c, Next(w, a).c;
      CallEffect(c, c', a, c.subs - Draining(c));
      if c.connected {
        SubsAppend(w.serverSubs, Pipe(c), Extra(c, a));
        DrainsLater(c, c');
      } else {
        SubsAppend(c'.subs, c.outbound, Extra(c, a));
        OutboundEffect(c, c', a);
      }
    }
  }

  lemma DrainsLater(c: Client, c': Client)
    requires NoneRejected(c) && c'.rejected == c.rejected && forall id :: id in c.rejected ==> id < c.nextId
    requires c'.drains.Keys <= c.drains.Keys + {c.nextId}
    ensures NoneRejected(c')
  {
  }

  /** The same when the commands stay in the buffer and the subscriptions are to be
      announced ahead of it. */
  lemma OutboundEffect(c: Client, c': Client, a: Action)
    requires IsClientCall(a) && ToBeAnnounced(c)
    requires forall id :: id in c.drains ==> id < c.nextId && c.drains[id] <= c.sidCounter
    requires forall id :: id in c.rejected ==> id < c.nextId
    requires c'.rejected == c.rejected && c'.outbound == c.outbound + Extra(c, a)
    requires c'.subs == (if a.ASubscribe? then c.subs + {c.sidCounter + 1}
                         else if a.AUnsubscribe? then c.subs - {a.sid} else c.subs)
    requires c'.drains == if a.ADrain? && a.sid in c.subs && a.sid !in c.drains.Values
                          then c.drains[c.nextId := a.sid] else c.drains
    requires SubsAfter(c.subs - Draining(c), Extra(c, a)) == c'.subs - Draining(c')
    ensures ToBeAnnounced(c')
  {
    hide SubsAfter, Draining;
    SubsAppend(c'.subs, c.outbound, Extra(c, a));
    forall sid: nat
      ensures sid in SubsAfter(c'.subs, c'.outbound) <==> sid in c'.subs - Draining(c')
    {
      var s, t := SubsAfter(c'.subs, c.outbound), SubsAfter(c.subs, c.outbound);
      if sid in c'.subs <==> sid in c.subs {
        OneByOne(c'.subs, c.subs, c.outbound, sid);
        OneByOne(s, t, Extra(c, a), sid);
      } else {
        LastWord(c, c', a, s, t, sid);
      }
    }
  }

  lemma LastWord(c: Client, c': Client, a: Action, s: set<nat>, t: set<nat>, sid: nat)
    requires if a.ASubscribe? then sid == c.sidCounter + 1 else a.AUnsubscribe? && sid == a.sid && sid in c.subs
    ensures sid in SubsAfter(s, Extra(c, a)) <==> sid in SubsAfter(t, Extra(c, a))
  {
    var cmd := Extra(c, a)[0];
    assert Extra(c, a) == [] + [cmd];
    SubsMore(s, [], cmd);
    SubsMore(t, [], cmd);
  }

  lemma AfterDrainAnnounced(w: World, id: nat)
    requires Safe(w) && Announced(w) && Legal(w, AAfterDrain(id))
    ensures Announced(Next(w, AAfterDrain(id)))
  {
    hide SubsAfter, PubsKept, PongsInOrder, Sids, Conserved, MarksOk, Draining, Quiet, Numbers;
    var c, c' := w.c, Next(w, AAfterDrain(id)).c;
    var sid := c.drains[id];
    DrainingLess(c, c', id);
    if c.up && !c.connected {
      SettledIsRejected(w, id);
      NeverSubscribed(c'.subs, c.outbound, sid);
      forall other: nat | other != sid
        ensures other in SubsAfter(c'.subs, c.outbound) <==> other in SubsAfter(c.subs, c.outbound)
      {
        OneByOne(c'.subs, c.subs, c.outbound, other);
      }
    }
  }

  lemma SettledIsRejected(w: World, id: nat)
    requires Safe(w) && w.c.up && !w.c.connected && id in w.c.drains && Settled(w.c, id)
    ensures id in w.c.rejected
  {
    assert id in w.c.rejected || DrainOk(w, id, w.c.drains[id]);
  }

  lemma DrainingLess(c: Client, c': Client, id: nat)
    requires id in c.drains && c' == AfterDrain(c, id)
    ensures forall x :: x != c.drains[id] ==> (x in Draining(c') <==> x in Draining(c))
    ensures id !in c.rejected ==> c.drains[id] in Draining(c)
  {
    forall x | x != c.drains[id] && x in Draining(c)
      ensures x in Draining(c')
    {
      var k :| k in c.drains && k !in c.rejected && c.drains[k] == x;
      assert k in c'.drains && c'.drains[k] == x;
    }
    forall x | x in Draining(c')
      ensures x in Draining(c)
    {
      var k :| k in c'.drains && k !in c'.rejected && c'.drains[k] == x;
      assert k in c.drains && c.drains[k] == x;
    }
  }

  lemma PrepareAnnounced(w: World)
    requires Base(w) && Legal(w, APrepare)
    ensures Announced(Next(w, APrepare))
  {
    hide PubsKept, PongsInOrder, Sids, Conserved, Quiet;
    var c' := Next(w, APrepare).c;
    assert forall id :: id in w.c.pongs ==> id in AsSet(w.c.pongs);
    assert Draining(c') == {};
  }

  lemma EstablishedAnnounced(w: World, all: seq<Command>)
    requires Base(w) && Announced(w) && Legal(w, AEstablished(all))
    ensures Announced(Next(w, AEstablished(all)))
  {
    hide SubsAfter, PubsKept, Sids, Conserved, Numbers, Draining, Pings, Pongs;
    var c, c' := w.c, Next(w, AEstablished(all)).c;
    assert Pipe(c') == c.wire + all + c.outbound;
    assert forall cmd :: cmd in c.wire ==> !cmd.Sub? && !cmd.Unsub?;
    OtherCommands({}, c.wire);
    SubsAppend({}, c.wire, all);
    AllSubscribed({}, all);
    assert SubsAfter({}, c.wire + all) == c.subs by { AnnouncedAre(c, all); }
    SubsAppend({}, c.wire + all, c.outbound);
    assert Draining(c') == Draining(c) by { SameDraining(c, c'); }
  }

  lemma AnnouncedAre(c: Client, all: seq<Command>)
    requires Announces(c, all) && SubsAfter({}, c.wire + all) == SubsAfter({}, all)
    ensures SubsAfter({}, c.wire + all) == c.subs
  {
    AllSubscribed({}, all);
  }

  lemma SameDraining(c: Client, c': Client)
    requires c'.drains == c.drains && c'.rejected == c.rejected
    ensures Draining(c') == Draining(c)
  {
  }

  lemma ReceiveAnnounced(w: World)
    requires Base(w) && Announced(w) && w.c.up && w.toClient != []
    ensures Announced(Receive(w))
  {
    hide SubsAfter, PubsKept, PongsInOrder, Sids, Conserved, Numbers, Draining, Receive;
    var c, c', extra := w.c, Receive(w).c, Added(w.c, w.toClient[0]);
    ReceiveBooks(w);
    SameDraining(c, c');
    assert Pipe(c') == c.wire + extra + c.outbound;
    SubsAppend(w.serverSubs, c.wire + extra, c.outbound);
    SubsAppend(w.serverSubs, c.wire, extra);
    SubsAppend(w.serverSubs, c.wire, c.outbound);
    OtherCommands(SubsAfter(w.serverSubs, c.wire), extra);
  }

  lemma ReceiveBooks(w: World)
    requires w.toClient != []
    ensures var c, c', extra := w.c, Receive(w).c, Added(w.c, w.toClient[0]);
            && c'.wire == c.wire + extra && c'.outbound == c.outbound && c'.connected == c.connected
            && c'.drains == c.drains && c'.rejected == c.rejected && c'.subs == c.subs && c'.up == c.up
            && Receive(w).serverSubs == w.serverSubs
            && forall cmd :: cmd in extra ==> !cmd.Sub? && !cmd.Unsub?
  {
    hide OnMsg;
    match w.toClient[0]
    case Info => InfoBooks(w.c);
    case Pong(_) => PongBooks(w.c);
    case PingEvent =>
    case Msg(m) => MsgBooks(w.c, m);
  }

  lemma InfoBooks(c: Client)
    ensures var c' := OnInfo(c);
            && c'.wire == c.wire + Added(c, Info) && c'.outbound == c.outbound && c'.connected == c.connected
            && c'.drains == c.drains && c'.rejected == c.rejected && c'.subs == c.subs && c'.up == c.up
  {
  }

  lemma PongBooks(c: Client)
    ensures var c' := OnPong(c);
            && c'.wire == c.wire && c'.outbound == c.outbound && c'.connected == c.connected
            && c'.drains == c.drains && c'.rejected == c.rejected && c'.subs == c.subs && c'.up == c.up
  {
  }

  lemma MsgBooks(c: Client, m: Message)
    ensures var c' := OnMsg(c, m);
            && c'.wire == c.wire && c'.outbound == c.outbound && c'.connected == c.connected
            && c'.drains == c.drains && c'.rejected == c.rejected && c'.subs == c.subs && c'.up == c.up
  {
  }

  lemma TakeAnnounced(w: World)
    requires Announced(w) && w.c.up && w.c.wire != []
    ensures Announced(Take(w))
  {
    hide Draining;
    TakeClient(w);
    SameDraining(w.c, Take(w).c);
    assert Pipe(w.c)[0] == w.c.wire[0] && Pipe(w.c)[1..] == Pipe(Take(w).c);
    assert Take(w).serverSubs == Taken(w.serverSubs, w.c.wire[0]);
  }

  lemma StepAnnounced(w: World, a: Action)
    requires Safe(w) && Announced(w) && Legal(w, a)
    ensures Announced(Next(w, a))
  {
    hide Announced, Base, DrainsOk, MarksOk, Idle, Announces, Settled;
    if IsClientCall(a) {
      CallAnnounced(w, a);
    } else if a.APrepare? {
      PrepareAnnounced(w);
    } else if a.AEstablished? {
      EstablishedAnnounced(w, a.all);
    } else if a.AReceive? {
      ReceiveAnnounced(w);
    } else if a.ServerTakes? {
      TakeAnnounced(w);
    } else if a.AAfterDrain? {
      AfterDrainAnnounced(w, a.id);
    } else {
      OtherAnnounced(w, a);
    }
  }

  lemma OtherAnnounced(w: World, a: Action)
    requires Announced(w) && Legal(w, a) && !IsClientCall(a)
    requires !a.APrepare? && !a.AEstablished? && !a.AReceive? && !a.ServerTakes? && !a.AAfterDrain?
    ensures Announced(Next(w, a))
  {
    hide Draining, SubsAfter, Idle;
    if !a.ALost? {
      SameDraining(w.c, Next(w, a).c);
    }
  }

  lemma {:induction false} RunAnnounced(w: World, run: seq<Action>)
    requires Safe(w) && Announced(w) && LegalRun(w, run)
    ensures Announced(After(w, run))
    decreases |run|
  {
    hide Safe, Announced, Legal, Next;
    if run != [] {
      StepSafe(w, run[0]);
      StepAnnounced(w, run[0]);
      RunAnnounced(Next(w, run[0]), run[1..]);
    }
  }

  lemma StartAnnounced()
    ensures Safe(Start()) && Announced(Start())
  {
  }

  /** In every run, while connected: when the server has taken what is on its way, it is
      subscribed to exactly the subscriptions of the client that are not draining. */
  lemma ServerWillKnow(run: seq<Action>)
    requires LegalRun(Start(), run)
    ensures var w := After(Start(), run);
            w.c.up && w.c.connected ==> SubsAfter(w.serverSubs, Pipe(w.c)) == w.c.subs - w.c.drains.Values
  {
    hide LegalRun, After, Safe, Pipe, SubsAfter;
    StartAnnounced();
    RunAnnounced(Start(), run);
    var w := After(Start(), run);
    if w.c.up && w.c.connected {
      assert Draining(w.c) == w.c.drains.Values by { DrainingAll(w.c); }
    }
  }

  lemma DrainingAll(c: Client)
    requires NoneRejected(c)
    ensures Draining(c) == c.drains.Values
  {
  }

  /** Taking everything that is on the wire, one command after the other. */
  lemma {:induction false} TakesAll(w: World) returns (run: seq<Action>)
    requires w.c.up && w.c.outbound == []
    ensures LegalRun(w, run) && forall i :: 0 <= i < |run| ==> run[i] == ServerTakes
    ensures var w' := After(w, run); w'.c.wire == [] && w'.serverSubs == SubsAfter(w.serverSubs, Pipe(w.c))
    decreases |w.c.wire|
  {
    assert Pipe(w.c) == w.c.wire;
    if w.c.wire == [] {
      run := [];
    } else {
      TakeClient(w);
      var w' := Take(w);
      assert Pipe(w'.c) == w.c.wire[1..];
      assert w'.serverSubs == Taken(w.serverSubs, w.c.wire[0]);
      var rest := TakesAll(w');
      run := [ServerTakes] + rest;
      assert run[1..] == rest && Next(w, ServerTakes) == w';
    }
  }

  /** So after a dial, when the server has taken what it was sent, it has every
      subscription again that is not draining, and no other. */
  lemma DialAnnounces(run: seq<Action>, all: seq<Command>) returns (more: seq<Action>)
    requires LegalRun(Start(), run) && Legal(After(Start(), run), AEstablished(all))
    ensures var w := Next(After(Start(), run), AEstablished(all));
            && LegalRun(w, more) && (forall i :: 0 <= i < |more| ==> more[i] == ServerTakes)
            && After(w, more).serverSubs == w.c.subs - w.c.drains.Values
            && w.c.subs == After(Start(), run).c.subs
  {
    var w0 := After(Start(), run);
    var w := Next(w0, AEstablished(all));
    assert w0.c.infoReceived by {
      Reachable(run);
      hide LegalRun, After, Announces;
      HandshakeWaits(w0);
    }
    hide LegalRun, After, SubsAfter, Pipe, Legal;
    RunMore(Start(), run, AEstablished(all));
    ServerWillKnow(run + [AEstablished(all)]);
    more := TakesAll(w);
  }

  // ----------------------------------------------------------- nothing is ignored

  /** What was published since the last dial began. */
  function PublishedIn(before: seq<nat>, run: seq<Action>): seq<nat>
    decreases |run|
  {
    if run == [] then before
    else
      PublishedIn(match run[0] case APublish(n, _) => before + [n] case APrepare => [] case _ => before, run[1..])
  }

  /** In every run the publishes of a connection are those made since its dial began, in
      order; `PubsKept` says where each of them is. */
  lemma {:induction false} PublishesAreKept(w: World, run: seq<Action>)
    ensures After(w, run).c.published == PublishedIn(w.c.published, run)
    decreases |run|
  {
    if run != [] {
      StepPublished(w, run[0]);
      hide Next;
      PublishesAreKept(Next(w, run[0]), run[1..]);
    }
  }

  lemma StepPublished(w: World, a: Action)
    ensures Next(w, a).c.published
         == match a case APublish(n, _) => w.c.published + [n] case APrepare => [] case _ => w.c.published
  {
    if IsClientCall(a) {
      hide Next, Extra, Pings, Pipe;
      CallAppends(w, a);
    } else if a.AReceive? {
      if w.toClient != [] {
        hide Receive;
        ReceivePublished(w);
      }
    } else if a.ServerTakes? {
      if w.c.wire != [] {
        TakeClient(w);
      }
    }
  }

  lemma ReceivePublished(w: World)
    requires w.toClient != []
    ensures Receive(w).c.published == w.c.published
  {
    hide OnMsg, OnPong, OnInfo;
    match w.toClient[0]
    case Info => assert OnInfo(w.c).published == w.c.published by { InfoPublished(w.c); }
    case Pong(_) => PongPublished(w.c);
    case PingEvent =>
    case Msg(m) => MsgPublished(w.c, m);
  }

  lemma InfoPublished(c: Client)
    ensures OnInfo(c).published == c.published
  {
  }

  lemma PongPublished(c: Client)
    ensures OnPong(c).published == c.published
  {
  }

  lemma MsgPublished(c: Client, m: Message)
    ensures OnMsg(c, m).published == c.published
  {
  }

  /** A call does what it is for: a subscription gets a number that none had, and stays
      until it is unsubscribed; a drain puts UNSUB and PING behind everything sent; a flush
      puts a PING there, with its deferred last in the list. */
  lemma CallsDo(w: World, a: Action)
    requires Numbers(w) && IsClientCall(a)
    ensures var c, c' := w.c, Next(w, a).c;
            && (a.APublish? ==> Pipe(c') == Pipe(c) + [Pub(a.n)])
            && (a.ASubscribe? ==>
                  && c.sidCounter + 1 !in c.subs && c'.subs == c.subs + {c.sidCounter + 1}
                  && Pipe(c') == Pipe(c) + [Sub(c.sidCounter + 1)])
            && (a.AUnsubscribe? ==> c'.subs == c.subs - {a.sid})
            && (a.AUnsubscribe? && a.sid in c.subs ==> Pipe(c') == Pipe(c) + [Unsub(a.sid)])
            && (a.ADrain? && a.sid in c.subs && a.sid !in c.drains.Values ==>
                  && Pipe(c') == Pipe(c) + [Unsub(a.sid), Ping(c.nextId)] && c'.pongs == c.pongs + [c.nextId]
                  && c'.drains == c.drains[c.nextId := a.sid] && c.nextId !in c.drains && c'.subs == c.subs)
            && (a.AFlush? ==>
                  && Pipe(c') == Pipe(c) + [Ping(c.nextId)] && c'.pongs == c.pongs + [c.nextId]
                  && c'.marks == c.marks[c.nextId := |c.published|])
  {
    hide Next, Pings, Pipe;
    CallAppends(w, a);
    ExtraPings(w.c, a);
  }
}
