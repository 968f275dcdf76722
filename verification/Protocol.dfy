/** The protocol handler of a client: the fields it keeps, changed in place, and the
    methods that change them. */
module Protocol {
  import opened Bytes
  import opened Connection
  import Announced

  class ProtocolHandler {
    var up: bool
    var infoReceived: bool
    var connected: bool
    var closed: bool
    var outbound: seq<Command>
    var wire: seq<Command>             // of the transport
    var pongs: seq<nat>
    var nextId: nat
    var handshake: nat
    var resolved: set<nat>
    var rejected: set<nat>
    var sidCounter: nat
    var subs: set<nat>
    var drains: map<nat, nat>
    ghost var marks: map<nat, nat>
    var waiting: Option<set<nat>>
    var last: Option<nat>
    ghost var published: seq<nat>
    ghost var received: seq<Message>
    ghost var dispatched: seq<Message>

    ghost function State(): Client
      reads this
    {
      Client(up, infoReceived, connected, closed, outbound, wire, pongs, nextId, handshake, resolved, rejected,
             sidCounter, subs, drains, marks, waiting, last, published, received, dispatched)
    }

    constructor ()
      ensures State() == Start().c
    {
      up, infoReceived, connected, closed := false, false, false, false;
      outbound, wire, pongs, nextId, handshake := [], [], [], 1, 0;
      resolved, rejected, sidCounter, subs, drains, marks := {}, {}, 0, {}, map[], map[];
      waiting, last, published, received, dispatched := None, None, [], [], [];
    }

    method FlushPending()
      modifies this`outbound, this`wire
      ensures State() == Connection.FlushPending(old(State()))
      ensures if infoReceived && connected then outbound == [] && wire == old(wire + outbound)
              else outbound == old(outbound) && wire == old(wire)
    {
      if !infoReceived || !connected {
        return;
      }
      if outbound != [] {
        var d := outbound;
        outbound := [];
        wire := wire + d;
      } else {
        assert wire + outbound == wire;
      }
    }

    /** `now`: the buffer was not empty before, and has reached the limit. Otherwise it is
        flushed by a microtask. */
    method SendCommand(cmd: Command, now: bool)
      modifies this`outbound, this`wire
      ensures State() == Connection.SendCommand(old(State()), cmd, now)
      ensures wire + outbound == old(wire + outbound) + [cmd]
      ensures now && infoReceived && connected ==> outbound == []
    {
      hide Connection.FlushPending;
      outbound := outbound + [cmd];
      if now {
        FlushPending();
      }
    }

    method Flush() returns (id: nat)
      modifies this`outbound, this`wire, this`nextId, this`pongs, this`marks
      ensures id == old(nextId) && State() == Connection.Flush(old(State()))
    {
      hide Connection.FlushPending, WithPing;
      id := AddPing();
      FlushPending();
    }

    method AddPing() returns (id: nat)
      modifies this`outbound, this`nextId, this`pongs, this`marks
      ensures id == old(nextId) && State() == WithPing(old(State()))
    {
      id := nextId;
      nextId := nextId + 1;
      pongs := pongs + [id];
      marks := marks[id := |published|];
      outbound := outbound + [Ping(id)];
    }

    method Publish(n: nat, now: bool)
      modifies this`outbound, this`wire, this`published
      ensures State() == Connection.Publish(old(State()), n, now)
    {
      published := published + [n];
      SendCommand(Pub(n), now);
    }

    method Subscribe(now: bool) returns (sid: nat)
      modifies this`outbound, this`wire, this`sidCounter, this`subs
      ensures sid == old(sidCounter) + 1 && State() == Connection.Subscribe(old(State()), now)
    {
      sidCounter := sidCounter + 1;
      sid := sidCounter;
      subs := subs + {sid};
      SendCommand(Sub(sid), now);
    }

    method Unsubscribe(sid: nat, now: bool)
      modifies this`outbound, this`wire, this`subs
      ensures State() == Connection.Unsubscribe(old(State()), sid, now)
    {
      if sid in subs {
        SendCommand(Unsub(sid), now);
        subs := subs - {sid};
      }
    }

    /** Of one subscription; a second call changes nothing. */
    method Drain(sid: nat, now: bool)
      modifies this`outbound, this`wire, this`nextId, this`pongs, this`marks, this`drains
      ensures State() == Connection.Drain(old(State()), sid, now)
    {
      if sid in subs && sid !in drains.Values {
        SendCommand(Unsub(sid), now);
        drains := drains[nextId := sid];
        var id := Flush();
      }
    }

    method AfterDrain(id: nat)
      requires id in drains
      modifies this`subs, this`drains
      ensures State() == Connection.AfterDrain(old(State()), id)
    {
      var sid := drains[id];
      subs := subs - {sid};
      drains := drains - {id};
    }

    method ResetOutbound()
      modifies this`outbound, this`pongs, this`infoReceived, this`rejected
      ensures State() == Connection.ResetOutbound(old(State()))
    {
      hide AsSet;
      outbound, infoReceived := [], false;
      var before := pongs;
      pongs := [];
      RejectAll(before);
    }

    method RejectAll(ids: seq<nat>)
      modifies this`rejected
      ensures rejected == old(rejected) + AsSet(ids)
    {
      for i := 0 to |ids|
        invariant forall id :: id in rejected <==> id in old(rejected) || id in ids[..i]
      {
        rejected := rejected + {ids[i]};
      }
    }

    method Prepare() returns (pong: nat)
      modifies this
      ensures pong == handshake && State() == Connection.Prepare(old(State()))
      ensures up && !connected && !infoReceived && outbound == [] && wire == [] && pongs == [pong]
      ensures forall id :: id in old(pongs) ==> id in rejected
    {
      hide Connection.ResetOutbound, WithHandshake, WithTransport, WithoutHistory;
      PrepareIs(State());
      ResetOutbound();
      pong := NewHandshake();
      NewTransport();
      Forget();
    }

    method NewHandshake() returns (pong: nat)
      modifies this`handshake, this`pongs, this`nextId
      ensures pong == handshake && State() == WithHandshake(old(State()))
    {
      pong := nextId;
      nextId := nextId + 1;
      pongs := [pong] + pongs;
      handshake := pong;
    }

    method NewTransport()
      modifies this`up, this`connected, this`wire
      ensures State() == WithTransport(old(State())) && handshake == old(handshake)
    {
      up, connected, wire := true, false, [];
    }

    ghost method Forget()
      modifies this`published, this`received, this`dispatched
      ensures State() == WithoutHistory(old(State())) && handshake == old(handshake)
    {
      published, received, dispatched := [], [], [];
    }

    method ProcessInfo()
      modifies this
      ensures State() == OnInfo(old(State()))
      ensures wire == old(wire) + if old(infoReceived) then [] else [ConnectCmd, Ping(handshake)]
    {
      if !infoReceived {
        infoReceived := true;
        wire := wire + [ConnectCmd];
        wire := wire + [Ping(handshake)];
        assert wire == old(wire) + [ConnectCmd, Ping(handshake)];
      }
    }

    method ProcessPong()
      modifies this
      ensures State() == OnPong(old(State()))
      ensures old(pongs) != [] ==> pongs == old(pongs[1..]) && resolved == old(resolved) + {old(pongs[0])}
    {
      if pongs != [] {
        var cb := pongs[0];
        pongs := pongs[1..];
        resolved := resolved + {cb};
      }
    }

    method ProcessPing()
      modifies this
      ensures State() == OnPing(old(State()))
      ensures wire == old(wire) + [PongCmd]
    {
      wire := wire + [PongCmd];
    }

    method ProcessMsg(m: Message)
      modifies this
      ensures State() == OnMsg(old(State()), m)
      ensures dispatched == old(dispatched) + if m.sid in subs then [m] else []
    {
      received := received + [m];
      if m.sid in subs {
        dispatched := dispatched + [m];
      }
    }

    /** Straight to the transport, past the buffer. */
    method SendSubscriptions() returns (ghost all: seq<Command>)
      modifies this`wire
      ensures Announces(State(), all) && wire == old(wire) + all
    {
      var left := subs;
      all := [];
      while left != {}
        modifies this`wire
        invariant left <= subs && wire == old(wire) + all
        invariant forall i :: 0 <= i < |all| ==> all[i].Sub? && all[i].sid in subs
        invariant forall sid :: sid in subs - left ==> Sub(sid) in all
        decreases |left|
      {
        var sid :| sid in left;
        left := left - {sid};
        wire := wire + [Sub(sid)];
        all := all + [Sub(sid)];
        assert Sub(sid) == all[|all| - 1];
      }
    }

    /** What a dial does when its PONG has come. */
    method Established() returns (ghost all: seq<Command>)
      modifies this`connected, this`wire, this`outbound
      ensures Announces(old(State()), all) && State() == Connection.Established(old(State()), all)
      ensures connected && (infoReceived ==> wire == old(wire) + all + old(outbound) && outbound == [])
    {
      connected := true;
      all := SendSubscriptions();
      FlushPending();
    }

    /** What the connection's drain does when those of its subscriptions are over. */
    method AfterDrains()
      modifies this
      ensures State() == Connection.AfterDrains(old(State()))
    {
      var id := Flush();
      last, waiting := Some(id), None;
    }

    method WaitForDrains()
      modifies this`waiting
      ensures State() == old(State()).(waiting := Some(old(drains).Keys))
    {
      waiting := Some(drains.Keys);
    }

    /** Drains every subscription, and waits for all of that. A subscription whose
        iterator was stopped while it is in the table refuses to be drained; the refusal
        is swallowed, and the connection then waits for nothing and never goes on. */
    method DrainAll(stopped: set<nat>, ghost w: World) returns (ghost run: seq<Action>)
      requires Safe(w) && w.c == State()
      modifies this
      ensures LegalRun(w, run) && Safe(After(w, run)) && State() == After(w, run).c
      ensures subs == old(subs) && forall sid :: sid in subs - stopped ==> sid in drains.Values
      ensures waiting == if stopped !! subs then Some(drains.Keys) else old(waiting)
    {
      hide Connection.Drain, LegalRun, After, Safe, Next, Numbers;
      var left := subs - stopped;
      run := [];
      RunNothing(w);
      while left != {}
        modifies this
        invariant LegalRun(w, run) && Safe(After(w, run)) && State() == After(w, run).c
        invariant subs == old(subs) && waiting == old(waiting) && left <= subs - stopped
        invariant forall sid :: sid in subs - stopped - left ==> sid in drains.Values
        decreases |left|
      {
        var sid :| sid in left;
        left := left - {sid};
        ghost var now := After(w, run);
        DrainStep(now, sid);
        RunMore(w, run, ADrain(sid, false));
        Drain(sid, false);
        run := run + [ADrain(sid, false)];
      }
      if stopped !! subs {
        ghost var now := After(w, run);
        WaitStep(now);
        RunMore(w, run, AWaitForDrains);
        WaitForDrains();
        run := run + [AWaitForDrains];
      }
    }

    /** The transport hands its first command to the server. */
    method Deliver()
      requires wire != []
      modifies this`wire
      ensures State() == old(State()).(wire := old(wire)[1..])
    {
      wire := wire[1..];
    }

    method TransportClosed()
      modifies this`up, this`connected
      ensures State() == Lost(old(State()))
    {
      up, connected := false, false;
    }

    method Close()
      modifies this`closed, this`last
      ensures State() == Connection.Close(old(State()))
    {
      closed, last := true, None;
    }
  }

  lemma PrepareIs(c: Client)
    ensures var c' := Connection.Prepare(c);
            && c'.up && !c'.connected && !c'.infoReceived && c'.outbound == [] && c'.wire == []
            && c'.pongs == [c'.handshake] && forall id :: id in c.pongs ==> id in c'.rejected
  {
  }

  /** The handler is one client of the world: whatever is legal happens to it by one of
      its methods, and the world goes on being safe. For an announcement of subscriptions
      the order is the handler's. */
  method Perform(p: ProtocolHandler, a: Action, e: Event, ghost w: World) returns (ghost done: Action)
    requires Safe(w) && Legal(w, a) && w.c == p.State()
    requires a.AReceive? ==> w.toClient != [] && e == w.toClient[0]
    modifies p
    ensures Legal(w, done) && Safe(Next(w, done)) && p.State() == Next(w, done).c
    ensures Announced.Announced(w) ==> Announced.Announced(Next(w, done))
    ensures done == a || (done.AEstablished? && a.AEstablished?)
    ensures a.AReceive? && e.Pong? ==> p.resolved == old(p.resolved) + {e.id}
    ensures a.AAfterDrain? && w.c.up && a.id in w.c.resolved ==>
      var sid := w.c.drains[a.id];
      && (sid in w.c.subs ==> For(sid, p.dispatched) == For(sid, w.sent))
      && sid !in p.subs && Ended(w, sid)
  {
    hide Safe, Legal, Next, Announced.Announced;
    done := a;
    StepSafe(w, a);
    if Announced.Announced(w) {
      Announced.StepAnnounced(w, a);
    }
    if IsClientCall(a) {
      Call(p, a, w);
    } else if a.AReceive? {
      Receives(p, e, w);
    } else if a.AEstablished? {
      done := Establishes(p, a, w);
      StepSafe(w, done);
      if Announced.Announced(w) {
        Announced.StepAnnounced(w, done);
      }
    } else if a.AAfterDrain? {
      Cancels(p, a.id, w);
    } else {
      Happens(p, a, w);
    }
  }

  /** What the program calls. */
  method Call(p: ProtocolHandler, a: Action, ghost w: World)
    requires IsClientCall(a) && w.c == p.State()
    modifies p
    ensures p.State() == Next(w, a).c
  {
    hide Connection.Publish, Connection.Subscribe, Connection.Unsubscribe, Connection.Flush, Connection.Drain,
      Connection.FlushPending, Connection.AfterDrains;
    match a
    case APublish(n, now) => p.Publish(n, now);
    case ASubscribe(now) => var _ := p.Subscribe(now);
    case AUnsubscribe(sid, now) => p.Unsubscribe(sid, now);
    case AFlush => var _ := p.Flush();
    case ADrain(sid, now) => p.Drain(sid, now);
    case AMicrotask => p.FlushPending();
    case AAfterDrains => p.AfterDrains();
  }

  /** What the parser hands on. */
  method Receives(p: ProtocolHandler, e: Event, ghost w: World)
    requires Safe(w) && Legal(w, AReceive) && w.c == p.State() && e == w.toClient[0]
    modifies p
    ensures p.State() == Next(w, AReceive).c
    ensures e.Pong? ==> p.resolved == old(p.resolved) + {e.id}
  {
    hide OnInfo, OnPing, OnMsg, Numbers, PubsKept, Sids, Quiet, Conserved, DrainsOk, MarksOk;
    match e
    case Info => p.ProcessInfo();
    case Pong(_) =>
      PongIsForTheFirst(w);
      p.ProcessPong();
    case PingEvent => p.ProcessPing();
    case Msg(m) => p.ProcessMsg(m);
  }

  method Establishes(p: ProtocolHandler, a: Action, ghost w: World) returns (ghost done: Action)
    requires a.AEstablished? && Legal(w, a) && w.c == p.State()
    modifies p
    ensures done.AEstablished? && Legal(w, done) && p.State() == Next(w, done).c
  {
    hide Connection.Established, Announces;
    ghost var all := p.Established();
    done := AEstablished(all);
  }

  /** A subscription whose drain is settled is cancelled; when its PONG has come it has
      been given everything. */
  method Cancels(p: ProtocolHandler, id: nat, ghost w: World)
    requires Safe(w) && Legal(w, AAfterDrain(id)) && w.c == p.State()
    modifies p
    ensures p.State() == Next(w, AAfterDrain(id)).c
    ensures w.c.up && id in w.c.resolved ==>
      var sid := w.c.drains[id];
      && (sid in w.c.subs ==> For(sid, p.dispatched) == For(sid, w.sent))
      && sid !in p.subs && Ended(w, sid)
  {
    hide Safe, Ended, For;
    if w.c.up && id in w.c.resolved {
      DrainedHasAll(w, id);
    }
    p.AfterDrain(id);
  }

  /** The rest: dials, the end of a transport, what the connection waits for, and what
      the server does. */
  method Happens(p: ProtocolHandler, a: Action, ghost w: World)
    requires !IsClientCall(a) && !a.AReceive? && !a.AEstablished? && !a.AAfterDrain?
    requires Legal(w, a) && w.c == p.State()
    modifies p
    ensures p.State() == Next(w, a).c
  {
    hide Connection.Prepare, Lost, Connection.Close, Idle;
    match a
    case AWaitForDrains => p.WaitForDrains();
    case AClose => p.Close();
    case APrepare => var _ := p.Prepare();
    case ALost => p.TransportClosed();
    case ServerTakes => p.Deliver();
    case _ =>
  }

  lemma DrainStep(w: World, sid: nat)
    requires Safe(w)
    ensures Legal(w, ADrain(sid, false)) && Safe(Next(w, ADrain(sid, false)))
    ensures Next(w, ADrain(sid, false)).c == Connection.Drain(w.c, sid, false)
    ensures var c, c' := w.c, Connection.Drain(w.c, sid, false);
            && c'.subs == c.subs && c'.waiting == c.waiting
            && (forall other :: other in c.drains.Values ==> other in c'.drains.Values)
            && (sid in c.subs ==> sid in c'.drains.Values)
  {
    hide Connection.Drain, Numbers, DrainsOk, MarksOk;
    StepSafe(w, ADrain(sid, false));
    DrainCovers(w, sid, false);
    var c, c' := w.c, Connection.Drain(w.c, sid, false);
    forall other | other in c.drains.Values
      ensures other in c'.drains.Values
    {
      var id :| id in c.drains && c.drains[id] == other;
      assert c'.drains[id] == other;
    }
  }

  lemma WaitStep(w: World)
    requires Safe(w) && forall sid :: sid in w.c.subs ==> sid in w.c.drains.Values
    ensures Legal(w, AWaitForDrains) && Safe(Next(w, AWaitForDrains))
    ensures Next(w, AWaitForDrains).c == w.c.(waiting := Some(w.c.drains.Keys))
  {
    hide Safe;
    StepSafe(w, AWaitForDrains);
  }
}
