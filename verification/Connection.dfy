/** One client connection: commands gathered in a buffer, PINGs answered by PONGs in
    order, and what draining makes of that. */
module Connection {
  import opened Bytes

  /** Commands for the server. The number of a PING is that of the deferred it is to
      settle; it is not on the wire, and the client never reads it back. */
  datatype Command = ConnectCmd | Ping(id: nat) | PongCmd | Sub(sid: nat) | Unsub(sid: nat) | Pub(n: nat)

  datatype Message = Message(sid: nat, n: nat)

  /** What the server sends. A PONG carries the number of its PING, again for us only. */
  datatype Event = Info | Pong(id: nat) | PingEvent | Msg(m: Message)

  datatype Client = Client(
    up: bool,                      // there is a transport
    infoReceived: bool,
    connected: bool,
    closed: bool,
    outbound: seq<Command>,
    wire: seq<Command>,            // given to the transport, not yet with the server
    pongs: seq<nat>,               // deferreds, by number
    nextId: nat,
    handshake: nat,                // the deferred of the dial
    resolved: set<nat>,
    rejected: set<nat>,
    sidCounter: nat,
    subs: set<nat>,
    drains: map<nat, nat>,         // deferred of a drain that goes on: its subscription
    marks: map<nat, nat>,          // deferred of a flush: publishes before it
    waiting: Option<set<nat>>,     // drains the connection waits for before it closes
    last: Option<nat>,             // the flush it waits for after that
    published: seq<nat>,           // on this connection
    received: seq<Message>,        // on this connection
    dispatched: seq<Message>)      // of these, given to their subscriptions

  // ------------------------------------------------ the client, as functions

  function FlushPending(c: Client): Client {
    if c.infoReceived && c.connected then c.(wire := c.wire + c.outbound, outbound := []) else c
  }

  /** `now`: the buffer has reached its limit. */
  function SendCommand(c: Client, cmd: Command, now: bool): Client {
    var c1 := c.(outbound := c.outbound + [cmd]);
    if now then FlushPending(c1) else c1
  }

  /** A new deferred, and a PING behind everything sent so far. */
  function WithPing(c: Client): Client {
    c.(nextId := c.nextId + 1, pongs := c.pongs + [c.nextId], outbound := c.outbound + [Ping(c.nextId)],
       marks := c.marks[c.nextId := |c.published|])
  }

  function Flush(c: Client): Client {
    FlushPending(WithPing(c))
  }

  function Publish(c: Client, n: nat, now: bool): Client {
    SendCommand(c.(published := c.published + [n]), Pub(n), now)
  }

  function Subscribe(c: Client, now: bool): Client {
    var sid := c.sidCounter + 1;
    SendCommand(c.(sidCounter := sid, subs := c.subs + {sid}), Sub(sid), now)
  }

  function Unsubscribe(c: Client, sid: nat, now: bool): Client {
    if sid !in c.subs then c
    else
      var c1 := SendCommand(c, Unsub(sid), now);
      c1.(subs := c1.subs - {sid})
  }

  /** UNSUB first, then the PING; the subscription stays until the PONG. */
  function Drain(c: Client, sid: nat, now: bool): Client {
    if sid !in c.subs || sid in c.drains.Values then c
    else
      var c1 := SendCommand(c, Unsub(sid), now);
      Flush(c1.(drains := c1.drains[c1.nextId := sid]))
  }

  /** What follows when a drain is settled, either way. */
  function AfterDrain(c: Client, id: nat): Client
    requires id in c.drains
  {
    c.(subs := c.subs - {c.drains[id]}, drains := c.drains - {id})
  }

  function AsSet(ids: seq<nat>): set<nat> {
    set id | id in ids
  }

  /** What was buffered is dropped, what was awaited is rejected. */
  function ResetOutbound(c: Client): Client {
    c.(outbound := [], pongs := [], infoReceived := false, rejected := c.rejected + AsSet(c.pongs))
  }

  /** The deferred of a handshake comes before all others. */
  function WithHandshake(c: Client): Client {
    c.(handshake := c.nextId, pongs := [c.nextId] + c.pongs, nextId := c.nextId + 1)
  }

  function WithTransport(c: Client): Client {
    c.(up := true, connected := false, wire := [])
  }

  function WithoutHistory(c: Client): Client {
    c.(published := [], received := [], dispatched := [])
  }

  function Prepare(c: Client): Client {
    WithoutHistory(WithTransport(WithHandshake(ResetOutbound(c))))
  }

  function Lost(c: Client): Client {
    c.(up := false, connected := false)
  }

  function OnInfo(c: Client): Client {
    if c.infoReceived then c
    else c.(infoReceived := true, wire := c.wire + [ConnectCmd, Ping(c.handshake)])
  }

  /** The first of the deferreds, whatever PONG it is. */
  function OnPong(c: Client): Client {
    if c.pongs == [] then c else c.(resolved := c.resolved + {c.pongs[0]}, pongs := c.pongs[1..])
  }

  function OnPing(c: Client): Client {
    c.(wire := c.wire + [PongCmd])
  }

  function OnMsg(c: Client, m: Message): Client {
    c.(received := c.received + [m],
       dispatched := if m.sid in c.subs then c.dispatched + [m] else c.dispatched)
  }

  /** The dial goes on when its PONG is there: every subscription is announced before
      anything that was buffered. */
  function Established(c: Client, all: seq<Command>): Client {
    FlushPending(c.(connected := true, wire := c.wire + all))
  }

  /** The SUB commands of all subscriptions, in some order. */
  ghost predicate Announces(c: Client, all: seq<Command>) {
    && (forall i :: 0 <= i < |all| ==> all[i].Sub? && all[i].sid in c.subs)
    && (forall sid :: sid in c.subs ==> Sub(sid) in all)
  }

  /** The connection goes on draining when all its subscriptions are. */
  function AfterDrains(c: Client): Client {
    Flush(c).(last := Some(c.nextId), waiting := None)
  }

  function Close(c: Client): Client {
    c.(closed := true, last := None)
  }

  // ------------------------------------------------------------- the world

  /** The connection as it is, and what became of the publishes of earlier ones. */
  datatype World = World(
    c: Client, toClient: seq<Event>, serverSubs: set<nat>, reached: seq<nat>, sent: seq<Message>,
    publishedBefore: seq<nat>, reachedBefore: seq<nat>, dropped: seq<nat>)

  datatype Action =
    | APublish(n: nat, now: bool) | ASubscribe(now: bool) | AUnsubscribe(sid: nat, now: bool)
    | AFlush | ADrain(sid: nat, now: bool) | AMicrotask
    | AAfterDrain(id: nat) | AWaitForDrains | AAfterDrains | AClose
    | APrepare | ALost | AEstablished(all: seq<Command>)
    | AReceive                      // the client takes the next event
    | ServerTakes                   // the server takes the next command
    | ServerSends(m: Message) | ServerInfo | ServerPings

  function Take(w: World): World
    requires w.c.wire != []
  {
    var cmd := w.c.wire[0];
    var w1 := w.(c := w.c.(wire := w.c.wire[1..]));
    match cmd
    case Ping(id) => w1.(toClient := w1.toClient + [Pong(id)])
    case Sub(sid) => w1.(serverSubs := w1.serverSubs + {sid})
    case Unsub(sid) => w1.(serverSubs := w1.serverSubs - {sid})
    case Pub(n) => w1.(reached := w1.reached + [n])
    case _ => w1
  }

  function Receive(w: World): World
    requires w.toClient != []
  {
    var w1 := w.(toClient := w.toClient[1..]);
    match w.toClient[0]
    case Info => w1.(c := OnInfo(w.c))
    case Pong(_) => w1.(c := OnPong(w.c))
    case PingEvent => w1.(c := OnPing(w.c))
    case Msg(m) => w1.(c := OnMsg(w.c, m))
  }

  ghost predicate Settled(c: Client, id: nat) {
    id in c.resolved || id in c.rejected
  }

  /** Nothing waits to be run that a settled deferred has set going. */
  ghost predicate Idle(c: Client) {
    (forall id :: id in c.drains ==> id !in c.resolved) && (c.last.Some? ==> c.last.value !in c.resolved)
  }

  /** Continuations of settled deferreds run before the next thing that comes from
      outside the program, such as the end of a transport or the PONG of a dial. */
  ghost predicate Legal(w: World, a: Action) {
    match a
    case AAfterDrain(id) => id in w.c.drains && Settled(w.c, id)
    case AWaitForDrains => forall sid :: sid in w.c.subs ==> sid in w.c.drains.Values
    case AAfterDrains => w.c.waiting.Some? && w.c.waiting.value !! w.c.drains.Keys
    case AClose => w.c.last.Some? && w.c.last.value in w.c.resolved
    case APrepare => Idle(w.c)
    case ALost => Idle(w.c)
    case AEstablished(all) =>
      && w.c.up && !w.c.connected && w.c.handshake in w.c.resolved && Announces(w.c, all)
      && (forall id :: id in w.c.drains ==> id !in w.c.rejected)
    case AReceive => w.c.up && w.toClient != []
    case ServerTakes => w.c.up && w.c.wire != []
    case ServerSends(m) => w.c.up && m.sid in w.serverSubs
    case ServerInfo => w.c.up
    case ServerPings => w.c.up
    case _ => true
  }

  function Next(w: World, a: Action): World {
    match a
    case APublish(n, now) => w.(c := Publish(w.c, n, now))
    case ASubscribe(now) => w.(c := Subscribe(w.c, now))
    case AUnsubscribe(sid, now) => w.(c := Unsubscribe(w.c, sid, now))
    case AFlush => w.(c := Flush(w.c))
    case ADrain(sid, now) => w.(c := Drain(w.c, sid, now))
    case AMicrotask => w.(c := FlushPending(w.c))
    case AAfterDrain(id) => if id in w.c.drains then w.(c := AfterDrain(w.c, id)) else w
    case AWaitForDrains => w.(c := w.c.(waiting := Some(w.c.drains.Keys)))
    case AAfterDrains => w.(c := AfterDrains(w.c))
    case AClose => w.(c := Close(w.c))
    case APrepare =>
      World(Prepare(w.c), [], {}, [], [],
            w.publishedBefore + w.c.published, w.reachedBefore + w.reached, w.dropped + Pubs(Pipe(w.c)))
    case ALost => w.(c := Lost(w.c))
    case AEstablished(all) => w.(c := Established(w.c, all))
    case AReceive => if w.toClient != [] then Receive(w) else w
    case ServerTakes => if w.c.wire != [] then Take(w) else w
    case ServerSends(m) => w.(toClient := w.toClient + [Msg(m)], sent := w.sent + [m])
    case ServerInfo => w.(toClient := w.toClient + [Info])
    case ServerPings => w.(toClient := w.toClient + [PingEvent])
  }

  // ---------------------------------------------------------- what is where

  /** What `f` finds in a list, in order. */
  function Collect<T, U>(f: T -> Option<U>, s: seq<T>): seq<U> {
    if s == [] then []
    else match f(s[0])
      case Some(x) => [x] + Collect(f, s[1..])
      case None => Collect(f, s[1..])
  }

  lemma {:induction false} CollectAppend<T, U>(f: T -> Option<U>, a: seq<T>, b: seq<T>)
    ensures Collect(f, a + b) == Collect(f, a) + Collect(f, b)
  {
    if a == [] {
      assert a + b == b;
    } else {
      assert (a + b)[0] == a[0] && (a + b)[1..] == a[1..] + b;
      CollectAppend(f, a[1..], b);
    }
  }

  lemma CollectOne<T, U>(f: T -> Option<U>, x: T)
    ensures Collect(f, [x]) == match f(x) case Some(y) => [y] case None => []
  {
    assert [x][1..] == [];
  }

  lemma CollectHead<T, U>(f: T -> Option<U>, s: seq<T>)
    requires s != []
    ensures Collect(f, s) == (match f(s[0]) case Some(y) => [y] case None => []) + Collect(f, s[1..])
  {
  }

  lemma {:induction false} CollectNone<T, U>(f: T -> Option<U>, s: seq<T>)
    requires forall i :: 0 <= i < |s| ==> f(s[i]) == None
    ensures Collect(f, s) == []
  {
    if s != [] {
      CollectNone(f, s[1..]);
    }
  }

  function PingOf(cmd: Command): Option<nat> { if cmd.Ping? then Some(cmd.id) else None }

  function PubOf(cmd: Command): Option<nat> { if cmd.Pub? then Some(cmd.n) else None }

  function PongOf(e: Event): Option<nat> { if e.Pong? then Some(e.id) else None }

  function MessageOf(e: Event): Option<Message> { if e.Msg? then Some(e.m) else None }

  function Pings(cmds: seq<Command>): seq<nat> { Collect(PingOf, cmds) }

  function Pubs(cmds: seq<Command>): seq<nat> { Collect(PubOf, cmds) }

  function Pongs(events: seq<Event>): seq<nat> { Collect(PongOf, events) }

  function Messages(events: seq<Event>): seq<Message> { Collect(MessageOf, events) }

  lemma ListsAppend(a: seq<Command>, b: seq<Command>)
    ensures Pings(a + b) == Pings(a) + Pings(b) && Pubs(a + b) == Pubs(a) + Pubs(b)
  {
    CollectAppend(PingOf, a, b);
    CollectAppend(PubOf, a, b);
  }

  lemma ListsOne(cmd: Command)
    ensures Pings([cmd]) == (if cmd.Ping? then [cmd.id] else []) && Pubs([cmd]) == (if cmd.Pub? then [cmd.n] else [])
  {
    CollectOne(PingOf, cmd);
    CollectOne(PubOf, cmd);
  }

  lemma EventsAppend(a: seq<Event>, b: seq<Event>)
    ensures Pongs(a + b) == Pongs(a) + Pongs(b) && Messages(a + b) == Messages(a) + Messages(b)
  {
    CollectAppend(PongOf, a, b);
    CollectAppend(MessageOf, a, b);
  }

  lemma EventsOne(e: Event)
    ensures Pongs([e]) == (if e.Pong? then [e.id] else []) && Messages([e]) == (if e.Msg? then [e.m] else [])
  {
    CollectOne(PongOf, e);
    CollectOne(MessageOf, e);
  }

  lemma EventsHead(s: seq<Event>)
    requires s != []
    ensures Pongs(s) == (if s[0].Pong? then [s[0].id] else []) + Pongs(s[1..])
    ensures Messages(s) == (if s[0].Msg? then [s[0].m] else []) + Messages(s[1..])
  {
    CollectHead(PongOf, s);
    CollectHead(MessageOf, s);
  }

  /** The messages for one subscription. */
  function For(sid: nat, ms: seq<Message>): seq<Message> {
    if ms == [] then []
    else if ms[0].sid == sid then [ms[0]] + For(sid, ms[1..])
    else For(sid, ms[1..])
  }

  lemma {:induction false} ForAppend(sid: nat, a: seq<Message>, b: seq<Message>)
    ensures For(sid, a + b) == For(sid, a) + For(sid, b)
  {
    if a == [] {
      assert a + b == b;
    } else {
      assert (a + b)[0] == a[0] && (a + b)[1..] == a[1..] + b;
      ForAppend(sid, a[1..], b);
    }
  }

  lemma {:induction false} ForNone(sid: nat, ms: seq<Message>)
    requires forall i :: 0 <= i < |ms| ==> ms[i].sid != sid
    ensures For(sid, ms) == []
  {
    if ms != [] {
      ForNone(sid, ms[1..]);
    }
  }

  /** Everything on its way to the server, in order. */
  function Pipe(c: Client): seq<Command> { c.wire + c.outbound }

  // --------------------------------------------------------- the invariants

  ghost predicate Distinct(ids: seq<nat>) {
    forall i, j :: 0 <= i < j < |ids| ==> ids[i] != ids[j]
  }

  /** The deferreds are those of the PINGs not yet answered, in order. The PING of the
      handshake is first; before the INFO it is still to be sent. */
  ghost predicate PongsInOrder(w: World) {
    var c := w.c;
    if c.infoReceived then c.pongs == Pongs(w.toClient) + Pings(Pipe(c))
    else c.pongs == [c.handshake] + Pings(c.outbound) && Pings(c.wire) == [] && Pongs(w.toClient) == []
  }

  ghost predicate Numbers(w: World) {
    var c := w.c;
    && Distinct(c.pongs) && c.handshake < c.nextId
    && (forall id :: id in c.pongs ==> id < c.nextId && id !in c.resolved && id !in c.rejected)
    && (forall id :: id in c.resolved || id in c.rejected ==> id < c.nextId) && c.resolved !! c.rejected
    && (forall id :: id in c.drains ==> id in c.pongs || id in c.resolved || id in c.rejected)
    && (forall id :: id in c.marks ==> id < c.nextId)
    && c.handshake !in c.marks && (c.last.Some? ==> c.last.value in c.marks)
    && (forall sid :: sid in c.subs ==> sid <= c.sidCounter)
    && (forall id :: id in c.drains ==> c.drains[id] <= c.sidCounter)
  }

  ghost predicate Sids(w: World) {
    var c := w.c;
    && (forall sid :: sid in w.serverSubs ==> sid <= c.sidCounter)
    && (forall cmd :: cmd in Pipe(c) && cmd.Sub? ==> cmd.sid <= c.sidCounter)
    && (forall m :: m in w.sent ==> m.sid <= c.sidCounter)
  }

  /** Before the handshake is over nothing but the handshake has gone out. */
  ghost predicate Quiet(w: World) {
    var c := w.c;
    && (c.connected ==> c.infoReceived)
    && (!c.connected ==>
      w.serverSubs == {} && w.reached == []
      && forall cmd :: cmd in c.wire ==> cmd.ConnectCmd? || cmd.Ping? || cmd.PongCmd?)
  }

  ghost predicate Conserved(w: World) {
    && w.sent == w.c.received + Messages(w.toClient)
    && Handed(w.c.subs, w.c.received, w.c.dispatched)
  }

  /** A subscription that is still there was given all that came for it. */
  ghost predicate Handed(subs: set<nat>, received: seq<Message>, dispatched: seq<Message>) {
    && (forall m :: m in dispatched ==> m in received)
    && (forall sid :: sid in subs ==> For(sid, dispatched) == For(sid, received))
  }

  ghost predicate PubsKept(w: World) {
    && w.c.published == w.reached + Pubs(Pipe(w.c))
    && |w.publishedBefore| == |w.reachedBefore| + |w.dropped|
    && (w.dropped == [] ==> w.publishedBefore == w.reachedBefore)
  }

  ghost predicate Base(w: World) {
    Numbers(w) && PubsKept(w) && (w.c.up ==> PongsInOrder(w) && Sids(w) && Quiet(w) && Conserved(w))
  }

  // ------------------------------------------------ commands added at the end

  /** `extra` is put behind everything that was sent, and nothing else is touched but
      the bookkeeping of the caller. */
  ghost predicate Appended(c: Client, c': Client, extra: seq<Command>) {
    && Pipe(c') == Pipe(c) + extra
    && ((c.connected && c.infoReceived) || (c'.wire == c.wire && c'.outbound == c.outbound + extra))
    && c'.up == c.up && c'.infoReceived == c.infoReceived && c'.connected == c.connected
    && c'.handshake == c.handshake && c'.resolved == c.resolved && c'.rejected == c.rejected
    && c'.received == c.received && c'.dispatched == c.dispatched
    && c'.pongs == c.pongs + Pings(extra)
  }

  lemma SendAppends(c: Client, cmd: Command, now: bool)
    requires !cmd.Ping?
    ensures var c' := SendCommand(c, cmd, now);
            Appended(c, c', [cmd]) && c' == c.(wire := c'.wire, outbound := c'.outbound)
  {
    ListsOne(cmd);
    assert Pipe(c.(outbound := c.outbound + [cmd])) == Pipe(c) + [cmd];
    assert c.pongs + [] == c.pongs;
  }

  lemma FlushAppends(c: Client)
    ensures var c' := Flush(c);
            && Appended(c, c', [Ping(c.nextId)])
            && c' == c.(wire := c'.wire, outbound := c'.outbound, nextId := c.nextId + 1,
                        pongs := c.pongs + [c.nextId], marks := c.marks[c.nextId := |c.published|])
  {
    ListsOne(Ping(c.nextId));
    assert Pipe(c.(outbound := c.outbound + [Ping(c.nextId)])) == Pipe(c) + [Ping(c.nextId)];
  }

  lemma DrainAppends(c: Client, sid: nat, now: bool)
    requires sid in c.subs && sid !in c.drains.Values
    ensures var c' := Drain(c, sid, now);
            && Appended(c, c', [Unsub(sid), Ping(c.nextId)])
            && c' == c.(wire := c'.wire, outbound := c'.outbound, nextId := c.nextId + 1,
                        pongs := c.pongs + [c.nextId], marks := c.marks[c.nextId := |c.published|],
                        drains := c.drains[c.nextId := sid])
  {
    hide FlushPending, Flush, SendCommand, Pings;
    var c1 := SendCommand(c, Unsub(sid), now);
    SendAppends(c, Unsub(sid), now);
    var c2 := c1.(drains := c1.drains[c1.nextId := sid]);
    FlushAppends(c2);
    ListsAppend([Unsub(sid)], [Ping(c.nextId)]);
    ListsOne(Unsub(sid));
    ListsOne(Ping(c.nextId));
    assert Pipe(c2) == Pipe(c1);
    assert [Unsub(sid)] + [Ping(c.nextId)] == [Unsub(sid), Ping(c.nextId)];
  }

  lemma FlushPendingAppends(c: Client)
    ensures var c' := FlushPending(c);
            Appended(c, c', []) && c' == c.(wire := c'.wire, outbound := c'.outbound)
  {
  }

  /** What the basic invariants make of it. */
  lemma AppendBase(w: World, c': Client, extra: seq<Command>)
    requires Base(w) && Appended(w.c, c', extra)
    requires Numbers(w.(c := c'))
    requires c'.published == w.c.published + Pubs(extra)
    requires c'.sidCounter >= w.c.sidCounter
    requires forall cmd :: cmd in extra && cmd.Sub? ==> cmd.sid <= c'.sidCounter
    requires forall sid :: sid in c'.subs ==> sid in w.c.subs || sid > w.c.sidCounter
    ensures Base(w.(c := c'))
  {
    hide Pings, Pubs, Pongs, Messages, For, Numbers, Handed, Sids;
    var c := w.c;
    ListsAppend(Pipe(c), extra);
    if c.up {
      ListsAppend(c.outbound, extra);
      SidsStay(w, w.(c := c'));
      HandedToLater(w, c'.subs);
    }
  }

  lemma SidsStay(w: World, w': World)
    requires Sids(w) && w'.c.sidCounter >= w.c.sidCounter && w'.sent == w.sent
    requires forall sid :: sid in w'.serverSubs && sid !in w.serverSubs ==> sid <= w.c.sidCounter
    requires forall cmd :: cmd in Pipe(w'.c) && cmd.Sub? ==> cmd in Pipe(w.c) || cmd.sid <= w'.c.sidCounter
    ensures Sids(w')
  {
  }

  lemma HandedToLater(w: World, subs: set<nat>)
    requires Conserved(w) && Sids(w) && forall sid :: sid in subs ==> sid in w.c.subs || sid > w.c.sidCounter
    ensures Handed(subs, w.c.received, w.c.dispatched)
  {
    forall sid | sid in subs && sid !in w.c.subs
      ensures For(sid, w.c.dispatched) == For(sid, w.c.received)
    {
      assert forall m :: m in w.c.received ==> m in w.sent;
      ForNone(sid, w.c.received);
      ForNone(sid, w.c.dispatched);
    }
  }

  predicate IsClientCall(a: Action) {
    a.APublish? || a.ASubscribe? || a.AUnsubscribe? || a.AFlush? || a.ADrain? || a.AMicrotask? || a.AAfterDrains?
  }

  /** What a call puts behind the commands sent before. */
  function Extra(c: Client, a: Action): seq<Command> {
    match a
    case APublish(n, _) => [Pub(n)]
    case ASubscribe(_) => [Sub(c.sidCounter + 1)]
    case AUnsubscribe(sid, _) => if sid in c.subs then [Unsub(sid)] else []
    case ADrain(sid, _) =>
      if sid in c.subs && sid !in c.drains.Values then [Unsub(sid), Ping(c.nextId)] else []
    case AFlush => [Ping(c.nextId)]
    case AAfterDrains => [Ping(c.nextId)]
    case _ => []
  }

  /** What a call does: commands at the end, and the books of the caller. */
  ghost predicate Called(c: Client, c': Client, a: Action) {
    && Appended(c, c', Extra(c, a))
    && c'.sidCounter == c.sidCounter + (if a.ASubscribe? then 1 else 0)
    && c'.subs == (if a.ASubscribe? then c.subs + {c'.sidCounter}
                   else if a.AUnsubscribe? then c.subs - {a.sid} else c.subs)
    && c'.published == (if a.APublish? then c.published + [a.n] else c.published)
    && (Pings(Extra(c, a)) == [] ==>
          c'.nextId == c.nextId && c'.drains == c.drains && c'.marks == c.marks && c'.last == c.last)
    && (Pings(Extra(c, a)) != [] ==>
          && Pings(Extra(c, a)) == [c.nextId] && c'.nextId == c.nextId + 1
          && c'.marks == c.marks[c.nextId := |c.published|]
          && (a.ADrain? ==> a.sid in c.subs)
          && c'.drains == (if a.ADrain? then c.drains[c.nextId := a.sid] else c.drains)
          && c'.last == (if a.AAfterDrains? then Some(c.nextId) else c.last))
  }

  lemma CallAppends(w: World, a: Action)
    requires IsClientCall(a)
    ensures Next(w, a) == w.(c := Next(w, a).c) && Called(w.c, Next(w, a).c, a)
  {
    hide FlushPending, SendCommand, Flush, Drain, Called;
    var c := w.c;
    match a
    case APublish(n, now) => PublishAppends(c, n, now);
    case ASubscribe(now) => SubscribeAppends(c, now);
    case AUnsubscribe(sid, now) => UnsubscribeAppends(c, sid, now);
    case ADrain(sid, now) => DrainCalled(c, sid, now);
    case AFlush => FlushCalled(c);
    case AAfterDrains => AfterDrainsAppends(c);
    case _ => MicrotaskAppends(c);
  }

  lemma PublishAppends(c: Client, n: nat, now: bool)
    ensures Called(c, Publish(c, n, now), APublish(n, now))
  {
    hide SendCommand, Pings;
    ExtraPings(c, APublish(n, now));
    SendAppends(c.(published := c.published + [n]), Pub(n), now);
  }

  lemma SubscribeAppends(c: Client, now: bool)
    ensures Called(c, Subscribe(c, now), ASubscribe(now))
  {
    hide SendCommand, Pings;
    ExtraPings(c, ASubscribe(now));
    var sid := c.sidCounter + 1;
    SendAppends(c.(sidCounter := sid, subs := c.subs + {sid}), Sub(sid), now);
  }

  lemma UnsubscribeAppends(c: Client, sid: nat, now: bool)
    ensures Called(c, Unsubscribe(c, sid, now), AUnsubscribe(sid, now))
  {
    hide SendCommand, Pings;
    ExtraPings(c, AUnsubscribe(sid, now));
    if sid in c.subs {
      SendAppends(c, Unsub(sid), now);
    } else {
      NothingAppended(c);
    }
  }

  lemma DrainCalled(c: Client, sid: nat, now: bool)
    ensures Called(c, Drain(c, sid, now), ADrain(sid, now))
  {
    hide Drain, Pings;
    ExtraPings(c, ADrain(sid, now));
    if sid in c.subs && sid !in c.drains.Values {
      DrainAppends(c, sid, now);
    } else {
      NothingAppended(c);
      NoDrain(c, sid, now);
    }
  }

  lemma FlushCalled(c: Client)
    ensures Called(c, Flush(c), AFlush)
  {
    hide Flush, Pings;
    ExtraPings(c, AFlush);
    FlushAppends(c);
  }

  lemma AfterDrainsAppends(c: Client)
    ensures Called(c, AfterDrains(c), AAfterDrains)
  {
    hide Flush, Pings;
    ExtraPings(c, AAfterDrains);
    FlushAppends(c);
  }

  lemma MicrotaskAppends(c: Client)
    ensures Called(c, FlushPending(c), AMicrotask)
  {
    hide FlushPending, Pings;
    ExtraPings(c, AMicrotask);
    FlushPendingAppends(c);
  }

  lemma NoDrain(c: Client, sid: nat, now: bool)
    requires sid !in c.subs || sid in c.drains.Values
    ensures Drain(c, sid, now) == c
  {
  }

  lemma NothingAppended(c: Client)
    ensures Appended(c, c, []) && Appended(c, c.(subs := c.subs - {}), [])
  {
    assert c.pongs + [] == c.pongs;
  }

  lemma ExtraPings(c: Client, a: Action)
    ensures Pings(Extra(c, a)) == (match a
      case ADrain(sid, _) => if sid in c.subs && sid !in c.drains.Values then [c.nextId] else []
      case AFlush => [c.nextId]
      case AAfterDrains => [c.nextId]
      case _ => [])
    ensures Pubs(Extra(c, a)) == if a.APublish? then [a.n] else []
  {
    if Extra(c, a) != [] {
      CollectHead(PingOf, Extra(c, a));
      CollectHead(PubOf, Extra(c, a));
      if |Extra(c, a)| == 2 {
        CollectHead(PingOf, Extra(c, a)[1..]);
        CollectHead(PubOf, Extra(c, a)[1..]);
      }
    }
  }

  lemma CallBase(w: World, a: Action)
    requires Base(w) && IsClientCall(a)
    ensures Base(Next(w, a))
  {
    hide Pings, Pubs, Pongs, Messages, For, Next, PongsInOrder, Quiet, Conserved, Numbers;
    CallAppends(w, a);
    ExtraPings(w.c, a);
    CallNumbers(w, a);
    AppendBase(w, Next(w, a).c, Extra(w.c, a));
  }

  lemma CallNumbers(w: World, a: Action)
    requires Numbers(w) && IsClientCall(a)
    ensures Numbers(Next(w, a))
  {
    hide Pings, Pubs, Pongs, Messages, Next, Extra, Pipe;
    CallAppends(w, a);
    var c, c', added := w.c, Next(w, a).c, Pings(Extra(w.c, a));
    assert c'.pongs == c.pongs + added;
    if added == [] {
      assert c'.pongs == c.pongs;
    } else {
      assert c'.pongs[|c.pongs|] == c.nextId;
      assert forall id :: id in c'.pongs <==> id in c.pongs || id == c.nextId;
      DistinctMore(c.pongs, c.nextId);
    }
  }

  lemma DistinctMore(ids: seq<nat>, id: nat)
    requires Distinct(ids) && id !in ids
    ensures Distinct(ids + [id])
  {
  }

  // ------------------------------------------------------------- other steps

  /** What the server sends of its own accord. */
  lemma ServerBase(w: World, e: Event)
    requires Base(w) && w.c.up && !e.Pong? && (e.Msg? ==> e.m.sid in w.serverSubs)
    ensures Base(w.(toClient := w.toClient + [e], sent := if e.Msg? then w.sent + [e.m] else w.sent))
  {
    hide Pings, Pubs, Pongs, Messages, Handed, Numbers, Sids;
    EventsAppend(w.toClient, [e]);
    EventsOne(e);
    assert Pongs(w.toClient + [e]) == Pongs(w.toClient);
    assert Sids(w.(toClient := w.toClient + [e], sent := if e.Msg? then w.sent + [e.m] else w.sent)) by {
      SentSids(w, e);
    }
    SameNumbers(w, w.(toClient := w.toClient + [e], sent := if e.Msg? then w.sent + [e.m] else w.sent));
  }

  lemma SentSids(w: World, e: Event)
    requires Sids(w) && (e.Msg? ==> e.m.sid in w.serverSubs)
    ensures Sids(w.(toClient := w.toClient + [e], sent := if e.Msg? then w.sent + [e.m] else w.sent))
  {
  }

  lemma TakeBase(w: World)
    requires Base(w) && w.c.up && w.c.wire != []
    ensures Base(Take(w))
  {
    hide Numbers, Sids, PongsInOrder, PubsKept, Quiet, Conserved;
    TakePongs(w);
    TakePubs(w);
    TakeSids(w);
    TakeOther(w);
    TakeNumbers(w);
  }

  lemma TakeNumbers(w: World)
    requires Numbers(w) && w.c.wire != []
    ensures Numbers(Take(w))
  {
    hide Numbers;
    TakeClient(w);
    SameNumbers(w, Take(w));
  }

  lemma TakeClient(w: World)
    requires w.c.wire != []
    ensures Take(w).c == w.c.(wire := w.c.wire[1..])
  {
  }

  lemma TakeOther(w: World)
    requires Quiet(w) && Conserved(w) && w.c.wire != []
    ensures Quiet(Take(w)) && Conserved(Take(w))
  {
    hide Pubs, Messages, Handed;
    assert w.c.wire[0] in w.c.wire;
    if w.c.wire[0].Ping? {
      EventsAppend(w.toClient, [Pong(w.c.wire[0].id)]);
      EventsOne(Pong(w.c.wire[0].id));
    }
  }

  lemma TakePongs(w: World)
    requires PongsInOrder(w) && w.c.wire != []
    ensures PongsInOrder(Take(w))
  {
    hide Pings, Pubs, Pongs, Messages;
    var c, cmd, rest := w.c, w.c.wire[0], w.c.wire[1..];
    assert Pipe(c) == [cmd] + Pipe(c.(wire := rest)) && c.wire == [cmd] + rest;
    ListsAppend([cmd], Pipe(c.(wire := rest)));
    ListsAppend([cmd], rest);
    ListsOne(cmd);
    if cmd.Ping? {
      EventsAppend(w.toClient, [Pong(cmd.id)]);
      EventsOne(Pong(cmd.id));
    }
  }

  lemma TakePubs(w: World)
    requires PubsKept(w) && w.c.wire != []
    ensures PubsKept(Take(w))
  {
    hide Pings, Pubs;
    var c, cmd, rest := w.c, w.c.wire[0], w.c.wire[1..];
    assert Pipe(c) == [cmd] + Pipe(c.(wire := rest));
    ListsAppend([cmd], Pipe(c.(wire := rest)));
    ListsOne(cmd);
  }

  lemma TakeSids(w: World)
    requires Sids(w) && w.c.wire != []
    ensures Sids(Take(w))
  {
    var c := w.c;
    assert Pipe(c) == [c.wire[0]] + Pipe(c.(wire := c.wire[1..]));
    assert c.wire[0] in Pipe(c);
    SidsStay(w, Take(w));
  }

  lemma SameNumbers(w: World, w': World)
    requires Numbers(w) && w'.c.pongs == w.c.pongs && w'.c.nextId == w.c.nextId && w'.c.resolved == w.c.resolved
    requires w'.c.rejected == w.c.rejected && w'.c.drains == w.c.drains && w'.c.marks == w.c.marks
    requires w'.c.last == w.c.last && w'.c.subs == w.c.subs && w'.c.sidCounter == w.c.sidCounter
    requires w'.c.handshake == w.c.handshake
    ensures Numbers(w')
  {
  }

  lemma ReceiveInfoBase(w: World)
    requires Base(w) && w.c.up && w.toClient != [] && w.toClient[0] == Info
    ensures Base(Receive(w))
  {
    hide Pings, Pubs, Pongs, Messages, Handed, Numbers, Sids;
    EventsHead(w.toClient);
    if w.c.infoReceived {
      SameNumbers(w, Receive(w));
      SidsStay(w, Receive(w));
    } else {
      HelloBase(w);
    }
  }

  /** The first INFO is answered with the handshake, ahead of anything buffered. */
  lemma HelloBase(w: World)
    requires Base(w) && w.c.up && w.toClient != [] && w.toClient[0] == Info && !w.c.infoReceived
    ensures Base(Receive(w))
  {
    hide Pings, Pubs, Pongs, Messages, Handed, Numbers, Sids;
    var c, c', hello := w.c, Receive(w).c, [ConnectCmd, Ping(w.c.handshake)];
    EventsHead(w.toClient);
    ListsAppend([ConnectCmd], [Ping(c.handshake)]);
    ListsOne(ConnectCmd);
    ListsOne(Ping(c.handshake));
    assert hello == [ConnectCmd] + [Ping(c.handshake)];
    InsertCollects(c, hello);
    assert c'.pongs == Pings(Pipe(c')) && Pubs(Pipe(c')) == Pubs(Pipe(c));
    SameNumbers(w, Receive(w));
    SidsStay(w, Receive(w));
    hide Pipe;
  }

  /** Commands put in front of the buffered ones. */
  lemma InsertCollects(c: Client, cmds: seq<Command>)
    ensures var c' := c.(wire := c.wire + cmds);
            && Pings(Pipe(c')) == Pings(c.wire) + Pings(cmds) + Pings(c.outbound)
            && Pubs(Pipe(c')) == Pubs(c.wire) + Pubs(cmds) + Pubs(c.outbound)
            && Pings(Pipe(c)) == Pings(c.wire) + Pings(c.outbound)
            && Pubs(Pipe(c)) == Pubs(c.wire) + Pubs(c.outbound)
            && Pings(c'.wire) == Pings(c.wire) + Pings(cmds)
  {
    hide Pings, Pubs, Pongs, Messages;
    ListsAppend(c.wire + cmds, c.outbound);
    ListsAppend(c.wire, cmds);
    ListsAppend(c.wire, c.outbound);
  }

  lemma ReceivePingBase(w: World)
    requires Base(w) && w.c.up && w.toClient != [] && w.toClient[0] == PingEvent
    ensures Base(Receive(w))
  {
    hide Pings, Pubs, Pongs, Messages, Handed, Numbers, Sids;
    var w' := Receive(w);
    assert w' == w.(toClient := w.toClient[1..], c := w.c.(wire := w.c.wire + [PongCmd]));
    hide Receive;
    EventsHead(w.toClient);
    SameNumbers(w, w');
    ListsOne(PongCmd);
    InsertCollects(w.c, [PongCmd]);
    SidsStay(w, w');
  }

  /** The PONG settles the deferred of the PING it answers. */
  lemma PongIsForTheFirst(w: World)
    requires Base(w) && w.c.up && w.toClient != [] && w.toClient[0].Pong?
    ensures w.c.pongs != [] && w.c.pongs[0] == w.toClient[0].id
  {
    CollectHead(PongOf, w.toClient);
  }

  lemma ReceivePongBase(w: World)
    requires Base(w) && w.c.up && w.toClient != [] && w.toClient[0].Pong?
    ensures Base(Receive(w))
  {
    hide Pings, Pubs, Pongs, Messages, Handed, Sids;
    PongIsForTheFirst(w);
    EventsHead(w.toClient);
    var c := w.c;
    var more := Pongs(w.toClient[1..]);
    assert c.infoReceived;
    assert c.pongs == [c.pongs[0]] + (more + Pings(Pipe(c)));
    assert c.pongs[1..] == more + Pings(Pipe(c));
    SidsStay(w, Receive(w));
    PongNumbers(w);
  }

  lemma PongNumbers(w: World)
    requires Numbers(w) && w.toClient != [] && w.toClient[0].Pong? && w.c.pongs != []
    ensures Numbers(Receive(w))
  {
    var c, c' := w.c, Receive(w).c;
    assert forall id :: id in c'.pongs ==> id in c.pongs && id != c.pongs[0];
    assert forall id :: id in c.pongs ==> id in c'.pongs || id == c.pongs[0];
  }

  lemma ReceiveMsgBase(w: World)
    requires Base(w) && w.c.up && w.toClient != [] && w.toClient[0].Msg?
    ensures Base(Receive(w))
  {
    hide Pings, Pubs, Pongs, Messages, Handed, Numbers, Sids;
    EventsHead(w.toClient);
    SameNumbers(w, Receive(w));
    SidsStay(w, Receive(w));
    var c, m := w.c, w.toClient[0].m;
    HandMore(c.subs, c.received, c.dispatched, m);
    assert w.sent == c.received + ([m] + Messages(w.toClient[1..]));
  }

  lemma HandMore(subs: set<nat>, received: seq<Message>, dispatched: seq<Message>, m: Message)
    requires Handed(subs, received, dispatched)
    ensures Handed(subs, received + [m], if m.sid in subs then dispatched + [m] else dispatched)
  {
    forall sid | sid in subs
      ensures For(sid, if m.sid in subs then dispatched + [m] else dispatched) == For(sid, received + [m])
    {
      ForAppend(sid, received, [m]);
      ForAppend(sid, dispatched, [m]);
      if m.sid !in subs {
        ForNone(sid, [m]);
      }
    }
  }

  lemma PrepareBase(w: World)
    requires Base(w)
    ensures Base(Next(w, APrepare))
  {
    PrepareNumbers(w);
    hide Numbers, Sids, Quiet;
    assert Pipe(Prepare(w.c)) == [];
    PrepareSids(w);
  }

  lemma PrepareNumbers(w: World)
    requires Numbers(w)
    ensures Numbers(Next(w, APrepare))
  {
    assert forall id :: id in w.c.pongs ==> id in Prepare(w.c).rejected;
  }

  lemma PrepareSids(w: World)
    ensures Sids(Next(w, APrepare)) && Quiet(Next(w, APrepare))
  {
    assert Pipe(Prepare(w.c)) == [];
  }

  lemma HandshakeWaits(w: World)
    requires w.c.up && PongsInOrder(w)
    ensures !w.c.infoReceived ==> w.c.handshake in w.c.pongs
  {
    hide Pings, Pubs, Pongs, Messages;
  }

  lemma EstablishedBase(w: World, all: seq<Command>)
    requires Base(w) && Legal(w, AEstablished(all))
    ensures w.c.infoReceived && Base(Next(w, AEstablished(all)))
  {
    hide Pings, Pubs, Pongs, Messages, Handed, Sids;
    var c, c' := w.c, Established(w.c, all);
    HandshakeWaits(w);
    NoPings(all);
    InsertCollects(c, all);
    assert Pipe(c') == (c.wire + all) + c.outbound;
    assert Sids(w.(c := c')) by {
      assert forall cmd :: cmd in all ==> cmd.sid <= c.sidCounter;
      SidsStay(w, w.(c := c'));
    }
    SameNumbers(w, w.(c := c'));
    hide Numbers;
  }

  lemma NoPings(all: seq<Command>)
    requires forall i :: 0 <= i < |all| ==> all[i].Sub?
    ensures Pings(all) == [] && Pubs(all) == []
  {
    CollectNone(PingOf, all);
    CollectNone(PubOf, all);
  }

  lemma StepBase(w: World, a: Action)
    requires Base(w) && Legal(w, a)
    ensures Base(Next(w, a))
  {
    hide Pings, Pubs, Pongs, Messages, For, Pipe, Announces, Settled;
    if IsClientCall(a) {
      CallBase(w, a);
    } else {
      match a
      case APrepare => PrepareBase(w);
      case AEstablished(all) => EstablishedBase(w, all);
      case AReceive =>
        match w.toClient[0] {
          case Info => ReceiveInfoBase(w);
          case Pong(_) => ReceivePongBase(w);
          case PingEvent => ReceivePingBase(w);
          case Msg(_) => ReceiveMsgBase(w);
        }
      case ServerTakes => TakeBase(w);
      case ServerSends(m) => ServerBase(w, Msg(m));
      case ServerInfo => ServerBase(w, Info);
      case ServerPings => ServerBase(w, PingEvent);
      case AAfterDrain(_) => QuietlyBase(w, a);
      case AWaitForDrains => QuietlyBase(w, a);
      case AClose => QuietlyBase(w, a);
      case ALost => LostBase(w);
    }
  }

  lemma LostBase(w: World)
    requires Base(w)
    ensures Base(Next(w, ALost))
  {
    SameNumbers(w, Next(w, ALost));
  }

  lemma QuietlyBase(w: World, a: Action)
    requires Base(w) && Legal(w, a) && (a.AAfterDrain? || a.AWaitForDrains? || a.AClose?)
    ensures Base(Next(w, a))
  {
    hide Pings, Pubs, Pongs, Messages, For;
    assert Pipe(Next(w, a).c) == Pipe(w.c);
  }

  // --------------------------------------------------- what draining relies on

  /** The server does not know the subscription, and will not hear of it again. */
  ghost predicate Ended(w: World, sid: nat) {
    sid !in w.serverSubs && Sub(sid) !in Pipe(w.c)
  }

  /** At `u` the subscription is ended; every SUB for it is before, the PING is behind. */
  ghost predicate EndsAt(cmds: seq<Command>, sid: nat, id: nat, u: nat) {
    && u < |cmds| && cmds[u] == Unsub(sid)
    && forall j :: 0 <= j < |cmds| ==> (cmds[j] == Sub(sid) ==> j < u) && (cmds[j] == Ping(id) ==> u < j)
  }

  ghost predicate Behind(cmds: seq<Command>, sid: nat, id: nat) {
    exists u :: EndsAt(cmds, sid, id, u)
  }

  /** No message of the subscription comes after the PONG. */
  ghost predicate NoneAfterPong(events: seq<Event>, sid: nat, id: nat) {
    forall i, j :: 0 <= i < j < |events| && events[i] == Pong(id) && events[j].Msg? ==> events[j].m.sid != sid
  }

  ghost predicate NoneComing(events: seq<Event>, sid: nat) {
    forall e :: e in events && e.Msg? ==> e.m.sid != sid
  }

  ghost predicate DrainOk(w: World, id: nat, sid: nat) {
    var c := w.c;
    && id != c.handshake
    && (c.connected ==>
      && (id in c.resolved ==> Ended(w, sid) && NoneComing(w.toClient, sid))
      && (Pong(id) in w.toClient ==> Ended(w, sid) && NoneAfterPong(w.toClient, sid, id))
      && (Ping(id) in Pipe(c) ==> Ended(w, sid) || Behind(Pipe(c), sid, id)))
    && (!c.connected ==>
      && id !in c.resolved && Pong(id) !in w.toClient && Ping(id) !in c.wire
      && (Ping(id) in c.outbound ==> Behind(c.outbound, sid, id)))
  }

  ghost predicate DrainsOk(w: World) {
    w.c.up ==> forall id :: id in w.c.drains && id !in w.c.rejected ==> DrainOk(w, id, w.c.drains[id])
  }

  lemma {:induction false} CollectHas<T, U>(f: T -> Option<U>, s: seq<T>, x: T)
    requires x in s && f(x).Some?
    ensures f(x).value in Collect(f, s)
  {
    if s[0] != x {
      assert x in s[1..];
      CollectHas(f, s[1..], x);
    }
  }

  /** Numbers that are under way are those of deferreds. */
  lemma UnderWay(w: World, id: nat)
    requires w.c.up && PongsInOrder(w)
    ensures Pong(id) in w.toClient || Ping(id) in Pipe(w.c) ==> id in w.c.pongs
    ensures !w.c.infoReceived ==> Pong(id) !in w.toClient && Ping(id) !in w.c.wire
  {
    if Pong(id) in w.toClient {
      CollectHas(PongOf, w.toClient, Pong(id));
    }
    if Ping(id) in w.c.wire {
      CollectHas(PingOf, w.c.wire, Ping(id));
    }
    if Ping(id) in w.c.outbound {
      CollectHas(PingOf, w.c.outbound, Ping(id));
    }
    if Ping(id) in Pipe(w.c) {
      CollectHas(PingOf, Pipe(w.c), Ping(id));
    }
  }

  // ------------------------------------------------ drains: commands added at the end

  lemma BehindMore(cmds: seq<Command>, extra: seq<Command>, sid: nat, id: nat)
    requires Behind(cmds, sid, id) && Sub(sid) !in extra
    ensures Behind(cmds + extra, sid, id)
  {
    var u: nat :| EndsAt(cmds, sid, id, u);
    assert EndsAt(cmds + extra, sid, id, u);
  }

  lemma NewBehind(cmds: seq<Command>, sid: nat, id: nat)
    requires Ping(id) !in cmds
    ensures Behind(cmds + [Unsub(sid), Ping(id)], sid, id)
  {
    assert EndsAt(cmds + [Unsub(sid), Ping(id)], sid, id, |cmds|);
  }

  lemma AppendDrain(w: World, c': Client, extra: seq<Command>, id: nat, sid: nat)
    requires w.c.up && DrainOk(w, id, sid) && Appended(w.c, c', extra) && Sub(sid) !in extra && Ping(id) !in extra
    requires Quiet(w)
    ensures DrainOk(w.(c := c'), id, sid)
  {
    hide Behind, Pings;
    var c := w.c;
    if c.connected {
      if Behind(Pipe(c), sid, id) {
        BehindMore(Pipe(c), extra, sid, id);
      }
    } else if Behind(c.outbound, sid, id) {
      BehindMore(c.outbound, extra, sid, id);
    }
  }

  lemma NewDrain(w: World, c': Client, id: nat, sid: nat)
    requires w.c.up && Base(w) && Appended(w.c, c', [Unsub(sid), Ping(id)])
    requires id == w.c.nextId
    ensures DrainOk(w.(c := c'), id, sid)
  {
    hide Behind, Pings, Pubs, Pongs, Messages, Handed, Sids;
    UnderWay(w, id);
    if w.c.connected {
      NewBehind(Pipe(w.c), sid, id);
    } else {
      NewBehind(w.c.outbound, sid, id);
    }
  }

  lemma CallDrains(w: World, a: Action)
    requires Base(w) && DrainsOk(w) && IsClientCall(a)
    ensures DrainsOk(Next(w, a))
  {
    hide Pings, Pubs, Pongs, Messages, Handed, Sids, Conserved, PongsInOrder, DrainOk, Next, Appended;
    CallAppends(w, a);
    ExtraPings(w.c, a);
    var c, c' := w.c, Next(w, a).c;
    assert c'.up == c.up && c'.rejected == c.rejected by { UpStays(c, c', Extra(c, a)); }
    if c.up {
      forall id | id in c'.drains && id !in c'.rejected
        ensures DrainOk(Next(w, a), id, c'.drains[id])
      {
        if id in c.drains && id != c.nextId {
          AppendDrain(w, c', Extra(c, a), id, c.drains[id]);
        } else {
          NewDrain(w, c', id, c'.drains[id]);
        }
      }
    }
  }

  lemma UpStays(c: Client, c': Client, extra: seq<Command>)
    requires Appended(c, c', extra)
    ensures c'.up == c.up && c'.rejected == c.rejected
  {
  }

  // ----------------------------------------------------- drains: the other steps

  lemma ServerDrains(w: World, e: Event)
    requires w.c.up && DrainsOk(w) && !e.Pong? && (e.Msg? ==> e.m.sid in w.serverSubs)
    ensures DrainsOk(w.(toClient := w.toClient + [e], sent := if e.Msg? then w.sent + [e.m] else w.sent))
  {
    hide Behind;
    var w' := w.(toClient := w.toClient + [e], sent := if e.Msg? then w.sent + [e.m] else w.sent);
    forall id | id in w.c.drains && id !in w.c.rejected
      ensures DrainOk(w', id, w.c.drains[id])
    {
      assert DrainOk(w, id, w.c.drains[id]);
      assert Ended(w, w.c.drains[id]) ==> Ended(w', w.c.drains[id]);
    }
  }

  /** The server has taken the first of the commands. */
  lemma BehindTail(cmds: seq<Command>, sid: nat, id: nat)
    requires cmds != [] && Behind(cmds, sid, id)
    ensures cmds[0] != Ping(id)
    ensures Behind(cmds[1..], sid, id) || (cmds[0] == Unsub(sid) && Sub(sid) !in cmds[1..])
  {
    var u: nat :| EndsAt(cmds, sid, id, u);
    var rest := cmds[1..];
    assert forall j :: 0 <= j < |rest| ==> rest[j] == cmds[j + 1];
    if u > 0 {
      assert EndsAt(rest, sid, id, u - 1);
    }
  }

  lemma TakeDrain(w: World, id: nat, sid: nat)
    requires w.c.up && DrainOk(w, id, sid) && w.c.wire != [] && Quiet(w)
    ensures DrainOk(Take(w), id, sid)
  {
    hide Behind, Ended;
    var c, cmd, w' := w.c, w.c.wire[0], Take(w);
    TakeEnded(w, sid);
    if Behind(Pipe(c), sid, id) {
      BehindTail(Pipe(c), sid, id);
    }
  }

  lemma TakeEnded(w: World, sid: nat)
    requires w.c.wire != []
    ensures Pipe(w.c) == [w.c.wire[0]] + Pipe(Take(w).c) && Pipe(w.c)[1..] == Pipe(Take(w).c)
    ensures Ended(w, sid) ==> Ended(Take(w), sid)
    ensures w.c.wire[0] == Unsub(sid) && Sub(sid) !in Pipe(Take(w).c) ==> Ended(Take(w), sid)
  {
    TakeClient(w);
    assert Pipe(w.c) == [w.c.wire[0]] + Pipe(Take(w).c);
  }

  lemma ReceivePongDrain(w: World, id: nat, sid: nat)
    requires Base(w) && w.c.up && w.toClient != [] && w.toClient[0].Pong? && DrainOk(w, id, sid)
    ensures DrainOk(Receive(w), id, sid)
  {
    hide Pings, Pubs, Pongs, Messages, Handed, Sids, Behind, Numbers, Conserved;
    PongIsForTheFirst(w);
    var w' := Receive(w);
    assert Ended(w, sid) ==> Ended(w', sid);
    if w.toClient[0] == Pong(id) {
      assert w.toClient[0] in w.toClient;
      forall e | e in w'.toClient && e.Msg?
        ensures e.m.sid != sid
      {
      }
    }
  }

  lemma ReceiveDrain(w: World, id: nat, sid: nat)
    requires w.toClient != [] && !w.toClient[0].Pong? && DrainOk(w, id, sid)
    ensures DrainOk(Receive(w), id, sid)
  {
    var extra := Added(w.c, w.toClient[0]);
    assert id != w.c.handshake;
    hide DrainOk;
    Answer(w, id, sid);
    InsertDrain(w, extra, id, sid);
    var w1 := w.(c := w.c.(wire := w.c.wire + extra));
    DropEvent(w1, id, sid);
    SameDrain(w1.(toClient := w.toClient[1..]), Receive(w), id, sid);
  }

  /** An event that is no PONG makes the client send at most the handshake or a PONG. */
  lemma Answer(w: World, id: nat, sid: nat)
    requires w.toClient != [] && !w.toClient[0].Pong? && id != w.c.handshake
    ensures var c, c', extra := w.c, Receive(w).c, Added(w.c, w.toClient[0]);
            && Sub(sid) !in extra && Ping(id) !in extra
            && c'.wire == c.wire + extra && c'.outbound == c.outbound && c'.connected == c.connected
            && c'.resolved == c.resolved && c'.handshake == c.handshake
    ensures Receive(w).toClient == w.toClient[1..] && Receive(w).serverSubs == w.serverSubs
  {
    var e := w.toClient[0];
    if e.Info? {
      assert Receive(w).c == OnInfo(w.c);
      if w.c.infoReceived {
        assert Receive(w).c == w.c;
      }
    } else if e.PingEvent? {
      assert Receive(w).c == OnPing(w.c);
    } else {
      assert Receive(w).c == OnMsg(w.c, e.m);
    }
  }

  lemma InsertDrain(w: World, extra: seq<Command>, id: nat, sid: nat)
    requires DrainOk(w, id, sid) && Sub(sid) !in extra && Ping(id) !in extra
    ensures DrainOk(w.(c := w.c.(wire := w.c.wire + extra)), id, sid)
  {
    hide Behind;
    if Behind(Pipe(w.c), sid, id) {
      InsertBehind(w.c, extra, sid, id);
    }
  }

  lemma DropEvent(w: World, id: nat, sid: nat)
    requires w.toClient != [] && !w.toClient[0].Pong? && DrainOk(w, id, sid)
    ensures DrainOk(w.(toClient := w.toClient[1..]), id, sid)
  {
    hide Behind, Pipe;
    var w' := w.(toClient := w.toClient[1..]);
    assert Ended(w, sid) ==> Ended(w', sid);
    assert NoneAfterPong(w.toClient, sid, id) ==> NoneAfterPong(w'.toClient, sid, id);
  }

  /** What the client sends in answer to an event. */
  function Added(c: Client, e: Event): seq<Command> {
    match e
    case Info => if c.infoReceived then [] else [ConnectCmd, Ping(c.handshake)]
    case PingEvent => [PongCmd]
    case _ => []
  }

  lemma InsertBehind(c: Client, extra: seq<Command>, sid: nat, id: nat)
    requires Behind(Pipe(c), sid, id) && Sub(sid) !in extra && Ping(id) !in extra
    ensures Behind(Pipe(c.(wire := c.wire + extra)), sid, id)
  {
    var u: nat :| EndsAt(Pipe(c), sid, id, u);
    var p := Pipe(c.(wire := c.wire + extra));
    assert p == c.wire + extra + c.outbound;
    var v: nat := if u < |c.wire| then u else u + |extra|;
    forall j | 0 <= j < |p|
      ensures (p[j] == Sub(sid) ==> j < v) && (p[j] == Ping(id) ==> v < j)
    {
      if j < |c.wire| {
        assert p[j] == Pipe(c)[j];
      } else if j >= |c.wire| + |extra| {
        assert p[j] == Pipe(c)[j - |extra|];
      } else {
        assert p[j] in extra;
      }
    }
    assert EndsAt(p, sid, id, v);
  }

  lemma EstablishedDrain(w: World, all: seq<Command>, id: nat, sid: nat)
    requires Base(w) && Legal(w, AEstablished(all)) && DrainOk(w, id, sid)
    ensures DrainOk(Next(w, AEstablished(all)), id, sid)
  {
    hide Pings, Pubs, Pongs, Messages, Handed, Sids, Numbers, PubsKept, Conserved;
    HandshakeWaits(w);
    HandshakeOver(w);
    var c, c' := w.c, Established(w.c, all);
    assert Pipe(c') == c.wire + all + c.outbound;
    if Ping(id) in c.outbound {
      var u: nat :| EndsAt(c.outbound, sid, id, u);
      assert EndsAt(Pipe(c'), sid, id, |c.wire + all| + u);
    }
  }

  lemma HandshakeOver(w: World)
    requires Base(w) && w.c.handshake in w.c.resolved
    ensures w.c.handshake !in w.c.pongs
  {
  }

  lemma StepDrains(w: World, a: Action)
    requires Base(w) && DrainsOk(w) && Legal(w, a)
    ensures DrainsOk(Next(w, a))
  {
    hide Pings, Pubs, Pongs, Messages, Handed, Sids, Numbers, PubsKept, Conserved, PongsInOrder, DrainOk, Announces;
    hide Settled;
    if IsClientCall(a) {
      CallDrains(w, a);
    } else if a.APrepare? {
      PrepareDrains(w);
    } else if a.AEstablished? {
      forall id | id in w.c.drains && id !in w.c.rejected
        ensures DrainOk(Next(w, a), id, w.c.drains[id])
      {
        EstablishedDrain(w, a.all, id, w.c.drains[id]);
      }
    } else if a.AReceive? {
      ReceiveDrains(w);
    } else if a.ServerTakes? {
      forall id | id in w.c.drains && id !in w.c.rejected
        ensures DrainOk(Take(w), id, w.c.drains[id])
      {
        TakeDrain(w, id, w.c.drains[id]);
      }
    } else if a.ServerSends? {
      ServerDrains(w, Msg(a.m));
    } else if a.ServerInfo? {
      ServerDrains(w, Info);
    } else if a.ServerPings? {
      ServerDrains(w, PingEvent);
    } else if !a.ALost? && w.c.up {
      forall id | id in Next(w, a).c.drains && id !in w.c.rejected
        ensures DrainOk(Next(w, a), id, w.c.drains[id])
      {
        assert DrainOk(w, id, w.c.drains[id]);
        SameDrain(w, Next(w, a), id, w.c.drains[id]);
      }
    }
  }

  lemma ReceiveDrains(w: World)
    requires Base(w) && DrainsOk(w) && w.c.up && w.toClient != []
    ensures DrainsOk(Receive(w))
  {
    hide DrainOk, Base, Receive;
    forall id | id in w.c.drains && id !in w.c.rejected
      ensures DrainOk(Receive(w), id, w.c.drains[id])
    {
      if w.toClient[0].Pong? {
        ReceivePongDrain(w, id, w.c.drains[id]);
      } else {
        ReceiveDrain(w, id, w.c.drains[id]);
      }
    }
    ReceiveKeeps(w);
  }

  lemma ReceiveKeeps(w: World)
    requires w.toClient != []
    ensures Receive(w).c.drains == w.c.drains && Receive(w).c.rejected == w.c.rejected && Receive(w).c.up == w.c.up
  {
    match w.toClient[0]
    case Info => if w.c.infoReceived {} else {}
    case Pong(_) => if w.c.pongs == [] {} else {}
    case _ =>
  }

  lemma SameDrain(w: World, w': World, id: nat, sid: nat)
    requires DrainOk(w, id, sid) && w'.toClient == w.toClient && w'.serverSubs == w.serverSubs
    requires w'.c.wire == w.c.wire && w'.c.outbound == w.c.outbound && w'.c.connected == w.c.connected
    requires w'.c.resolved == w.c.resolved && w'.c.handshake == w.c.handshake
    ensures DrainOk(w', id, sid)
  {
    hide Behind;
  }

  lemma PrepareDrains(w: World)
    requires Numbers(w) && Legal(w, APrepare)
    ensures DrainsOk(Next(w, APrepare))
  {
    assert forall id :: id in w.c.pongs ==> id in Prepare(w.c).rejected;
  }

  // -------------------------------------------------- what a flush waits for

  /** Behind the PING there are only publishes made after the flush. */
  ghost predicate LaterBehind(cmds: seq<Command>, id: nat, later: int) {
    forall i :: 0 <= i < |cmds| && cmds[i] == Ping(id) ==> |Pubs(cmds[i..])| <= later
  }

  /** Of the publishes before a flush none is behind its PING, and none is missing at
      the server when the PING is answered. */
  ghost predicate MarkOk(w: World, id: nat)
    requires id in w.c.marks
  {
    var c := w.c;
    && LaterBehind(Pipe(c), id, |c.published| - c.marks[id])
    && (Pong(id) in w.toClient ==> c.marks[id] <= |w.reached|)
    && (c.last == Some(id) && id in c.resolved ==> c.marks[id] <= |w.reached|)
  }

  ghost predicate MarksOk(w: World) {
    w.c.up ==> forall id :: id in w.c.marks && id !in w.c.rejected ==> MarkOk(w, id)
  }

  lemma LaterAppend(cmds: seq<Command>, extra: seq<Command>, id: nat, later: int)
    requires LaterBehind(cmds, id, later) && Ping(id) !in extra
    ensures LaterBehind(cmds + extra, id, later + |Pubs(extra)|)
  {
    hide Pubs;
    var all := cmds + extra;
    assert forall k :: |cmds| <= k < |all| ==> all[k] in extra;
    forall i | 0 <= i < |all| && all[i] == Ping(id)
      ensures |Pubs(all[i..])| <= later + |Pubs(extra)|
    {
      assert all[i..] == cmds[i..] + extra;
      ListsAppend(cmds[i..], extra);
    }
  }

  lemma LaterNew(cmds: seq<Command>, extra: seq<Command>, id: nat)
    requires Ping(id) !in cmds && (extra == [Ping(id)] || exists sid :: extra == [Unsub(sid), Ping(id)])
    ensures LaterBehind(cmds + extra, id, 0)
  {
    hide Pubs;
    var all := cmds + extra;
    ListsOne(Ping(id));
    assert forall k :: 0 <= k < |cmds| ==> all[k] in cmds;
    forall i | 0 <= i < |all| && all[i] == Ping(id)
      ensures |Pubs(all[i..])| <= 0
    {
      assert all[i..] == [Ping(id)];
    }
  }

  lemma LaterTail(cmds: seq<Command>, id: nat, later: int)
    requires cmds != [] && LaterBehind(cmds, id, later)
    ensures LaterBehind(cmds[1..], id, later)
    ensures cmds[0] == Ping(id) ==> |Pubs(cmds)| <= later
  {
    hide Pubs;
    assert cmds[0..] == cmds;
    forall i | 0 <= i < |cmds[1..]| && cmds[1..][i] == Ping(id)
      ensures |Pubs(cmds[1..][i..])| <= later
    {
      assert cmds[1..][i..] == cmds[i + 1..];
      assert cmds[i + 1] == Ping(id);
    }
  }

  lemma LaterInsert(c: Client, extra: seq<Command>, id: nat, later: int)
    requires LaterBehind(Pipe(c), id, later) && Pubs(extra) == [] && Ping(id) !in extra
    ensures LaterBehind(Pipe(c.(wire := c.wire + extra)), id, later)
  {
    hide Pubs;
    var all := Pipe(c.(wire := c.wire + extra));
    assert forall k :: |c.wire| <= k < |c.wire| + |extra| ==> all[k] in extra;
    forall i | 0 <= i < |all| && all[i] == Ping(id)
      ensures |Pubs(all[i..])| <= later
    {
      if i < |c.wire| {
        assert all[i..] == c.wire[i..] + extra + c.outbound && Pipe(c)[i..] == c.wire[i..] + c.outbound;
        ListsAppend(c.wire[i..] + extra, c.outbound);
        ListsAppend(c.wire[i..], extra);
        ListsAppend(c.wire[i..], c.outbound);
        assert Pipe(c)[i] == Ping(id);
      } else {
        assert all[i..] == Pipe(c)[i - |extra|..];
        assert Pipe(c)[i - |extra|] == Ping(id);
      }
    }
  }

  lemma CallMarks(w: World, a: Action)
    requires Base(w) && MarksOk(w) && IsClientCall(a)
    ensures MarksOk(Next(w, a))
  {
    hide Pings, Pubs, Pongs, Messages, Handed, Sids, Conserved, PongsInOrder, Next, LaterBehind, Pipe, Quiet, PubsKept;
    CallAppends(w, a);
    ExtraPings(w.c, a);
    var c, c', extra := w.c, Next(w, a).c, Extra(w.c, a);
    if c.up {
      forall id | id in c'.marks && id !in c'.rejected
        ensures MarkOk(Next(w, a), id)
      {
        if id in c.marks {
          assert MarkOk(w, id);
          LaterAppend(Pipe(c), extra, id, |c.published| - c.marks[id]);
        } else {
          UnderWay(w, id);
          LaterNew(Pipe(c), extra, id);
        }
      }
    }
  }

  lemma TakeMark(w: World, id: nat)
    requires Base(w) && w.c.up && w.c.wire != [] && id in w.c.marks && MarkOk(w, id)
    ensures MarkOk(Take(w), id)
  {
    hide Pings, Pubs, Pongs, Messages, Handed, Sids, Conserved, PongsInOrder, Numbers, LaterBehind;
    var c, w' := w.c, Take(w);
    assert Pipe(c)[0] == c.wire[0] && Pipe(c)[1..] == Pipe(w'.c);
    LaterTail(Pipe(c), id, |c.published| - c.marks[id]);
  }

  lemma ReceiveMark(w: World, id: nat)
    requires Base(w) && w.c.up && w.toClient != [] && id in w.c.marks && MarkOk(w, id)
    ensures id in Receive(w).c.marks && MarkOk(Receive(w), id)
  {
    hide Pings, Pubs, Pongs, Messages, Handed, Sids, Conserved, PongsInOrder, LaterBehind, PubsKept, Quiet;
    var c, w' := w.c, Receive(w);
    assert id != c.handshake;
    hide Numbers;
    if w.toClient[0].Pong? {
      PongIsForTheFirst(w);
      assert w.toClient[0] in w.toClient;
    } else {
      var extra := Added(c, w.toClient[0]);
      AddedNoPubs(c, w.toClient[0]);
      LaterInsert(c, extra, id, |c.published| - c.marks[id]);
      assert w'.c.wire == c.wire + extra && w'.c.outbound == c.outbound;
      assert Pipe(w'.c) == Pipe(c.(wire := c.wire + extra));
    }
  }

  lemma AddedNoPubs(c: Client, e: Event)
    ensures Pubs(Added(c, e)) == []
  {
    CollectNone(PubOf, Added(c, e));
  }

  lemma EstablishedMark(w: World, all: seq<Command>, id: nat)
    requires Base(w) && Legal(w, AEstablished(all)) && id in w.c.marks && MarkOk(w, id)
    ensures MarkOk(Next(w, AEstablished(all)), id)
  {
    hide Pings, Pubs, Pongs, Messages, Handed, Sids, Conserved, Numbers, LaterBehind, PubsKept;
    var c, c' := w.c, Established(w.c, all);
    NoPings(all);
    LaterInsert(c, all, id, |c.published| - c.marks[id]);
    assert Pipe(c') == Pipe(c.(wire := c.wire + all));
  }

  lemma StepMarks(w: World, a: Action)
    requires Base(w) && MarksOk(w) && Legal(w, a)
    ensures MarksOk(Next(w, a))
  {
    hide Pings, Pubs, Pongs, Messages, Handed, Sids, PubsKept, Conserved, PongsInOrder, MarkOk, Announces, Settled;
    var w' := Next(w, a);
    if IsClientCall(a) {
      CallMarks(w, a);
    } else if a.APrepare? {
      PrepareMarks(w);
    } else if w'.c.up {
      MarksKept(w, a);
      forall id | id in w'.c.marks && id !in w'.c.rejected
        ensures MarkOk(w', id)
      {
        assert MarkOk(w, id);
        if a.AEstablished? {
          EstablishedMark(w, a.all, id);
        } else if a.AReceive? {
          ReceiveMark(w, id);
        } else if a.ServerTakes? {
          TakeMark(w, id);
        } else {
          SameMark(w, w', id);
        }
      }
    }
  }

  lemma MarksKept(w: World, a: Action)
    requires Legal(w, a) && !IsClientCall(a) && !a.APrepare?
    ensures Next(w, a).c.marks == w.c.marks && Next(w, a).c.rejected == w.c.rejected
    ensures Next(w, a).c.up ==> w.c.up
  {
    if a.AReceive? {
      hide Receive;
      ReceiveKeepsMarks(w);
    }
  }

  lemma ReceiveKeepsMarks(w: World)
    requires w.toClient != []
    ensures SameMarks(w.c, Receive(w).c)
  {
    hide SameMarks, OnInfo, OnPong, OnPing, OnMsg;
    match w.toClient[0]
    case Info => OnInfoKeeps(w.c);
    case Pong(_) => OnPongKeeps(w.c);
    case PingEvent => OnPingKeeps(w.c);
    case Msg(m) => OnMsgKeeps(w.c, m);
  }

  ghost predicate SameMarks(c: Client, c': Client) {
    c'.marks == c.marks && c'.rejected == c.rejected && c'.up == c.up
  }

  lemma OnInfoKeeps(c: Client)
    ensures SameMarks(c, OnInfo(c))
  {
  }

  lemma OnPongKeeps(c: Client)
    ensures SameMarks(c, OnPong(c))
  {
  }

  lemma OnPingKeeps(c: Client)
    ensures SameMarks(c, OnPing(c))
  {
  }

  lemma OnMsgKeeps(c: Client, m: Message)
    ensures SameMarks(c, OnMsg(c, m))
  {
  }

  lemma SameMark(w: World, w': World, id: nat)
    requires id in w.c.marks && MarkOk(w, id) && w'.c.marks == w.c.marks && |w'.reached| == |w.reached|
    requires w'.c.wire == w.c.wire && w'.c.outbound == w.c.outbound && w'.c.published == w.c.published
    requires Pong(id) in w'.toClient ==> Pong(id) in w.toClient
    requires w'.c.resolved == w.c.resolved && (w'.c.last == w.c.last || w'.c.last.None?)
    ensures MarkOk(w', id)
  {
    hide LaterBehind;
  }

  lemma PrepareMarks(w: World)
    requires Base(w) && Legal(w, APrepare)
    ensures MarksOk(Next(w, APrepare))
  {
    hide Pubs;
    var w' := Next(w, APrepare);
    assert Pipe(w'.c) == [];
    forall id | id in w'.c.marks && id !in w'.c.rejected
      ensures LaterBehind(Pipe(w'.c), id, |w'.c.published| - w'.c.marks[id])
    {
    }
  }

  // -------------------------------------------------------------- whole runs

  ghost predicate Safe(w: World) {
    Base(w) && DrainsOk(w) && MarksOk(w)
  }

  ghost predicate LegalRun(w: World, run: seq<Action>)
    decreases |run|
  {
    run == [] || (Legal(w, run[0]) && LegalRun(Next(w, run[0]), run[1..]))
  }

  function After(w: World, run: seq<Action>): World
    decreases |run|
  {
    if run == [] then w else After(Next(w, run[0]), run[1..])
  }

  /** Before the first dial. */
  function Start(): World {
    World(Client(false, false, false, false, [], [], [], 1, 0, {}, {}, 0, {}, map[], map[], None, None, [], [], []),
          [], {}, [], [], [], [], [])
  }

  lemma StepSafe(w: World, a: Action)
    requires Safe(w) && Legal(w, a)
    ensures Safe(Next(w, a))
  {
    hide Base, DrainsOk, MarksOk, Legal, Next;
    StepBase(w, a);
    StepDrains(w, a);
    StepMarks(w, a);
  }

  lemma {:induction false} RunSafe(w: World, run: seq<Action>)
    requires Safe(w) && LegalRun(w, run)
    ensures Safe(After(w, run))
    decreases |run|
  {
    hide Safe, Legal, Next;
    if run != [] {
      StepSafe(w, run[0]);
      RunSafe(Next(w, run[0]), run[1..]);
    }
  }

  /** A drained subscription is under the number of its drain, and the drains that go on
      stay what they are. */
  lemma DrainCovers(w: World, sid: nat, now: bool)
    requires Numbers(w)
    ensures var c, c' := w.c, Drain(w.c, sid, now);
            && c'.subs == c.subs && c'.waiting == c.waiting
            && (forall id :: id in c.drains ==> id in c'.drains && c'.drains[id] == c.drains[id])
            && (sid in c.subs ==> sid in c'.drains.Values)
  {
    hide Drain;
    var c, c' := w.c, Drain(w.c, sid, now);
    if sid in c.subs && sid !in c.drains.Values {
      DrainAppends(c, sid, now);
      assert c.nextId !in c.drains;
      assert c'.drains[c.nextId] == sid;
    } else {
      NoDrain(c, sid, now);
    }
  }

  lemma Reachable(run: seq<Action>)
    requires LegalRun(Start(), run)
    ensures Safe(After(Start(), run))
  {
    hide LegalRun, After;
    assert Safe(Start());
    RunSafe(Start(), run);
  }

  /** In every run each PONG settles the deferred of the PING it answers. */
  lemma PongSettlesItsPing(run: seq<Action>)
    requires LegalRun(Start(), run)
    ensures var w := After(Start(), run);
            w.c.up && w.toClient != [] && w.toClient[0].Pong?
            ==> w.c.pongs != [] && Receive(w).c.resolved == w.c.resolved + {w.toClient[0].id}
  {
    hide LegalRun, After;
    Reachable(run);
    var w := After(Start(), run);
    if w.c.up && w.toClient != [] && w.toClient[0].Pong? {
      PongIsForTheFirst(w);
    }
  }

  /** When a drained subscription is cancelled because its PONG has come, it has been
      given everything the server sent for it on this connection, in order, and the
      server will not send more. */
  lemma DrainLosesNothing(run: seq<Action>, id: nat)
    requires LegalRun(Start(), run)
    requires var w := After(Start(), run); id in w.c.drains && id in w.c.resolved && w.c.up
    ensures var w := After(Start(), run);
            var sid := w.c.drains[id];
            && (sid in w.c.subs ==> For(sid, w.c.dispatched) == For(sid, w.sent))
            && Ended(w, sid)
  {
    hide LegalRun, After;
    Reachable(run);
    DrainedHasAll(After(Start(), run), id);
  }

  lemma DrainedHasAll(w: World, id: nat)
    requires Safe(w) && w.c.up && id in w.c.drains && id in w.c.resolved
    ensures var sid := w.c.drains[id];
            (sid in w.c.subs ==> For(sid, w.c.dispatched) == For(sid, w.sent)) && Ended(w, sid)
  {
    hide Messages, Pubs, Pings, Pongs, PongsInOrder, Sids;
    var sid, coming := w.c.drains[id], Messages(w.toClient);
    assert id !in w.c.rejected;
    assert DrainOk(w, id, sid);
    ForAppend(sid, w.c.received, coming);
    MessagesComing(w.toClient, sid);
  }

  lemma {:induction false} MessagesComing(events: seq<Event>, sid: nat)
    requires NoneComing(events, sid)
    ensures For(sid, Messages(events)) == []
  {
    if events != [] {
      EventsHead(events);
      assert events[0] in events;
      assert NoneComing(events[1..], sid);
      MessagesComing(events[1..], sid);
      if events[0].Msg? {
        assert Messages(events) == [events[0].m] + Messages(events[1..]);
        ForAppend(sid, [events[0].m], Messages(events[1..]));
        ForNone(sid, [events[0].m]);
      }
    }
  }

  /** When a flush is answered, every publish made before it on this connection has
      reached the server, in order. */
  lemma FlushWaitsForPublishes(run: seq<Action>)
    requires LegalRun(Start(), run)
    ensures var w := After(Start(), run);
            w.c.up && w.toClient != [] && w.toClient[0].Pong? && w.toClient[0].id in w.c.marks
            ==> w.c.marks[w.toClient[0].id] <= |w.reached| && w.reached <= w.c.published
  {
    hide LegalRun, After;
    Reachable(run);
    var w := After(Start(), run);
    if w.c.up && w.toClient != [] && w.toClient[0].Pong? && w.toClient[0].id in w.c.marks {
      FlushedHasReached(w);
    }
  }

  lemma FlushedHasReached(w: World)
    requires Safe(w) && w.c.up && w.toClient != [] && w.toClient[0].Pong? && w.toClient[0].id in w.c.marks
    ensures w.c.marks[w.toClient[0].id] <= |w.reached| && w.reached <= w.c.published
  {
    hide Messages, Pubs, Pings, Pongs, Sids;
    var id := w.toClient[0].id;
    PongIsForTheFirst(w);
    assert id in w.c.pongs;
    assert MarkOk(w, id);
    assert w.toClient[0] in w.toClient;
  }

  /** What is published on a connection that is given up has all reached the server, and
      nothing is dropped, exactly when no publish is left on its way. */
  lemma GivenUpIff(w: World)
    requires Safe(w)
    ensures Next(w, APrepare).dropped == w.dropped <==> Pubs(Pipe(w.c)) == []
    ensures w.reached == w.c.published <==> Pubs(Pipe(w.c)) == []
    ensures |Next(w, APrepare).dropped| == |w.dropped| + |w.c.published| - |w.reached|
  {
    hide Pubs, DrainsOk, MarksOk, Numbers;
  }

  /** No connection is given up with a publish on its way. */
  ghost predicate NothingLeft(w: World, run: seq<Action>)
    decreases |run|
  {
    run == []
    || ((run[0].APrepare? ==> Pubs(Pipe(w.c)) == []) && NothingLeft(Next(w, run[0]), run[1..]))
  }

  lemma {:induction false} DroppedIff(w: World, run: seq<Action>)
    ensures After(w, run).dropped == [] <==> w.dropped == [] && NothingLeft(w, run)
    decreases |run|
  {
    hide Next;
    if run != [] {
      DroppedIff(Next(w, run[0]), run[1..]);
      DroppedNext(w, run[0]);
    }
  }

  lemma DroppedNext(w: World, a: Action)
    ensures Next(w, a).dropped == w.dropped + if a.APrepare? then Pubs(Pipe(w.c)) else []
  {
    hide Pubs;
  }

  /** When a draining connection closes, every publish made on it before the last flush
      has reached the server. Publishes of earlier connections all have exactly when
      none of these was given up with a publish on its way. */
  lemma CloseAfterPublishes(run: seq<Action>)
    requires LegalRun(Start(), run + [AClose])
    ensures var w := After(Start(), run);
            && w.c.last.Some? && w.c.last.value in w.c.marks
            && (w.c.up ==> w.reached <= w.c.published && w.c.marks[w.c.last.value] <= |w.reached|)
            && (w.publishedBefore == w.reachedBefore <==> NothingLeft(Start(), run))
  {
    RunPrefix(Start(), run, AClose);
    DroppedIff(Start(), run);
    hide LegalRun, After, NothingLeft;
    Reachable(run);
    ClosedHasReached(After(Start(), run));
  }

  /** INFO comes, CONNECT and PING are to go. */
  lemma InfoExample() returns (run: seq<Action>)
    ensures LegalRun(Start(), run)
    ensures var w := After(Start(), run);
            && w.c == Start().c.(up := true, handshake := 1, nextId := 2, pongs := [1], infoReceived := true,
                                 wire := [ConnectCmd, Ping(1)])
            && w.toClient == [] && w.dropped == []
  {
    hide LegalRun, After, Prepare, Announces, AsSet, FlushPending;
    RunNothing(Start());
    RunMore(Start(), [], APrepare);
    run := [] + [APrepare];
    FirstPrepare();
    RunMore(Start(), run, ServerInfo);
    run := run + [ServerInfo];
    RunMore(Start(), run, AReceive);
    run := run + [AReceive];
  }

  lemma FirstPrepare()
    ensures Prepare(Start().c) == Start().c.(up := true, handshake := 1, nextId := 2, pongs := [1])
    ensures Pubs(Pipe(Start().c)) == []
  {
    assert Pipe(Start().c) == [];
  }

  /** The server takes both, and its PONG comes. */
  lemma HandshakeExample() returns (run: seq<Action>)
    ensures LegalRun(Start(), run)
    ensures var w := After(Start(), run);
            && w.c == Start().c.(up := true, handshake := 1, nextId := 2, resolved := {1}, infoReceived := true)
            && w.toClient == [] && w.dropped == []
  {
    hide LegalRun, After;
    run := InfoExample();
    RunMore(Start(), run, ServerTakes);
    run := run + [ServerTakes];
    RunMore(Start(), run, ServerTakes);
    run := run + [ServerTakes];
    RunMore(Start(), run, AReceive);
    run := run + [AReceive];
  }

  /** A connection that was established is lost, a publish is made before the next dial,
      and the dial drops it. */
  lemma DroppedExample(n: nat) returns (run: seq<Action>)
    ensures LegalRun(Start(), run) && After(Start(), run).dropped == [n]
  {
    hide LegalRun, After;
    run := HandshakeExample();
    RunMore(Start(), run, AEstablished([]));
    run := run + [AEstablished([])];
    RunMore(Start(), run, ALost);
    run := run + [ALost];
    RunMore(Start(), run, APublish(n, false));
    run := run + [APublish(n, false)];
    assert Pipe(After(Start(), run).c) == [Pub(n)];
    RunMore(Start(), run, APrepare);
    ListsOne(Pub(n));
    run := run + [APrepare];
  }

  lemma RunNothing(w: World)
    ensures LegalRun(w, []) && After(w, []) == w
  {
  }

  lemma {:induction false} RunMore(w: World, run: seq<Action>, a: Action)
    requires LegalRun(w, run) && Legal(After(w, run), a)
    ensures LegalRun(w, run + [a]) && After(w, run + [a]) == Next(After(w, run), a)
    decreases |run|
  {
    hide Legal, Next;
    if run == [] {
      assert run + [a] == [a] && [a][1..] == [];
    } else {
      assert (run + [a])[1..] == run[1..] + [a] && (run + [a])[0] == run[0];
      RunMore(Next(w, run[0]), run[1..], a);
    }
  }

  lemma {:induction false} RunPrefix(w: World, run: seq<Action>, a: Action)
    requires LegalRun(w, run + [a])
    ensures LegalRun(w, run) && Legal(After(w, run), a)
    decreases |run|
  {
    hide Legal, Next;
    if run == [] {
      assert run + [a] == [a];
    } else {
      assert (run + [a])[1..] == run[1..] + [a] && (run + [a])[0] == run[0];
      RunPrefix(Next(w, run[0]), run[1..], a);
    }
  }

  lemma ClosedHasReached(w: World)
    requires Safe(w) && Legal(w, AClose)
    ensures w.c.last.value in w.c.marks
    ensures w.c.up ==> w.reached <= w.c.published && w.c.marks[w.c.last.value] <= |w.reached|
    ensures w.publishedBefore == w.reachedBefore <==> w.dropped == []
  {
    hide Messages, Pubs, Pings, Pongs, PongsInOrder, Sids;
    var id := w.c.last.value;
    if w.c.up {
      assert MarkOk(w, id);
    }
  }
}
