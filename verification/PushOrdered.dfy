/** The ordered push consumer: numbered deliveries that may be lost, repeated, late or
    out of order are made into the exact sequence of wanted entries, by starting a new
    consumer under a new subscription number whenever the numbers do not fit. */
module PushOrdered {
  import opened Bytes
  import opened Stream

  /** A message for a subscription: the consumer's number and the stream's. */
  datatype Delivery = Delivery(sid: nat, deliverySeq: nat, streamSeq: nat, entry: Entry)

  /** What the client knows, and what it has done. */
  datatype Client = Client(
    sid: nat,                 // of the subscription
    sidCounter: nat,          // last number given to any subscription
    closed: bool,
    deliverySeq: nat,         // of the last message taken from this consumer
    streamSeq: nat,           // of the last message taken
    starts: map<nat, nat>,    // consumers asked for: subscription number, first sequence
    user: seq<Item>)          // handed to the user

  /** A new consumer, that delivers from `start` on under a new subscription number. */
  function Reset(c: Client, start: nat): Client {
    if c.closed then c
    else
      var sid := c.sidCounter + 1;
      c.(sid := sid, sidCounter := sid, deliverySeq := 0, starts := c.starts[sid := start])
  }

  function OnMessage(c: Client, m: Delivery): Client {
    if c.closed || m.sid != c.sid then c
    else if m.deliverySeq != c.deliverySeq + 1 then Reset(c, c.streamSeq + 1)
    else c.(deliverySeq := m.deliverySeq, streamSeq := m.streamSeq, user := c.user + [Item(m.streamSeq, m.entry)])
  }

  /** An idle heartbeat names the last number the consumer has used; when it names none
      it never fits. */
  function OnHeartbeat(c: Client, sid: nat, last: Option<nat>): Client {
    if c.closed || sid != c.sid || last == Some(c.deliverySeq) then c else Reset(c, c.streamSeq + 1)
  }

  function OnMissedHeartbeats(c: Client, connected: bool): Client {
    if connected then Reset(c, c.streamSeq + 1) else c
  }

  // ---------------------------------------------------------------- the client

  datatype Owner = Ordered | Other

  /** The subscriptions of a connection, by number. */
  class Subscriptions {
    var sidCounter: nat
    var subs: map<nat, Owner>

    ghost predicate Valid()
      reads this
    {
      forall sid :: sid in subs ==> sid <= sidCounter
    }

    constructor ()
      ensures Valid() && subs == map[] && sidCounter == 0
    {
      sidCounter, subs := 0, map[];
    }

    method Add(o: Owner) returns (sid: nat)
      requires Valid()
      modifies this
      ensures Valid() && sid !in old(subs) && subs == old(subs)[sid := o]
      ensures sid == sidCounter == old(sidCounter) + 1
    {
      sidCounter := sidCounter + 1;
      sid := sidCounter;
      subs := subs[sid := o];
    }

    /** The old number is forgotten, the new one was never used. */
    method Resub(before: nat, o: Owner) returns (sid: nat)
      requires Valid()
      modifies this
      ensures Valid() && sid !in old(subs) && subs == (old(subs) - {before})[sid := o]
      ensures sid == sidCounter == old(sidCounter) + 1
    {
      sidCounter := sidCounter + 1;
      subs := subs - {before};
      sid := sidCounter;
      subs := subs[sid := o];
    }

    method Cancel(sid: nat)
      requires Valid()
      modifies this`subs
      ensures Valid() && subs == old(subs) - {sid}
    {
      subs := subs - {sid};
    }
  }

  /** The ordered subscription among the others of its connection. */
  class Subscription {
    const subscriptions: Subscriptions
    var sid: nat
    var closed: bool
    var deliverySeq: nat
    var streamSeq: nat
    var starts: map<nat, nat>
    var restarts: nat
    var user: seq<Item>

    ghost predicate Valid()
      reads this, subscriptions
    {
      && subscriptions.Valid()
      && (forall s :: s in subscriptions.subs && subscriptions.subs[s] == Ordered ==> s == sid)
      && (closed <==> sid !in subscriptions.subs)
      && (!closed ==> subscriptions.subs[sid] == Ordered)
    }

    ghost function State(): Client
      reads this, subscriptions
    {
      Client(sid, subscriptions.sidCounter, closed, deliverySeq, streamSeq, starts, user)
    }

    /** The subscription comes before the request for its consumer. */
    constructor (s: Subscriptions, start: nat)
      requires s.Valid() && Ordered !in s.subs.Values
      modifies s
      ensures Valid() && subscriptions == s
      ensures State() == Begin(old(s.sidCounter), start)
    {
      subscriptions := s;
      closed, deliverySeq, streamSeq, restarts, user := false, 0, 0, 0, [];
      new;
      sid := s.Add(Ordered);
      starts := map[sid := start];
    }

    method ResetOrderedConsumer(sseq: nat)
      requires Valid()
      modifies this, subscriptions
      ensures Valid() && State() == Reset(old(State()), sseq)
    {
      if closed {
        return;
      }
      sid := subscriptions.Resub(sid, Ordered);
      deliverySeq := 0;
      restarts := restarts + 1;
      starts := starts[sid := sseq];
    }

    method Close()
      requires Valid()
      modifies this, subscriptions
      ensures Valid() && State() == old(State()).(closed := true)
    {
      subscriptions.Cancel(sid);
      closed := true;
    }

    method CheckOrderedConsumer(dseq: nat, sseq: nat) returns (ingest: bool)
      requires Valid() && !closed
      modifies this, subscriptions
      ensures Valid() && ingest == (dseq == old(deliverySeq) + 1)
      ensures State() == if ingest then old(State()).(deliverySeq := dseq, streamSeq := sseq)
                         else Reset(old(State()), old(streamSeq) + 1)
    {
      if dseq != deliverySeq + 1 {
        ResetOrderedConsumer(streamSeq + 1);
        return false;
      }
      deliverySeq := dseq;
      streamSeq := sseq;
      return true;
    }

    /** A message reaches the subscription only under its present number. */
    method ProcessMsg(m: Delivery)
      requires Valid()
      modifies this, subscriptions
      ensures Valid() && State() == OnMessage(old(State()), m)
      ensures !old(closed) && m.sid == old(sid) && m.deliverySeq == old(deliverySeq) + 1 ==>
        user == old(user) + [Item(m.streamSeq, m.entry)] && sid == old(sid)
      ensures !old(closed) && m.sid == old(sid) && m.deliverySeq != old(deliverySeq) + 1 ==>
        user == old(user) && sid == old(subscriptions.sidCounter) + 1 && deliverySeq == 0
    {
      if m.sid !in subscriptions.subs || subscriptions.subs[m.sid] != Ordered {
        return;
      }
      var ingest := CheckOrderedConsumer(m.deliverySeq, m.streamSeq);
      if ingest {
        user := user + [Item(m.streamSeq, m.entry)];
      }
    }

    method ProcessHeartbeat(to: nat, last: Option<nat>)
      requires Valid()
      modifies this, subscriptions
      ensures Valid() && State() == OnHeartbeat(old(State()), to, last)
    {
      if to !in subscriptions.subs || subscriptions.subs[to] != Ordered {
        return;
      }
      if last.None? || last.value != deliverySeq {
        ResetOrderedConsumer(streamSeq + 1);
      }
    }

    method MissedHeartbeats(connected: bool)
      requires Valid()
      modifies this, subscriptions
      ensures Valid() && State() == OnMissedHeartbeats(old(State()), connected)
    {
      if !connected {
        return;
      }
      ResetOrderedConsumer(streamSeq + 1);
    }
  }

  // ----------------------------------------------------------------- the world

  function Begin(sidCounter: nat, start: nat): Client {
    Client(sidCounter + 1, sidCounter + 1, false, 0, 0, map[sidCounter + 1 := start], [])
  }

  /** The client, the stream, and everything the server has ever sent. `early`: a reset
      has happened before anything was taken. */
  datatype World = World(client: Client, log: Log, sent: set<Delivery>, early: bool)

  /** `Arrive` may take any message ever sent, any number of times: loss, delay,
      repetition and change of order are all there. */
  datatype Action =
    | Append(entry: Entry)
    | Send(m: Delivery)
    | Arrive(m: Delivery)
    | Heartbeat(sid: nat, last: Option<nat>)
    | Missed(connected: bool)
    | OtherSubscription
    | Close

  /** A consumer sends the n-th wanted entry from its start with number n. It may do so
      whenever it has been asked for, also more than once. */
  ghost predicate Legal(w: World, f: Filter, a: Action) {
    match a
    case Send(m) =>
      && m.sid in w.client.starts
      && IsNth(w.log, f, w.client.starts[m.sid], m.deliverySeq, m.streamSeq)
      && m.entry == w.log[m.streamSeq - 1]
    case Arrive(m) => m in w.sent
    case _ => true
  }

  function ClientStep(c: Client, a: Action): Client {
    match a
    case Arrive(m) => OnMessage(c, m)
    case Heartbeat(sid, last) => OnHeartbeat(c, sid, last)
    case Missed(connected) => OnMissedHeartbeats(c, connected)
    case OtherSubscription => c.(sidCounter := c.sidCounter + 1)
    case Close => c.(closed := true)
    case _ => c
  }

  function Next(w: World, a: Action): World {
    var c := ClientStep(w.client, a);
    World(c,
          if a.Append? then w.log + [a.entry] else w.log,
          if a.Send? then w.sent + {a.m} else w.sent,
          w.early || (w.client.user == [] && c.sid != w.client.sid))
  }

  ghost predicate LegalRun(w: World, f: Filter, run: seq<Action>)
    decreases |run|
  {
    run == [] || (Legal(w, f, run[0]) && LegalRun(Next(w, run[0]), f, run[1..]))
  }

  function After(w: World, run: seq<Action>): World
    decreases |run|
  {
    if run == [] then w else After(Next(w, run[0]), run[1..])
  }

  function Start(log: Log, sidCounter: nat, start: nat): World {
    World(Begin(sidCounter, start), log, {}, false)
  }

  // ------------------------------------------------------------------ its safety

  /** Where the user's sequence begins. */
  function Base(w: World, start: nat): nat {
    if w.early then 1 else start
  }

  ghost predicate TrueDelivery(w: World, f: Filter, m: Delivery) {
    && m.sid in w.client.starts
    && IsNth(w.log, f, w.client.starts[m.sid], m.deliverySeq, m.streamSeq)
    && m.entry == w.log[m.streamSeq - 1]
  }

  ghost predicate Safe(w: World, f: Filter, start: nat) {
    var c := w.client;
    && (forall sid :: sid in c.starts ==> 1 <= sid <= c.sidCounter)
    && c.sid in c.starts && c.streamSeq <= |w.log|
    && (forall m :: m in w.sent ==> TrueDelivery(w, f, m))
    && (c.user == [] ==> c.streamSeq == 0)
    && var own := c.starts[c.sid];
       && Base(w, start) <= own
       && |Matching(w.log, f, own, c.streamSeq + 1)| == c.deliverySeq
       && c.user == Matching(w.log, f, Base(w, start), own) + Matching(w.log, f, own, c.streamSeq + 1)
       && (c.user == [] ==> own == Base(w, start))
       && (c.user != [] ==> own <= c.streamSeq + 1)
  }

  lemma StartSafe(log: Log, f: Filter, sidCounter: nat, start: nat)
    requires start >= 1
    ensures Safe(Start(log, sidCounter, start), f, start)
  {
  }

  lemma SentStays(w: World, f: Filter, a: Action, m: Delivery)
    requires TrueDelivery(w, f, m) && (forall sid :: sid in w.client.starts ==> sid <= w.client.sidCounter)
    ensures TrueDelivery(Next(w, a), f, m)
  {
    if a.Append? {
      IsNthStays(w.log, [a.entry], f, w.client.starts[m.sid], m.deliverySeq, m.streamSeq);
    }
  }

  lemma AppendSafe(w: World, f: Filter, start: nat, entry: Entry)
    requires Safe(w, f, start)
    ensures var c, own := w.client, w.client.starts[w.client.sid];
            && Matching(w.log + [entry], f, own, c.streamSeq + 1) == Matching(w.log, f, own, c.streamSeq + 1)
            && Matching(w.log + [entry], f, Base(w, start), own) == Matching(w.log, f, Base(w, start), own)
  {
    var c := w.client;
    var own := c.starts[c.sid];
    MatchingStays(w.log, [entry], f, own, c.streamSeq + 1);
    if own <= |w.log| + 1 {
      MatchingStays(w.log, [entry], f, Base(w, start), own);
    }
  }

  /** What was taken, as one stretch of the stream. */
  lemma OneStretch(w: World, f: Filter, start: nat)
    requires Safe(w, f, start) && start >= 1
    ensures w.client.user == Matching(w.log, f, Base(w, start), w.client.streamSeq + 1)
    ensures w.client.user == [] || Base(w, start) <= w.client.streamSeq + 1
  {
    var c := w.client;
    if c.user != [] {
      MatchingSplit(w.log, f, Base(w, start), c.starts[c.sid], c.streamSeq + 1);
    }
  }

  lemma ResetSafe(w: World, f: Filter, start: nat)
    requires Safe(w, f, start) && start >= 1 && !w.client.closed
    ensures var c := Reset(w.client, w.client.streamSeq + 1);
            Safe(w.(client := c, early := w.early || w.client.user == []), f, start)
  {
    OneStretch(w, f, start);
    var c := Reset(w.client, w.client.streamSeq + 1);
    forall m | m in w.sent
      ensures m.sid in c.starts && c.starts[m.sid] == w.client.starts[m.sid]
    {
      assert TrueDelivery(w, f, m);
    }
  }

  lemma ArriveSafe(w: World, f: Filter, start: nat, m: Delivery)
    requires Safe(w, f, start) && start >= 1 && m in w.sent && !w.client.closed
    requires m.sid == w.client.sid && m.deliverySeq == w.client.deliverySeq + 1
    ensures Safe(w.(client := OnMessage(w.client, m)), f, start)
  {
    assert TrueDelivery(w, f, m);
    var c := w.client;
    TakeNext(w.log, f, c.starts[c.sid], c.deliverySeq, c.streamSeq + 1, m.streamSeq);
  }

  lemma StepSafe(w: World, f: Filter, start: nat, a: Action)
    requires Safe(w, f, start) && start >= 1 && Legal(w, f, a)
    ensures Safe(Next(w, a), f, start)
  {
    hide Matching, IsNth;
    forall m | m in w.sent
      ensures TrueDelivery(Next(w, a), f, m)
    {
      SentStays(w, f, a, m);
    }
    match a
    case Append(entry) => AppendSafe(w, f, start, entry);
    case Arrive(m) =>
      if !w.client.closed && m.sid == w.client.sid {
        if m.deliverySeq == w.client.deliverySeq + 1 {
          ArriveSafe(w, f, start, m);
        } else {
          ResetSafe(w, f, start);
        }
      }
    case Heartbeat(_, _) => if !w.client.closed { ResetSafe(w, f, start); }
    case Missed(_) => if !w.client.closed { ResetSafe(w, f, start); }
    case _ =>
  }

  lemma {:induction false} RunSafe(w: World, f: Filter, start: nat, run: seq<Action>)
    requires Safe(w, f, start) && start >= 1 && LegalRun(w, f, run)
    ensures Safe(After(w, run), f, start)
    decreases |run|
  {
    hide Safe;
    if run != [] {
      StepSafe(w, f, start, run[0]);
      RunSafe(Next(w, run[0]), f, start, run[1..]);
    }
  }

  /** In every run the user has exactly the wanted entries up to the last one taken, each
      once and in order: from the start asked for, or from the first entry of the stream
      if a reset came before anything was taken. */
  lemma ExactDelivery(log: Log, f: Filter, sidCounter: nat, start: nat, run: seq<Action>)
    requires start >= 1 && LegalRun(Start(log, sidCounter, start), f, run)
    ensures var w := After(Start(log, sidCounter, start), run);
            w.client.user == Matching(w.log, f, if w.early then 1 else start, w.client.streamSeq + 1)
  {
    hide LegalRun, After;
    StartSafe(log, f, sidCounter, start);
    RunSafe(Start(log, sidCounter, start), f, start, run);
    OneStretch(After(Start(log, sidCounter, start), run), f, start);
  }

  /** Where the promise made to the caller, a sequence from `start` on, is kept: unless
      a reset came before anything was taken and the user got an entry before `start`. */
  lemma PromiseKeptIff(log: Log, f: Filter, sidCounter: nat, start: nat, run: seq<Action>)
    requires start >= 1 && LegalRun(Start(log, sidCounter, start), f, run)
    ensures var w := After(Start(log, sidCounter, start), run);
            var end := w.client.streamSeq + 1;
            w.client.user == Matching(w.log, f, start, end)
            <==> !w.early || Matching(w.log, f, 1, if start < end then start else end) == []
  {
    hide LegalRun, After;
    ExactDelivery(log, f, sidCounter, start, run);
    var w := After(Start(log, sidCounter, start), run);
    var end := w.client.streamSeq + 1;
    if start < end {
      MatchingSplit(w.log, f, 1, start, end);
    }
  }

  ghost predicate Kept(w: World, f: Filter, start: nat) {
    w.client.user == Matching(w.log, f, start, w.client.streamSeq + 1)
  }

  ghost predicate AlwaysKept(log: Log, f: Filter, sidCounter: nat, start: nat) {
    forall run :: LegalRun(Start(log, sidCounter, start), f, run)
                  ==> Kept(After(Start(log, sidCounter, start), run), f, start)
  }

  /** No wanted entry is, or can come to be, before `start`. */
  ghost predicate NothingBefore(log: Log, f: Filter, start: nat) {
    if start <= |log| + 1 then Matching(log, f, 1, start) == [] else f == iset{}
  }

  /** The client hears nothing for a while, resets, and hands on an entry before the one
      it was asked to start with. */
  lemma EarlyReset(log: Log, f: Filter, sidCounter: nat, start: nat, n: nat) returns (run: seq<Action>)
    requires IsNth(log, f, 1, 1, n) && n < start
    ensures LegalRun(Start(log, sidCounter, start), f, run)
    ensures !Kept(After(Start(log, sidCounter, start), run), f, start)
  {
    hide IsNth, Kept;
    assert 1 <= n <= |log| by { NthInLog(log, f, n); }
    var m := Delivery(sidCounter + 2, 1, n, log[n - 1]);
    run := [Missed(true), Send(m), Arrive(m)];
    var w0 := Start(log, sidCounter, start);
    var w1 := Next(w0, run[0]);
    var w2 := Next(w1, run[1]);
    var w3 := Next(w2, run[2]);
    assert run[1..] == [Send(m), Arrive(m)] && run[1..][1..] == [Arrive(m)] && run[1..][1..][1..] == [];
    assert LegalRun(w3, f, []) && After(w3, []) == w3;
    assert LegalRun(w2, f, [Arrive(m)]) && After(w2, [Arrive(m)]) == w3;
    assert LegalRun(w1, f, run[1..]) && After(w1, run[1..]) == w3;
    assert !Kept(w3, f, start) by { NotKept(w3, f, start, n); }
  }

  lemma NthInLog(log: Log, f: Filter, n: nat)
    requires IsNth(log, f, 1, 1, n)
    ensures 1 <= n <= |log|
  {
  }

  lemma NotKept(w: World, f: Filter, start: nat, n: nat)
    requires w.client.streamSeq == n < start && w.client.user != []
    ensures !Kept(w, f, start)
  {
  }

  /** There is a first among the wanted entries. */
  lemma FirstWanted(log: Log, f: Filter, end: nat) returns (n: nat)
    requires Matching(log, f, 1, end) != []
    ensures n < end && IsNth(log, f, 1, 1, n)
  {
    n := Matching(log, f, 1, end)[0].seqno;
    MatchingWanted(log, f, 1, end, 0);
    MatchingSplit(log, f, 1, n, end);
    if Matching(log, f, 1, n) != [] {
      MatchingWanted(log, f, 1, n, 0);
    }
  }

  /** The promise is kept in every run exactly when there is nothing before `start` that
      could be handed on by mistake; so always when `start` is 1. */
  lemma AlwaysKeptIff(log: Log, f: Filter, sidCounter: nat, start: nat)
    requires start >= 1
    ensures AlwaysKept(log, f, sidCounter, start) <==> NothingBefore(log, f, start)
  {
    hide LegalRun, After;
    var w0 := Start(log, sidCounter, start);
    if NothingBefore(log, f, start) {
      forall run | LegalRun(w0, f, run)
        ensures Kept(After(w0, run), f, start)
      {
        PromiseKeptIff(log, f, sidCounter, start, run);
        LogGrows(w0, run);
        assert log + After(w0, run).log[|log|..] == After(w0, run).log;
        NothingBeforeStays(log, After(w0, run).log[|log|..], f, start, After(w0, run).client.streamSeq + 1);
      }
    } else {
      var run := BreakPromise(log, f, sidCounter, start);
    }
  }

  lemma {:induction false} LogGrows(w: World, run: seq<Action>)
    ensures w.log <= After(w, run).log
    decreases |run|
  {
    if run != [] {
      LogGrows(Next(w, run[0]), run[1..]);
    }
  }

  lemma NothingBeforeStays(log: Log, more: Log, f: Filter, start: nat, end: nat)
    requires NothingBefore(log, f, start) && start >= 1 && end >= 1
    ensures Matching(log + more, f, 1, if start < end then start else end) == []
  {
    var e := if start < end then start else end;
    if f == iset{} {
      if Matching(log + more, f, 1, e) != [] {
        MatchingWanted(log + more, f, 1, e, 0);
      }
    } else {
      MatchingStays(log, more, f, 1, e);
      MatchingSplit(log, f, 1, e, start);
    }
  }

  lemma BreakPromise(log: Log, f: Filter, sidCounter: nat, start: nat) returns (run: seq<Action>)
    requires start >= 1 && !NothingBefore(log, f, start)
    ensures LegalRun(Start(log, sidCounter, start), f, run)
    ensures !Kept(After(Start(log, sidCounter, start), run), f, start)
  {
    if start <= |log| + 1 {
      var n := FirstWanted(log, f, start);
      run := EarlyReset(log, f, sidCounter, start, n);
    } else {
      var subject :| subject in f;
      var e := Entry(subject, []);
      var n := FirstWanted(log + [e], f, |log| + 2);
      var rest := EarlyReset(log + [e], f, sidCounter, start, n);
      run := [Append(e)] + rest;
      assert Next(Start(log, sidCounter, start), Append(e)) == Start(log + [e], sidCounter, start);
      assert run[1..] == rest;
    }
  }

  // ------------------------------------------------- what a gap leads to

  /** The user has one more entry, and with it all that is wanted up to there. */
  ghost predicate TakesOne(w: World, w': World, f: Filter, start: nat, m: Delivery) {
    && 1 <= m.streamSeq <= |w.log|
    && w'.client.user == w.client.user + [Item(m.streamSeq, w.log[m.streamSeq - 1])]
    && w'.client.user == Matching(w.log, f, Base(w', start), m.streamSeq + 1)
    && w'.client.streamSeq == m.streamSeq && w'.client.sid == w.client.sid
  }

  /** The user has what it had. There is a consumer under a number that none had before
      and no message bears; whatever the stream comes to be, the first entry it sends is
      the next wanted one behind what was taken, and that is what the client waits for. */
  ghost predicate Restarted(w: World, w': World, f: Filter) {
    var c, c' := w.client, w'.client;
    && c'.user == c.user && c'.streamSeq == c.streamSeq && !c'.closed
    && c'.sid !in c.starts && (forall m :: m in w.sent ==> m.sid != c'.sid)
    && c'.sid in c'.starts && c'.deliverySeq == 0
    && forall log, n :: w.log <= log ==>
         (IsNth(log, f, c'.starts[c'.sid], 1, n) <==> NextWanted(log, f, c.streamSeq, n))
  }

  lemma ResetRestarts(w: World, w': World, f: Filter, start: nat)
    requires Safe(w, f, start) && !w.client.closed && w'.client == Reset(w.client, w.client.streamSeq + 1)
    ensures Restarted(w, w', f)
  {
    forall m | m in w.sent
      ensures m.sid != w'.client.sid
    {
      assert TrueDelivery(w, f, m);
    }
    hide IsNth, NextWanted;
    forall log: Log, n: nat
      ensures IsNth(log, f, w.client.streamSeq + 1, 1, n) <==> NextWanted(log, f, w.client.streamSeq, n)
    {
      NextIsFirst(log, f, w.client.streamSeq, n);
    }
  }

  /** In every run: of the present consumer the next delivery is taken, and any other
      leads to a new consumer. So does a heartbeat that names another delivery than the
      last, and so do missed heartbeats while connected. */
  lemma NothingMissedIsIgnored(log: Log, f: Filter, sidCounter: nat, start: nat, run: seq<Action>, a: Action)
    requires start >= 1 && LegalRun(Start(log, sidCounter, start), f, run)
    requires var w := After(Start(log, sidCounter, start), run); !w.client.closed && Legal(w, f, a)
    ensures var w := After(Start(log, sidCounter, start), run);
            var w' := Next(w, a);
            && (a.Arrive? && a.m.sid != w.client.sid ==> w'.client == w.client)
            && (a.Arrive? && a.m.sid == w.client.sid ==>
                  if a.m.deliverySeq == w.client.deliverySeq + 1 then TakesOne(w, w', f, start, a.m)
                  else Restarted(w, w', f))
            && (a.Heartbeat? ==>
                  if a.sid != w.client.sid || a.last == Some(w.client.deliverySeq) then w'.client == w.client
                  else Restarted(w, w', f))
            && (a.Missed? ==> if a.connected then Restarted(w, w', f) else w'.client == w.client)
  {
    hide LegalRun, After, Restarted;
    StartSafe(log, f, sidCounter, start);
    RunSafe(Start(log, sidCounter, start), f, start, run);
    var w := After(Start(log, sidCounter, start), run);
    match a
    case Arrive(m) =>
      if m.sid == w.client.sid {
        if m.deliverySeq == w.client.deliverySeq + 1 {
          NextIsTaken(w, f, start, m);
        } else {
          ResetRestarts(w, Next(w, a), f, start);
        }
      }
    case Heartbeat(sid, last) =>
      if sid == w.client.sid && last != Some(w.client.deliverySeq) {
        ResetRestarts(w, Next(w, a), f, start);
      }
    case Missed(connected) =>
      if connected {
        ResetRestarts(w, Next(w, a), f, start);
      }
    case _ =>
  }

  lemma NextIsTaken(w: World, f: Filter, start: nat, m: Delivery)
    requires Safe(w, f, start) && start >= 1 && !w.client.closed && m in w.sent
    requires m.sid == w.client.sid && m.deliverySeq == w.client.deliverySeq + 1
    ensures TakesOne(w, Next(w, Arrive(m)), f, start, m)
  {
    assert TrueDelivery(w, f, m);
    ArriveSafe(w, f, start, m);
    OneStretch(Next(w, Arrive(m)), f, start);
  }

  /** From whatever has happened the client can catch up: three steps, one of them the
      monitor's, give the user the next wanted entry. */
  lemma CanCatchUp(log: Log, f: Filter, sidCounter: nat, start: nat, run: seq<Action>, n: nat)
    returns (more: seq<Action>)
    requires start >= 1 && LegalRun(Start(log, sidCounter, start), f, run)
    requires var w := After(Start(log, sidCounter, start), run);
             !w.client.closed && NextWanted(w.log, f, w.client.streamSeq, n)
    ensures var w := After(Start(log, sidCounter, start), run);
            && LegalRun(w, f, more)
            && After(w, more).client.user == w.client.user + [Item(n, w.log[n - 1])]
  {
    hide LegalRun, After;
    StartSafe(log, f, sidCounter, start);
    RunSafe(Start(log, sidCounter, start), f, start, run);
    var w := After(Start(log, sidCounter, start), run);
    var w1 := Next(w, Missed(true));
    ResetRestarts(w, w1, f, start);
    assert IsNth(w.log, f, w1.client.starts[w1.client.sid], 1, n);
    var m := Delivery(w1.client.sid, 1, n, w.log[n - 1]);
    more := [Missed(true), Send(m), Arrive(m)];
    ThreeSteps(w, f, more);
  }

  lemma ThreeSteps(w: World, f: Filter, run: seq<Action>)
    requires |run| == 3
    ensures var w1 := Next(w, run[0]);
            var w2 := Next(w1, run[1]);
            && After(w, run) == Next(w2, run[2])
            && (LegalRun(w, f, run) <==> Legal(w, f, run[0]) && Legal(w1, f, run[1]) && Legal(w2, f, run[2]))
  {
    hide Legal, Next;
    var w1 := Next(w, run[0]);
    var w2 := Next(w1, run[1]);
    var w3 := Next(w2, run[2]);
    assert run[1..][0] == run[1] && run[1..][1..][0] == run[2] && run[1..][1..][1..] == [];
    assert After(w1, run[1..]) == After(w2, run[1..][1..]) == After(w3, []) == w3;
    assert LegalRun(w3, f, []);
    assert LegalRun(w2, f, run[1..][1..]) <==> Legal(w2, f, run[2]);
    assert LegalRun(w1, f, run[1..]) <==> Legal(w1, f, run[1]) && Legal(w2, f, run[2]);
  }
}
