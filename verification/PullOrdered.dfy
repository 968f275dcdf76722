/** The ordered pull consumer in consume mode. A reset makes a new consumer, and while
    the server is asked for it other things happen; a handler is bound to the serial
    number that is current when the answer comes. */
module PullOrdered {
  import opened Stream

  /** A message of the consumer made by reset number `made`. */
  datatype Delivery = Delivery(made: nat, deliverySeq: nat, streamSeq: nat, entry: Entry)

  /** A handler listens to the consumer `made`, and works while `serial` is current. */
  datatype Handler = Handler(made: nat, serial: nat)

  datatype Client = Client(
    serial: nat,
    streamSeq: nat,
    deliverySeq: nat,
    starts: map<nat, nat>,     // for each reset the first sequence asked for
    inFlight: set<nat>,        // resets whose consumer has not been confirmed
    handlers: set<Handler>,
    user: seq<Item>)

  /** What a reset does before it waits for the server. */
  function BeginReset(c: Client): Client {
    var serial := c.serial + 1;
    c.(serial := serial, deliverySeq := 0, starts := c.starts[serial := c.streamSeq + 1],
       inFlight := c.inFlight + {serial})
  }

  /** What it does when the consumer is there. */
  function CompleteReset(c: Client, made: nat): Client {
    c.(inFlight := c.inFlight - {made}, handlers := c.handlers + {Handler(made, c.serial)})
  }

  function FailReset(c: Client, made: nat): Client {
    c.(inFlight := c.inFlight - {made})
  }

  function OnMessage(c: Client, h: Handler, m: Delivery): Client {
    if h.serial != c.serial then c
    else if m.deliverySeq != c.deliverySeq + 1 then BeginReset(c)
    else c.(deliverySeq := m.deliverySeq, streamSeq := m.streamSeq, user := c.user + [Item(m.streamSeq, m.entry)])
  }

  /** Before the first reset. */
  function Begin(startSeq: nat): Client {
    Client(0, if startSeq > 0 then startSeq - 1 else 0, 0, map[], {}, {}, [])
  }

  // ---------------------------------------------------------------- the client

  class OrderedPullConsumer {
    const startSeq: nat
    var serial: nat
    var streamSeq: nat         // of the cursor
    var deliverSeq: nat        // of the cursor
    var starts: map<nat, nat>
    var inFlight: set<nat>
    var handlers: set<Handler>
    var user: seq<Item>

    ghost function State(): Client
      reads this
    {
      Client(serial, streamSeq, deliverSeq, starts, inFlight, handlers, user)
    }

    constructor (startSeq: nat)
      ensures State() == Begin(startSeq) && this.startSeq == startSeq
    {
      this.startSeq := startSeq;
      serial, deliverSeq := 0, 0;
      streamSeq := if startSeq > 0 then startSeq - 1 else 0;
      starts, inFlight, handlers, user := map[], {}, {}, [];
    }

    /** Changes the serial number, so that every handler bound so far is dead. */
    method GetConsumerOpts(seqno: nat) returns (name: nat, start: nat)
      modifies this`serial
      ensures name == serial == old(serial) + 1
      ensures start == if seqno == 0 then 1 else seqno
    {
      serial := serial + 1;
      name := serial;
      start := if seqno == 0 then 1 else seqno;
    }

    method ResetConsumer(seqno: nat) returns (made: nat)
      modifies this
      ensures made == serial == old(serial) + 1
      ensures State() == old(State()).(serial := made, deliverySeq := 0, inFlight := old(inFlight) + {made},
                                       starts := old(starts)[made := if seqno == 0 then 1 else seqno])
    {
      var first := if seqno == 0 then 1 else seqno;
      deliverSeq := 0;
      var start;
      made, start := GetConsumerOpts(first);
      starts := starts[made := start];
      inFlight := inFlight + {made};
    }

    method Reset() returns (made: nat)
      modifies this
      ensures made == serial && State() == BeginReset(old(State()))
    {
      made := ResetConsumer(streamSeq + 1);
    }

    /** The serial number is read only now. */
    method AfterReset(made: nat)
      modifies this
      ensures State() == CompleteReset(old(State()), made)
    {
      inFlight := inFlight - {made};
      handlers := handlers + {Handler(made, serial)};
    }

    method InternalHandler(h: Handler, m: Delivery)
      modifies this
      ensures State() == OnMessage(old(State()), h, m)
    {
      if serial != h.serial {
        return;
      }
      if m.deliverySeq != deliverSeq + 1 {
        var made := Reset();
        return;
      }
      deliverSeq := m.deliverySeq;
      streamSeq := m.streamSeq;
      user := user + [Item(m.streamSeq, m.entry)];
    }
  }

  // ----------------------------------------------------------------- the world

  datatype World = World(client: Client, log: Log, sent: set<Delivery>)

  datatype Action =
    | Append(entry: Entry)
    | Send(m: Delivery)
    | Arrive(h: Handler, m: Delivery)
    | AskReset                          // the first, or from a source: its consumer is gone
    | Complete(made: nat)
    | Fail(made: nat)

  ghost predicate Legal(w: World, f: Filter, a: Action) {
    match a
    case Send(m) => TrueDelivery(w, f, m)
    case Arrive(h, m) => h in w.client.handlers && m in w.sent && m.made == h.made
    case Complete(made) => made in w.client.inFlight
    case Fail(made) => made in w.client.inFlight
    case AskReset => w.client.serial == 0 || w.client.handlers != {}
    case _ => true
  }

  /** The n-th wanted entry from its start is what a consumer sends with number n. */
  ghost predicate TrueDelivery(w: World, f: Filter, m: Delivery) {
    && m.made in w.client.starts
    && IsNth(w.log, f, w.client.starts[m.made], m.deliverySeq, m.streamSeq)
    && m.entry == w.log[m.streamSeq - 1]
  }

  function ClientStep(c: Client, a: Action): Client {
    match a
    case Arrive(h, m) => OnMessage(c, h, m)
    case AskReset => BeginReset(c)
    case Complete(made) => CompleteReset(c, made)
    case Fail(made) => FailReset(c, made)
    case _ => c
  }

  function Next(w: World, a: Action): World {
    World(ClientStep(w.client, a),
          if a.Append? then w.log + [a.entry] else w.log,
          if a.Send? then w.sent + {a.m} else w.sent)
  }

  /** The consumer that is confirmed starts where the last reset wants to start. */
  predicate Fresh(c: Client, made: nat) {
    made in c.starts && c.serial in c.starts && c.starts[made] == c.starts[c.serial]
  }

  ghost predicate AllFresh(w: World, f: Filter, run: seq<Action>)
    decreases |run|
  {
    run == []
    || (&& Legal(w, f, run[0])
        && (run[0].Complete? ==> Fresh(w.client, run[0].made))
        && AllFresh(Next(w, run[0]), f, run[1..]))
  }

  /** No reset begins while another is under way. */
  ghost predicate OneAtATime(w: World, f: Filter, run: seq<Action>)
    decreases |run|
  {
    run == []
    || (&& Legal(w, f, run[0])
        && (Next(w, run[0]).client.serial != w.client.serial ==> w.client.inFlight == {})
        && OneAtATime(Next(w, run[0]), f, run[1..]))
  }

  function After(w: World, run: seq<Action>): World
    decreases |run|
  {
    if run == [] then w else After(Next(w, run[0]), run[1..])
  }

  function Start(log: Log, startSeq: nat): World {
    World(Begin(startSeq), log, {})
  }

  function First(startSeq: nat): nat { if startSeq > 0 then startSeq else 1 }

  // ------------------------------------------------------------------ its safety

  /** What the user has is one stretch of the stream, from `first` to the cursor. */
  ghost predicate Exact(w: World, f: Filter, first: nat) {
    w.client.user == Matching(w.log, f, first, w.client.streamSeq + 1)
  }

  ghost predicate Shape(w: World, f: Filter) {
    var c := w.client;
    && (forall made :: made in c.starts <==> 1 <= made <= c.serial)
    && (forall made :: made in c.inFlight ==> made in c.starts)
    && (forall m :: m in w.sent ==> TrueDelivery(w, f, m))
    && (forall h :: h in c.handlers ==> h.made in c.starts && 1 <= h.serial <= c.serial)
  }

  ghost predicate Cursor(w: World, f: Filter, first: nat)
    requires Shape(w, f)
  {
    var c := w.client;
    && (forall h :: h in c.handlers && h.serial == c.serial ==> c.starts[h.made] == c.starts[c.serial])
    && (c.user == [] ==> c.streamSeq == first - 1)
    && (c.user != [] ==> first <= c.streamSeq && Wanted(w.log, f, c.streamSeq))
    && (c.serial == 0 ==> c.user == [])
    && (c.serial > 0 ==>
      var own := c.starts[c.serial];
      && first <= own <= c.streamSeq + 1
      && |Matching(w.log, f, own, c.streamSeq + 1)| == c.deliverySeq
      && (forall made :: made in c.starts ==> first <= c.starts[made] <= own)
      && (own > first ==> Wanted(w.log, f, own - 1)))
  }

  ghost predicate Safe(w: World, f: Filter, first: nat) {
    first >= 1 && Shape(w, f) && Cursor(w, f, first) && Exact(w, f, first)
  }

  lemma ShapeStays(w: World, f: Filter, a: Action)
    requires Shape(w, f) && (Legal(w, f, a) || a.AskReset?)
    ensures Shape(Next(w, a), f)
  {
    var w' := Next(w, a);
    forall m | m in w'.sent
      ensures TrueDelivery(w', f, m)
    {
      if m in w.sent {
        assert TrueDelivery(w, f, m);
      }
      if a.Append? {
        IsNthStays(w.log, [a.entry], f, w.client.starts[m.made], m.deliverySeq, m.streamSeq);
      }
    }
  }

  lemma AppendSafe(w: World, f: Filter, first: nat, entry: Entry)
    requires Safe(w, f, first)
    ensures Safe(Next(w, Append(entry)), f, first)
  {
    hide TrueDelivery;
    ShapeStays(w, f, Append(entry));
    var c := w.client;
    if c.user != [] {
      MatchingStays(w.log, [entry], f, first, c.streamSeq + 1);
      if c.serial > 0 {
        MatchingStays(w.log, [entry], f, c.starts[c.serial], c.streamSeq + 1);
      }
    }
  }

  lemma ResetSafe(w: World, f: Filter, first: nat)
    requires Safe(w, f, first)
    ensures Safe(w.(client := BeginReset(w.client)), f, first)
  {
    hide Matching;
    ShapeStays(w, f, AskReset);
    EmptyStretch(w.log, f, w.client.streamSeq + 1);
  }

  lemma EmptyStretch(log: Log, f: Filter, n: nat)
    ensures Matching(log, f, n, n) == []
  {
  }

  lemma ArriveSafe(w: World, f: Filter, first: nat, h: Handler, m: Delivery)
    requires Safe(w, f, first) && h in w.client.handlers && m in w.sent && m.made == h.made
    requires h.serial == w.client.serial && m.deliverySeq == w.client.deliverySeq + 1
    ensures Safe(Next(w, Arrive(h, m)), f, first)
  {
    ShapeStays(w, f, Arrive(h, m));
    assert TrueDelivery(w, f, m);
    var c := w.client;
    var own := c.starts[c.serial];
    TakeNext(w.log, f, own, c.deliverySeq, c.streamSeq + 1, m.streamSeq);
    MatchingSplit(w.log, f, first, own, c.streamSeq + 1);
    MatchingSplit(w.log, f, first, own, m.streamSeq + 1);
  }

  lemma StepSafe(w: World, f: Filter, first: nat, a: Action)
    requires Safe(w, f, first) && Legal(w, f, a) && (a.Complete? ==> Fresh(w.client, a.made))
    ensures Safe(Next(w, a), f, first)
  {
    hide Matching, TrueDelivery;
    match a
    case Append(entry) => AppendSafe(w, f, first, entry);
    case Arrive(h, m) =>
      if h.serial == w.client.serial {
        if m.deliverySeq == w.client.deliverySeq + 1 {
          ArriveSafe(w, f, first, h, m);
        } else {
          ResetSafe(w, f, first);
        }
      }
    case AskReset => ResetSafe(w, f, first);
    case _ => ShapeStays(w, f, a);
  }

  lemma StartSafe(log: Log, f: Filter, startSeq: nat)
    ensures Safe(Start(log, startSeq), f, First(startSeq))
  {
  }

  lemma {:induction false} RunSafe(w: World, f: Filter, first: nat, run: seq<Action>)
    requires Safe(w, f, first) && AllFresh(w, f, run)
    ensures Safe(After(w, run), f, first)
    decreases |run|
  {
    hide Safe;
    if run != [] {
      StepSafe(w, f, first, run[0]);
      RunSafe(Next(w, run[0]), f, first, run[1..]);
    }
  }

  /** As long as consumers are confirmed that start where the last reset wants, the user
      has exactly the wanted entries from the start to the cursor, in every run. */
  lemma ExactWhileFresh(log: Log, f: Filter, startSeq: nat, run: seq<Action>)
    requires AllFresh(Start(log, startSeq), f, run)
    ensures Exact(After(Start(log, startSeq), run), f, First(startSeq))
  {
    StartSafe(log, f, startSeq);
    RunSafe(Start(log, startSeq), f, First(startSeq), run);
  }

  ghost predicate OnlyTheLast(c: Client) {
    (forall made :: made in c.inFlight ==> made == c.serial) && (c.serial > 0 ==> c.serial in c.starts)
    && 0 !in c.inFlight
  }

  lemma {:induction false} OneAtATimeIsFresh(w: World, f: Filter, run: seq<Action>)
    requires OneAtATime(w, f, run) && OnlyTheLast(w.client)
    ensures AllFresh(w, f, run)
    decreases |run|
  {
    hide TrueDelivery;
    if run != [] {
      OneAtATimeIsFresh(Next(w, run[0]), f, run[1..]);
    }
  }

  /** With at most one reset under way at any time, delivery is exact. */
  lemma ExactOneAtATime(log: Log, f: Filter, startSeq: nat, run: seq<Action>)
    requires OneAtATime(Start(log, startSeq), f, run)
    ensures Exact(After(Start(log, startSeq), run), f, First(startSeq))
  {
    OneAtATimeIsFresh(Start(log, startSeq), f, run);
    ExactWhileFresh(log, f, startSeq, run);
  }

  /** Whatever follows the confirmation, up to the next one, leaves delivery exact. */
  ghost predicate SafeEverAfter(w: World, f: Filter, first: nat, made: nat) {
    forall run: seq<Action> :: LegalRun(w, f, run) && run != [] && run[0] == Complete(made)
                  && (forall i :: 1 <= i < |run| ==> !run[i].Complete?)
                  ==> Exact(After(w, run), f, first)
  }

  /** A consumer that starts elsewhere must never be confirmed: whenever one is, what can
      happen next includes that the user is given an entry again. */
  lemma StaleConsumerRepeats(w: World, f: Filter, first: nat, made: nat)
    requires Safe(w, f, first) && made in w.client.inFlight && !Fresh(w.client, made)
    ensures !SafeEverAfter(w, f, first, made)
  {
    var c := w.client;
    var own, start, end := c.starts[c.serial], c.starts[made], c.streamSeq + 1;
    MoreWanted(w.log, f, start, own, end);
    var n := NthExists(w.log, f, start, end, c.deliverySeq);
    MatchingSplit(w.log, f, first, n + 1, end);
    hide Matching, IsNth, LegalRun;
    var m := Delivery(made, c.deliverySeq + 1, n, w.log[n - 1]);
    var run := [Complete(made), Send(m), Arrive(Handler(made, c.serial), m)];
    ThreeSteps(w, f, run);
    var w3 := After(w, run);
    assert w3.client.user == c.user + [Item(n, w.log[n - 1])] && w3.client.streamSeq == n;
    assert LegalRun(w, f, run) && !Exact(w3, f, first);
  }

  ghost predicate LegalRun(w: World, f: Filter, run: seq<Action>)
    decreases |run|
  {
    run == [] || (Legal(w, f, run[0]) && LegalRun(Next(w, run[0]), f, run[1..]))
  }

  lemma ThreeSteps(w: World, f: Filter, run: seq<Action>)
    requires |run| == 3
    ensures var w1 := Next(w, run[0]);
            var w2 := Next(w1, run[1]);
            && After(w, run) == Next(w2, run[2])
            && (LegalRun(w, f, run) <==> Legal(w, f, run[0]) && Legal(w1, f, run[1]) && Legal(w2, f, run[2]))
  {
    hide Legal, Next;
    var w1 := Next(w, run[0]);
    var w2 := Next(w1, run[1]);
    var w3 := Next(w2, run[2]);
    assert run[1..][0] == run[1] && run[1..][1..][0] == run[2] && run[1..][1..][1..] == [];
    assert After(w1, run[1..]) == After(w2, run[1..][1..]) == After(w3, []) == w3;
    assert LegalRun(w3, f, []);
    assert LegalRun(w2, f, run[1..][1..]) <==> Legal(w2, f, run[2]);
    assert LegalRun(w1, f, run[1..]) <==> Legal(w1, f, run[1]) && Legal(w2, f, run[2]);
  }

  lemma MoreWanted(log: Log, f: Filter, start: nat, own: nat, end: nat)
    requires start < own <= end && Wanted(log, f, own - 1)
    ensures |Matching(log, f, start, end)| > |Matching(log, f, own, end)|
  {
    MatchingSplit(log, f, start, own, end);
  }

  /** So a confirmation is safe in all that can follow exactly when it is fresh. */
  lemma SafeIffFresh(w: World, f: Filter, first: nat, made: nat)
    requires Safe(w, f, first) && made in w.client.inFlight
    ensures SafeEverAfter(w, f, first, made) <==> Fresh(w.client, made)
  {
    hide Legal, Next, Exact, Safe;
    if Fresh(w.client, made) {
      forall run: seq<Action> | LegalRun(w, f, run) && run != [] && run[0] == Complete(made)
                   && (forall i :: 1 <= i < |run| ==> !run[i].Complete?)
        ensures Exact(After(w, run), f, first)
      {
        NoCompletion(Next(w, run[0]), f, run[1..]);
        RunSafe(w, f, first, run);
        SafeIsExact(After(w, run), f, first);
      }
    } else {
      StaleConsumerRepeats(w, f, first, made);
    }
  }

  lemma SafeIsExact(w: World, f: Filter, first: nat)
    requires Safe(w, f, first)
    ensures Exact(w, f, first)
  {
  }

  lemma {:induction false} NoCompletion(w: World, f: Filter, run: seq<Action>)
    requires LegalRun(w, f, run) && forall i :: 0 <= i < |run| ==> !run[i].Complete?
    ensures AllFresh(w, f, run)
    decreases |run|
  {
    hide Legal, Next;
    if run != [] {
      NoCompletion(Next(w, run[0]), f, run[1..]);
    }
  }

  lemma {:induction false} OneMore(w: World, f: Filter, run: seq<Action>, a: Action)
    requires AllFresh(w, f, run) && Legal(After(w, run), f, a)
    requires a.Complete? ==> Fresh(After(w, run).client, a.made)
    ensures AllFresh(w, f, run + [a]) && After(w, run + [a]) == Next(After(w, run), a)
    decreases |run|
  {
    hide Legal, Next, Fresh;
    if run == [] {
      assert run + [a] == [a] && [a][1..] == [];
      assert AllFresh(Next(w, a), f, []) && After(Next(w, a), []) == Next(w, a);
    } else {
      assert (run + [a])[1..] == run[1..] + [a];
      OneMore(Next(w, run[0]), f, run[1..], a);
    }
  }

  /** Such a confirmation does come about when resets overlap: the first consumer is
      bound and asks for a reset twice; the earlier of the two is confirmed under the
      number of the later and delivers, and asks again before the later is confirmed. */
  lemma OverlapExample(e: Entry) returns (run: seq<Action>)
    ensures AllFresh(Start([e], 0), iset{e.subject}, run)
    ensures var c := After(Start([e], 0), run).client;
            3 in c.inFlight && !Fresh(c, 3)
  {
    hide AllFresh, After;
    var f, w0 := iset{e.subject}, Start([e], 0);
    var m := Delivery(2, 1, 1, e);
    assert AllFresh(w0, f, []) && After(w0, []) == w0 by { NoSteps(w0, f); }
    OneMore(w0, f, [], AskReset);
    var r1 := [] + [AskReset];
    OneMore(w0, f, r1, Complete(1));
    var r2 := r1 + [Complete(1)];
    OneMore(w0, f, r2, AskReset);
    var r3 := r2 + [AskReset];
    OneMore(w0, f, r3, AskReset);
    var r4 := r3 + [AskReset];
    OneMore(w0, f, r4, Complete(2));
    var r5 := r4 + [Complete(2)];
    assert IsNth([e], f, 1, 1, 1);
    OneMore(w0, f, r5, Send(m));
    var r6 := r5 + [Send(m)];
    OneMore(w0, f, r6, Arrive(Handler(2, 3), m));
    var r7 := r6 + [Arrive(Handler(2, 3), m)];
    OneMore(w0, f, r7, AskReset);
    run := r7 + [AskReset];
  }

  lemma NoSteps(w: World, f: Filter)
    ensures AllFresh(w, f, []) && After(w, []) == w
  {
  }

  // ------------------------------------------------- what a gap leads to

  /** The user has one more entry, and with it all that is wanted up to there. */
  ghost predicate TakesOne(w: World, w': World, f: Filter, first: nat, m: Delivery) {
    && 1 <= m.streamSeq <= |w.log|
    && w'.client.user == w.client.user + [Item(m.streamSeq, w.log[m.streamSeq - 1])]
    && w'.client.user == Matching(w.log, f, first, m.streamSeq + 1)
    && w'.client.streamSeq == m.streamSeq && w'.client.serial == w.client.serial
  }

  /** The user has what it had, no handler works any more, and a consumer is asked for
      under a new number; whatever the stream comes to be, the first entry it will send
      is the next wanted one behind what was taken. */
  ghost predicate Restarted(w: World, w': World, f: Filter) {
    var c, c' := w.client, w'.client;
    && c'.user == c.user && c'.streamSeq == c.streamSeq && c'.deliverySeq == 0
    && c'.serial !in c.starts && c'.serial in c'.starts && c'.inFlight == c.inFlight + {c'.serial}
    && c'.handlers == c.handlers && (forall h :: h in c'.handlers ==> h.serial != c'.serial)
    && forall log, n :: w.log <= log ==>
         (IsNth(log, f, c'.starts[c'.serial], 1, n) <==> NextWanted(log, f, c.streamSeq, n))
  }

  lemma ResetRestarts(w: World, w': World, f: Filter, first: nat)
    requires Safe(w, f, first) && w'.client == BeginReset(w.client)
    ensures Restarted(w, w', f)
  {
    hide IsNth, NextWanted;
    forall log: Log, n: nat
      ensures IsNth(log, f, w.client.streamSeq + 1, 1, n) <==> NextWanted(log, f, w.client.streamSeq, n)
    {
      NextIsFirst(log, f, w.client.streamSeq, n);
    }
  }

  /** In every run with fresh confirmations: a dead handler does nothing; to a live one
      the next delivery is given to the user and any other leads to a new consumer; so
      does the source's loss of its consumer. A confirmation binds a handler under the
      present number. */
  lemma NothingMissedIsIgnored(log: Log, f: Filter, startSeq: nat, run: seq<Action>, a: Action)
    requires AllFresh(Start(log, startSeq), f, run)
    requires Legal(After(Start(log, startSeq), run), f, a)
    ensures var w := After(Start(log, startSeq), run);
            var w' := Next(w, a);
            && (a.Arrive? && a.h.serial != w.client.serial ==> w'.client == w.client)
            && (a.Arrive? && a.h.serial == w.client.serial ==>
                  if a.m.deliverySeq == w.client.deliverySeq + 1 then TakesOne(w, w', f, First(startSeq), a.m)
                  else Restarted(w, w', f))
            && (a.AskReset? ==> Restarted(w, w', f))
            && (a.Complete? ==>
                  w'.client == w.client.(inFlight := w.client.inFlight - {a.made},
                                         handlers := w.client.handlers + {Handler(a.made, w.client.serial)}))
  {
    hide AllFresh, After, Restarted;
    StartSafe(log, f, startSeq);
    RunSafe(Start(log, startSeq), f, First(startSeq), run);
    var w, w' := After(Start(log, startSeq), run), Next(After(Start(log, startSeq), run), a);
    if a.Arrive? && a.h.serial == w.client.serial && a.m.deliverySeq == w.client.deliverySeq + 1 {
      NextIsTaken(w, f, First(startSeq), a.h, a.m);
    } else if (a.Arrive? && a.h.serial == w.client.serial) || a.AskReset? {
      ResetRestarts(w, w', f, First(startSeq));
    }
  }

  lemma NextIsTaken(w: World, f: Filter, first: nat, h: Handler, m: Delivery)
    requires Safe(w, f, first) && Legal(w, f, Arrive(h, m)) && h.serial == w.client.serial
    requires m.deliverySeq == w.client.deliverySeq + 1
    ensures TakesOne(w, Next(w, Arrive(h, m)), f, first, m)
  {
    assert TrueDelivery(w, f, m);
    ArriveSafe(w, f, first, h, m);
    SafeIsExact(Next(w, Arrive(h, m)), f, first);
  }

  /** Whenever a reset can be asked for, the client can catch up by it. */
  lemma CanCatchUp(log: Log, f: Filter, startSeq: nat, run: seq<Action>, n: nat) returns (more: seq<Action>)
    requires AllFresh(Start(log, startSeq), f, run)
    requires var w := After(Start(log, startSeq), run);
             Legal(w, f, AskReset) && NextWanted(w.log, f, w.client.streamSeq, n)
    ensures var w := After(Start(log, startSeq), run);
            && LegalRun(w, f, more)
            && After(w, more).client.user == w.client.user + [Item(n, w.log[n - 1])]
  {
    hide AllFresh, LegalRun, After;
    StartSafe(log, f, startSeq);
    RunSafe(Start(log, startSeq), f, First(startSeq), run);
    var w := After(Start(log, startSeq), run);
    var w1 := Next(w, AskReset);
    ResetRestarts(w, w1, f, First(startSeq));
    var made := w1.client.serial;
    assert IsNth(w.log, f, w1.client.starts[made], 1, n);
    var m := Delivery(made, 1, n, w.log[n - 1]);
    var rest := [Complete(made), Send(m), Arrive(Handler(made, made), m)];
    ThreeSteps(w1, f, rest);
    more := [AskReset] + rest;
    OneStep(w, f, AskReset, rest);
  }

  lemma OneStep(w: World, f: Filter, a: Action, rest: seq<Action>)
    ensures After(w, [a] + rest) == After(Next(w, a), rest)
    ensures LegalRun(w, f, [a] + rest) <==> Legal(w, f, a) && LegalRun(Next(w, a), f, rest)
  {
    hide Legal, Next;
    assert ([a] + rest)[1..] == rest;
  }
}
