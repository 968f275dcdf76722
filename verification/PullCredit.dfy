/** Flow control of a pull consumer that refills: `pending` counts the messages asked
    for and not yet accounted for, and decides when to ask for more. */
module PullCredit {
  // ------------------------------------------------------------------ options

  /** `abort`: a missing stream or consumer ends the iterator. */
  datatype Options = Options(maxMessages: nat, threshold: nat, abort: bool)

  /** `Math.round` of three quarters. */
  function ThreeQuarters(n: nat): nat { (3 * n + 2) / 4 }

  /** Zero means not given. */
  function ParseOptions(maxMessages: nat, threshold: nat, abort: bool): (o: Options)
    ensures o.maxMessages >= 1 && o.threshold >= 1
    ensures o.maxMessages == (if maxMessages == 0 then 100 else maxMessages) && o.abort == abort
    ensures threshold != 0 ==> o.threshold == threshold
    ensures threshold == 0 ==> -2 < 4 * o.threshold - 3 * o.maxMessages <= 2
    ensures threshold == 0 ==> (o.threshold < o.maxMessages <==> o.maxMessages >= 3)
  {
    var max := if maxMessages == 0 then 100 else maxMessages;
    var least := if ThreeQuarters(max) == 0 then 1 else ThreeQuarters(max);
    Options(max, if threshold == 0 then least else threshold, abort)
  }

  // ------------------------------------------------------------------- client

  /** A status may report how many messages of a request will not come (0: none).
      `deleted`: its description says so of the consumer. */
  datatype Event = UserMsg | Heartbeat | Status(msgsLeft: nat, code: nat, deleted: bool)

  /** `queued`: requests to be sent when the reader of the iterator comes to them.
      `stopped`: no longer subscribed to what the server sends. */
  datatype Client = Client(options: Options, pending: int, queued: seq<int>, stopped: bool)

  /** A status that reports nothing may say that it makes no sense to go on. */
  predicate Fatal(o: Options, e: Event) {
    && e.Status? && e.msgsLeft == 0
    && (e.code == 400 || (o.abort && ((e.code == 409 && e.deleted) || e.code == 503)))
  }

  function Pull(c: Client): Client {
    var batch := c.options.maxMessages - c.pending;
    c.(pending := c.pending + batch, queued := c.queued + [batch])
  }

  function Refill(c: Client): Client {
    if c.pending <= c.options.threshold then Pull(c) else c
  }

  function Handle(c: Client, e: Event): Client {
    if c.stopped then c
    else if Fatal(c.options, e) then c.(stopped := true)
    else match e
      case Heartbeat => c
      case UserMsg => Refill(if c.pending != 0 then c.(pending := c.pending - 1) else c)
      case Status(n, _, _) => Refill(c.(pending := c.pending - n))
  }

  /** Forgets what was asked for, and asks anew. */
  function Reset(c: Client): Client {
    Pull(c.(pending := 0))
  }

  function Begin(o: Options): Client {
    Pull(Client(o, 0, [], false))
  }

  class PullConsumerMessages {
    const options: Options
    var pending: int
    var queued: seq<int>
    var stopped: bool

    ghost function State(): Client
      reads this
    {
      Client(options, pending, queued, stopped)
    }

    constructor (maxMessages: nat, threshold: nat, abort: bool)
      ensures State() == Begin(ParseOptions(maxMessages, threshold, abort))
    {
      options := ParseOptions(maxMessages, threshold, abort);
      pending, queued, stopped := 0, [], false;
      new;
      var batch := PullOptions();
      SendPull(batch);
    }

    method PullOptions() returns (batch: int)
      ensures batch == options.maxMessages - pending
    {
      batch := options.maxMessages - pending;
    }

    method SendPull(batch: int)
      modifies this`pending, this`queued
      ensures pending == old(pending) + batch && queued == old(queued) + [batch]
    {
      pending := pending + batch;
      queued := queued + [batch];
    }

    method OnEvent(e: Event)
      modifies this
      ensures State() == Handle(old(State()), e)
      ensures stopped <==>
        || old(stopped)
        || (e.Status? && e.msgsLeft == 0
            && (e.code == 400 || (options.abort && ((e.code == 409 && e.deleted) || e.code == 503))))
    {
      if stopped {
        return;
      }
      if e.UserMsg? {
        if pending != 0 {
          pending := pending - 1;
        }
      } else {
        if e.Heartbeat? {
          return;
        }
        if e.msgsLeft > 0 {
          pending := pending - e.msgsLeft;
        } else if e.code == 400 {
          stopped := true;
          return;
        } else if e.code == 409 && e.deleted {
          if options.abort {
            stopped := true;
            return;
          }
        } else if e.code == 503 {
          if options.abort {
            stopped := true;
            return;
          }
        }
      }
      if pending <= options.threshold {
        var batch := PullOptions();
        SendPull(batch);
      }
    }

    method ResetPending()
      modifies this
      ensures State() == Reset(old(State()))
    {
      pending := 0;
      var batch := PullOptions();
      SendPull(batch);
    }
  }

  // -------------------------------------------------------------------- world

  /** `server`: what is left of each request the server holds. `refused`: asked for in
      requests that were answered without saying how much of them is lost. `forgotten`:
      pending at the resets so far. */
  datatype World = World(c: Client, toServer: seq<int>, server: seq<int>, toClient: seq<Event>,
                         refused: int, forgotten: int)

  datatype Action =
    | ReaderSends | ServerTakes | ServerRefuses(code: nat, deleted: bool)
    | ServerDelivers(i: nat) | ServerGivesUp(i: nat, code: nat) | ServerBeats | ServerRemarks(code: nat, deleted: bool)
    | Arrive | ResetPending

  function Without(s: seq<int>, i: nat): seq<int>
    requires i < |s|
  {
    s[..i] + s[i + 1..]
  }

  predicate Legal(w: World, a: Action) {
    match a
    case ReaderSends => w.c.queued != []
    case ServerTakes => w.toServer != []
    case ServerRefuses(_, _) => w.toServer != []
    case ServerDelivers(i) => i < |w.server| && w.server[i] > 0
    case ServerGivesUp(i, _) => i < |w.server| && w.server[i] >= 0
    case Arrive => w.toClient != []
    case _ => true
  }

  function Next(w: World, a: Action): World
    requires Legal(w, a)
  {
    match a
    case ReaderSends => w.(c := w.c.(queued := w.c.queued[1..]), toServer := w.toServer + [w.c.queued[0]])
    case ServerTakes => w.(toServer := w.toServer[1..], server := w.server + [w.toServer[0]])
    case ServerRefuses(code, deleted) =>
      w.(toServer := w.toServer[1..], refused := w.refused + w.toServer[0],
         toClient := w.toClient + [Status(0, code, deleted)])
    case ServerDelivers(i) =>
      var left := w.server[i] - 1;
      w.(server := if left == 0 then Without(w.server, i) else w.server[i := left], toClient := w.toClient + [UserMsg])
    case ServerGivesUp(i, code) =>
      w.(server := Without(w.server, i), toClient := w.toClient + [Status(w.server[i], code, false)])
    case ServerBeats => w.(toClient := w.toClient + [Heartbeat])
    case ServerRemarks(code, deleted) => w.(toClient := w.toClient + [Status(0, code, deleted)])
    case Arrive => w.(c := Handle(w.c, w.toClient[0]), toClient := w.toClient[1..])
    case ResetPending => w.(c := Reset(w.c), forgotten := w.forgotten + w.c.pending)
  }

  ghost predicate LegalRun(w: World, run: seq<Action>)
    decreases |run|
  {
    run == [] || (Legal(w, run[0]) && LegalRun(Next(w, run[0]), run[1..]))
  }

  function After(w: World, run: seq<Action>): World
    requires LegalRun(w, run)
    decreases |run|
  {
    if run == [] then w else After(Next(w, run[0]), run[1..])
  }

  function Start(o: Options): World {
    World(Begin(o), [], [], [], 0, 0)
  }

  // ------------------------------------------------------------- conservation

  function Sum(s: seq<int>): int {
    if s == [] then 0 else s[0] + Sum(s[1..])
  }

  function Credit(e: Event): nat {
    match e
    case UserMsg => 1
    case Heartbeat => 0
    case Status(n, _, _) => n
  }

  function Credits(s: seq<Event>): nat {
    if s == [] then 0 else Credit(s[0]) + Credits(s[1..])
  }

  lemma {:induction false} SumAppend(a: seq<int>, b: seq<int>)
    ensures Sum(a + b) == Sum(a) + Sum(b)
  {
    if a == [] {
      assert a + b == b;
    } else {
      assert (a + b)[0] == a[0] && (a + b)[1..] == a[1..] + b;
      SumAppend(a[1..], b);
    }
  }

  lemma {:induction false} CreditsAppend(a: seq<Event>, e: Event)
    ensures Credits(a + [e]) == Credits(a) + Credit(e)
  {
    if a == [] {
      assert a + [e] == [e];
    } else {
      assert (a + [e])[0] == a[0] && (a + [e])[1..] == a[1..] + [e];
      CreditsAppend(a[1..], e);
    }
  }

  lemma SumOne(x: int)
    ensures Sum([x]) == x
  {
    assert [x][1..] == [];
  }

  lemma SumWithout(s: seq<int>, i: nat, x: int)
    requires i < |s|
    ensures Sum(s) == Sum(Without(s, i)) + s[i]
    ensures Sum(s[i := x]) == Sum(Without(s, i)) + x
  {
    SumAppend(s[..i], s[i + 1..]);
    SumAppend(s[..i] + [s[i]], s[i + 1..]);
    SumAppend(s[..i], [s[i]]);
    SumAppend(s[..i] + [x], s[i + 1..]);
    SumAppend(s[..i], [x]);
    SumOne(x);
    SumOne(s[i]);
    assert s[i := x] == s[..i] + [x] + s[i + 1..];
    assert s == s[..i] + [s[i]] + s[i + 1..];
  }

  /** Everything asked for that has not been accounted for. */
  function InFlight(w: World): int {
    Sum(w.c.queued) + Sum(w.toServer) + Sum(w.server) + Credits(w.toClient)
  }

  ghost predicate Conserved(w: World) {
    !w.c.stopped ==> w.c.pending + w.forgotten == InFlight(w) + w.refused
  }

  /** Between two events. */
  ghost predicate Topped(c: Client) {
    && c.options.maxMessages >= 1 && c.options.threshold >= 1
    && c.pending <= c.options.maxMessages
    && (c.options.threshold < c.pending || c.pending == c.options.maxMessages)
  }

  lemma PullAdds(c: Client)
    ensures Sum(Pull(c).queued) == Sum(c.queued) + Pull(c).pending - c.pending
  {
    SumAppend(c.queued, [c.options.maxMessages - c.pending]);
    SumOne(c.options.maxMessages - c.pending);
  }

  lemma ArriveConserves(w: World)
    requires Conserved(w) && Topped(w.c) && w.toClient != []
    ensures Conserved(Next(w, Arrive)) && Topped(Next(w, Arrive).c)
  {
    hide Sum;
    var e := w.toClient[0];
    var c1 := if e.UserMsg? then w.c.(pending := w.c.pending - 1)
              else if e.Status? then w.c.(pending := w.c.pending - e.msgsLeft) else w.c;
    PullAdds(c1);
  }

  lemma ServerConserves(w: World, a: Action)
    requires Conserved(w) && Topped(w.c) && Legal(w, a) && (a.ServerDelivers? || a.ServerGivesUp?)
    ensures Conserved(Next(w, a)) && Topped(Next(w, a).c)
  {
    hide Sum, Without;
    SumWithout(w.server, a.i, w.server[a.i] - 1);
    CreditsAppend(w.toClient, if a.ServerDelivers? then UserMsg else Status(w.server[a.i], a.code, false));
  }

  lemma SumHead(s: seq<int>)
    requires s != []
    ensures Sum(s) == s[0] + Sum(s[1..])
  {
  }

  lemma StepConserves(w: World, a: Action)
    requires Conserved(w) && Topped(w.c) && Legal(w, a)
    ensures Conserved(Next(w, a)) && Topped(Next(w, a).c)
  {
    hide Sum;
    match a
    case ReaderSends =>
      SumHead(w.c.queued);
      SumAppend(w.toServer, [w.c.queued[0]]);
      SumOne(w.c.queued[0]);
    case ServerTakes =>
      SumHead(w.toServer);
      SumAppend(w.server, [w.toServer[0]]);
      SumOne(w.toServer[0]);
    case ServerRefuses(code, deleted) =>
      SumHead(w.toServer);
      CreditsAppend(w.toClient, Status(0, code, deleted));
    case ServerDelivers(_) => ServerConserves(w, a);
    case ServerGivesUp(_, _) => ServerConserves(w, a);
    case ServerBeats => CreditsAppend(w.toClient, Heartbeat);
    case ServerRemarks(code, deleted) => CreditsAppend(w.toClient, Status(0, code, deleted));
    case Arrive => ArriveConserves(w);
    case ResetPending => PullAdds(w.c.(pending := 0));
  }

  lemma {:induction false} RunConserves(w: World, run: seq<Action>)
    requires Conserved(w) && Topped(w.c) && LegalRun(w, run)
    ensures Conserved(After(w, run)) && Topped(After(w, run).c) && After(w, run).c.options == w.c.options
    decreases |run|
  {
    hide Conserved, Topped;
    if run != [] {
      StepConserves(w, run[0]);
      RunConserves(Next(w, run[0]), run[1..]);
    }
  }

  lemma StartConserves(maxMessages: nat, threshold: nat, abort: bool)
    ensures var w := Start(ParseOptions(maxMessages, threshold, abort)); Conserved(w) && Topped(w.c)
  {
    var o := ParseOptions(maxMessages, threshold, abort);
    PullAdds(Client(o, 0, [], false));
  }

  // ------------------------------------------------------------------ theorems

  predicate NoReset(run: seq<Action>) {
    forall i :: 0 <= i < |run| ==> !run[i].ResetPending?
  }

  /** In every run without a reset, pending is what is left of the requests wherever
      they are, with what the server has sent or reported and has not come yet, and with
      what it refused without a word. */
  lemma CreditConservation(maxMessages: nat, threshold: nat, abort: bool, run: seq<Action>)
    requires LegalRun(Start(ParseOptions(maxMessages, threshold, abort)), run) && NoReset(run)
    ensures var w := After(Start(ParseOptions(maxMessages, threshold, abort)), run);
            !w.c.stopped ==> w.c.pending == InFlight(w) + w.refused
  {
    hide LegalRun, After, InFlight;
    var w0 := Start(ParseOptions(maxMessages, threshold, abort));
    StartConserves(maxMessages, threshold, abort);
    RunConserves(w0, run);
    NothingForgotten(w0, run);
  }

  lemma {:induction false} NothingForgotten(w: World, run: seq<Action>)
    requires LegalRun(w, run) && NoReset(run)
    ensures After(w, run).forgotten == w.forgotten
    decreases |run|
  {
    if run != [] {
      NothingForgotten(Next(w, run[0]), run[1..]);
    }
  }

  /** A reset makes the client ask for as much again as it was waiting for: that is what
      the server owes beyond `pending` from then on. */
  lemma ResetsAskAgain(maxMessages: nat, threshold: nat, abort: bool, run: seq<Action>)
    requires LegalRun(Start(ParseOptions(maxMessages, threshold, abort)), run)
    ensures var w := After(Start(ParseOptions(maxMessages, threshold, abort)), run);
            !w.c.stopped ==> InFlight(w) + w.refused == w.c.pending + w.forgotten
  {
    hide LegalRun, After, InFlight;
    StartConserves(maxMessages, threshold, abort);
    RunConserves(Start(ParseOptions(maxMessages, threshold, abort)), run);
  }

  /** At any time between events, resets or not and whatever the server does, pending is
      positive and within the limit, and it is above the threshold exactly when the
      threshold is below the limit. */
  lemma PendingStaysInRange(maxMessages: nat, threshold: nat, abort: bool, run: seq<Action>)
    requires LegalRun(Start(ParseOptions(maxMessages, threshold, abort)), run)
    ensures var o := ParseOptions(maxMessages, threshold, abort);
            var c := After(Start(o), run).c;
            0 < c.pending <= o.maxMessages && (c.pending > o.threshold <==> o.threshold < o.maxMessages)
  {
    hide LegalRun, After, Conserved;
    StartConserves(maxMessages, threshold, abort);
    RunConserves(Start(ParseOptions(maxMessages, threshold, abort)), run);
  }

  predicate Asking(c: Client) {
    forall i :: 0 <= i < |c.queued| ==> c.queued[i] > 0
  }

  ghost predicate AlwaysAsking(w: World) {
    forall run :: LegalRun(w, run) ==> Asking(After(w, run).c)
  }

  lemma {:induction false} RunAsks(w: World, run: seq<Action>)
    requires LegalRun(w, run) && Asking(w.c) && Topped(w.c) && Conserved(w)
    requires w.c.options.threshold < w.c.options.maxMessages
    ensures Asking(After(w, run).c)
    decreases |run|
  {
    hide Conserved;
    if run != [] {
      StepConserves(w, run[0]);
      RunAsks(Next(w, run[0]), run[1..]);
    }
  }

  /** Every request asks for at least one message, in every run, exactly when the
      threshold is below the limit. The default threshold is not for limits 1 and 2. */
  lemma NoEmptyRequestsIff(maxMessages: nat, threshold: nat, abort: bool)
    ensures var o := ParseOptions(maxMessages, threshold, abort);
            AlwaysAsking(Start(o)) <==> o.threshold < o.maxMessages
  {
    var o := ParseOptions(maxMessages, threshold, abort);
    var w0 := Start(o);
    StartConserves(maxMessages, threshold, abort);
    if o.threshold < o.maxMessages {
      forall run | LegalRun(w0, run)
        ensures Asking(After(w0, run).c)
      {
        RunAsks(w0, run);
      }
    } else {
      var run := EmptyRequestExample(o);
    }
  }

  /** Any status that reports nothing makes a consumer ask for nothing whose threshold is
      not below its limit. */
  lemma EmptyRequestExample(o: Options) returns (run: seq<Action>)
    requires o.threshold >= o.maxMessages
    ensures LegalRun(Start(o), run)
    ensures var queued := After(Start(o), run).c.queued; |queued| == 2 && queued[1] == 0
  {
    var w0 := Start(o);
    run := [ServerRemarks(408, false), Arrive];
    var w1 := Next(w0, ServerRemarks(408, false));
    assert run[1..] == [Arrive] && run[1..][1..] == [];
    var w2 := Next(w1, Arrive);
    assert LegalRun(w2, []) && After(w2, []) == w2;
    assert LegalRun(w1, [Arrive]) && After(w1, [Arrive]) == w2;
    assert LegalRun(w0, run) && After(w0, run) == w2;
  }

  /** A status that makes it useless to go on. */
  predicate GivesUp(o: Options, e: Event) {
    && e.Status? && e.msgsLeft == 0
    && match e.code
       case 400 => true
       case 409 => o.abort && e.deleted
       case 503 => o.abort
       case _ => false
  }

  /** Whether such a status has come to the client. */
  predicate GivenUp(w: World, run: seq<Action>)
    requires LegalRun(w, run)
    decreases |run|
  {
    run != []
    && ((run[0].Arrive? && GivesUp(w.c.options, w.toClient[0])) || GivenUp(Next(w, run[0]), run[1..]))
  }

  /** In every run the consumer has stopped exactly when such a status has come. */
  lemma {:induction false} StoppedIff(w: World, run: seq<Action>)
    requires LegalRun(w, run)
    ensures After(w, run).c.stopped <==> w.c.stopped || GivenUp(w, run)
    decreases |run|
  {
    if run != [] {
      var w' := Next(w, run[0]);
      assert w'.c.options == w.c.options;
      assert w'.c.stopped <==> w.c.stopped || (run[0].Arrive? && GivesUp(w.c.options, w.toClient[0]));
      hide Next, Legal, GivesUp;
      StoppedIff(w', run[1..]);
    }
  }
}
