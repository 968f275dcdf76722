/** The queue that every subscription and consumer uses: values are pushed at any time
    and taken by one generator, which waits at a signal when there is nothing to take. */
module QueueModel {
  import opened Bytes

  /** What a queued function does, as far as the iterator is concerned. */
  datatype Function<E> = Plain | Stops(err: Option<E>) | Throws(e: E)

  datatype Item<T, E> = Value(x: T) | Call(f: Function<E>)

  /** Where the generator is. It can be left alone for any time in `NotStarted`, `Waiting`,
      `AtYield` and `Ended`; the other places it passes through. */
  datatype Place<T, E> =
    | NotStarted
    | Top
    | Waiting(signal: nat)
    | Woken
    | InBatch(rest: seq<Item<T, E>>)
    | AtYield(rest: seq<Item<T, E>>)
    | Ended

  datatype Queue<T, E> = Queue(
    queued: seq<Item<T, E>>,
    signal: nat,               // the present signal
    signaled: bool,            // it is resolved
    done: bool,
    err: Option<E>,
    place: Place<T, E>,
    pushed: seq<Item<T, E>>,   // everything that was ever queued
    consumed: seq<Item<T, E>>, // what the generator is through with, or has yielded
    yielded: seq<T>,
    outside: bool,             // stopped by a call from elsewhere, or abandoned by its reader
    closedBy: Option<nat>)     // or by this one of the items consumed

  // ------------------------------------------------------------- the operations

  function Push<T, E>(q: Queue<T, E>, item: Item<T, E>, ingest: bool): Queue<T, E> {
    if q.done || (item.Value? && !ingest) then q
    else q.(queued := q.queued + [item], signaled := true, pushed := q.pushed + [item])
  }

  function Stop<T, E>(q: Queue<T, E>, err: Option<E>): Queue<T, E> {
    if q.done then q else q.(err := err, done := true, signaled := true)
  }

  function StopOutside<T, E>(q: Queue<T, E>, err: Option<E>): Queue<T, E> {
    if q.done then q else Stop(q, err).(outside := true)
  }

  /** Runs a queued function, the next of the batch. */
  function Invoke<T, E>(q: Queue<T, E>, f: Function<E>, rest: seq<Item<T, E>>): Queue<T, E> {
    var here := |q.consumed|;
    var q1 := q.(consumed := q.consumed + [Call(f)], place := InBatch(rest));
    match f
    case Plain => if q1.err.Some? then q1.(place := Ended) else q1
    case Stops(err) =>
      var q2 := if q.done then q1 else Stop(q1, err).(closedBy := Some(here));
      if q2.err.Some? then q2.(place := Ended) else q2
    case Throws(_) =>
      (if q.done then q1 else Stop(q1, None).(closedBy := Some(here))).(place := Ended)
  }

  /** The generator moves on by one step. */
  function Step<T, E>(q: Queue<T, E>, passes: T -> bool): Queue<T, E> {
    match q.place
    case Top => if q.queued == [] then q.(place := Waiting(q.signal)) else q.(place := Woken)
    case Woken =>
      if q.err.Some? then q.(place := Ended) else q.(place := InBatch(q.queued), queued := [])
    case InBatch(rest) =>
      if rest == [] then
        if q.done then q.(place := Ended)
        else if q.queued == [] then q.(signal := q.signal + 1, signaled := false, place := Top)
        else q.(place := Top)
      else (match rest[0]
        case Call(f) => Invoke(q, f, rest[1..])
        case Value(x) =>
          var q1 := q.(consumed := q.consumed + [rest[0]]);
          if passes(x) then q1.(yielded := q.yielded + [x], place := AtYield(rest[1..]))
          else q1.(place := InBatch(rest[1..])))
    case _ => q
  }

  /** The reader asks for the next value, or the signal it waited for has come. */
  function Resume<T, E>(q: Queue<T, E>): Queue<T, E> {
    match q.place
    case NotStarted => q.(place := Top)
    case Waiting(s) => if s == q.signal && q.signaled then q.(place := Woken) else q
    case AtYield(rest) => q.(place := InBatch(rest))
    case _ => q
  }

  /** The reader leaves its loop. */
  function Abandon<T, E>(q: Queue<T, E>): Queue<T, E> {
    match q.place
    case NotStarted => q.(place := Ended, outside := true)
    case AtYield(_) => StopOutside(q, None).(place := Ended)
    case _ => q
  }

  function Start<T, E>(): Queue<T, E> {
    Queue([], 0, false, false, None, NotStarted, [], [], [], false, None)
  }

  // ------------------------------------------------------------ its invariants

  function Passing<T, E>(items: seq<Item<T, E>>, passes: T -> bool): seq<T> {
    if items == [] then []
    else if items[0].Value? && passes(items[0].x) then [items[0].x] + Passing(items[1..], passes)
    else Passing(items[1..], passes)
  }

  lemma {:induction false} PassingAppend<T, E>(a: seq<Item<T, E>>, b: seq<Item<T, E>>, passes: T -> bool)
    ensures Passing(a + b, passes) == Passing(a, passes) + Passing(b, passes)
  {
    if a == [] {
      assert a + b == b;
    } else {
      assert (a + b)[0] == a[0] && (a + b)[1..] == a[1..] + b;
      PassingAppend(a[1..], b, passes);
    }
  }

  function Rest<T, E>(p: Place<T, E>): seq<Item<T, E>> {
    match p
    case InBatch(rest) => rest
    case AtYield(rest) => rest
    case _ => []
  }

  /** An unresolved signal means that there is nothing to take and nothing to end; and
      the generator waits for the present signal. */
  ghost predicate NoLostWakeUp<T, E>(q: Queue<T, E>) {
    && (!q.signaled ==> q.queued == [] && !q.done)
    && (q.place.Waiting? ==> q.place.signal == q.signal)
  }

  /** What was queued is what has been consumed, then the batch, then the queue. */
  ghost predicate InOrder<T, E>(q: Queue<T, E>, passes: T -> bool) {
    && (!q.place.Ended? ==> q.pushed == q.consumed + Rest(q.place) + q.queued)
    && q.consumed <= q.pushed
    && q.yielded == Passing(q.consumed, passes)
  }

  predicate Closes<T, E>(item: Item<T, E>) {
    item.Call? && !item.f.Plain?
  }

  ghost predicate EndsForAReason<T, E>(q: Queue<T, E>) {
    && (q.place.Ended? ==> q.done || q.outside)
    && (q.err.Some? ==> q.done)
    && (q.done && !q.outside ==> q.closedBy.Some?)
    && (q.closedBy.Some? ==> q.closedBy.value < |q.consumed| && Closes(q.consumed[q.closedBy.value]))
  }

  ghost predicate Safe<T, E>(q: Queue<T, E>, passes: T -> bool) {
    NoLostWakeUp(q) && InOrder(q, passes) && EndsForAReason(q)
  }

  // ---------------------------------------------------------------- whole runs

  datatype Action<T, E> =
    | APush(item: Item<T, E>, ingest: bool)
    | AStop(err: Option<E>)
    | AStep | AResume | AAbandon

  function Next<T, E>(q: Queue<T, E>, passes: T -> bool, a: Action<T, E>): Queue<T, E> {
    match a
    case APush(item, ingest) => Push(q, item, ingest)
    case AStop(err) => StopOutside(q, err)
    case AStep => Step(q, passes)
    case AResume => Resume(q)
    case AAbandon => Abandon(q)
  }

  function After<T, E>(q: Queue<T, E>, passes: T -> bool, run: seq<Action<T, E>>): Queue<T, E>
    decreases |run|
  {
    if run == [] then q else After(Next(q, passes, run[0]), passes, run[1..])
  }

  lemma StepSafe<T, E>(q: Queue<T, E>, passes: T -> bool)
    requires Safe(q, passes)
    ensures Safe(Step(q, passes), passes)
  {
    if q.place.InBatch? && q.place.rest != [] {
      TakeInOrder(q, passes);
      TakeForAReason(q, passes);
    } else {
      hide Passing, Invoke;
      MoveOn(q, passes);
    }
  }

  /** Between batches nothing is consumed or yielded; what was queued may become the
      next batch. */
  lemma Moves<T, E>(q: Queue<T, E>, passes: T -> bool)
    requires !(q.place.InBatch? && q.place.rest != [])
    ensures var q' := Step(q, passes);
            && q' == q.(place := q'.place, queued := q'.queued, signal := q'.signal, signaled := q'.signaled)
            && (q'.place.Ended? || Rest(q'.place) + q'.queued == Rest(q.place) + q.queued)
            && (q.place.Ended? ==> q'.place.Ended?)
  {
    hide Invoke;
    assert q.queued + [] == q.queued;
    assert [] + q.queued == q.queued;
    match q.place
    case Top =>
    case Woken =>
    case InBatch(rest) =>
    case _ =>
  }

  lemma MoveOn<T, E>(q: Queue<T, E>, passes: T -> bool)
    requires Safe(q, passes) && !(q.place.InBatch? && q.place.rest != [])
    ensures Safe(Step(q, passes), passes)
  {
    hide Step, Passing, Rest, InOrder, NoLostWakeUp, EndsForAReason;
    MoveInOrder(q, passes);
    MoveWakes(q, passes);
    MoveForAReason(q, passes);
  }

  lemma MoveInOrder<T, E>(q: Queue<T, E>, passes: T -> bool)
    requires InOrder(q, passes) && !(q.place.InBatch? && q.place.rest != [])
    ensures InOrder(Step(q, passes), passes)
  {
    hide Step, Passing, Rest;
    Moves(q, passes);
    var q' := Step(q, passes);
    assert q.consumed + (Rest(q.place) + q.queued) == q.consumed + Rest(q.place) + q.queued;
    assert q.consumed + (Rest(q'.place) + q'.queued) == q.consumed + Rest(q'.place) + q'.queued;
  }

  lemma MoveWakes<T, E>(q: Queue<T, E>, passes: T -> bool)
    requires NoLostWakeUp(q) && !(q.place.InBatch? && q.place.rest != [])
    ensures NoLostWakeUp(Step(q, passes))
  {
    hide Invoke;
  }

  lemma MoveForAReason<T, E>(q: Queue<T, E>, passes: T -> bool)
    requires EndsForAReason(q) && !(q.place.InBatch? && q.place.rest != [])
    ensures EndsForAReason(Step(q, passes))
  {
    hide Invoke;
  }

  lemma TakeForAReason<T, E>(q: Queue<T, E>, passes: T -> bool)
    requires NoLostWakeUp(q) && EndsForAReason(q) && q.place.InBatch? && q.place.rest != []
    ensures NoLostWakeUp(Step(q, passes)) && EndsForAReason(Step(q, passes))
  {
    var item := q.place.rest[0];
    if item.Call? {
      InvokeForAReason(q, item.f, q.place.rest[1..]);
    }
  }

  lemma InvokeForAReason<T, E>(q: Queue<T, E>, f: Function<E>, rest: seq<Item<T, E>>)
    requires NoLostWakeUp(q) && EndsForAReason(q) && q.place.InBatch?
    ensures NoLostWakeUp(Invoke(q, f, rest)) && EndsForAReason(Invoke(q, f, rest))
  {
    assert Invoke(q, f, rest).consumed[|q.consumed|] == Call(f);
  }

  lemma TakeInOrder<T, E>(q: Queue<T, E>, passes: T -> bool)
    requires InOrder(q, passes) && q.place.InBatch? && q.place.rest != []
    ensures InOrder(Step(q, passes), passes)
  {
    hide Passing, Invoke;
    var item, rest := q.place.rest[0], q.place.rest[1..];
    PassingAppend(q.consumed, [item], passes);
    PassingOne(item, passes);
    assert q.consumed + q.place.rest == q.consumed + [item] + rest;
    if item.Call? {
      InvokeKeeps(q, item.f, rest);
    }
  }

  lemma InvokeKeeps<T, E>(q: Queue<T, E>, f: Function<E>, rest: seq<Item<T, E>>)
    ensures var q' := Invoke(q, f, rest);
            && q'.consumed == q.consumed + [Call(f)] && q'.yielded == q.yielded && q'.queued == q.queued
            && q'.pushed == q.pushed && (q'.place.Ended? || q'.place == InBatch(rest))
  {
  }

  lemma PassingOne<T, E>(item: Item<T, E>, passes: T -> bool)
    ensures Passing([item], passes) == if item.Value? && passes(item.x) then [item.x] else []
  {
    assert [item][1..] == [];
  }

  lemma NextSafe<T, E>(q: Queue<T, E>, passes: T -> bool, a: Action<T, E>)
    requires Safe(q, passes)
    ensures Safe(Next(q, passes, a), passes)
  {
    hide Passing, Step;
    if a.AStep? {
      StepSafe(q, passes);
    }
  }

  lemma {:induction false} RunSafe<T, E>(q: Queue<T, E>, passes: T -> bool, run: seq<Action<T, E>>)
    requires Safe(q, passes)
    ensures Safe(After(q, passes, run), passes)
    decreases |run|
  {
    hide Safe, Next;
    if run != [] {
      NextSafe(q, passes, run[0]);
      RunSafe(Next(q, passes, run[0]), passes, run[1..]);
    }
  }

  lemma StartSafe<T, E>(passes: T -> bool)
    ensures Safe(Start<T, E>(), passes)
  {
  }

  /** What others have offered: the values that the ingestion filter lets in and the
      functions, as long as the queue was not done. */
  function Offered<T, E>(q: Queue<T, E>, passes: T -> bool, run: seq<Action<T, E>>): seq<Item<T, E>>
    decreases |run|
  {
    if run == [] then []
    else
      (if run[0].APush? && !q.done && (run[0].item.Call? || run[0].ingest) then [run[0].item] else [])
      + Offered(Next(q, passes, run[0]), passes, run[1..])
  }

  /** Nothing that is offered is left out, put twice or put elsewhere than last. */
  lemma {:induction false} PushedIsOffered<T, E>(q: Queue<T, E>, passes: T -> bool, run: seq<Action<T, E>>)
    ensures After(q, passes, run).pushed == q.pushed + Offered(q, passes, run)
    decreases |run|
  {
    if run != [] {
      NextPushes(q, passes, run[0]);
      hide Next;
      PushedIsOffered(Next(q, passes, run[0]), passes, run[1..]);
    }
  }

  lemma AllOffered<T, E>(passes: T -> bool, run: seq<Action<T, E>>)
    ensures After(Start<T, E>(), passes, run).pushed == Offered(Start<T, E>(), passes, run)
  {
    PushedIsOffered(Start<T, E>(), passes, run);
    assert [] + Offered(Start<T, E>(), passes, run) == Offered(Start<T, E>(), passes, run);
  }

  lemma NextPushes<T, E>(q: Queue<T, E>, passes: T -> bool, a: Action<T, E>)
    ensures Next(q, passes, a).pushed
         == q.pushed + if a.APush? && !q.done && (a.item.Call? || a.ingest) then [a.item] else []
  {
    hide Invoke;
    if a.AStep? && q.place.InBatch? && q.place.rest != [] && q.place.rest[0].Call? {
      InvokeKeeps(q, q.place.rest[0].f, q.place.rest[1..]);
    }
  }

  /** For every interleaving of pushes, stops and the generator: no wake-up is lost;
      what is through the generator, in its batch and in the queue is what was offered,
      in order and once; and what was yielded is what of it passes the filter. */
  lemma QueueIsSafe<T, E>(passes: T -> bool, run: seq<Action<T, E>>)
    ensures var q, all := After(Start<T, E>(), passes, run), Offered(Start<T, E>(), passes, run);
            && (!q.signaled ==> q.queued == [] && !q.done)
            && (q.place.Waiting? && (q.queued != [] || q.done) ==> Resume(q).place == Woken)
            && (!q.place.Ended? ==> all == q.consumed + Rest(q.place) + q.queued)
            && q.consumed <= all && q.yielded == Passing(q.consumed, passes)
  {
    hide Next, Offered, Passing;
    StartSafe<T, E>(passes);
    RunSafe(Start<T, E>(), passes, run);
    AllOffered(passes, run);
  }

  /** When the generator has ended and nobody stopped or abandoned it, a queued function
      did; and every value offered before that function that passes was yielded. */
  lemma EndsAfterItsClose<T, E>(passes: T -> bool, run: seq<Action<T, E>>) returns (j: nat)
    requires After(Start<T, E>(), passes, run).place.Ended? && !Interfered(Start<T, E>(), passes, run)
    ensures var q, all := After(Start<T, E>(), passes, run), Offered(Start<T, E>(), passes, run);
            && j < |all| && Closes(all[j])
            && Passing(all[..j], passes) <= q.yielded
  {
    hide Next, Offered, Passing;
    StartSafe<T, E>(passes);
    RunSafe(Start<T, E>(), passes, run);
    AllOffered(passes, run);
    OutsideIff(Start<T, E>(), passes, run);
    var q := After(Start<T, E>(), passes, run);
    j := q.closedBy.value;
    assert q.consumed == q.pushed[..j] + q.consumed[j..];
    PassingAppend(q.pushed[..j], q.consumed[j..], passes);
  }

  // ------------------------------------------------------- when it is done

  /** The reader leaves, or somebody stops the iterator that is not done. */
  predicate Interferes<T, E>(q: Queue<T, E>, a: Action<T, E>) {
    || (a.AStop? && !q.done)
    || (a.AAbandon? && (q.place.NotStarted? || (q.place.AtYield? && !q.done)))
  }

  predicate Interfered<T, E>(q: Queue<T, E>, passes: T -> bool, run: seq<Action<T, E>>)
    decreases |run|
  {
    run != [] && (Interferes(q, run[0]) || Interfered(Next(q, passes, run[0]), passes, run[1..]))
  }

  lemma {:induction false} OutsideIff<T, E>(q: Queue<T, E>, passes: T -> bool, run: seq<Action<T, E>>)
    ensures After(q, passes, run).outside <==> q.outside || Interfered(q, passes, run)
    decreases |run|
  {
    if run != [] {
      NextOutside(q, passes, run[0]);
      hide Next, Interferes;
      OutsideIff(Next(q, passes, run[0]), passes, run[1..]);
    }
  }

  lemma NextOutside<T, E>(q: Queue<T, E>, passes: T -> bool, a: Action<T, E>)
    ensures Next(q, passes, a).outside <==> q.outside || Interferes(q, a)
  {
    hide Invoke;
    if a.AStep? && q.place.InBatch? && q.place.rest != [] && q.place.rest[0].Call? {
      InvokeOutside(q, q.place.rest[0].f, q.place.rest[1..]);
    }
  }

  lemma InvokeOutside<T, E>(q: Queue<T, E>, f: Function<E>, rest: seq<Item<T, E>>)
    ensures Invoke(q, f, rest).outside == q.outside
  {
  }

  /** Somebody stopped it, or the reader left at a value. */
  predicate StoppedIn<T, E>(q: Queue<T, E>, passes: T -> bool, run: seq<Action<T, E>>)
    decreases |run|
  {
    run != []
    && (run[0].AStop? || (run[0].AAbandon? && q.place.AtYield?) || StoppedIn(Next(q, passes, run[0]), passes, run[1..]))
  }

  predicate SomeCloses<T, E>(items: seq<Item<T, E>>) {
    exists i :: 0 <= i < |items| && Closes(items[i])
  }

  /** In every run the iterator is done exactly when it was stopped, its reader left at a
      value, or a function that closes was run. */
  lemma DoneIff<T, E>(passes: T -> bool, run: seq<Action<T, E>>)
    ensures var q := After(Start<T, E>(), passes, run);
            q.done <==> StoppedIn(Start<T, E>(), passes, run) || SomeCloses(q.consumed)
  {
    RunDone(Start<T, E>(), passes, run);
  }

  lemma {:induction false} RunDone<T, E>(q: Queue<T, E>, passes: T -> bool, run: seq<Action<T, E>>)
    requires SomeCloses(q.consumed) ==> q.done
    ensures var q' := After(q, passes, run);
            && (SomeCloses(q'.consumed) ==> q'.done)
            && (q'.done <==> q.done || StoppedIn(q, passes, run) || SomeCloses(q'.consumed))
    decreases |run|
  {
    if run != [] {
      NextDone(q, passes, run[0]);
      hide Next, SomeCloses;
      RunDone(Next(q, passes, run[0]), passes, run[1..]);
      ConsumedGrows(Next(q, passes, run[0]), passes, run[1..]);
    }
  }

  lemma NextDone<T, E>(q: Queue<T, E>, passes: T -> bool, a: Action<T, E>)
    requires SomeCloses(q.consumed) ==> q.done
    ensures var q' := Next(q, passes, a);
            && (SomeCloses(q'.consumed) ==> q'.done)
            && (q'.done <==> q.done || a.AStop? || (a.AAbandon? && q.place.AtYield?) || SomeCloses(q'.consumed))
  {
    hide SomeCloses;
    if a.AStep? && q.place.InBatch? && q.place.rest != [] {
      ClosesMore(q.consumed, q.place.rest[0]);
    }
  }

  lemma ClosesMore<T, E>(items: seq<Item<T, E>>, item: Item<T, E>)
    ensures SomeCloses(items + [item]) <==> SomeCloses(items) || Closes(item)
  {
    var more := items + [item];
    assert more[|items|] == item;
    forall i | 0 <= i < |items|
      ensures more[i] == items[i]
    {
    }
  }

  lemma {:induction false} ConsumedGrows<T, E>(q: Queue<T, E>, passes: T -> bool, run: seq<Action<T, E>>)
    ensures SomeCloses(q.consumed) ==> SomeCloses(After(q, passes, run).consumed)
    decreases |run|
  {
    if run != [] {
      if q.place.InBatch? && q.place.rest != [] {
        ClosesMore(q.consumed, q.place.rest[0]);
      }
      assert SomeCloses(q.consumed) ==> SomeCloses(Next(q, passes, run[0]).consumed) by { hide SomeCloses; }
      hide Next, SomeCloses;
      ConsumedGrows(Next(q, passes, run[0]), passes, run[1..]);
    }
  }

  // -------------------------------------------------- what a stop leaves undone

  /** Done without an error, and what is still to come is in no later batch. */
  ghost predicate WindsUp<T, E>(q: Queue<T, E>) {
    && q.done && q.err.None? && q.signaled
    && (q.place.InBatch? || q.place.AtYield? || q.place.Ended? ==> q.queued == [])
    && (q.place.Waiting? ==> q.place.signal == q.signal)
    && (q.place.Ended? ==> q.consumed == q.pushed)
    && (!q.place.Ended? ==> q.pushed == q.consumed + Rest(q.place) + q.queued)
  }

  predicate NoThrow<T, E>(items: seq<Item<T, E>>) {
    forall i :: 0 <= i < |items| ==> !(items[i].Call? && items[i].f.Throws?)
  }

  predicate NobodyLeaves<T, E>(run: seq<Action<T, E>>) {
    forall i :: 0 <= i < |run| ==> !run[i].AAbandon?
  }

  lemma NextWindsUp<T, E>(q: Queue<T, E>, passes: T -> bool, a: Action<T, E>)
    requires WindsUp(q) && !a.AAbandon? && NoThrow(q.pushed)
    ensures WindsUp(Next(q, passes, a)) && Next(q, passes, a).pushed == q.pushed
  {
    if a.AStep? {
      if q.place.InBatch? && q.place.rest != [] {
        ItemWindsUp(q, passes);
      } else {
        hide NoThrow;
        MoveWindsUp(q, passes);
      }
    }
  }

  lemma ItemWindsUp<T, E>(q: Queue<T, E>, passes: T -> bool)
    requires WindsUp(q) && NoThrow(q.pushed) && q.place.InBatch? && q.place.rest != []
    ensures WindsUp(Step(q, passes)) && Step(q, passes).pushed == q.pushed
  {
    var item, rest := q.place.rest[0], q.place.rest[1..];
    assert q.pushed == q.consumed + [item] + rest + q.queued;
    assert q.pushed[|q.consumed|] == item;
    ThrowFree(q.pushed, |q.consumed|);
    hide NoThrow;
  }

  lemma MoveWindsUp<T, E>(q: Queue<T, E>, passes: T -> bool)
    requires WindsUp(q) && !(q.place.InBatch? && q.place.rest != [])
    ensures WindsUp(Step(q, passes)) && Step(q, passes).pushed == q.pushed
  {
    hide Invoke;
    assert q.consumed + [] == q.consumed;
    assert q.consumed + ([] + q.queued) == q.consumed + [] + q.queued == q.consumed + q.queued + [];
  }

  lemma ThrowFree<T, E>(items: seq<Item<T, E>>, i: nat)
    requires NoThrow(items) && i < |items|
    ensures !(items[i].Call? && items[i].f.Throws?)
  {
  }

  lemma {:induction false} RunWindsUp<T, E>(q: Queue<T, E>, passes: T -> bool, run: seq<Action<T, E>>)
    requires WindsUp(q) && NobodyLeaves(run) && NoThrow(q.pushed)
    ensures WindsUp(After(q, passes, run)) && After(q, passes, run).pushed == q.pushed
    decreases |run|
  {
    hide WindsUp, Next, NoThrow;
    if run != [] {
      NextWindsUp(q, passes, run[0]);
      RunWindsUp(Next(q, passes, run[0]), passes, run[1..]);
    }
  }

  /** Stopped without an error while the reader is not in a batch, the iterator gives
      everything that was offered before it ends, if the reader stays and no function
      throws. */
  lemma StopGivesAll<T, E>(passes: T -> bool, before: seq<Action<T, E>>, after: seq<Action<T, E>>)
    requires var q := After(Start<T, E>(), passes, before);
             && !q.done && q.err.None? && (q.place.NotStarted? || q.place.Waiting?) && NoThrow(q.pushed)
    requires NobodyLeaves(after)
    ensures var stopped := Next(After(Start<T, E>(), passes, before), passes, AStop(None));
            var q := After(stopped, passes, after);
            q.place.Ended? ==> q.yielded == Passing(Offered(Start<T, E>(), passes, before), passes)
  {
    StartSafe<T, E>(passes);
    RunSafe(Start<T, E>(), passes, before);
    AllOffered(passes, before);
    var q0 := After(Start<T, E>(), passes, before);
    var stopped := Next(q0, passes, AStop(None));
    assert WindsUp(stopped);
    NextSafe(q0, passes, AStop(None));
    hide WindsUp, Next, NoThrow, Passing;
    RunWindsUp(stopped, passes, after);
    RunSafe(stopped, passes, after);
    assert After(stopped, passes, after).place.Ended? ==>
        After(stopped, passes, after).consumed == After(stopped, passes, after).pushed by {
      WoundUp(After(stopped, passes, after));
    }
  }

  lemma WoundUp<T, E>(q: Queue<T, E>)
    requires WindsUp(q)
    ensures q.place.Ended? ==> q.consumed == q.pushed
  {
  }

  // -------------------------------------------------- running to suspension

  predicate Suspended<T, E>(p: Place<T, E>) {
    p.NotStarted? || p.Waiting? || p.AtYield? || p.Ended?
  }

  /** How far the generator can run at most before it is suspended. */
  function Work<T, E>(q: Queue<T, E>): nat {
    match q.place
    case Top => 4 * |q.queued| + 1
    case Woken => if q.queued == [] then 3 else 4 * |q.queued|
    case InBatch(rest) => 4 * |q.queued| + |rest| + 2
    case _ => 0
  }

  lemma InvokePlace<T, E>(q: Queue<T, E>, f: Function<E>, rest: seq<Item<T, E>>)
    ensures var q' := Invoke(q, f, rest); (q'.place.Ended? || q'.place == InBatch(rest)) && q'.queued == q.queued
  {
  }

  lemma StepWorks<T, E>(q: Queue<T, E>, passes: T -> bool)
    requires !Suspended(q.place)
    ensures Work(Step(q, passes)) < Work(q)
  {
    hide Invoke;
    if q.place.InBatch? && q.place.rest != [] && q.place.rest[0].Call? {
      InvokePlace(q, q.place.rest[0].f, q.place.rest[1..]);
    }
  }

  /** The generator runs until it is suspended. */
  function RunOn<T, E>(q: Queue<T, E>, passes: T -> bool): Queue<T, E>
    decreases Work(q)
  {
    if Suspended(q.place) then q
    else
      StepWorks(q, passes);
      RunOn(Step(q, passes), passes)
  }

  lemma RunOnStep<T, E>(q: Queue<T, E>, passes: T -> bool)
    ensures RunOn(q, passes) == if Suspended(q.place) then q else RunOn(Step(q, passes), passes)
  {
  }

  /** What runs until it is suspended is suspended, and it got there by steps. */
  lemma {:induction false} RunOnIsARun<T, E>(q: Queue<T, E>, passes: T -> bool) returns (run: seq<Action<T, E>>)
    ensures Suspended(RunOn(q, passes).place)
    ensures (forall i :: 0 <= i < |run| ==> run[i] == AStep) && RunOn(q, passes) == After(q, passes, run)
    decreases Work(q)
  {
    run := [];
    if !Suspended(q.place) {
      StepWorks(q, passes);
      var rest := RunOnIsARun(Step(q, passes), passes);
      run := [AStep] + rest;
      assert run[1..] == rest;
    }
  }
}
