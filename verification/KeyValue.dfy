/** A key-value bucket kept in a stream, and clients that create keys in it by
    comparing and setting, each at its own pace and with reads that may be stale. */
module KeyValue {
  import opened Bytes

  type Key = string

  datatype Operation = PutOp | DelOp | PurgeOp

  /** `created`: written for a `create`. `previous`: the last revision of the key as this
      one was written (0: none); kept only to speak about it. */
  datatype Revision = Revision(key: Key, op: Operation, data: seq<int>, created: bool, previous: nat)

  /** The stream: revisions by number, from one, and the numbers that are gone from it,
      by history limits, purges or age. */
  datatype Store = Store(log: seq<Revision>, gone: set<nat>)

  predicate Written(s: Store, k: Key, n: nat) {
    1 <= n <= |s.log| && s.log[n - 1].key == k
  }

  predicate IsOf(s: Store, k: Key, n: nat) {
    Written(s, k, n) && n !in s.gone
  }

  ghost predicate Sound(s: Store) {
    forall n :: n in s.gone ==> n <= |s.log|
  }

  /** The number of the last revision of a key, 0 if there is none. */
  function Last(s: Store, k: Key): (n: nat)
    ensures n == 0 || IsOf(s, k, n)
    ensures forall m: nat :: IsOf(s, k, m) ==> m <= n
  {
    LastUpTo(s, k, |s.log|)
  }

  function LastUpTo(s: Store, k: Key, end: nat): (n: nat)
    requires end <= |s.log|
    ensures n == 0 || (n <= end && IsOf(s, k, n))
    ensures forall m: nat :: m <= end && IsOf(s, k, m) ==> m <= n
  {
    if end == 0 then 0
    else if IsOf(s, k, end) then end
    else LastUpTo(s, k, end - 1)
  }

  predicate Tombstone(s: Store, k: Key, n: nat) {
    Written(s, k, n) && s.log[n - 1].op != PutOp
  }

  /** No entry, or a deleted one. */
  predicate Free(s: Store, k: Key) {
    Last(s, k) == 0 || Tombstone(s, k, Last(s, k))
  }

  datatype Write = Write(key: Key, op: Operation, data: seq<int>, created: bool, expected: Option<nat>)

  /** The server checks the expectation and appends in one step. */
  predicate Accepts(s: Store, w: Write) {
    w.expected == None || w.expected == Some(Last(s, w.key))
  }

  /** A purge takes the place of all earlier revisions of its key. */
  function Append(s: Store, w: Write): Store {
    Store(s.log + [Revision(w.key, w.op, w.data, w.created, Last(s, w.key))],
          if w.op == PurgeOp then s.gone + (set n: nat | 1 <= n <= |s.log| && Written(s, w.key, n)) else s.gone)
  }

  datatype Entry = Entry(revision: nat, op: Operation, data: seq<int>)

  function EntryOf(s: Store, k: Key): Option<Entry> {
    var n := Last(s, k);
    if n == 0 then None else Some(Entry(n, s.log[n - 1].op, s.log[n - 1].data))
  }

  // ------------------------------------------------ one client, undisturbed

  datatype KvError = WrongLastSequence | BadVersion

  datatype Result<T> = Ok(value: T) | Err(error: KvError)

  class Bucket {
    var store: Store

    constructor ()
      ensures store == Store([], {})
    {
      store := Store([], {});
    }

    method Publish(w: Write) returns (r: Result<nat>)
      modifies this
      ensures r == if Accepts(old(store), w) then Ok(|old(store).log| + 1) else Err(WrongLastSequence)
      ensures store == if r.Ok? then Append(old(store), w) else old(store)
    {
      if w.expected.Some? && w.expected.value != Last(store, w.key) {
        return Err(WrongLastSequence);
      }
      store := Append(store, w);
      r := Ok(|store.log|);
    }

    method Put(k: Key, data: seq<int>, previousSeq: Option<nat>, created: bool) returns (r: Result<nat>)
      modifies this
      ensures var w := Write(k, PutOp, data, created, previousSeq);
              && r == (if Accepts(old(store), w) then Ok(|old(store).log| + 1) else Err(WrongLastSequence))
              && store == (if r.Ok? then Append(old(store), w) else old(store))
    {
      r := Publish(Write(k, PutOp, data, created, previousSeq));
    }

    method Update(k: Key, data: seq<int>, version: int, created: bool) returns (r: Result<nat>)
      modifies this
      ensures version <= 0 ==> r == Err(BadVersion) && store == old(store)
      ensures version > 0 ==>
        var w := Write(k, PutOp, data, created, Some(version));
        && r == (if Accepts(old(store), w) then Ok(|old(store).log| + 1) else Err(WrongLastSequence))
        && store == (if r.Ok? then Append(old(store), w) else old(store))
    {
      if version <= 0 {
        return Err(BadVersion);
      }
      r := Put(k, data, Some(version), created);
    }

    /** The last revision of the key that is in the stream. */
    method Get(k: Key) returns (e: Option<Entry>)
      ensures e == EntryOf(store, k)
      ensures e.None? <==> forall m: nat :: !IsOf(store, k, m)
      ensures e.Some? ==>
        && IsOf(store, k, e.value.revision) && (forall m: nat :: IsOf(store, k, m) ==> m <= e.value.revision)
        && e.value.op == store.log[e.value.revision - 1].op && e.value.data == store.log[e.value.revision - 1].data
    {
      var n := Last(store, k);
      if n == 0 {
        return None;
      }
      e := Some(Entry(n, store.log[n - 1].op, store.log[n - 1].data));
    }

    /** With nobody else about, a create succeeds exactly when the key is free. */
    method Create(k: Key, data: seq<int>) returns (r: Result<nat>)
      modifies this
      ensures r == if Free(old(store), k) then Ok(|old(store).log| + 1) else Err(WrongLastSequence)
      ensures store == if r.Ok? then Append(old(store), Write(k, PutOp, data, true, None)) else old(store)
    {
      r := Put(k, data, Some(0), true);
      if r.Ok? {
        return;
      }
      var e := Get(k);
      if e.Some? && e.value.op != PutOp {
        r := Update(k, data, e.value.revision, true);
      }
    }

    method Delete(k: Key, op: Operation, previousSeq: nat) returns (r: Result<nat>)
      requires op != PutOp && Sound(store)
      modifies this
      ensures var w := Write(k, op, [], false, if previousSeq > 0 then Some(previousSeq) else None);
              && r == (if Accepts(old(store), w) then Ok(|old(store).log| + 1) else Err(WrongLastSequence))
              && store == (if r.Ok? then Append(old(store), w) else old(store))
      ensures r.Ok? ==> Free(store, k)
    {
      r := Publish(Write(k, op, [], false, if previousSeq > 0 then Some(previousSeq) else None));
      if r.Ok? {
        LastIsLatest(old(store), Write(k, op, [], false, None));
      }
    }
  }

  /** What was written is what is read, under the next number; what other keys hold is
      left alone; and of a purged key nothing older remains. */
  lemma WrittenIsRead(s: Store, w: Write, k: Key)
    requires Sound(s)
    ensures EntryOf(Append(s, w), w.key) == Some(Entry(|s.log| + 1, w.op, w.data))
    ensures k != w.key ==> EntryOf(Append(s, w), k) == EntryOf(s, k)
    ensures w.op == PurgeOp ==> forall m: nat :: IsOf(Append(s, w), w.key, m) ==> m == |s.log| + 1
    ensures w.op != PurgeOp ==> forall m: nat :: IsOf(s, w.key, m) ==> IsOf(Append(s, w), w.key, m)
  {
    hide LastUpTo;
    var s' := Append(s, w);
    LastIsLatest(s, w);
    assert forall m: nat :: 1 <= m <= |s.log| ==> (Written(s', k, m) <==> Written(s, k, m));
    assert forall m: nat :: 1 <= m <= |s.log| ==> (Written(s', w.key, m) <==> Written(s, w.key, m));
    if k != w.key {
      assert forall m: nat :: IsOf(s', k, m) <==> IsOf(s, k, m);
    }
  }

  lemma LastIsLatest(s: Store, w: Write)
    requires Sound(s)
    ensures Last(Append(s, w), w.key) == |s.log| + 1
  {
  }

  // ------------------------------------------------------- many clients at once

  /** Where a call of `create` is. A write is with the server or its answer on the way;
      the server may take a write it was sent any number of times. */
  datatype Creator =
    | First                          // wrote, expecting nothing
    | Refused                        // told so, and reads
    | Again(version: nat)            // wrote, expecting the tombstone it has read
    | Over

  datatype Call = Call(key: Key, data: seq<int>, at: Creator)

  datatype World = World(store: Store, calls: seq<Call>)

  datatype Action =
    | Begin(key: Key, data: seq<int>)
    | ServerTakes(i: nat)             // the write of a call, if the server accepts it
    | Refuse(i: nat)                  // the answer is that the sequence was wrong
    | Read(i: nat, n: nat)            // any revision the key ever had, or none (0)
    | Finish(i: nat)                  // success, another error, or a caller that gives up
    | OtherWrite(w: Write)            // puts, updates, deletes and purges
    | Lose(n: nat)                    // by history limit, age, or a purge of the stream

  function Request(c: Call): Write
    requires c.at.First? || c.at.Again?
  {
    Write(c.key, PutOp, c.data, true, Some(if c.at.First? then 0 else c.at.version))
  }

  predicate Legal(w: World, a: Action) {
    match a
    case Begin(_, _) => true
    case ServerTakes(i) =>
      && i < |w.calls| && (w.calls[i].at.First? || w.calls[i].at.Again?)
      && Accepts(w.store, Request(w.calls[i]))
    case Refuse(i) => i < |w.calls| && w.calls[i].at.First?
    case Read(i, n) => i < |w.calls| && w.calls[i].at.Refused? && (n == 0 || Written(w.store, w.calls[i].key, n))
    case Finish(i) => i < |w.calls|
    case OtherWrite(x) => !x.created && Accepts(w.store, x)
    case Lose(n) => 1 <= n <= |w.store.log|
  }

  /** After a read the call goes on only from a tombstone. */
  function AfterRead(s: Store, c: Call, n: nat): Call {
    if n > 0 && Tombstone(s, c.key, n) then c.(at := Again(n)) else c.(at := Over)
  }

  function Next(w: World, a: Action): World
    requires Legal(w, a)
  {
    match a
    case Begin(key, data) => w.(calls := w.calls + [Call(key, data, First)])
    case ServerTakes(i) => w.(store := Append(w.store, Request(w.calls[i])))
    case Refuse(i) => w.(calls := w.calls[i := w.calls[i].(at := Refused)])
    case Read(i, n) => w.(calls := w.calls[i := AfterRead(w.store, w.calls[i], n)])
    case Finish(i) => w.(calls := w.calls[i := w.calls[i].(at := Over)])
    case OtherWrite(x) => w.(store := Append(w.store, x))
    case Lose(n) => w.(store := w.store.(gone := w.store.gone + {n}))
  }

  ghost predicate LegalRun(w: World, run: seq<Action>)
    decreases |run|
  {
    run == [] || (Legal(w, run[0]) && LegalRun(Next(w, run[0]), run[1..]))
  }

  function After(w: World, run: seq<Action>): World
    requires LegalRun(w, run)
    decreases |run|
  {
    if run == [] then w else After(Next(w, run[0]), run[1..])
  }

  function Start(): World { World(Store([], {}), []) }

  // ---------------------------------------------------------------- its safety

  /** A revision written for a create found its key free. */
  ghost predicate CreatedFree(s: Store, n: nat)
    requires 1 <= n <= |s.log|
  {
    var r := s.log[n - 1];
    r.created ==> r.op == PutOp && (r.previous == 0 || (r.previous < n && Tombstone(s, r.key, r.previous)))
  }

  /** What was last when a revision was written was the last of those not gone since. */
  ghost predicate NothingBetween(s: Store, n: nat)
    requires 1 <= n <= |s.log|
  {
    Covers(s, s.log[n - 1].key, n, s.log[n - 1].previous)
  }

  ghost predicate Covers(s: Store, k: Key, n: nat, last: nat) {
    forall m: nat :: m < n && IsOf(s, k, m) ==> m <= last
  }

  ghost predicate Safe(w: World) {
    && Sound(w.store)
    && (forall n :: 1 <= n <= |w.store.log| ==> CreatedFree(w.store, n) && NothingBetween(w.store, n))
    && (forall i :: 0 <= i < |w.calls| && w.calls[i].at.Again?
                    ==> Tombstone(w.store, w.calls[i].key, w.calls[i].at.version))
  }

  lemma AppendSafe(w: World, x: Write)
    requires Safe(w) && Accepts(w.store, x)
    requires x.created ==> x.op == PutOp && Free(w.store, x.key)
    ensures Safe(w.(store := Append(w.store, x)))
  {
    hide Last;
    var s, s' := w.store, Append(w.store, x);
    forall n | 1 <= n <= |s'.log|
      ensures CreatedFree(s', n) && NothingBetween(s', n)
    {
      if n <= |s.log| {
        assert CreatedFree(s, n) && NothingBetween(s, n);
        assert s'.log[n - 1] == s.log[n - 1];
      }
      var r := s'.log[n - 1];
      forall m: nat | m < n && IsOf(s', r.key, m)
        ensures m <= r.previous
      {
        assert IsOf(s, r.key, m);
      }
    }
    forall i | 0 <= i < |w.calls| && w.calls[i].at.Again?
      ensures Tombstone(s', w.calls[i].key, w.calls[i].at.version)
    {
    }
  }

  lemma StepSafe(w: World, a: Action)
    requires Safe(w) && Legal(w, a)
    ensures Safe(Next(w, a))
  {
    hide Last, Append;
    match a
    case ServerTakes(i) => AppendSafe(w, Request(w.calls[i]));
    case OtherWrite(x) => AppendSafe(w, x);
    case Lose(n) =>
      forall m | 1 <= m <= |w.store.log|
        ensures CreatedFree(Next(w, a).store, m) && NothingBetween(Next(w, a).store, m)
      {
        assert CreatedFree(w.store, m) && NothingBetween(w.store, m);
        var k, s' := w.store.log[m - 1].key, Next(w, a).store;
        forall j: nat | j < m && IsOf(s', k, j)
          ensures j <= w.store.log[m - 1].previous
        {
          assert IsOf(w.store, k, j);
        }
      }
    case _ =>
  }

  lemma {:induction false} RunSafe(w: World, run: seq<Action>)
    requires Safe(w) && LegalRun(w, run)
    ensures Safe(After(w, run))
    decreases |run|
  {
    hide Safe, Legal, Next;
    if run != [] {
      StepSafe(w, run[0]);
      RunSafe(Next(w, run[0]), run[1..]);
    }
  }

  /** In every run each revision written for a create was written when its key had no
      revision, or a tombstone, as its last. */
  lemma CreateFindsKeyFree(run: seq<Action>, n: nat)
    requires LegalRun(Start(), run)
    requires var s := After(Start(), run).store; 1 <= n <= |s.log| && s.log[n - 1].created
    ensures var s := After(Start(), run).store;
            s.log[n - 1].previous == 0 || Tombstone(s, s.log[n - 1].key, s.log[n - 1].previous)
  {
    hide LegalRun, After;
    RunSafe(Start(), run);
    assert CreatedFree(After(Start(), run).store, n);
  }

  /** Between two creates of one key there is a delete or a purge, or the first of them
      is gone from the stream. */
  lemma OneCreateBetweenDeletes(run: seq<Action>, n: nat, m: nat) returns (d: nat)
    requires LegalRun(Start(), run)
    requires var s := After(Start(), run).store;
             && 1 <= n < m <= |s.log| && s.log[n - 1].created && s.log[m - 1].created
             && s.log[n - 1].key == s.log[m - 1].key && n !in s.gone
    ensures var s := After(Start(), run).store; n < d < m && Tombstone(s, s.log[n - 1].key, d)
  {
    hide LegalRun, After;
    RunSafe(Start(), run);
    var s := After(Start(), run).store;
    assert CreatedFree(s, m) && NothingBetween(s, m) && CreatedFree(s, n);
    d := s.log[m - 1].previous;
    assert IsOf(s, s.log[m - 1].key, n);
  }
}
