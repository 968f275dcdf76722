/** The iterator as an object: the generator's loops, between one suspension and the
    next, and the methods others call meanwhile. */
module QueuedIterator {
  import opened Bytes
  import opened QueueModel

  class Iterator<T, E(0)> {
    const passes: T -> bool
    var queued: seq<Item<T, E>>
    var signal: nat
    var signaled: bool
    var done: bool
    var err: Option<E>
    var place: Place<T, E>
    var processed: nat
    ghost var pushed: seq<Item<T, E>>
    ghost var consumed: seq<Item<T, E>>
    ghost var yielded: seq<T>
    ghost var outside: bool
    ghost var closedBy: Option<nat>

    ghost function State(): Queue<T, E>
      reads this
    {
      Queue(queued, signal, signaled, done, err, place, pushed, consumed, yielded, outside, closedBy)
    }

    constructor (passes: T -> bool)
      ensures State() == Start() && this.passes == passes
    {
      this.passes := passes;
      queued, signal, signaled, done, err, place, processed := [], 0, false, false, None, NotStarted, 0;
      pushed, consumed, yielded, outside, closedBy := [], [], [], false, None;
    }

    /** `ingest`: what the ingestion filter says of a value. */
    method Push(item: Item<T, E>, ingest: bool)
      modifies this`queued, this`signaled, this`pushed
      ensures State() == QueueModel.Push(old(State()), item, ingest)
      ensures queued == old(queued) + if !old(done) && (item.Call? || ingest) then [item] else []
      ensures queued != old(queued) ==> signaled
    {
      if done {
        return;
      }
      if item.Call? || ingest {
        queued := queued + [item];
        signaled := true;
        pushed := pushed + [item];
      }
    }

    method Stop(e: Option<E>)
      modifies this`err, this`done, this`signaled
      ensures State() == QueueModel.Stop(old(State()), e)
      ensures done && if old(done) then err == old(err) else err == e && signaled
    {
      if done {
        return;
      }
      err := e;
      done := true;
      signaled := true;
    }

    /** A queued function is run; tells whether the generator ends with it. */
    method Invoke(f: Function<E>, rest: seq<Item<T, E>>)
      modifies this
      ensures State() == QueueModel.Invoke(old(State()), f, rest) && processed == old(processed)
    {
      ghost var here := |consumed|;
      consumed := consumed + [Call(f)];
      place := InBatch(rest);
      if !f.Plain? {
        closedBy := if done then closedBy else Some(here);
        Stop(if f.Stops? then f.err else None);
      }
      if f.Throws? || err.Some? {
        place := Ended;
      }
    }

    /** Goes through a batch, up to the next value that passes. */
    method TakeBatch()
      requires place.InBatch?
      modifies this
      ensures RunOn(State(), passes) == RunOn(old(State()), passes)
      ensures place.AtYield? || place.Ended? || place == InBatch([])
      ensures place.InBatch? ==> queued == old(queued)
    {
      hide QueueModel.Invoke;
      var batch := place.rest;
      var i := 0;
      while place.InBatch? && i < |batch|
        invariant i <= |batch| && RunOn(State(), passes) == RunOn(old(State()), passes)
        invariant place == InBatch(batch[i..]) || place.AtYield? || place.Ended?
        invariant place.InBatch? ==> queued == old(queued)
        decreases |batch| - i, place.InBatch?
      {
        StepWorks(State(), passes);
        ghost var before := State();
        assert batch[i..][1..] == batch[i + 1..];
        var item := batch[i];
        i := i + 1;
        if item.Call? {
          Invoke(item.f, batch[i..]);
          InvokePlace(before, item.f, batch[i..]);
        } else {
          consumed := consumed + [item];
          if passes(item.x) {
            processed := processed + 1;
            yielded := yielded + [item.x];
            place := AtYield(batch[i..]);
          } else {
            place := InBatch(batch[i..]);
          }
        }
        assert State() == Step(before, passes);
      }
    }

    /** The batch is what is queued now, and the queue is new. */
    method TakeOver()
      modifies this`place, this`queued
      ensures State() == Step(old(State()).(place := Woken), passes)
    {
      if err.Some? {
        place := Ended;
      } else {
        place := InBatch(queued);
        queued := [];
      }
    }

    /** From one suspension to the next: the reader asks for a value, or the signal the
        generator waits for is resolved. */
    method Next()
      requires place.NotStarted? || place.AtYield? || (place.Waiting? && place.signal == signal && signaled)
      modifies this
      ensures State() == RunOn(Resume(old(State())), passes)
    {
      hide RunOn, QueueModel.Invoke;
      ghost var resumed := Resume(State());
      RunOnStep(resumed, passes);
      if place.Waiting? {
        TakeOver();
      } else if place.AtYield? {
        place := InBatch(place.rest);
      } else {
        place := Top;
      }
      while !Suspended(place)
        invariant RunOn(State(), passes) == RunOn(resumed, passes)
        invariant Suspended(place) || place.InBatch? || place.Top?
        decreases Work(State())
      {
        Turn();
      }
      RunOnStep(State(), passes);
    }

    method Turn()
      requires place.Top? || place.InBatch?
      modifies this
      ensures RunOn(State(), passes) == RunOn(old(State()), passes)
      ensures Suspended(place) || ((place.InBatch? || place.Top?) && Work(State()) < old(Work(State())))
    {
      hide RunOn, QueueModel.Invoke;
      RunOnStep(State(), passes);
      if place.Top? {
        if queued == [] {
          place := Waiting(signal);
        } else {
          RunOnStep(State().(place := Woken), passes);
          TakeOver();
        }
      } else if place.rest != [] {
        TakeBatch();
      } else if done {
        place := Ended;
      } else {
        if queued == [] {
          signal := signal + 1;
          signaled := false;
        }
        place := Top;
      }
    }
  }
}
