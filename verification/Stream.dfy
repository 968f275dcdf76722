/** A stream: a log of entries numbered from one, to which entries are only added. */
module Stream {

  type Subject = string

  datatype Entry = Entry(subject: Subject, data: seq<int>)

  /** An entry with its place in the stream. */
  datatype Item = Item(seqno: nat, entry: Entry)

  type Log = seq<Entry>

  /** The subjects a consumer asks for. */
  type Filter = iset<Subject>

  ghost predicate Wanted(log: Log, f: Filter, n: nat) {
    1 <= n <= |log| && log[n - 1].subject in f
  }

  /** The wanted entries numbered `lo` to `hi - 1`, in order. */
  ghost function Matching(log: Log, f: Filter, lo: nat, hi: nat): seq<Item>
    decreases hi - lo
  {
    if hi <= lo then []
    else Matching(log, f, lo, hi - 1) + if Wanted(log, f, hi - 1) then [Item(hi - 1, log[hi - 2])] else []
  }

  lemma {:induction false} MatchingSplit(log: Log, f: Filter, lo: nat, mid: nat, hi: nat)
    requires lo <= mid <= hi
    ensures Matching(log, f, lo, mid) + Matching(log, f, mid, hi) == Matching(log, f, lo, hi)
    decreases hi - mid
  {
    if mid < hi {
      MatchingSplit(log, f, lo, mid, hi - 1);
    }
  }

  /** More entries leave what is wanted of the first ones as it is. */
  lemma {:induction false} MatchingStays(log: Log, more: Log, f: Filter, lo: nat, hi: nat)
    requires hi <= |log| + 1
    ensures Matching(log + more, f, lo, hi) == Matching(log, f, lo, hi)
    decreases hi - lo
  {
    if lo < hi {
      MatchingStays(log, more, f, lo, hi - 1);
    }
  }

  /** As many wanted entries from the same place are the same entries. */
  lemma SameCount(log: Log, f: Filter, lo: nat, x: nat, y: nat)
    requires |Matching(log, f, lo, x)| == |Matching(log, f, lo, y)|
    ensures Matching(log, f, lo, x) == Matching(log, f, lo, y)
  {
    if lo <= x <= y {
      MatchingSplit(log, f, lo, x, y);
    } else if lo <= y <= x {
      MatchingSplit(log, f, lo, y, x);
    }
  }

  /** Nothing but wanted entries, each with its own number and entry. */
  lemma {:induction false} MatchingWanted(log: Log, f: Filter, lo: nat, hi: nat, i: nat)
    requires i < |Matching(log, f, lo, hi)|
    ensures var x := Matching(log, f, lo, hi)[i];
            lo <= x.seqno < hi && Wanted(log, f, x.seqno) && x.entry == log[x.seqno - 1]
    decreases hi - lo
  {
    if i < |Matching(log, f, lo, hi - 1)| {
      MatchingWanted(log, f, lo, hi - 1, i);
    }
  }

  /** In order, and none twice. */
  lemma {:induction false} MatchingAscends(log: Log, f: Filter, lo: nat, hi: nat, i: nat, j: nat)
    requires i < j < |Matching(log, f, lo, hi)|
    ensures Matching(log, f, lo, hi)[i].seqno < Matching(log, f, lo, hi)[j].seqno
    decreases hi - lo
  {
    if j < |Matching(log, f, lo, hi - 1)| {
      MatchingAscends(log, f, lo, hi - 1, i, j);
    } else {
      MatchingWanted(log, f, lo, hi - 1, i);
    }
  }

  /** No wanted entry is left out. */
  lemma {:induction false} MatchingComplete(log: Log, f: Filter, lo: nat, hi: nat, n: nat)
    requires lo <= n < hi && Wanted(log, f, n)
    ensures Item(n, log[n - 1]) in Matching(log, f, lo, hi)
    decreases hi - lo
  {
    if n < hi - 1 {
      MatchingComplete(log, f, lo, hi - 1, n);
    }
  }

  /** The `d`-th wanted entry from `start` on is the one numbered `n`. */
  ghost predicate IsNth(log: Log, f: Filter, start: nat, d: nat, n: nat) {
    start <= n && Wanted(log, f, n) && |Matching(log, f, start, n)| == d - 1
  }

  lemma IsNthStays(log: Log, more: Log, f: Filter, start: nat, d: nat, n: nat)
    requires IsNth(log, f, start, d, n)
    ensures IsNth(log + more, f, start, d, n)
  {
    MatchingStays(log, more, f, start, n);
  }

  /** Taking the next one extends what was taken by exactly that entry. */
  lemma TakeNext(log: Log, f: Filter, start: nat, d: nat, taken: nat, n: nat)
    requires |Matching(log, f, start, taken)| == d && IsNth(log, f, start, d + 1, n)
    ensures Matching(log, f, start, n + 1) == Matching(log, f, start, taken) + [Item(n, log[n - 1])]
  {
    SameCount(log, f, start, taken, n);
  }

  /** Each place among the wanted entries is the place of one of them. */
  lemma {:induction false} NthExists(log: Log, f: Filter, start: nat, hi: nat, d: nat) returns (n: nat)
    requires d < |Matching(log, f, start, hi)|
    ensures n < hi && IsNth(log, f, start, d + 1, n)
    decreases hi - start
  {
    if d < |Matching(log, f, start, hi - 1)| {
      n := NthExists(log, f, start, hi - 1, d);
    } else {
      n := hi - 1;
    }
  }

  /** The first wanted entry behind `s`. */
  ghost predicate NextWanted(log: Log, f: Filter, s: nat, n: nat) {
    s < n && Wanted(log, f, n) && forall k :: s < k < n ==> !Wanted(log, f, k)
  }

  lemma NextIsFirst(log: Log, f: Filter, s: nat, n: nat)
    ensures IsNth(log, f, s + 1, 1, n) <==> NextWanted(log, f, s, n)
  {
    if s < n {
      NoneIsEmpty(log, f, s + 1, n);
    }
  }

  lemma {:induction false} NoneIsEmpty(log: Log, f: Filter, lo: nat, hi: nat)
    ensures Matching(log, f, lo, hi) == [] <==> forall k :: lo <= k < hi ==> !Wanted(log, f, k)
    decreases hi - lo
  {
    if lo < hi {
      NoneIsEmpty(log, f, lo, hi - 1);
    }
  }
}
