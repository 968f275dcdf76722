/** Identifiers: a random prefix and a sequence number in base 36 that grows by a random
    step. */
module Nuid {
  import opened Arithmetic

  const DIGITS := "0123456789ABCDEFGHIJKLMNOPQRSTUVWXYZ"
  const BASE: nat := 36
  const PRE_LEN: nat := 12
  const SEQ_LEN: nat := 10
  const TOTAL_LEN: nat := PRE_LEN + SEQ_LEN
  const MAX_SEQ: nat := 3656158440062976
  const MIN_INC: nat := 33
  const MAX_INC: nat := 333

  /** Numbers above this are not all exact. */
  const SAFE: nat := 0x20_0000_0000_0000

  /** What the generators of random numbers give next, each in its range. */
  datatype Random = Random(pre: seq<nat>, start: nat, inc: nat)

  ghost predicate InRange(r: Random) {
    && |r.pre| == PRE_LEN && (forall i :: 0 <= i < PRE_LEN ==> r.pre[i] < 256)
    && r.start < MAX_SEQ && MIN_INC <= r.inc < MAX_INC
  }

  function Power(n: nat): (p: nat)
    ensures p > 0
  {
    if n == 0 then 1 else BASE * Power(n - 1)
  }

  /** The last `k` digits of `n`. */
  function Digits(n: nat, k: nat): (s: string)
    ensures |s| == k && forall i :: 0 <= i < k ==> s[i] in DIGITS
  {
    if k == 0 then "" else Digits(n / BASE, k - 1) + [DIGITS[n % BASE]]
  }

  lemma MaxSeqIsPower()
    ensures Power(SEQ_LEN) == MAX_SEQ && MAX_SEQ + MAX_INC < SAFE
  {
    assert Power(5) == 60466176;
    assert Power(10) == BASE * (BASE * (BASE * (BASE * (BASE * Power(5)))));
  }

  lemma DigitsDiffer(i: nat, j: nat)
    requires i < BASE && j < BASE
    ensures DIGITS[i] == DIGITS[j] <==> i == j
  {
    assert forall k :: 0 <= k < 10 ==> DIGITS[k] == (48 + k) as char;
    assert forall k :: 10 <= k < 36 ==> DIGITS[k] == (55 + k) as char;
  }

  /** As many digits as are written tell numbers apart that differ below their power. */
  lemma {:induction false} DigitsTellApart(n: nat, m: nat, k: nat)
    ensures Digits(n, k) == Digits(m, k) <==> n % Power(k) == m % Power(k)
  {
    if k > 0 {
      DigitsTellApart(n / BASE, m / BASE, k - 1);
      DigitsDiffer(n % BASE, m % BASE);
      LastDigit(n, Power(k - 1));
      LastDigit(m, Power(k - 1));
      var a, b := Digits(n / BASE, k - 1), Digits(m / BASE, k - 1);
      assert (a + [DIGITS[n % BASE]])[..k - 1] == a && (b + [DIGITS[m % BASE]])[..k - 1] == b;
      assert (a + [DIGITS[n % BASE]])[k - 1] == DIGITS[n % BASE] && (b + [DIGITS[m % BASE]])[k - 1] == DIGITS[m % BASE];
    }
  }

  /** The number a run of digits stands for. */
  function NumberOf(s: string): nat
    requires forall i :: 0 <= i < |s| ==> s[i] in DIGITS
  {
    if s == "" then 0 else NumberOf(s[..|s| - 1]) * BASE + DigitValue(s[|s| - 1])
  }

  function DigitValue(c: char): nat
    requires c in DIGITS
  {
    if '0' <= c <= '9' then c as nat - 48 else if 'A' <= c <= 'Z' then c as nat - 55 else 0
  }

  /** What is printed stands for the number, as far as its digits go. */
  lemma {:induction false} DigitsStandFor(n: nat, k: nat)
    ensures NumberOf(Digits(n, k)) == n % Power(k)
  {
    if k > 0 {
      DigitsStandFor(n / BASE, k - 1);
      LastDigit(n, Power(k - 1));
      ValueOfDigit(n % BASE);
      var s, init := Digits(n, k), Digits(n / BASE, k - 1);
      assert s[..k - 1] == init && s[k - 1] == DIGITS[n % BASE];
    }
  }

  lemma ValueOfDigit(i: nat)
    requires i < BASE
    ensures DigitValue(DIGITS[i]) == i
  {
    assert forall k :: 0 <= k < 10 ==> DIGITS[k] == (48 + k) as char;
    assert forall k :: 10 <= k < 36 ==> DIGITS[k] == (55 + k) as char;
  }

  lemma LastDigit(n: nat, p: nat)
    requires p > 0
    ensures n % (BASE * p) == n / BASE % p * BASE + n % BASE
  {
    var q, r := n / BASE / p, n / BASE % p;
    assert n / BASE == q * p + r;
    assert n == (q * p + r) * BASE + n % BASE;
    assert (q * p + r) * BASE == q * (BASE * p) + r * BASE;
    var rest := r * BASE + n % BASE;
    assert r * BASE <= (p - 1) * BASE;
    assert (p - 1) * BASE == BASE * p - BASE;
    assert 0 <= rest < BASE * p;
    ModUnique(n, BASE * p, q, rest);
  }

  lemma NoDigits(n: nat)
    ensures Digits(n, 0) == ""
  {
  }

  lemma DigitsStep(n: nat, k: nat, rest: string)
    ensures Digits(n, k + 1) + rest == Digits(n / BASE, k) + ([DIGITS[n % BASE]] + rest)
  {
    assert Digits(n, k + 1) == Digits(n / BASE, k) + [DIGITS[n % BASE]];
  }

  // ------------------------------------------------------------------- an epoch

  function Prefix(pre: seq<nat>): (s: string)
    ensures |s| == |pre| && forall i :: 0 <= i < |s| ==> s[i] == DIGITS[pre[i] % BASE]
  {
    seq(|pre|, i requires 0 <= i < |pre| => DIGITS[pre[i] % BASE])
  }

  function Id(pre: string, n: nat): string { pre + Digits(n, SEQ_LEN) }

  function Ids(pre: string, issued: seq<nat>): (ids: seq<string>)
    ensures |ids| == |issued| && forall i :: 0 <= i < |ids| ==> ids[i] == Id(pre, issued[i])
  {
    seq(|issued|, i requires 0 <= i < |issued| => Id(pre, issued[i]))
  }

  ghost predicate Increasing(issued: seq<nat>) {
    && (forall i, j :: 0 <= i < j < |issued| ==> issued[i] < issued[j])
    && (forall i :: 0 <= i < |issued| ==> issued[i] <= MAX_SEQ)
  }

  ghost predicate AllDiffer(ids: seq<string>) {
    forall i, j :: 0 <= i < j < |ids| ==> ids[i] != ids[j]
  }

  /** Two numbers of an epoch are printed alike only if they are zero and the power that
      is one digit too long. */
  lemma SameIdIff(pre: string, n: nat, m: nat)
    requires n < m <= MAX_SEQ
    ensures Id(pre, n) == Id(pre, m) <==> n == 0 && m == MAX_SEQ
  {
    hide Digits, Power;
    MaxSeqIsPower();
    DigitsTellApart(n, m, SEQ_LEN);
    SamePrefix(pre, Digits(n, SEQ_LEN), Digits(m, SEQ_LEN));
    Remainders(n, m);
  }

  lemma SamePrefix(pre: string, a: string, b: string)
    ensures pre + a == pre + b <==> a == b
  {
    assert (pre + a)[|pre|..] == a && (pre + b)[|pre|..] == b;
  }

  lemma Remainders(n: nat, m: nat)
    requires n < m <= MAX_SEQ
    ensures n % MAX_SEQ == m % MAX_SEQ <==> n == 0 && m == MAX_SEQ
  {
    ModUnique(n, MAX_SEQ, 0, n);
    if m < MAX_SEQ {
      ModUnique(m, MAX_SEQ, 0, m);
    } else {
      ModUnique(m, MAX_SEQ, 1, 0);
    }
  }

  /** The identifiers of an epoch are all different, except when it has gone from zero all
      the way to the power. */
  lemma EpochDiffersIff(pre: string, issued: seq<nat>)
    requires Increasing(issued)
    ensures AllDiffer(Ids(pre, issued))
            <==> !(|issued| > 1 && issued[0] == 0 && issued[|issued| - 1] == MAX_SEQ)
  {
    hide Id, Ids;
    var ids := Ids(pre, issued);
    forall i, j | 0 <= i < j < |ids|
      ensures ids[i] == ids[j] <==> issued[i] == 0 && issued[j] == MAX_SEQ
    {
      SameIdIff(pre, issued[i], issued[j]);
    }
    if |issued| > 1 && issued[0] == 0 && issued[|issued| - 1] == MAX_SEQ {
      assert ids[0] == ids[|ids| - 1];
    }
  }

  /** The numbers of an epoch: its first, and then always one step more. */
  function Walk(first: nat, inc: nat, k: nat): (w: seq<nat>)
    ensures |w| == k && forall i :: 0 <= i < k ==> w[i] == first + i * inc
  {
    seq(k, i => first + i * inc)
  }

  lemma WalkOn(first: nat, inc: nat, k: nat)
    requires k > 0
    ensures Walk(first, inc, k) + [Walk(first, inc, k)[k - 1] + inc] == Walk(first, inc, k + 1)
  {
    assert (k - 1) * inc + inc == k * inc;
  }

  lemma FirstStep(first: nat, inc: nat)
    ensures Walk(first, inc, 1) == [first]
  {
  }

  lemma WalkIncreases(first: nat, inc: nat, k: nat)
    requires inc > 0 && k > 0 && first + (k - 1) * inc <= MAX_SEQ
    ensures Increasing(Walk(first, inc, k))
  {
    var w := Walk(first, inc, k);
    forall i, j | 0 <= i < j < k
      ensures w[i] < w[j]
    {
      Apart(j, i, inc);
    }
    forall i | 0 <= i < k
      ensures w[i] <= MAX_SEQ
    {
      assert i == k - 1 || w[i] < w[k - 1];
    }
  }

  /** An epoch repeats an identifier if it goes on long enough. */
  ghost predicate Repeats(pre: string, first: nat, inc: nat, k: nat) {
    k > 0 && first + (k - 1) * inc <= MAX_SEQ && !AllDiffer(Ids(pre, Walk(first, inc, k)))
  }

  /** That can be exactly when it begins at zero with a step that divides the power. */
  lemma CanRepeatIff(pre: string, first: nat, inc: nat)
    requires inc > 0
    ensures (exists k: nat :: Repeats(pre, first, inc, k)) <==> first == 0 && MAX_SEQ % inc == 0
  {
    hide Ids, AllDiffer, Increasing;
    forall k: nat | Repeats(pre, first, inc, k)
      ensures first == 0 && MAX_SEQ % inc == 0
    {
      WalkIncreases(first, inc, k);
      EpochDiffersIff(pre, Walk(first, inc, k));
      ModUnique(MAX_SEQ, inc, k - 1, 0);
    }
    if first == 0 && MAX_SEQ % inc == 0 {
      var n := MAX_SEQ / inc;
      assert n * inc == MAX_SEQ;
      WalkIncreases(first, inc, n + 1);
      EpochDiffersIff(pre, Walk(first, inc, n + 1));
      assert Repeats(pre, first, inc, n + 1);
    }
  }

  /** From zero by steps of 36 the first identifier comes again after 36^9 more. */
  lemma RepeatExample(pre: string)
    ensures Repeats(pre, 0, BASE, Power(9) + 1)
    ensures MIN_INC <= BASE < MAX_INC && Id(pre, 0) == Id(pre, Power(9) * BASE)
  {
    hide Ids, AllDiffer, Increasing, Digits;
    MaxSeqIsPower();
    assert Power(9) * BASE == MAX_SEQ;
    hide Power;
    SameIdIff(pre, 0, MAX_SEQ);
    WalkIncreases(0, BASE, Power(9) + 1);
    EpochDiffersIff(pre, Walk(0, BASE, Power(9) + 1));
  }

  // ------------------------------------------------------------------ the class

  class Generator {
    const buf: array<char>
    var seqno: nat
    var inc: nat
    var inited: bool
    ghost var issued: seq<nat>      // in this epoch, by number
    ghost var restarted: bool       // the epoch began within `Next`

    ghost predicate Valid()
      reads this, buf
    {
      && buf.Length == TOTAL_LEN
      && (inited ==>
        && MIN_INC <= inc < MAX_INC && seqno <= MAX_SEQ && Increasing(issued)
        && (issued != [] ==> issued[|issued| - 1] == seqno && issued == Walk(issued[0], inc, |issued|))
        && (issued != [] && !restarted ==> issued[0] >= MIN_INC)
        && (forall i :: 0 <= i < PRE_LEN ==> buf[i] in DIGITS))
    }

    ghost function Pre(): string
      requires buf.Length == TOTAL_LEN
      reads buf
    {
      buf[..PRE_LEN]
    }

    constructor ()
      ensures Valid() && !inited && issued == []
    {
      buf := new char[TOTAL_LEN](_ => '0');
      seqno, inc, inited, issued, restarted := 0, 0, false, [], false;
    }

    method SetPre(r: Random)
      requires InRange(r) && buf.Length == TOTAL_LEN
      modifies buf
      ensures buf[..PRE_LEN] == Prefix(r.pre)
    {
      for i := 0 to PRE_LEN
        invariant forall k :: 0 <= k < i ==> buf[k] == DIGITS[r.pre[k] % BASE]
      {
        var di := r.pre[i] % BASE;
        buf[i] := DIGITS[di];
      }
    }

    method InitSeqAndInc(r: Random)
      modifies this`seqno, this`inc
      ensures seqno == r.start && inc == r.inc
    {
      seqno := r.start;
      inc := r.inc;
    }

    /** Writes the number behind the prefix, the last digit first. */
    method FillSeq()
      requires buf.Length == TOTAL_LEN
      modifies buf
      ensures buf[..PRE_LEN] == old(buf[..PRE_LEN])
      ensures buf[PRE_LEN..] == Digits(seqno, SEQ_LEN)
    {
      hide Digits;
      ghost var pre := buf[..PRE_LEN];
      var n: nat := seqno;
      assert buf[TOTAL_LEN..] == "" && Digits(n, SEQ_LEN) + "" == Digits(n, SEQ_LEN);
      for k := SEQ_LEN downto 0
        invariant buf[..PRE_LEN] == pre
        invariant Digits(seqno, SEQ_LEN) == Digits(n, k) + buf[PRE_LEN + k..]
      {
        ghost var rest := buf[PRE_LEN + k + 1..];
        DigitsStep(n, k, rest);
        buf[PRE_LEN + k] := DIGITS[n % BASE];
        assert buf[PRE_LEN + k..] == [DIGITS[n % BASE]] + rest;
        n := n / BASE;
      }
      NoDigits(n);
      assert Digits(n, 0) + buf[PRE_LEN..] == buf[PRE_LEN..];
    }

    method Init(r: Random)
      requires InRange(r) && buf.Length == TOTAL_LEN
      modifies this, buf
      ensures Valid() && inited && issued == [] && !restarted
      ensures seqno == r.start && inc == r.inc && Pre() == Prefix(r.pre)
    {
      inited := true;
      SetPre(r);
      InitSeqAndInc(r);
      FillSeq();
      issued, restarted := [], false;
      assert forall i :: 0 <= i < PRE_LEN ==> buf[i] == buf[..PRE_LEN][i];
    }

    method Reset(r: Random)
      requires InRange(r) && buf.Length == TOTAL_LEN
      modifies this, buf
      ensures Valid() && inited && issued == [] && seqno == r.start
    {
      Init(r);
    }

    /** An identifier with a number larger than all before it in the epoch, or the first
        of a new epoch. */
    method Next(first: Random, again: Random) returns (id: string)
      requires Valid() && InRange(first) && InRange(again)
      modifies this, buf
      ensures Valid() && inited && issued != [] && id == Id(Pre(), seqno)
      ensures |id| == TOTAL_LEN && forall i :: 0 <= i < |id| ==> id[i] in DIGITS
      ensures var before := if old(inited) then old(seqno) else first.start;
              var step := if old(inited) then old(inc) else first.inc;
              if before + step <= MAX_SEQ then
                && issued == (if old(inited) then old(issued) else []) + [before + step]
                && Pre() == (if old(inited) then old(Pre()) else Prefix(first.pre))
              else issued == [again.start] && Pre() == Prefix(again.pre)
    {
      hide Digits, Increasing, Prefix;
      if !inited {
        Init(first);
      }
      ghost var pre := Pre();
      InDigits(pre);
      Advance(again);
      ghost var now := Pre();
      PrefixInDigits(again.pre);
      FillSeq();
      id := buf[..];
      assert id == buf[..PRE_LEN] + buf[PRE_LEN..];
      assert forall i :: 0 <= i < PRE_LEN ==> buf[i] == now[i];
    }

    /** The next number, or the first of a new epoch. */
    method Advance(again: Random)
      requires Valid() && inited && InRange(again)
      modifies this`seqno, this`inc, this`issued, this`restarted, buf
      ensures issued != [] && issued[|issued| - 1] == seqno <= MAX_SEQ && MIN_INC <= inc < MAX_INC
      ensures Increasing(issued) && issued == Walk(issued[0], inc, |issued|) && (!restarted ==> issued[0] >= MIN_INC)
      ensures var n := old(seqno) + old(inc);
              if n <= MAX_SEQ then issued == old(issued) + [n] && Pre() == old(Pre())
              else issued == [again.start] && Pre() == Prefix(again.pre)
    {
      hide Digits, Increasing, Prefix, Walk;
      seqno := seqno + inc;
      assert seqno < SAFE;
      if seqno > MAX_SEQ {
        SetPre(again);
        InitSeqAndInc(again);
        issued, restarted := [], true;
      }
      OneMore(issued, seqno);
      if issued != [] {
        WalkOn(issued[0], inc, |issued|);
      } else {
        FirstStep(seqno, inc);
      }
      issued := issued + [seqno];
    }

    /** In an epoch begun by `Init` all identifiers differ. In one begun within `Next`
        they do unless it has gone from zero to the power, which it never does from
        another number, or by a step that does not divide the power. */
    lemma IdsDiffer()
      requires Valid() && inited
      ensures AllDiffer(Ids(Pre(), issued)) <==> |issued| <= 1 || issued[0] > 0 || seqno < MAX_SEQ
      ensures !restarted || MAX_SEQ % inc != 0 ==> AllDiffer(Ids(Pre(), issued))
    {
      EpochDiffersIff(Pre(), issued);
      if !AllDiffer(Ids(Pre(), issued)) {
        assert Repeats(Pre(), issued[0], inc, |issued|);
        CanRepeatIff(Pre(), issued[0], inc);
      }
    }

    lemma InDigits(pre: string)
      requires Valid() && inited && pre == Pre()
      ensures forall i :: 0 <= i < |pre| ==> pre[i] in DIGITS
    {
    }
  }

  lemma PrefixInDigits(pre: seq<nat>)
    ensures forall i :: 0 <= i < |pre| ==> Prefix(pre)[i] in DIGITS
  {
  }

  lemma OneMore(issued: seq<nat>, n: nat)
    requires n <= MAX_SEQ
    ensures Increasing(issued) && (issued == [] || issued[|issued| - 1] < n) ==> Increasing(issued + [n])
    ensures Increasing([])
  {
    if Increasing(issued) && issued != [] && issued[|issued| - 1] < n {
      forall i | 0 <= i < |issued|
        ensures issued[i] < n
      {
        assert i < |issued| - 1 ==> issued[i] < issued[|issued| - 1];
      }
    }
  }
}
