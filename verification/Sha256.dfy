/** The streaming SHA-256 object: it packs octets into words as they come, carries
    a partly filled block from call to call, and runs the rounds four at a time. */
module Sha256 {
  import opened Bytes
  import opened Sha256Spec

  class Hasher {
    const blocks: array<Word>
    var h0: Word
    var h1: Word
    var h2: Word
    var h3: Word
    var h4: Word
    var h5: Word
    var h6: Word
    var h7: Word
    var block: Word           // carried into the first word of the next block
    var start: nat            // octets in the block being filled
    var bytes: nat            // octets so far, below 2^32 between calls
    var hBytes: nat           // multiples of 2^32 octets
    var lastByteIndex: nat    // where the next octet would have gone
    var finalized: bool
    var hashed: bool          // the block was full and has been compressed
    var first: bool
    ghost var msg: seq<octet> // everything given to `Update`
    ghost var done: nat       // blocks of it that are complete

    constructor ()
      ensures Valid() && !finalized && msg == [] && fresh(blocks)
    {
      hide IV, StartValues, HashBlocks, Words, WordAt, Tail;
      blocks := new Word[64](_ => ZERO);
      var s := StartValues();
      h0, h1, h2, h3, h4, h5, h6, h7 := s.a, s.b, s.c, s.d, s.e, s.f, s.g, s.h;
      block, start, bytes, hBytes, lastByteIndex := ZERO, 0, 0, 0, 0;
      finalized, hashed, first, msg, done := false, false, true, [], 0;
      new;
      hide Holds;
      HoldsNothing();
      FirstBlock(msg);
    }

    lemma HoldsNothing()
      requires blocks.Length == 64 && start == 0 && forall j :: 0 <= j <= 16 ==> blocks[j] == ZERO
      ensures Holds(Tail())
    {
      hide WordAt;
      NothingHeld();
      assert Tail() == [];
    }

    /** The octets of the block being filled. */
    ghost function Tail(): seq<octet>
      requires start <= |msg|
      reads this`start, this`msg
    {
      msg[|msg| - start..]
    }

    /** The first sixteen words hold `tail`, and nothing else; no word is carried. */
    ghost predicate Holds(tail: seq<octet>)
      reads blocks
    {
      blocks.Length == 64 && blocks[16] == ZERO && forall j :: 0 <= j < 16 ==> blocks[j] == WordAt(tail, j)
    }

    /** The whole blocks of the message have been compressed; the rest is counted. */
    ghost predicate Counted()
      reads this
    {
      && !finalized && blocks.Length == 64
      && |msg| == 64 * done + start && start < 64 && block == ZERO
      && Chain() == HashBlocks(Words(msg), done)
      && (first ==> done == 0)
      && 0x1_0000_0000 * hBytes + bytes == |msg|
    }

    ghost predicate Streaming()
      reads this, blocks
    {
      && Counted()
      && lastByteIndex == (if hashed then 64 else start)
      && (hashed ==> start == 0)
      && (!hashed ==> Holds(Tail()))
    }

    ghost predicate Valid()
      reads this, blocks
    {
      && blocks.Length == 64
      && if finalized then Chain() == Sha256Spec.Hash(msg) else Streaming() && bytes < 0x1_0000_0000
    }

    /** However a message is divided over calls, only what was given counts. */
    method Update(e: seq<octet>)
      requires Valid()
      modifies this, blocks
      ensures Valid() && finalized == old(finalized)
      ensures msg == if finalized then old(msg) else old(msg) + e
    {
      hide Streaming, Sha256Spec.Hash;
      if !finalized {
        var o := 0;
        while o < |e|
          invariant o <= |e| && Streaming() && !finalized
          invariant msg == old(msg) + e[..o]
        {
          ghost var before := msg;
          var o' := FillBlock(e, o);
          assert e[..o] + e[o..o'] == e[..o'];
          o := o';
        }
        assert e[..|e|] == e;
        CarryBytes();
      }
    }

    method CarryBytes()
      requires Streaming()
      modifies this`hBytes, this`bytes
      ensures Streaming() && bytes < 0x1_0000_0000
    {
      hide IV, HashBlocks, Words, WordAt, Tail;
      if bytes > 4294967295 {
        hBytes, bytes := hBytes + bytes / 4294967296, bytes % 4294967296;
      }
    }

    /** Fills the block from `e[o..]` as far as it goes, and compresses it when full. */
    method FillBlock(e: seq<octet>, o: nat) returns (o': nat)
      requires o < |e| && Streaming()
      modifies this, blocks
      ensures o < o' <= |e| && Streaming() && !finalized
      ensures msg == old(msg) + e[o..o']
    {
      hide IV, HashBlocks, Words, WordAt, Holds;
      if hashed {
        EmptyBlock();
      }
      var s;
      s, o' := PackOctets(e, o);
      Record(s, e[o..o']);
    }

    /** After a whole block the next one begins. */
    method EmptyBlock()
      requires Streaming() && hashed
      modifies this`hashed, this`block, blocks
      ensures Counted() && !hashed && Holds(Tail())
    {
      hide IV, HashBlocks, Words, WordAt;
      hashed := false;
      StartBlock();
      HoldsNothing();
    }

    method Record(s: nat, ghost more: seq<octet>)
      requires Counted() && !hashed && s == start + |more| <= 64 && 0 < |more| && Holds(Tail() + more)
      modifies this, blocks
      ensures Streaming() && msg == old(msg) + more
    {
      hide IV, HashBlocks, Words, WordAt, Compress;
      ghost var now, held := msg + more, Tail() + more;
      lastByteIndex := s;
      bytes := bytes + (s - start);
      if s >= 64 {
        assert now[64 * done..] == held;
        FullBlock(msg, now, done);
        FirstBlock(msg);
        HeldWords(held);
        CompressBlock(s, now, held);
        hashed := true;
      } else {
        SameBlocks(msg, now, done);
        assert now[|now| - s..] == held;
        start := s;
        msg := now;
      }
    }

    method CompressBlock(s: nat, ghost now: seq<octet>, ghost held: seq<octet>)
      requires s == 64 && |now| == 64 * (done + 1) && blocks.Length == 64 && blocks[16] == ZERO
      requires !finalized && 0x1_0000_0000 * hBytes + bytes == |now|
      requires |Words(held)| == 16 && blocks[..16] == Words(held)
      requires HashBlocks(Words(now), done + 1) == Compress(Chain(), Words(held))
      requires first ==> Chain() == IV()
      modifies this, blocks
      ensures Counted() && msg == now && start == 0 && lastByteIndex == old(lastByteIndex)
    {
      hide IV, HashBlocks, Words, WordAt, Compress, Tail;
      block := blocks[16];
      start := s - 64;
      msg, done := now, done + 1;
      Hash();
    }

    /** A block held is the words of its octets. */
    lemma HeldWords(tail: seq<octet>)
      requires Holds(tail) && |tail| == 64
      ensures blocks[..16] == Words(tail)
    {
      hide WordAt;
    }

    /** An empty block, but for the carried word. */
    method StartBlock()
      requires blocks.Length == 64
      modifies blocks, this`block
      ensures blocks[0] == old(block) && block == ZERO
      ensures forall j :: 1 <= j <= 16 ==> blocks[j] == ZERO
    {
      blocks[0] := block;
      block, blocks[16] := ZERO, ZERO;
      for j := 1 to 16
        modifies blocks
        invariant blocks[0] == old(block) && blocks[16] == ZERO
        invariant forall i :: 1 <= i < j ==> blocks[i] == ZERO
      {
        blocks[j] := ZERO;
      }
    }

    method PackOctets(e: seq<octet>, o: nat) returns (s: nat, o': nat)
      requires o < |e| && start < 64 && start <= |msg| && Holds(Tail())
      modifies blocks
      ensures o < o' <= |e| && s == start + (o' - o) <= 64 && (s < 64 ==> o' == |e|)
      ensures Holds(Tail() + e[o..o'])
    {
      hide WordAt, Put, Or;
      ghost var tail := Tail();
      s, o' := start, o;
      assert tail + e[o..o] == tail;
      while o' < |e| && s < 64
        invariant o <= o' <= |e| && s == start + (o' - o) <= 64
        invariant Holds(tail + e[o..o'])
      {
        assert tail + e[o..o' + 1] == (tail + e[o..o']) + [e[o']];
        PutOctet(s, e[o'], tail + e[o..o']);
        s, o' := s + 1, o' + 1;
      }
    }

    /** One octet more, into the word and the lane it belongs to. */
    method PutOctet(s: nat, b: octet, ghost tail: seq<octet>)
      requires Holds(tail) && |tail| == s < 64
      modifies blocks
      ensures Holds(tail + [b])
    {
      hide WordAt, Put, Or;
      forall j | 0 <= j < 16
        ensures WordAt(tail + [b], j)
             == if j == s / 4 then Or(WordAt(tail, j), Put(b, SHIFT[s % 4])) else WordAt(tail, j)
      {
        OneMoreOctet(tail, b, j);
      }
      blocks[s / 4] := Or(blocks[s / 4], Put(b, SHIFT[s % 4]));
    }

    /** The one bit after the last octet; into the carried word when the block is full. */
    method MarkEnd()
      requires Streaming()
      modifies this`block, blocks
      ensures hashed ==> block == WordAt([0x80], 0)
      ensures !hashed ==> block == ZERO && Holds(Tail() + [0x80])
    {
      hide WordAt, Put, Or, HashBlocks, Words;
      var e := lastByteIndex;
      blocks[16] := block;
      OneMoreOctet([], 0x80, 0);
      NothingHeld();
      assert [] + [0x80 as octet] == [0x80];
      if !hashed {
        assert |Tail()| == e;
        forall j | 0 <= j < 16
          ensures WordAt(Tail() + [0x80], j)
               == if j == e / 4 then Or(WordAt(Tail(), j), Put(0x80, SHIFT[e % 4])) else WordAt(Tail(), j)
        {
          OneMoreOctet(Tail(), 0x80, j);
        }
      }
      blocks[e / 4] := Or(blocks[e / 4], Put(0x80, SHIFT[e % 4]));
      block := blocks[16];
    }

    /** After this the first fourteen words are those before the length in the last block. */
    method MakeRoom() returns (ghost last: seq<octet>)
      requires Streaming()
      modifies this, blocks
      ensures blocks.Length == 64 && |Words(last)| == 14
      ensures blocks[..14] == Words(last)
      ensures Sha256Spec.Hash(msg) == Compress(Chain(), Words(last) + LengthWords(|msg|))
      ensures first ==> Chain() == IV()
      ensures msg == old(msg) && hBytes == old(hBytes) && bytes == old(bytes)
    {
      hide IV, WordAt, HashBlocks, Words, Compress, Sha256Spec.Hash, LengthWords;
      var e := lastByteIndex;
      ghost var tail := Tail();
      FirstBlock(msg);
      MarkEnd();
      NothingHeld();
      if e >= 56 {
        if !hashed {
          PadInTwoBlocks(msg, tail, done);
          HeldAndZeros(blocks[..], tail + [0x80], 63 - |tail|);
          Hash();
          StartBlock();
          last := Repeat<octet>(0, 56);
          assert [] + Repeat<octet>(0, 56) == Repeat<octet>(0, 56);
          HeldAndZeros(blocks[..], [], 56);
        } else {
          last := StartAfterFullBlock();
        }
      } else {
        PadInOneBlock(msg, tail, done);
        last := tail + [0x80] + Repeat<octet>(0, 55 - |tail|);
        HeldAndZeros(blocks[..], tail + [0x80], 55 - |tail|);
      }
    }

    /** The end mark was carried over from a block that was full and compressed. */
    method StartAfterFullBlock() returns (ghost last: seq<octet>)
      requires |msg| == 64 * done && blocks.Length == 64 && block == WordAt([0x80], 0)
      requires Chain() == HashBlocks(Words(msg), done)
      modifies this`block, blocks
      ensures |Words(last)| == 14 && blocks[..14] == Words(last)
      ensures Sha256Spec.Hash(msg) == Compress(Chain(), Words(last) + LengthWords(|msg|))
    {
      hide IV, WordAt, HashBlocks, Words, Compress, Sha256Spec.Hash, LengthWords;
      PadInOneBlock(msg, [], done);
      StartBlock();
      MarkOnly();
      assert [] + [0x80 as octet] == [0x80];
      last := [0x80] + Repeat<octet>(0, 55);
      HeldAndZeros(blocks[..], [0x80], 55);
    }

    /** Pads what was given as the standard says, and compresses the padding. */
    method Finalize()
      requires Valid()
      modifies this, blocks
      ensures Valid() && finalized && msg == old(msg)
    {
      hide IV, HashBlocks, Words, WordAt, Compress, Sha256Spec.Hash, Binary, Or;
      if !finalized {
        ghost var last := MakeRoom();
        finalized := true;
        blocks[14] := Or(Binary(hBytes * 8), Binary(bytes / 0x2000_0000));
        blocks[15] := Binary(bytes * 8 % 0x1_0000_0000);
        LengthInWords(hBytes, bytes);
        assert blocks[..16] == Words(last) + LengthWords(|msg|);
        Hash();
      }
    }

    /** The message digest, by the standard, of everything given to `Update`. */
    method Digest() returns (d: seq<octet>)
      requires Valid()
      modifies this, blocks
      ensures Valid() && finalized && msg == old(msg)
      ensures d == Sha256Spec.Digest(msg)
    {
      hide HashBlocks, Words, Sha256Spec.Hash, WordOctets;
      Finalize();
      d := WordOctets(h0) + WordOctets(h1) + WordOctets(h2) + WordOctets(h3)
      + WordOctets(h4) + WordOctets(h5) + WordOctets(h6) + WordOctets(h7);
    }

    ghost function Chain(): State
      reads this`h0, this`h1, this`h2, this`h3, this`h4, this`h5, this`h6, this`h7
    {
      State(h0, h1, h2, h3, h4, h5, h6, h7)
    }

    /** The message schedule, in place behind the block. */
    method ExpandBlock()
      requires blocks.Length == 64
      modifies blocks
      ensures blocks[..16] == old(blocks[..16])
      ensures forall j :: 0 <= j < 64 ==> blocks[j] == Schedule(old(blocks[..16]), j)
    {
      hide NextWord;
      ghost var m := blocks[..16];
      for t := 16 to 64
        invariant blocks[..16] == m
        invariant forall j :: 0 <= j < t ==> blocks[j] == Schedule(m, j)
      {
        blocks[t] := Expanded(blocks[t - 16], blocks[t - 15], blocks[t - 7], blocks[t - 2]);
      }
    }

    /** Compresses the block in the first sixteen words into the chaining value. */
    method Hash()
      requires blocks.Length == 64 && (first ==> Chain() == IV())
      modifies this`h0, this`h1, this`h2, this`h3, this`h4, this`h5, this`h6, this`h7, this`first, blocks
      ensures Chain() == Compress(old(Chain()), old(blocks[..16]))
      ensures blocks[..16] == old(blocks[..16]) && !first
    {
      hide IV, Round, Rounds, Plus, Schedule, Add, And;
      ghost var m, start := blocks[..16], Chain();
      ExpandBlock();
      var f, c, l, y, p, d, w, b := h0, h1, h2, h3, h4, h5, h6, h7;
      var a := And(c, l);
      RoundsZero(start, m);
      for q := 0 to 16
        modifies this`first
        invariant first ==> q == 0 && start == IV()
        invariant State(f, c, l, y, p, d, w, b) == Rounds(start, m, 4 * q)
        invariant a == And(c, l) && (q > 0 ==> !first)
      {
        f, c, l, y, p, d, w, b, a := FourRounds(4 * q, start, m, f, c, l, y, p, d, w, b, a);
      }
      AddIn(f, c, l, y, p, d, w, b);
    }

    method AddIn(f: Word, c: Word, l: Word, y: Word, p: Word, d: Word, w: Word, b: Word)
      modifies this`h0, this`h1, this`h2, this`h3, this`h4, this`h5, this`h6, this`h7
      ensures Chain() == Add(old(Chain()), State(f, c, l, y, p, d, w, b))
    {
      hide Plus;
      h0, h1, h2, h3 := Plus(h0, f), Plus(h1, c), Plus(h2, l), Plus(h3, y);
      h4, h5, h6, h7 := Plus(h4, p), Plus(h5, d), Plus(h6, w), Plus(h7, b);
    }

    /** Four rounds, after which the eight variables have their places again. */
    method FourRounds(t: nat, ghost start: State, ghost m: seq<Word>,
                      f0: Word, c0: Word, l0: Word, y0: Word, p0: Word, d0: Word, w0: Word, b0: Word, a0: Word)
      returns (f: Word, c: Word, l: Word, y: Word, p: Word, d: Word, w: Word, b: Word, a: Word)
      requires t + 4 <= 64 && |m| == 16 && blocks.Length == 64
      requires forall j :: 0 <= j < 64 ==> blocks[j] == Schedule(m, j)
      requires State(f0, c0, l0, y0, p0, d0, w0, b0) == Rounds(start, m, t) && a0 == And(c0, l0)
      requires first ==> t == 0 && start == IV()
      modifies this`first
      ensures State(f, c, l, y, p, d, w, b) == Rounds(start, m, t + 4) && a == And(c, l) && !first
    {
      hide IV, Round, Rounds, Plus, Schedule;
      f, c, l, y, p, d, w, b, a := f0, c0, l0, y0, p0, d0, w0, b0, a0;
      var s, n, o;
      RoundsStep(start, m, t);
      if first {
        RoundsZero(start, m);
        y, b, s := FirstRound(blocks[0]);
        first := false;
      } else {
        y, b, s := OneRound(f, c, l, y, p, d, w, b, a, K(t), blocks[t]);
      }
      RoundsStep(start, m, t + 1);
      l, w, n := OneRound(y, f, c, l, b, p, d, w, s, K(t + 1), blocks[t + 1]);
      RoundsStep(start, m, t + 2);
      c, d, o := OneRound(l, y, f, c, w, b, p, d, n, K(t + 2), blocks[t + 2]);
      RoundsStep(start, m, t + 3);
      f, p, a := OneRound(c, l, y, f, d, w, b, p, o, K(t + 3), blocks[t + 3]);
    }
  }

  /** Division into calls does not matter. */
  method DigestOf(parts: seq<seq<octet>>) returns (d: seq<octet>)
    ensures d == Sha256Spec.Digest(Flatten(parts))
  {
    hide Sha256Spec.Digest, Hasher.Valid;
    var sha := new Hasher();
    for i := 0 to |parts|
      modifies sha, sha.blocks
      invariant sha.Valid() && !sha.finalized && sha.msg == Flatten(parts[..i])
    {
      sha.Update(parts[i]);
      assert parts[..i + 1] == parts[..i] + [parts[i]];
      FlattenSnoc(parts[..i], parts[i]);
    }
    assert parts[..|parts|] == parts;
    d := sha.Digest();
  }

  function StartValues(): (s: State)
    ensures s == IV()
  {
    State(Word(1779033703), Word(3144134277), Word(1013904242), Word(2773480762),
          Word(1359893119), Word(2600822924), Word(528734635), Word(1541459225))
  }

  const SHIFT: seq<nat> := [24, 16, 8, 0]

  /** Words that hold `t`, and nothing more, hold it with zeros behind as well. */
  lemma HeldAndZeros(b: seq<Word>, t: seq<octet>, n: nat)
    requires |b| >= 16 && |t| + n <= 64 && forall j :: 0 <= j < 16 ==> b[j] == WordAt(t, j)
    ensures b[..(|t| + n) / 4] == Words(t + Repeat<octet>(0, n))
  {
    hide WordAt, Repeat;
    forall j | 0 <= j < (|t| + n) / 4
      ensures b[j] == WordAt(t + Repeat<octet>(0, n), j)
    {
      ZerosChangeNothing(t, n, j);
    }
  }

  lemma FirstBlock(m: seq<octet>)
    ensures HashBlocks(Words(m), 0) == IV()
  {
  }

  lemma NothingHeld()
    ensures forall j: nat :: WordAt([], j) == ZERO
  {
  }

  /** A block that holds the end mark alone. */
  lemma MarkOnly()
    ensures forall j: nat :: 1 <= j ==> WordAt([0x80], j) == ZERO
  {
    hide WordAt, Put, Or;
    NothingHeld();
    forall j: nat | 1 <= j
      ensures WordAt([0x80], j) == ZERO
    {
      OneMoreOctet([], 0x80, j);
      assert [] + [0x80 as octet] == [0x80];
    }
  }

  lemma LengthInWords(h: nat, n: nat)
    requires n < 0x1_0000_0000
    ensures LengthWords(0x1_0000_0000 * h + n)
         == [Or(Binary(h * 8), Binary(n / 0x2000_0000)), Binary(n * 8 % 0x1_0000_0000)]
  {
    hide Binary, Or;
    var bits := 8 * (0x1_0000_0000 * h + n);
    assert bits / 0x1_0000_0000 == 8 * h + n / 0x2000_0000;
    assert bits % 0x1_0000_0000 == n * 8 % 0x1_0000_0000;
    BinaryOfOctal(h, n / 0x2000_0000);
  }

  /** Putting one more octet in its lane. */
  lemma OneMoreOctet(t: seq<octet>, b: octet, j: nat)
    ensures WordAt(t + [b], j)
         == if j == |t| / 4 then Or(WordAt(t, j), Put(b, SHIFT[|t| % 4])) else WordAt(t, j)
  {
    hide Put, Lane, Or, Or4;
    OneMoreLane(t, b, 4 * j, 24);
    OneMoreLane(t, b, 4 * j + 1, 16);
    OneMoreLane(t, b, 4 * j + 2, 8);
    OneMoreLane(t, b, 4 * j + 3, 0);
    OrInto(Lane(t, 4 * j, 24), Lane(t, 4 * j + 1, 16), Lane(t, 4 * j + 2, 8), Put(b, SHIFT[|t| % 4]));
  }

  lemma OneMoreLane(t: seq<octet>, b: octet, i: nat, shift: nat)
    requires shift <= 24
    ensures Lane(t + [b], i, shift) == if i == |t| then Put(b, shift) else Lane(t, i, shift)
    ensures i >= |t| ==> Lane(t, i, shift) == ZERO
  {
    hide Put;
  }

  lemma OrInto(x: Word, y: Word, z: Word, b: Word)
    ensures Or(Or4(ZERO, ZERO, ZERO, ZERO), b) == Or4(b, ZERO, ZERO, ZERO)
    ensures Or(Or4(x, ZERO, ZERO, ZERO), b) == Or4(x, b, ZERO, ZERO)
    ensures Or(Or4(x, y, ZERO, ZERO), b) == Or4(x, y, b, ZERO)
    ensures Or(Or4(x, y, z, ZERO), b) == Or4(x, y, z, b)
  {
    hide Or;
    OrZero(ZERO);
    OrZero(x);
    OrZero(b);
    OrZero(Or(x, y));
    OrZero(Or(x, b));
    OrZero(Or(Or(x, y), z));
    OrZero(Or(Or(x, y), b));
  }

  lemma RoundsZero(s: State, m: seq<Word>)
    requires |m| == 16
    ensures Rounds(s, m, 0) == s
  {
  }

  lemma RoundsStep(s: State, m: seq<Word>, t: nat)
    requires |m| == 16 && t < 64
    ensures Rounds(s, m, t + 1) == Round(Rounds(s, m, t), K(t), Schedule(m, t))
  {
  }

  method Expanded(w16: Word, w15: Word, w7: Word, w2: Word) returns (w: Word)
    ensures w == NextWord(w2, w7, w15, w16)
  {
    hide Plus, SmallSigma0Bits, SmallSigma1Bits;
    var e := SmallRotations0(w15.bits);
    var r := SmallRotations1(w2.bits);
    w := Plus(Plus(Plus(w16, Word(e)), w7), Word(r));
  }

  method SmallRotations0(x: bv32) returns (r: bv32)
    ensures r == SmallSigma0Bits(x)
  {
    r := ((x >> 7) | (x << 25)) ^ ((x >> 18) | (x << 14)) ^ (x >> 3);
  }

  method SmallRotations1(x: bv32) returns (r: bv32)
    ensures r == SmallSigma1Bits(x)
  {
    r := ((x >> 17) | (x << 15)) ^ ((x >> 19) | (x << 13)) ^ (x >> 10);
  }

  method BigRotations0(x: bv32) returns (r: bv32)
    ensures r == BigSigma0Bits(x)
  {
    r := ((x >> 2) | (x << 30)) ^ ((x >> 13) | (x << 19)) ^ ((x >> 22) | (x << 10));
  }

  method BigRotations1(x: bv32) returns (r: bv32)
    ensures r == BigSigma1Bits(x)
  {
    r := ((x >> 6) | (x << 26)) ^ ((x >> 11) | (x << 21)) ^ ((x >> 25) | (x << 7));
  }

  function And(x: Word, y: Word): Word { Word(x.bits & y.bits) }

  function Minus(x: Word, y: bv32): Word { Word(x.bits - y) }

  /** The majority of three words, from `y & z` kept from the round before. */
  method Majority(x: Word, y: Word, z: Word, yz: Word) returns (r: Word, xy: Word)
    requires yz == And(y, z)
    ensures r == Maj(x, y, z) && xy == And(x, y)
  {
    xy := And(x, y);
    r := Word(xy.bits ^ (x.bits & z.bits) ^ yz.bits);
  }

  /** One round. The new `a` and `e` take the places of `d` and `h`. */
  method OneRound(a: Word, b: Word, c: Word, d: Word, e: Word, f: Word, g: Word, h: Word, bc: Word, k: Word, w: Word)
    returns (a': Word, e': Word, ab: Word)
    requires bc == And(b, c)
    ensures State(a', a, b, c, e', e, f, g) == Round(State(a, b, c, d, e, f, g, h), k, w)
    ensures ab == And(a, b)
  {
    hide Plus, Maj, BigSigma0Bits, BigSigma1Bits, And, Ch;
    var s0 := BigRotations0(a.bits);
    var i;
    i, ab := Majority(a, b, c, bc);
    var s1 := BigRotations1(e.bits);
    var t1 := Plus(Plus(Plus(Plus(h, Word(s1)), Ch(e, f, g)), k), w);
    e' := Plus(d, t1);
    a' := Plus(t1, Plus(Word(s0), i));
  }

  /** The first round of the first block, with everything but the word worked out. */
  method FirstRound(w: Word) returns (a': Word, e': Word, ab: Word)
    ensures State(a', IV().a, IV().b, IV().c, e', IV().e, IV().f, IV().g) == Round(IV(), K(0), w)
    ensures ab == And(IV().a, IV().b)
  {
    hide Plus, Minus, BigSigma0, BigSigma1, Ch, Maj;
    ab := Word(704751109);
    var h := Minus(w, 210244248);
    e' := Minus(h, 1521486534);
    a' := Plus(h, Word(143694565));
    FirstT1(w);
    FirstT2();
    FirstSums(w);
  }

  lemma FirstT1(w: Word)
    ensures Plus(Plus(Plus(Plus(IV().h, BigSigma1(IV().e)), Ch(IV().e, IV().f, IV().g)), K(0)), w)
         == Plus(Word(0xf377ed68), w)
  {
    assert BigSigma1(IV().e) == Word(0x3587272b);
    assert Ch(IV().e, IV().f, IV().g) == Word(0x1f85c98c);
    assert K(0) == Word(0x428a2f98);
  }

  lemma FirstT2()
    ensures Plus(BigSigma0(IV().a), Maj(IV().a, IV().b, IV().c)) == Word(0x08909ae5)
  {
    assert BigSigma0(IV().a) == Word(0xce20b47e);
    assert Maj(IV().a, IV().b, IV().c) == Word(0x3a6fe667);
  }

  lemma FirstSums(w: Word)
    ensures Plus(Plus(Word(0xf377ed68), w), Word(0x08909ae5)) == Plus(Minus(w, 210244248), Word(143694565))
    ensures Plus(IV().d, Plus(Word(0xf377ed68), w)) == Minus(Minus(w, 210244248), 1521486534)
  {
  }
}
