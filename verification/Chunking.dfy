/** When the way a byte stream is cut into buffers does not matter. */
module Chunking {
  import opened Bytes
  import opened WireMachine

  /** Every CR read inside an argument that still lies in one buffer is directly
      followed by the NL that ends the argument, or by nothing at all. */
  ghost predicate Clean(m: Machine, s: seq<byte>)
    requires Valid(m)
    decreases |s|
  {
    s == [] || (
      && !StrayCR(m, s)
      && (var st := Step(m, s[0]); st.Next? ==> Clean(st.m, s[1..])))
  }

  ghost predicate StrayCR(m: Machine, s: seq<byte>) {
    m.Arg? && m.text.Indexed? && |s| > 1 && s[0] == CR && s[1] != NL
  }

  /** An argument read without a stray CR so far: the only CR that counts is its
      last byte, and what follows it is NL or nothing. */
  ghost predicate CleanSoFar(m: Machine, s: seq<byte>) {
    m.Arg? && m.text.Indexed? ==>
      var Indexed(raw, drop) := m.text;
      && (drop ==> |raw| > 1 && raw[|raw| - 1] == CR && (s == [] || s[0] == NL))
      && NoCR(if drop then raw[..|raw| - 1] else raw)
  }

  /** No CR after the first byte (the first byte is taken unseen). */
  ghost predicate NoCR(text: seq<byte>) {
    forall k :: 1 <= k < |text| ==> text[k] != CR
  }

  lemma CleanStep(m: Machine, s: seq<byte>)
    requires Valid(m) && s != [] && CleanSoFar(m, s) && !StrayCR(m, s) && Step(m, s[0]).Next?
    ensures CleanSoFar(Step(m, s[0]).m, s[1..])
  {
  }

  // -------------------------------------------------- a cut does no harm

  /** In a clean stream the machine goes the same way from a state and from the
      state a cut makes of it. */
  lemma {:induction false} CutIsHarmless(m: Machine, s: seq<byte>, at: nat, log: seq<Output>)
    requires Valid(m) && CleanSoFar(m, s) && Clean(m, s)
    ensures var r := Run(m, s, at, log); var c := Run(Cut(m), s, at, log);
            if r.Dead? then c == r else c.Live? && c == r.(m := c.m) && Cut(c.m) == Cut(r.m)
    decreases |s|
  {
    if s != [] && m != Cut(m) {
      var st, ct := Step(m, s[0]), Step(Cut(m), s[0]);
      if s[0] == NL {
        assert ct == st;
      } else {
        CleanStep(m, s);
        assert ct.m == Cut(st.m);
        CutIsHarmless(st.m, s[1..], at + 1, log + st.out);
      }
    }
  }

  lemma {:induction false} CleanConcat(m: Machine, a: seq<byte>, b: seq<byte>, at: nat, log: seq<Output>)
    requires Valid(m) && CleanSoFar(m, a + b) && Clean(m, a + b)
    ensures CleanSoFar(m, a) && Clean(m, a)
    ensures var r := Run(m, a, at, log); r.Live? ==> CleanSoFar(r.m, b) && Clean(r.m, b)
    decreases |a|
  {
    if a == [] {
      assert a + b == b;
    } else {
      assert (a + b)[1..] == a[1..] + b && (a + b)[0] == a[0];
      var st := Step(m, a[0]);
      if st.Next? {
        CleanStep(m, a + b);
        CleanConcat(st.m, a[1..], b, at + 1, log + st.out);
      }
      assert |a| > 1 ==> (a + b)[1] == a[1];
    }
  }

  lemma {:induction false} FeedAllDead(o: Outcome, chunks: seq<seq<byte>>)
    requires o.Dead?
    ensures FeedAll(o, chunks) == o
    decreases |chunks|
  {
    if chunks != [] {
      FeedAllDead(o, chunks[1..]);
    }
  }

  lemma {:induction false} CleanFromState(m: Machine, chunks: seq<seq<byte>>, at: nat, log: seq<Output>)
    requires Valid(m) && CleanSoFar(m, Flatten(chunks)) && Clean(m, Flatten(chunks))
    ensures FeedAll(Live(Cut(m), at, log), chunks) == Feed(Live(m, at, log), Flatten(chunks))
    decreases |chunks|
  {
    if chunks != [] {
      var c, rest := chunks[0], Flatten(chunks[1..]);
      CleanConcat(m, c, rest, at, log);
      CutIsHarmless(m, c, at, log);
      RunConcat(m, c, rest, at, log);
      var r := Run(m, c, at, log);
      if r.Live? {
        CleanFromState(r.m, chunks[1..], r.at, r.log);
      } else {
        FeedAllDead(r, chunks[1..]);
      }
    }
  }

  // -------------------------------------------------- a stray CR does harm

  lemma {:induction false} LogGrows(m: Machine, s: seq<byte>, at: nat, log: seq<Output>)
    requires Valid(m)
    ensures log <= Run(m, s, at, log).log
    decreases |s|
  {
    if s != [] {
      var st := Step(m, s[0]);
      if st.Next? {
        LogGrows(st.m, s[1..], at + 1, log + st.out);
      }
    }
  }

  /** Two readings of one argument: whole, with a CR before its last byte, and
      spilled, without one. */
  ghost predicate Apart(m: Machine, c: Machine) {
    && m.Arg? && c.Arg? && m.kind == c.kind && m.headers == c.headers
    && m.text.Indexed? && m.text.drop && c.text.Spilled?
    && (exists p :: 1 <= p < |m.text.raw| - 1 && m.text.raw[p] == CR)
    && NoCR(c.text.buf)
  }

  /** The NL that ends the two readings makes their outputs differ; any other byte
      keeps them apart. */
  lemma ApartStep(m: Machine, c: Machine, b: byte)
    requires Valid(m) && Valid(c) && Apart(m, c)
    ensures TextOf(m.text) != TextOf(c.text)
    ensures var st, ct := Step(m, b), Step(c, b);
            if b == NL then |st.out| > 0 && |ct.out| > 0 && st.out[0] != ct.out[0]
            else st.Next? && ct.Next? && st.out == [] == ct.out && Apart(st.m, ct.m)
  {
    var p :| 1 <= p < |m.text.raw| - 1 && m.text.raw[p] == CR;
    assert TextOf(m.text)[p] == CR;
    if b == NL {
      FinishOutput(m.kind, m.headers, TextOf(m.text));
      FinishOutput(c.kind, c.headers, TextOf(c.text));
    } else {
      assert Step(m, b).m.text.raw[p] == CR;
    }
  }

  lemma FinishOutput(kind: State, headers: bool, arg: seq<byte>)
    requires IsArg(kind)
    ensures var st := FinishArg(kind, headers, arg);
            |st.out| > 0 && st.out[0] == match kind case MSG_ARG => ArgText(arg)
                                                    case INFO_ARG => Event(Info(arg))
                                                    case _ => Event(Err(arg))
  {
  }

  /** What a step puts out first stays in the log at its place. */
  lemma OutputStays(m: Machine, s: seq<byte>, at: nat, log: seq<Output>)
    requires Valid(m) && s != [] && |Step(m, s[0]).out| > 0
    ensures var r := Run(m, s, at, log); |r.log| > |log| && r.log[|log|] == Step(m, s[0]).out[0]
  {
    var st := Step(m, s[0]);
    assert (log + st.out)[|log|] == st.out[0];
    if st.Next? {
      LogGrows(st.m, s[1..], at + 1, log + st.out);
    }
  }

  lemma {:induction false} ApartStaysApart(m: Machine, c: Machine, s: seq<byte>, at: nat, log: seq<Output>)
    requires Valid(m) && Valid(c) && Apart(m, c)
    ensures Feed(Live(m, at, log), s) != Feed(Live(c, at, log), s)
    decreases |s|
  {
    if s == [] {
      ApartStep(m, c, NL);
    } else {
      ApartStep(m, c, s[0]);
      if s[0] == NL {
        OutputStays(m, s, at, log);
        OutputStays(c, s, at, log);
      } else {
        SilentStep(m, s, at, log);
        SilentStep(c, s, at, log);
        ApartStaysApart(Step(m, s[0]).m, Step(c, s[0]).m, s[1..], at + 1, log);
      }
    }
  }

  lemma SilentStep(m: Machine, s: seq<byte>, at: nat, log: seq<Output>)
    requires Valid(m) && s != [] && Step(m, s[0]).Next? && Step(m, s[0]).out == []
    ensures Run(m, s, at, log) == Run(Step(m, s[0]).m, s[1..], at + 1, log)
    ensures Feed(Live(m, at, log), s) == Feed(Live(Step(m, s[0]).m, at + 1, log), s[1..])
  {
    hide KeywordMove;
    assert log + [] == log;
  }

  /** A byte other than NL is collected in silence. */
  lemma CollectStep(m: Machine, s: seq<byte>, at: nat, log: seq<Output>)
    requires Valid(m) && m.Arg? && s != [] && s[0] != NL
    ensures var m' := m.(text := Collect(m.text, s[0]));
            Valid(m') && Feed(Live(m, at, log), s) == Feed(Live(m', at + 1, log), s[1..])
  {
    SilentStep(m, s, at, log);
  }

  /** A stray CR and the byte after it set the two readings apart. */
  lemma StrayCRSetsApart(m: Machine, s: seq<byte>, at: nat, log: seq<Output>)
    requires Valid(m) && CleanSoFar(m, s) && StrayCR(m, s)
    ensures Feed(Live(m, at, log), s) != Feed(Live(Cut(m), at, log), s)
  {
    var raw, c := m.text.raw, Cut(m);
    var m1, c1 := m.(text := Collect(m.text, s[0])), c.(text := Collect(c.text, s[0]));
    CollectStep(m, s, at, log);
    CollectStep(c, s, at, log);
    var m2, c2 := m1.(text := Collect(m1.text, s[1])), c1.(text := Collect(c1.text, s[1]));
    CollectStep(m1, s[1..], at + 1, log);
    CollectStep(c1, s[1..], at + 1, log);
    assert m2.text.raw[|raw|] == CR;
    ApartStaysApart(m2, c2, s[1..][1..], at + 2, log);
  }

  /** Cutting the stream right before its first stray CR changes the outcome. */
  lemma {:induction false} CutBeforeStrayCR(m: Machine, s: seq<byte>, at: nat, log: seq<Output>) returns (k: nat)
    requires Valid(m) && CleanSoFar(m, s) && !Clean(m, s)
    ensures k <= |s|
    ensures Feed(Feed(Live(m, at, log), s[..k]), s[k..]) != Feed(Live(m, at, log), s)
    decreases |s|
  {
    if StrayCR(m, s) {
      k := 0;
      assert s[..0] == [] && s[0..] == s;
      assert Feed(Live(m, at, log), []) == Live(Cut(m), at, log);
      StrayCRSetsApart(m, s, at, log);
    } else {
      var st := Step(m, s[0]);
      CleanStep(m, s);
      var j := CutBeforeStrayCR(st.m, s[1..], at + 1, log + st.out);
      k := j + 1;
      FeedStep(m, s, at, log);
      FeedStep(m, s[..k], at, log);
      assert s[..k][1..] == s[1..][..j] && s[k..] == s[1..][j..];
    }
  }

  lemma FeedStep(m: Machine, s: seq<byte>, at: nat, log: seq<Output>)
    requires Valid(m) && s != [] && Step(m, s[0]).Next?
    ensures Feed(Live(m, at, log), s)
         == Feed(Live(Step(m, s[0]).m, at + 1, log + Step(m, s[0]).out), s[1..])
  {
    hide KeywordMove;
  }

  lemma FeedTwo(o: Outcome, s: seq<byte>, k: nat)
    requires k <= |s| && (o.Live? ==> Valid(o.m))
    ensures FeedAll(o, [s[..k], s[k..]]) == Feed(Feed(o, s[..k]), s[k..])
  {
    var f := [s[..k], s[k..]];
    assert f[1..] == [s[k..]] && [s[k..]][1..] == [];
    assert FeedAll(Feed(o, s[..k]), [s[k..]]) == FeedAll(Feed(Feed(o, s[..k]), s[k..]), []);
  }

  // ---------------------------------------------------------- main theorem

  ghost predicate AnyCutting(s: seq<byte>) {
    forall chunks: seq<seq<byte>> | Flatten(chunks) == s :: FeedAll(NEW, chunks) == Feed(NEW, s)
  }

  /** The outcome (texts and events handed on, final state, place and kind of
      failure) is the same for every cutting exactly when no argument holds, behind
      its first byte, a CR anywhere but directly before its NL. */
  lemma ChunkingDoesNotMatterIffClean(s: seq<byte>)
    ensures AnyCutting(s) <==> Clean(START, s)
  {
    if Clean(START, s) {
      forall chunks: seq<seq<byte>> | Flatten(chunks) == s
        ensures FeedAll(NEW, chunks) == Feed(NEW, s)
      {
        CleanFromState(START, chunks, 0, []);
      }
    } else {
      var k := CutBeforeStrayCR(START, s, 0, []);
      var chunks := [s[..k], s[k..]];
      assert chunks[1..] == [s[k..]];
      FeedTwo(NEW, s, k);
      assert Flatten([s[k..]]) == s[k..];
      assert Flatten(chunks) == s;
      assert !AnyCutting(s);
    }
  }
}
