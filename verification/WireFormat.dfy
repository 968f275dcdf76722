/** The text of protocol operations, and the proof that the parser inverts it
    however it is spelled and however it is cut into buffers. */
module WireFormat {
  import opened Bytes
  import opened WireMachine
  import opened Chunking
  import opened Wire

  datatype Op =
    | PingOp
    | PongOp
    | OkOp
    | ErrOp(text: seq<byte>)
    | InfoOp(text: seq<byte>)
    | MsgOp(subject: seq<byte>, sid: nat, reply: Option<seq<byte>>, body: seq<byte>)
    | HMsgOp(subject: seq<byte>, sid: nat, reply: Option<seq<byte>>, hdr: nat, body: seq<byte>)

  /** The freedom the protocol leaves: letters of either case, and runs of blanks
      before the arguments and between them. */
  datatype Spelling = Spelling(word: seq<byte>, gap: seq<byte>, seps: seq<seq<byte>>)

  const CRLF: seq<byte> := [CR, NL]

  function WordOf(op: Op): seq<char> {
    match op
    case PingOp => "PING"
    case PongOp => "PONG"
    case OkOp => "+OK"
    case ErrOp(_) => "-ERR"
    case InfoOp(_) => "INFO"
    case MsgOp(_, _, _, _) => "MSG"
    case HMsgOp(_, _, _, _, _) => "HMSG"
  }

  function Tokens(op: Op): seq<seq<byte>>
    requires op.MsgOp? || op.HMsgOp?
  {
    [op.subject, Digits(op.sid)] + (if op.reply.Some? then [op.reply.value] else [])
    + (if op.HMsgOp? then [Digits(op.hdr)] else []) + [Digits(|op.body|)]
  }

  function Digits(n: nat): (d: seq<byte>)
    ensures |d| > 0 && forall k :: 0 <= k < |d| ==> Digit(d[k])
  {
    var last: byte := n % 10 + '0' as int;
    if n < 10 then [last] else Digits(n / 10) + [last]
  }

  function Join(tokens: seq<seq<byte>>, seps: seq<seq<byte>>): seq<byte>
    requires |tokens| == |seps| + 1
  {
    if seps == [] then tokens[0] else tokens[0] + seps[0] + Join(tokens[1..], seps[1..])
  }

  ghost predicate Blanks(s: seq<byte>) {
    s != [] && forall k :: 0 <= k < |s| ==> Blank(s[k])
  }

  ghost predicate Token(t: seq<byte>) {
    t != [] && forall k :: 0 <= k < |t| ==> !Separator(t[k])
  }

  ghost predicate Line(t: seq<byte>) {
    t != [] && !Blank(t[0]) && forall k :: 0 <= k < |t| ==> t[k] != CR && t[k] != NL
  }

  predicate SameWord(w: seq<byte>, word: seq<char>) {
    |w| == |word| && forall k :: 0 <= k < |w| ==>
      if 'A' <= word[k] <= 'Z' then Letter(w[k], word[k]) else w[k] == word[k] as int
  }

  /** What the server may send: nonempty subjects without blanks, texts of one line,
      and a header that lies within the body. */
  ghost predicate Sendable(op: Op) {
    match op
    case ErrOp(text) => Line(text)
    case InfoOp(text) => Line(text)
    case MsgOp(subject, _, reply, _) => Token(subject) && (reply.Some? ==> Token(reply.value))
    case HMsgOp(subject, _, reply, hdr, body) =>
      Token(subject) && (reply.Some? ==> Token(reply.value)) && hdr <= |body|
    case _ => true
  }

  ghost predicate Spells(sp: Spelling, op: Op) {
    && SameWord(sp.word, WordOf(op))
    && Blanks(sp.gap)
    && (op.MsgOp? || op.HMsgOp? ==>
          |sp.seps| == |Tokens(op)| - 1 && forall k :: 0 <= k < |sp.seps| ==> Blanks(sp.seps[k]))
  }

  /** The operation as bytes. */
  function Print(op: Op, sp: Spelling): seq<byte>
    requires op.MsgOp? || op.HMsgOp? ==> |sp.seps| == |Tokens(op)| - 1
  {
    match op
    case ErrOp(text) => sp.word + sp.gap + text + CRLF
    case InfoOp(text) => sp.word + sp.gap + text + CRLF
    case MsgOp(_, _, _, body) => sp.word + sp.gap + Join(Tokens(op), sp.seps) + CRLF + body + CRLF
    case HMsgOp(_, _, _, _, body) => sp.word + sp.gap + Join(Tokens(op), sp.seps) + CRLF + body + CRLF
    case _ => sp.word + CRLF
  }

  function EventOf(op: Op): ParserEvent {
    match op
    case PingOp => Ping
    case PongOp => Pong
    case OkOp => Ok
    case ErrOp(text) => Err(text)
    case InfoOp(text) => Info(text)
    case MsgOp(subject, sid, reply, body) => Msg(MsgArg(subject, reply, sid, -1, |body|), body)
    case HMsgOp(subject, sid, reply, hdr, body) => Msg(MsgArg(subject, reply, sid, hdr, |body|), body)
  }

  // ------------------------------------------------------- numbers and fields

  lemma {:induction false} DigitsRoundTrip(n: nat)
    ensures DecimalValue(Digits(n)) == n
  {
    var d := Digits(n);
    if n < 10 {
      assert d[..|d| - 1] == [] && DigitsValue([]) == 0;
    } else {
      DigitsRoundTrip(n / 10);
      assert d[..|d| - 1] == Digits(n / 10);
    }
  }

  lemma {:induction false} FieldsOfToken(t: seq<byte>, rest: seq<byte>, current: seq<byte>)
    requires forall k :: 0 <= k < |t| ==> !Separator(t[k])
    ensures Fields(t + rest, current) == Fields(rest, current + t)
  {
    if t == [] {
      assert t + rest == rest && current + t == current;
    } else {
      assert (t + rest)[1..] == t[1..] + rest;
      FieldsOfToken(t[1..], rest, current + [t[0]]);
      assert current + [t[0]] + t[1..] == current + t;
    }
  }

  lemma {:induction false} FieldsOfBlanks(s: seq<byte>, rest: seq<byte>, current: seq<byte>)
    requires Blanks(s)
    ensures Fields(s + rest, current) == (if current == [] then [] else [current]) + Fields(rest, [])
    decreases |s|
  {
    assert (s + rest)[1..] == s[1..] + rest;
    assert Separator(s[0]);
    if |s| > 1 {
      FieldsOfBlanks(s[1..], rest, []);
    } else {
      assert s[1..] + rest == rest;
    }
  }

  lemma {:induction false} FieldsOfJoin(tokens: seq<seq<byte>>, seps: seq<seq<byte>>)
    requires |tokens| == |seps| + 1
    requires forall k :: 0 <= k < |tokens| ==> Token(tokens[k])
    requires forall k :: 0 <= k < |seps| ==> Blanks(seps[k])
    ensures Fields(Join(tokens, seps), []) == tokens
    decreases |seps|
  {
    var t := tokens[0];
    if seps == [] {
      FieldsOfToken(t, [], []);
      assert t + [] == t && [] + t == t;
      assert tokens == [t];
    } else {
      var rest := Join(tokens[1..], seps[1..]);
      FieldsOfToken(t, seps[0] + rest, []);
      assert t + (seps[0] + rest) == t + seps[0] + rest && [] + t == t;
      FieldsOfBlanks(seps[0], rest, t);
      FieldsOfJoin(tokens[1..], seps[1..]);
    }
  }

  lemma DigitsAreToken(n: nat)
    ensures Token(Digits(n))
  {
    forall k | 0 <= k < |Digits(n)| ensures !Separator(Digits(n)[k]) {
      assert Digit(Digits(n)[k]);
    }
  }

  lemma ArgsOfTokens(op: Op, sp: Spelling)
    requires (op.MsgOp? || op.HMsgOp?) && Sendable(op) && Spells(sp, op)
    ensures ReadArgs(op.HMsgOp?, Join(Tokens(op), sp.seps)) == Good(EventOf(op).msg)
  {
    DigitsAreToken(op.sid);
    DigitsAreToken(|op.body|);
    DigitsRoundTrip(op.sid);
    DigitsRoundTrip(|op.body|);
    if op.HMsgOp? {
      DigitsAreToken(op.hdr);
      DigitsRoundTrip(op.hdr);
    }
    FieldsOfJoin(Tokens(op), sp.seps);
  }

  /** A joined list of tokens is a line that starts with no blank. */
  lemma {:induction false} JoinIsLine(tokens: seq<seq<byte>>, seps: seq<seq<byte>>)
    requires |tokens| == |seps| + 1
    requires forall k :: 0 <= k < |tokens| ==> Token(tokens[k])
    requires forall k :: 0 <= k < |seps| ==> Blanks(seps[k])
    ensures Line(Join(tokens, seps))
    decreases |seps|
  {
    if seps != [] {
      JoinIsLine(tokens[1..], seps[1..]);
    }
  }

  // ------------------------------------------------------- reading an operation

  /** Where bytes that put nothing out take the machine. */
  function Silent(m: Machine, w: seq<byte>): (r: Option<Machine>)
    requires Valid(m)
    ensures r.Some? ==> Valid(r.value)
    decreases |w|
  {
    if w == [] then Some(m)
    else
      var st := Step(m, w[0]);
      if st.Next? && st.out == [] then Silent(st.m, w[1..]) else None
  }

  lemma {:induction false} SilentConcat(m: Machine, a: seq<byte>, b: seq<byte>)
    requires Valid(m) && Silent(m, a).Some?
    ensures Silent(m, a + b) == Silent(Silent(m, a).value, b)
    decreases |a|
  {
    hide KeywordMove;
    if a == [] {
      assert a + b == b;
    } else {
      assert (a + b)[1..] == a[1..] + b;
      SilentConcat(Step(m, a[0]).m, a[1..], b);
    }
  }

  /** `s` takes the machine from `m` to `m'`, puts out `out`, and holds no stray CR,
      whatever comes after it. */
  ghost predicate Reads(m: Machine, s: seq<byte>, m': Machine, out: seq<Output>)
    requires Valid(m) && Valid(m')
  {
    forall rest: seq<byte>, at: nat, log: seq<Output> :: ReadsBefore(m, s, m', out, rest, at, log)
  }

  ghost predicate ReadsBefore(m: Machine, s: seq<byte>, m': Machine, out: seq<Output>,
                              rest: seq<byte>, at: nat, log: seq<Output>)
    requires Valid(m) && Valid(m')
  {
    && Run(m, s + rest, at, log) == Run(m', rest, at + |s|, log + out)
    && (Clean(m', rest) ==> Clean(m, s + rest))
  }

  lemma ReadsThen(m: Machine, a: seq<byte>, m1: Machine, o1: seq<Output>, b: seq<byte>, m2: Machine, o2: seq<Output>)
    requires Valid(m) && Valid(m1) && Valid(m2)
    requires Reads(m, a, m1, o1) && Reads(m1, b, m2, o2)
    ensures Reads(m, a + b, m2, o1 + o2)
  {
    hide Run, Clean, Step;
    forall rest: seq<byte>, at: nat, log: seq<Output>
      ensures ReadsBefore(m, a + b, m2, o1 + o2, rest, at, log)
    {
      assert ReadsBefore(m, a, m1, o1, b + rest, at, log);
      assert ReadsBefore(m1, b, m2, o2, rest, at + |a|, log + o1);
      assert a + b + rest == a + (b + rest);
      assert log + o1 + o2 == log + (o1 + o2);
    }
  }

  lemma ReadsNothing(m: Machine)
    requires Valid(m)
    ensures Reads(m, [], m, [])
  {
    hide Run, Clean, Step;
    forall rest: seq<byte>, at: nat, log: seq<Output>
      ensures ReadsBefore(m, [], m, [], rest, at, log)
    {
      assert [] + rest == rest && log + [] == log;
    }
  }

  lemma ReadsByte(m: Machine, b: byte)
    requires Valid(m) && Step(m, b).Next?
    requires b != CR || !m.Arg?
    ensures Reads(m, [b], Step(m, b).m, Step(m, b).out)
  {
    hide KeywordMove;
    forall rest: seq<byte>, at: nat, log: seq<Output>
      ensures ReadsBefore(m, [b], Step(m, b).m, Step(m, b).out, rest, at, log)
    {
      assert ([b] + rest)[1..] == rest;
    }
  }

  lemma {:induction false} ReadsSilently(m: Machine, w: seq<byte>)
    requires Valid(m) && Silent(m, w).Some?
    requires forall k :: 0 <= k < |w| ==> w[k] != CR
    ensures Reads(m, w, Silent(m, w).value, [])
    decreases |w|
  {
    hide Reads, KeywordMove;
    if w == [] {
      ReadsNothing(m);
    } else {
      var m1 := Step(m, w[0]).m;
      ReadsByte(m, w[0]);
      ReadsSilently(m1, w[1..]);
      ReadsThen(m, [w[0]], m1, [], w[1..], Silent(m, w).value, []);
      assert [w[0]] + w[1..] == w;
      var none: seq<Output> := [];
      assert none + none == none;
    }
  }

  // ---- operations without arguments

  /** The states at the end of each word. */
  function WordState(op: Op): State {
    match op
    case PingOp => OP_PING
    case PongOp => OP_PONG
    case OkOp => OP_PLUS_OK
    case ErrOp(_) => OP_MINUS_ERR
    case InfoOp(_) => OP_INFO
    case MsgOp(_, _, _, _) => OP_MSG
    case HMsgOp(_, _, _, _, _) => OP_MSG
  }

  /** The states a word passes through. */
  function Path(op: Op): (p: seq<State>)
    ensures |p| == |WordOf(op)|
    ensures p[|p| - 1] == WordState(op)
  {
    match op
    case PingOp => [OP_P, OP_PI, OP_PIN, OP_PING]
    case PongOp => [OP_P, OP_PO, OP_PON, OP_PONG]
    case OkOp => [OP_PLUS, OP_PLUS_O, OP_PLUS_OK]
    case ErrOp(_) => [OP_MINUS, OP_MINUS_E, OP_MINUS_ER, OP_MINUS_ERR]
    case InfoOp(_) => [OP_I, OP_IN, OP_INF, OP_INFO]
    case MsgOp(_, _, _, _) => [OP_M, OP_MS, OP_MSG]
    case HMsgOp(_, _, _, _, _) => [OP_H, OP_M, OP_MS, OP_MSG]
  }

  lemma PathMoves(op: Op, w: seq<byte>, k: nat)
    requires SameWord(w, WordOf(op)) && k < |w| == |WordOf(op)|
    ensures Moves(op, w, k)
    ensures w[k] != CR && !Path(op)[k].OP_START? && (k > 0 ==> !Path(op)[k].OP_H?)
  {
    hide KeywordMove;
    match op
    case PingOp => PingMoves(op, w, k);
    case PongOp => PingMoves(op, w, k);
    case OkOp => TextMoves(op, w, k);
    case ErrOp(_) => TextMoves(op, w, k);
    case InfoOp(_) => TextMoves(op, w, k);
    case _ => MsgMoves(op, w, k);
  }

  ghost predicate Moves(op: Op, w: seq<byte>, k: nat)
    requires k < |w| == |WordOf(op)|
  {
    KeywordMove(if k == 0 then OP_START else Path(op)[k - 1], w[k]) == To(Path(op)[k])
  }

  lemma PingMoves(op: Op, w: seq<byte>, k: nat)
    requires SameWord(w, WordOf(op)) && k < |w| == |WordOf(op)| && (op.PingOp? || op.PongOp?)
    ensures Moves(op, w, k)
  {
    assert Letter(w[k], WordOf(op)[k]);
  }

  lemma TextMoves(op: Op, w: seq<byte>, k: nat)
    requires SameWord(w, WordOf(op)) && k < |w| == |WordOf(op)| && (op.OkOp? || op.ErrOp? || op.InfoOp?)
    ensures Moves(op, w, k)
  {
    var c := WordOf(op)[k];
    assert if 'A' <= c <= 'Z' then Letter(w[k], c) else w[k] == c as int;
  }

  lemma MsgMoves(op: Op, w: seq<byte>, k: nat)
    requires SameWord(w, WordOf(op)) && k < |w| == |WordOf(op)| && (op.MsgOp? || op.HMsgOp?)
    ensures Moves(op, w, k)
  {
    assert Letter(w[k], WordOf(op)[k]);
  }

  lemma {:induction false} SilentWord(op: Op, w: seq<byte>, k: nat)
    requires SameWord(w, WordOf(op)) && 1 <= k <= |w|
    ensures var s := Path(op)[k - 1];
            Silent(Keyword(s, InMessage(s) && op.HMsgOp?), w[k..]) == Some(Keyword(WordState(op), op.HMsgOp?))
    decreases |w| - k
  {
    if k < |w| {
      PathMoves(op, w, k - 1);
      PathMoves(op, w, k);
      assert w[k..][0] == w[k] && w[k..][1..] == w[k + 1..];
      SilentWord(op, w, k + 1);
    } else {
      assert w[k..] == [];
    }
  }

  lemma ReadsWord(op: Op, w: seq<byte>)
    requires SameWord(w, WordOf(op))
    ensures Reads(START, w, Keyword(WordState(op), op.HMsgOp?), [])
  {
    forall k | 0 <= k < |w| ensures w[k] != CR {
      PathMoves(op, w, k);
    }
    PathMoves(op, w, 0);
    SilentWord(op, w, 1);
    assert Path(op)[0].OP_H? <==> op.HMsgOp?;
    assert Silent(START, w) == Silent(Keyword(Path(op)[0], op.HMsgOp?), w[1..]);
    ReadsSilently(START, w);
  }

  /** The line end of an operation without arguments. */
  lemma ReadsPlain(op: Op)
    requires op.PingOp? || op.PongOp? || op.OkOp?
    ensures Reads(Keyword(WordState(op), false), CRLF, START, [Event(EventOf(op))])
  {
    var m := Keyword(WordState(op), false);
    ReadsByte(m, CR);
    ReadsByte(m, NL);
    ReadsThen(m, [CR], m, [], [NL], START, [Event(EventOf(op))]);
    assert [CR] + [NL] == CRLF;
    var e := [Event(EventOf(op))];
    assert [] + e == e;
  }

  // ---- operations with arguments

  function SpaceState(op: Op): State
    requires !(op.PingOp? || op.PongOp? || op.OkOp?)
  {
    match op
    case ErrOp(_) => OP_MINUS_ERR_SPC
    case InfoOp(_) => OP_INFO_SPC
    case _ => OP_MSG_SPC
  }

  function ArgState(op: Op): (s: State)
    requires !(op.PingOp? || op.PongOp? || op.OkOp?)
    ensures IsArg(s)
  {
    match op
    case ErrOp(_) => MINUS_ERR_ARG
    case InfoOp(_) => INFO_ARG
    case _ => MSG_ARG
  }

  lemma GapMove(op: Op, b: byte, first: bool)
    requires !(op.PingOp? || op.PongOp? || op.OkOp?) && Blank(b)
    ensures KeywordMove(if first then WordState(op) else SpaceState(op), b) == To(SpaceState(op))
  {
  }

  lemma {:induction false} SilentGap(op: Op, gap: seq<byte>, first: bool)
    requires !(op.PingOp? || op.PongOp? || op.OkOp?)
    requires forall k :: 0 <= k < |gap| ==> Blank(gap[k])
    requires first ==> gap != []
    ensures Silent(Keyword(if first then WordState(op) else SpaceState(op), op.HMsgOp?), gap)
         == Some(Keyword(SpaceState(op), op.HMsgOp?))
    decreases |gap|
  {
    hide KeywordMove;
    if gap != [] {
      assert Blank(gap[0]);
      GapMove(op, gap[0], first);
      SilentGap(op, gap[1..], false);
    }
  }

  lemma BeginMove(op: Op, b: byte)
    requires !(op.PingOp? || op.PongOp? || op.OkOp?) && !Blank(b)
    ensures KeywordMove(SpaceState(op), b) == Begin(ArgState(op))
  {
  }

  lemma {:induction false} SilentText(kind: State, h: bool, raw: seq<byte>, text: seq<byte>)
    requires IsArg(kind) && raw != []
    requires forall k :: 0 <= k < |text| ==> text[k] != CR && text[k] != NL
    ensures Silent(Arg(kind, h, Indexed(raw, false)), text) == Some(Arg(kind, h, Indexed(raw + text, false)))
    decreases |text|
  {
    hide KeywordMove;
    if text == [] {
      assert raw + text == raw;
    } else {
      SilentText(kind, h, raw + [text[0]], text[1..]);
      assert raw + [text[0]] + text[1..] == raw + text;
    }
  }

  /** The gap and the text that follow a word, up to the line end. */
  lemma ReadsLine(op: Op, gap: seq<byte>, text: seq<byte>)
    requires !(op.PingOp? || op.PongOp? || op.OkOp?)
    requires Blanks(gap) && Line(text)
    ensures Reads(Keyword(WordState(op), op.HMsgOp?), gap + text,
                  Arg(ArgState(op), op.HMsgOp?, Indexed(text, false)), [])
  {
    hide KeywordMove;
    var m := Keyword(WordState(op), op.HMsgOp?);
    SilentGap(op, gap, true);
    BeginMove(op, text[0]);
    var spc := Keyword(SpaceState(op), op.HMsgOp?);
    SilentConcat(m, gap, text);
    assert Step(spc, text[0]) == Next(Arg(ArgState(op), op.HMsgOp?, Indexed([text[0]], false)), []);
    SilentText(ArgState(op), op.HMsgOp?, [text[0]], text[1..]);
    assert [text[0]] + text[1..] == text;
    assert forall k :: 0 <= k < |gap| ==> Blank(gap[k]);
    ReadsSilently(m, gap + text);
  }

  /** The CRLF that ends an argument: the CR is dropped from the text. */
  lemma ReadsEnd(kind: State, h: bool, text: seq<byte>)
    requires IsArg(kind) && text != [] && FinishArg(kind, h, text).Next?
    ensures var st := FinishArg(kind, h, text);
            Valid(st.m) && Reads(Arg(kind, h, Indexed(text, false)), CRLF, st.m, st.out)
  {
    var m, st := Arg(kind, h, Indexed(text, false)), FinishArg(kind, h, text);
    forall rest: seq<byte>, at: nat, log: seq<Output>
      ensures ReadsBefore(m, CRLF, st.m, st.out, rest, at, log)
    {
      ReadsEndThen(kind, h, text, rest, at, log);
    }
  }

  lemma ReadsEndThen(kind: State, h: bool, text: seq<byte>, rest: seq<byte>, at: nat, log: seq<Output>)
    requires IsArg(kind) && text != [] && FinishArg(kind, h, text).Next?
    ensures var m, st := Arg(kind, h, Indexed(text, false)), FinishArg(kind, h, text);
            Valid(st.m) && ReadsBefore(m, CRLF, st.m, st.out, rest, at, log)
  {
    hide KeywordMove, ReadArgs;
    var m, m1 := Arg(kind, h, Indexed(text, false)), Arg(kind, h, Indexed(text + [CR], true));
    var st := FinishArg(kind, h, text);
    assert TextOf(m1.text) == text;
    var s := CRLF + rest;
    assert s[1..][1..] == rest && s[1..][0] == NL;
    assert log + [] == log;
    assert Run(m, s, at, log) == Run(m1, s[1..], at + 1, log);
    assert Run(m1, s[1..], at + 1, log) == Run(st.m, rest, at + 2, log + st.out);
    assert Clean(st.m, rest) ==> Clean(m1, s[1..]);
  }

  lemma {:induction false} CleanBody(msg: MsgArg, got: seq<byte>, body: seq<byte>, rest: seq<byte>)
    requires |got| + |body| <= msg.size && Clean(Payload(msg, got + body), rest)
    ensures Clean(Payload(msg, got), body + rest)
    decreases |body|
  {
    hide KeywordMove;
    if body == [] {
      assert got + body == got && body + rest == rest;
    } else {
      assert (body + rest)[1..] == body[1..] + rest;
      assert got + [body[0]] + body[1..] == got + body;
      CleanBody(msg, got + [body[0]], body[1..], rest);
    }
  }

  lemma ReadsBodyBytes(msg: MsgArg, body: seq<byte>)
    requires msg.size == |body|
    ensures Reads(Payload(msg, []), body, Payload(msg, body), [])
  {
    hide Run, Clean, Step;
    var m, full := Payload(msg, []), Payload(msg, body);
    forall rest: seq<byte>, at: nat, log: seq<Output>
      ensures ReadsBefore(m, body, full, [], rest, at, log)
    {
      RunPayload(msg, [], body + rest, |body|, at, log);
      assert [] + (body + rest)[..|body|] == body && (body + rest)[|body|..] == rest;
      assert [] + body == body && log + [] == log;
      if Clean(full, rest) {
        CleanBody(msg, [], body, rest);
      }
    }
  }

  /** A body, whatever its bytes, and the CRLF after it. */
  lemma ReadsBody(msg: MsgArg, body: seq<byte>)
    requires msg.size == |body|
    ensures Reads(Payload(msg, []), body + CRLF, START, [Event(Msg(msg, body))])
  {
    hide Reads;
    var m, full, end := Payload(msg, []), Payload(msg, body), Keyword(MSG_END, false);
    var e := [Event(Msg(msg, body))];
    ReadsBodyBytes(msg, body);
    ReadsByte(full, CR);
    ReadsByte(end, NL);
    ReadsThen(full, [CR], end, e, [NL], START, []);
    assert [CR] + [NL] == CRLF && e + [] == e;
    ReadsThen(m, body, full, [], CRLF, START, e);
    assert [] + e == e;
  }

  lemma ReadsPlainOp(op: Op, sp: Spelling)
    requires (op.PingOp? || op.PongOp? || op.OkOp?) && Spells(sp, op)
    ensures Reads(START, Print(op, sp), START, [Event(EventOf(op))])
  {
    hide Step, Reads;
    var e := [Event(EventOf(op))];
    ReadsWord(op, sp.word);
    ReadsPlain(op);
    ReadsThen(START, sp.word, Keyword(WordState(op), false), [], CRLF, START, e);
    assert [] + e == e;
  }

  /** A word, a gap, a text and a line end. */
  lemma ReadsUpToLineEnd(op: Op, sp: Spelling, text: seq<byte>)
    requires !(op.PingOp? || op.PongOp? || op.OkOp?) && Spells(sp, op) && Line(text)
    requires FinishArg(ArgState(op), op.HMsgOp?, text).Next?
    ensures var st := FinishArg(ArgState(op), op.HMsgOp?, text);
            Valid(st.m) && Reads(START, sp.word + sp.gap + text + CRLF, st.m, st.out)
  {
    hide Step, Reads, ReadArgs, FinishArg;
    var w, a := Keyword(WordState(op), op.HMsgOp?), Arg(ArgState(op), op.HMsgOp?, Indexed(text, false));
    var st := FinishArg(ArgState(op), op.HMsgOp?, text);
    ReadsWord(op, sp.word);
    ReadsLine(op, sp.gap, text);
    ReadsEnd(ArgState(op), op.HMsgOp?, text);
    ReadsThen(START, sp.word, w, [], sp.gap + text, a, []);
    var none: seq<Output> := [];
    assert none + none == none && none + st.out == st.out;
    assert sp.word + (sp.gap + text) == sp.word + sp.gap + text;
    ReadsThen(START, sp.word + sp.gap + text, a, [], CRLF, st.m, st.out);
  }

  lemma ReadsMsgOp(op: Op, sp: Spelling)
    requires (op.MsgOp? || op.HMsgOp?) && Sendable(op) && Spells(sp, op)
    ensures Reads(START, Print(op, sp), START, [ArgText(Join(Tokens(op), sp.seps)), Event(EventOf(op))])
  {
    hide Step, Reads, ReadArgs;
    var args, msg := Join(Tokens(op), sp.seps), EventOf(op).msg;
    ArgsOfTokens(op, sp);
    TokensAreTokens(op);
    JoinIsLine(Tokens(op), sp.seps);
    ReadsUpToLineEnd(op, sp, args);
    ReadsBody(msg, op.body);
    var line := sp.word + sp.gap + args + CRLF;
    ReadsThen(START, line, Payload(msg, []), [ArgText(args)], op.body + CRLF, START, [Event(EventOf(op))]);
    assert line + (op.body + CRLF) == Print(op, sp);
    assert [ArgText(args)] + [Event(EventOf(op))] == [ArgText(args), Event(EventOf(op))];
  }

  /** One printed operation is read back as its event, and leaves the parser at the
      start of the next. */
  lemma ReadsOp(op: Op, sp: Spelling) returns (out: seq<Output>)
    requires Sendable(op) && Spells(sp, op)
    ensures Reads(START, Print(op, sp), START, out) && Events(out) == [EventOf(op)]
  {
    hide Step, Reads, ReadArgs;
    if op.PingOp? || op.PongOp? || op.OkOp? {
      ReadsPlainOp(op, sp);
      out := [Event(EventOf(op))];
    } else if op.ErrOp? || op.InfoOp? {
      ReadsUpToLineEnd(op, sp, op.text);
      out := [Event(EventOf(op))];
    } else {
      ReadsMsgOp(op, sp);
      out := [ArgText(Join(Tokens(op), sp.seps)), Event(EventOf(op))];
      EventsAppend([ArgText(Join(Tokens(op), sp.seps))], [Event(EventOf(op))]);
      assert Events([ArgText(Join(Tokens(op), sp.seps))]) == [];
    }
    assert Events([Event(EventOf(op))]) == [EventOf(op)];
  }

  lemma TokensAreTokens(op: Op)
    requires (op.MsgOp? || op.HMsgOp?) && Sendable(op)
    ensures forall k :: 0 <= k < |Tokens(op)| ==> Token(Tokens(op)[k])
  {
    DigitsAreToken(op.sid);
    DigitsAreToken(|op.body|);
    if op.HMsgOp? { DigitsAreToken(op.hdr); }
  }

  // ---------------------------------------------------------- main theorems

  ghost predicate AllSpelled(ops: seq<Op>, sps: seq<Spelling>) {
    |ops| == |sps| && forall k :: 0 <= k < |ops| ==> Sendable(ops[k]) && Spells(sps[k], ops[k])
  }

  ghost function PrintAll(ops: seq<Op>, sps: seq<Spelling>): seq<byte>
    requires AllSpelled(ops, sps)
  {
    if ops == [] then [] else Print(ops[0], sps[0]) + PrintAll(ops[1..], sps[1..])
  }

  ghost function EventsOf(ops: seq<Op>): seq<ParserEvent> {
    if ops == [] then [] else [EventOf(ops[0])] + EventsOf(ops[1..])
  }

  lemma {:induction false} ReadsAll(ops: seq<Op>, sps: seq<Spelling>) returns (out: seq<Output>)
    requires AllSpelled(ops, sps)
    ensures Reads(START, PrintAll(ops, sps), START, out) && Events(out) == EventsOf(ops)
    decreases |ops|
  {
    hide Reads;
    if ops == [] {
      ReadsNothing(START);
      out := [];
    } else {
      var o1 := ReadsOp(ops[0], sps[0]);
      var o2 := ReadsAll(ops[1..], sps[1..]);
      ReadsThen(START, Print(ops[0], sps[0]), START, o1, PrintAll(ops[1..], sps[1..]), START, o2);
      out := o1 + o2;
      EventsAppend(o1, o2);
    }
  }

  /** Printed operations, in any spelling and cut into buffers in any way, are parsed
      back to exactly their events, and the machine ends at the start. */
  lemma WireRoundTrip(ops: seq<Op>, sps: seq<Spelling>, chunks: seq<seq<byte>>)
    requires AllSpelled(ops, sps) && Flatten(chunks) == PrintAll(ops, sps)
    ensures var r := FeedAll(NEW, chunks);
            r.Live? && r.m == START && Events(r.log) == EventsOf(ops) && r.at == |PrintAll(ops, sps)|
  {
    var wire := PrintAll(ops, sps);
    var out := ReadsAll(ops, sps);
    assert wire + [] == wire && [] + out == out;
    assert ReadsBefore(START, wire, START, out, [], 0, []);
    CleanFromState(START, chunks, 0, []);
  }

  /** A concrete stream that is not clean: `-ERR a<CR>b<NL>`. In one buffer the text
      of the error is `a<CR>`; cut after the `a` it is `ab`. */
  lemma StrayCRExample() returns (s: seq<byte>, k: nat)
    ensures k <= |s|
    ensures Events(Feed(NEW, s).log) == [Err(['a' as int, CR])]
    ensures Events(FeedAll(NEW, [s[..k], s[k..]]).log) == [Err(['a' as int, 'b' as int])]
  {
    var a: byte, b: byte := 'a' as int, 'b' as int;
    var word: seq<byte> := ['-' as int, 'E' as int, 'R' as int, 'R' as int];
    var op, head, tail := ErrOp([a]), word + ([SPACE] + [a]), [CR, b, NL];
    var m := Arg(MINUS_ERR_ARG, false, Indexed([a], false));
    s, k := head + tail, |head|;
    ReadsWord(op, word);
    ReadsLine(op, [SPACE], [a]);
    ReadsThen(START, word, Keyword(OP_MINUS_ERR, false), [], [SPACE] + [a], m, []);
    var none: seq<Output> := [];
    assert none + none == none;
    assert ReadsBefore(START, head, m, [], tail, 0, []);
    assert ReadsBefore(START, head, m, [], [], 0, []);
    assert head + [] == head && s[..k] == head && s[k..] == tail;
    RunNothing(m, k, []);
    FeedTwo(NEW, s, k);
    ErrTail(Indexed([a], false), b, k);
    ErrTail(Spilled([a]), b, k);
  }

  lemma ErrTail(t: Text, b: byte, at: nat)
    requires b != CR && b != NL && t in {Indexed(['a' as int], false), Spilled(['a' as int])}
    ensures var r := Feed(Live(Arg(MINUS_ERR_ARG, false, t), at, []), [CR, b, NL]);
            r.Live? && Events(r.log) == [Err(if t.Indexed? then ['a' as int, CR] else ['a' as int, b])]
  {
    hide KeywordMove, Step, Feed, Events;
    var m := Arg(MINUS_ERR_ARG, false, t);
    var s := [CR, b, NL];
    CollectStep(m, s, at, []);
    var m1 := m.(text := Collect(t, CR));
    CollectStep(m1, s[1..], at + 1, []);
    var m2 := m1.(text := Collect(m1.text, b));
    var out := TextOf(m2.text);
    assert out == if t.Indexed? then ['a' as int, CR] else ['a' as int, b];
    assert s[1..][1..] == [NL];
    TextStep(m2);
    FeedStep(m2, [NL], at + 2, []);
    assert [NL][1..] == [] && [] + [Event(Err(out))] == [Event(Err(out))];
    FeedNothing(START, at + 3, [Event(Err(out))]);
    OneEvent(Err(out));
  }

  lemma FeedNothing(m: Machine, at: nat, log: seq<Output>)
    requires Valid(m) && !m.Arg?
    ensures Feed(Live(m, at, log), []) == Live(m, at, log)
  {
  }

  lemma OneEvent(e: ParserEvent)
    ensures Events([Event(e)]) == [e]
  {
    assert [Event(e)][1..] == [];
  }

  /** The same for the parser itself, fed by the reader of a connection. */
  method ReadConnection(ghost ops: seq<Op>, ghost sps: seq<Spelling>, chunks: seq<seq<byte>>)
    returns (events: seq<ParserEvent>, state: State)
    requires AllSpelled(ops, sps) && Flatten(chunks) == PrintAll(ops, sps)
    ensures events == EventsOf(ops) && state == OP_START
  {
    var p := new Parser();
    ReadLoop(p, chunks);
    WireRoundTrip(ops, sps, chunks);
    events, state := p.dispatched, p.state;
  }
}
