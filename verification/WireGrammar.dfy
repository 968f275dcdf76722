/** The language the parser accepts: lines of a word, blanks, fields and a body. Whatever
    is read to the start state is such lines, and all such lines are read. */
module WireGrammar {
  import opened Bytes
  import opened WireMachine
  import opened Chunking
  import opened WireFormat

  // ----------------------------------------------------------------- numbers

  predicate AllDigits(a: seq<byte>) {
    forall k :: 0 <= k < |a| ==> Digit(a[k])
  }

  /** Only a nonempty run of digits is a number, and it has its decimal value. */
  lemma NumberIff(a: seq<byte>)
    ensures DecimalValue(a) >= 0 <==> a != [] && AllDigits(a)
    ensures DecimalValue(a) >= -1
  {
  }

  lemma NumberValue(a: seq<byte>, d: byte)
    requires AllDigits(a) && Digit(d)
    ensures DecimalValue([d]) == d - 48
    ensures a != [] ==> DecimalValue(a + [d]) == 10 * DecimalValue(a) + d - 48
  {
    assert [d][..0] == [] && (a + [d])[..|a|] == a;
    assert DigitsValue([]) == 0;
  }

  // ------------------------------------------------------------------ fields

  predicate Separators(s: seq<byte>) {
    forall k :: 0 <= k < |s| ==> Separator(s[k])
  }

  /** Fields with separators before, between and behind them. */
  function Weave(fields: seq<seq<byte>>, seps: seq<seq<byte>>): seq<byte>
    requires |seps| == |fields| + 1
  {
    if fields == [] then seps[0] else seps[0] + (fields[0] + Weave(fields[1..], seps[1..]))
  }

  ghost predicate CanWeave(fields: seq<seq<byte>>, seps: seq<seq<byte>>) {
    && |seps| == |fields| + 1
    && (forall k :: 0 <= k < |fields| ==> Token(fields[k]))
    && (forall k :: 0 <= k < |seps| ==> Separators(seps[k]) && (0 < k < |fields| ==> seps[k] != []))
  }

  ghost predicate AreFields(text: seq<byte>, fields: seq<seq<byte>>, seps: seq<seq<byte>>) {
    CanWeave(fields, seps) && text == Weave(fields, seps)
  }

  lemma {:induction false} FieldsOfSeparators(s: seq<byte>, rest: seq<byte>, current: seq<byte>)
    requires Separators(s) && (s != [] || current == [])
    ensures Fields(s + rest, current) == (if current == [] then [] else [current]) + Fields(rest, [])
    decreases |s|
  {
    if s == [] {
      assert s + rest == rest;
    } else {
      assert (s + rest)[0] == s[0] && (s + rest)[1..] == s[1..] + rest;
      FieldsOfSeparators(s[1..], rest, []);
    }
  }

  /** The fields of a text are the runs between its separators. */
  lemma {:induction false} FieldsOfWeave(fields: seq<seq<byte>>, seps: seq<seq<byte>>)
    requires CanWeave(fields, seps)
    ensures Fields(Weave(fields, seps), []) == fields
    decreases |fields|
  {
    if fields == [] {
      FieldsOfSeparators(seps[0], [], []);
      assert seps[0] + [] == seps[0];
    } else {
      var rest := Weave(fields[1..], seps[1..]);
      FieldsOfSeparators(seps[0], fields[0] + rest, []);
      FieldsOfToken(fields[0], rest, []);
      assert [] + fields[0] == fields[0];
      RestOfWeave(fields[0], fields[1..], seps[1..]);
    }
  }

  lemma {:induction false} RestOfWeave(current: seq<byte>, fields: seq<seq<byte>>, seps: seq<seq<byte>>)
    requires current != [] && CanWeave(fields, seps) && (fields != [] ==> seps[0] != [])
    ensures Fields(Weave(fields, seps), current) == [current] + fields
    decreases |fields|
  {
    if fields == [] {
      if seps[0] == [] {
        assert Fields([], current) == [current];
      } else {
        FieldsOfSeparators(seps[0], [], current);
        assert seps[0] + [] == seps[0];
      }
    } else {
      var rest := Weave(fields[1..], seps[1..]);
      FieldsOfSeparators(seps[0], fields[0] + rest, current);
      FieldsOfToken(fields[0], rest, []);
      assert [] + fields[0] == fields[0];
      RestOfWeave(fields[0], fields[1..], seps[1..]);
    }
  }

  /** Every text is woven of its fields in one way at least. */
  lemma {:induction false} WeaveOfFields(text: seq<byte>, current: seq<byte>) returns (seps: seq<seq<byte>>)
    requires forall k :: 0 <= k < |current| ==> !Separator(current[k])
    ensures var f := Fields(text, current);
            && AreFields(current + text, f, seps) && (current != [] ==> f != [] && seps[0] == [])
    decreases |text|
  {
    if text == [] {
      seps := if current == [] then [[]] else [[], []];
      WeaveOne(current);
      assert current + text == current;
    } else if Separator(text[0]) {
      var rest := WeaveOfFields(text[1..], []);
      var f := Fields(text[1..], []);
      assert [] + text[1..] == text[1..] && [text[0]] + text[1..] == text && [] + f == f;
      seps := WeaveSeparator(text[0], f, rest, current);
    } else {
      seps := WeaveOfFields(text[1..], current + [text[0]]);
      assert current + [text[0]] + text[1..] == current + text;
    }
  }

  lemma WeaveOne(current: seq<byte>)
    requires forall k :: 0 <= k < |current| ==> !Separator(current[k])
    ensures if current == [] then AreFields([], [], [[]]) else AreFields(current, [current], [[], []])
  {
    if current != [] {
      var none: seq<seq<byte>>, two: seq<seq<byte>> := [], [[], []];
      assert [current][1..] == none && two[1..] == [[]];
      assert Weave(none, [[]]) == [];
      assert [] + (current + []) == current;
    }
  }

  /** A separator in front, and before it the end of a field that had begun. */
  lemma WeaveSeparator(b: byte, f: seq<seq<byte>>, rest: seq<seq<byte>>, current: seq<byte>)
    returns (seps: seq<seq<byte>>)
    requires Separator(b) && CanWeave(f, rest) && forall k :: 0 <= k < |current| ==> !Separator(current[k])
    ensures var fields := if current == [] then f else [current] + f;
            AreFields(current + ([b] + Weave(f, rest)), fields, seps) && (current != [] ==> seps[0] == [])
  {
    var more := [[b] + rest[0]] + rest[1..];
    WeaveMore(f, rest, b);
    assert CanWeave(f, more) by { CanWeaveMore(f, rest, b); }
    if current == [] {
      seps := more;
      assert [] + ([b] + Weave(f, rest)) == [b] + Weave(f, rest);
    } else {
      seps := [[]] + more;
      assert more[0] != [];
      FieldFirst(current, f, more);
    }
  }

  lemma CanWeaveMore(f: seq<seq<byte>>, rest: seq<seq<byte>>, b: byte)
    requires Separator(b) && CanWeave(f, rest)
    ensures CanWeave(f, [[b] + rest[0]] + rest[1..])
  {
    var more := [[b] + rest[0]] + rest[1..];
    forall k | 0 <= k < |more|
      ensures Separators(more[k]) && (0 < k < |f| ==> more[k] != [])
    {
      assert k > 0 ==> more[k] == rest[k];
      assert Separators(rest[k]);
    }
  }

  lemma FieldFirst(current: seq<byte>, f: seq<seq<byte>>, more: seq<seq<byte>>)
    requires Token(current) && CanWeave(f, more) && more[0] != []
    ensures AreFields(current + Weave(f, more), [current] + f, [[]] + more)
  {
    var fields, seps := [current] + f, [[]] + more;
    assert seps[1..] == more && fields[1..] == f;
    assert [] + (current + Weave(f, more)) == current + Weave(f, more);
    forall k | 0 <= k < |seps|
      ensures Separators(seps[k]) && (0 < k < |fields| ==> seps[k] != [])
    {
      assert k > 0 ==> seps[k] == more[k - 1];
    }
  }

  lemma WeaveMore(fields: seq<seq<byte>>, seps: seq<seq<byte>>, b: byte)
    requires |seps| == |fields| + 1
    ensures Weave(fields, [[b] + seps[0]] + seps[1..]) == [b] + Weave(fields, seps)
  {
    var more := [[b] + seps[0]] + seps[1..];
    assert more[1..] == seps[1..] && more[0] == [b] + seps[0];
    Regroup([b], seps[0], if fields == [] then [] else fields[0] + Weave(fields[1..], seps[1..]));
    assert fields == [] ==> seps[0] + [] == seps[0] && [b] + seps[0] + [] == [b] + seps[0];
  }

  // -------------------------------------------------------- message arguments

  predicate RightCount(headers: bool, f: seq<seq<byte>>) {
    if headers then |f| == 4 || |f| == 5 else |f| == 3 || |f| == 4
  }

  predicate IsNumber(a: seq<byte>) {
    a != [] && AllDigits(a)
  }

  /** Subject, number of the subscription, perhaps a reply, perhaps the size of the
      headers, and the size. */
  ghost predicate AreArgs(headers: bool, f: seq<seq<byte>>) {
    && RightCount(headers, f) && IsNumber(f[1]) && IsNumber(f[|f| - 1])
    && (headers ==> IsNumber(f[|f| - 2]) && DecimalValue(f[|f| - 2]) <= DecimalValue(f[|f| - 1]))
  }

  function ArgsOf(headers: bool, f: seq<seq<byte>>): MsgArg
    requires |f| >= if headers then 4 else 3
  {
    MsgArg(f[0], if |f| == (if headers then 5 else 4) then Some(f[2]) else None, DecimalValue(f[1]),
           if headers then DecimalValue(f[|f| - 2]) else -1, DecimalValue(f[|f| - 1]))
  }

  lemma ArgsIff(headers: bool, text: seq<byte>)
    ensures var f, r := Fields(text, []), ReadArgs(headers, text);
            && (r.Good? <==> AreArgs(headers, f))
            && (r.Good? ==> r.value == ArgsOf(headers, f))
            && (r == Bad(BadArgs) <==> !RightCount(headers, f))
            && (r == Bad(BadSid) <==> RightCount(headers, f) && !IsNumber(f[1]))
            && (r == Bad(BadSize) ==> !headers)
  {
    hide DecimalValue, Fields;
    var f := Fields(text, []);
    if |f| >= 3 {
      NumberIff(f[1]);
      NumberIff(f[|f| - 1]);
      NumberIff(f[|f| - 2]);
    }
  }

  // -------------------------------------------------------- texts of arguments

  predicate HasCR(s: seq<byte>) {
    exists k :: 0 <= k < |s| && s[k] == CR
  }

  /** Of bytes that lie in one buffer the last is cut off if any but the first is a CR. */
  function Kept(s: seq<byte>): seq<byte>
    requires s != []
  {
    if HasCR(s[1..]) then s[..|s| - 1] else s
  }

  function WithoutCR(s: seq<byte>): seq<byte> {
    if s == [] then [] else WithoutCR(s[..|s| - 1]) + if s[|s| - 1] == CR then [] else [s[|s| - 1]]
  }

  /** What is read of an argument whose first `k` bytes came in one buffer. */
  function Reading(arg: seq<byte>, k: nat): seq<byte>
    requires 1 <= k <= |arg|
  {
    Kept(arg[..k]) + WithoutCR(arg[k..])
  }

  predicate NoNL(s: seq<byte>) {
    forall k :: 0 <= k < |s| ==> s[k] != NL
  }

  /** The first byte may be any but a blank. */
  predicate IsArgument(arg: seq<byte>) {
    arg != [] && !Blank(arg[0]) && NoNL(arg[1..])
  }

  // -------------------------------------------------------------- the grammar

  datatype Kind = PingKind | PongKind | OkKind | ErrKind | InfoKind | MsgKind | HMsgKind

  function WordFor(kind: Kind): seq<char> {
    match kind
    case PingKind => "PING"
    case PongKind => "PONG"
    case OkKind => "+OK"
    case ErrKind => "-ERR"
    case InfoKind => "INFO"
    case MsgKind => "MSG"
    case HMsgKind => "HMSG"
  }

  predicate IsPlain(kind: Kind) { kind.PingKind? || kind.PongKind? || kind.OkKind? }

  predicate IsText(kind: Kind) { kind.ErrKind? || kind.InfoKind? }

  /** A line of the protocol. `k` bytes of the argument came in one buffer. What follows
      a plain word, and what follows the first byte behind a body, is ignored up to NL. */
  datatype Line =
    | Plain(kind: Kind, word: seq<byte>, ignored: seq<byte>)
    | Text(kind: Kind, word: seq<byte>, gap: seq<byte>, arg: seq<byte>, k: nat)
    | Message(kind: Kind, word: seq<byte>, gap: seq<byte>, arg: seq<byte>, k: nat,
              fields: seq<seq<byte>>, seps: seq<seq<byte>>, body: seq<byte>, end: seq<byte>)

  ghost predicate IsHead(kind: Kind, word: seq<byte>, gap: seq<byte>, arg: seq<byte>, k: nat) {
    SameWord(word, WordFor(kind)) && Blanks(gap) && IsArgument(arg) && 1 <= k <= |arg|
  }

  ghost predicate IsLine(l: Line) {
    match l
    case Plain(kind, word, ignored) => IsPlain(kind) && SameWord(word, WordFor(kind)) && NoNL(ignored)
    case Text(kind, word, gap, arg, k) => IsText(kind) && IsHead(kind, word, gap, arg, k)
    case Message(kind, word, gap, arg, k, fields, seps, body, end) =>
      && (kind.MsgKind? || kind.HMsgKind?) && IsHead(kind, word, gap, arg, k)
      && AreFields(Reading(arg, k), fields, seps) && AreArgs(kind.HMsgKind?, fields)
      && |body| == DecimalValue(fields[|fields| - 1]) && end != [] && NoNL(end[1..])
  }

  function BytesOf(l: Line): seq<byte> {
    match l
    case Plain(_, word, ignored) => word + ignored + [NL]
    case Text(_, word, gap, arg, _) => word + gap + arg + [NL]
    case Message(_, word, gap, arg, _, _, _, body, end) => word + gap + arg + [NL] + body + end + [NL]
  }

  ghost function EventOf(l: Line): ParserEvent
    requires IsLine(l)
  {
    match l
    case Plain(kind, _, _) => if kind.PingKind? then Ping else if kind.PongKind? then Pong else Ok
    case Text(kind, _, _, arg, k) => if kind.ErrKind? then Err(Reading(arg, k)) else Info(Reading(arg, k))
    case Message(kind, _, _, _, _, fields, _, body, _) => Msg(ArgsOf(kind.HMsgKind?, fields), body)
  }

  ghost predicate AreLines(ls: seq<Line>) {
    forall i :: 0 <= i < |ls| ==> IsLine(ls[i])
  }

  function AllBytes(ls: seq<Line>): seq<byte> {
    if ls == [] then [] else BytesOf(ls[0]) + AllBytes(ls[1..])
  }

  ghost function AllEvents(ls: seq<Line>): seq<ParserEvent>
    requires AreLines(ls)
  {
    if ls == [] then [] else [EventOf(ls[0])] + AllEvents(ls[1..])
  }

  // ------------------------------------------- what is read are such lines

  /** How far the last line has come. */
  datatype Partial =
    | InWord(word: seq<byte>)
    | InGap(kind: Kind, word: seq<byte>, gap: seq<byte>)
    | InArg(kind: Kind, word: seq<byte>, gap: seq<byte>, arg: seq<byte>, k: nat)
    | InBody(l: Line)
    | InEnd(l: Line)

  function PartialBytes(q: Partial): seq<byte>
    requires q.InBody? || q.InEnd? ==> q.l.Message?
  {
    match q
    case InWord(word) => word
    case InGap(_, word, gap) => word + gap
    case InArg(_, word, gap, arg, _) => word + gap + arg
    case InBody(l) => l.word + l.gap + l.arg + [NL] + l.body
    case InEnd(l) => l.word + l.gap + l.arg + [NL] + l.body + l.end
  }

  /** The letters read when a state is reached; `h`: of a message with headers. */
  function PrefixOf(s: State, h: bool): seq<char>
    requires IsKeyword(s)
  {
    match s
    case OP_START => []
    case OP_PLUS => ['+']
    case OP_PLUS_O => ['+', 'O']
    case OP_PLUS_OK => ['+', 'O', 'K']
    case OP_MINUS => ['-']
    case OP_MINUS_E => ['-', 'E']
    case OP_MINUS_ER => ['-', 'E', 'R']
    case OP_MINUS_ERR => ['-', 'E', 'R', 'R']
    case OP_MINUS_ERR_SPC => ['-', 'E', 'R', 'R']
    case OP_H => ['H']
    case OP_M => if h then ['H', 'M'] else ['M']
    case OP_MS => if h then ['H', 'M', 'S'] else ['M', 'S']
    case OP_MSG => if h then ['H', 'M', 'S', 'G'] else ['M', 'S', 'G']
    case OP_MSG_SPC => if h then ['H', 'M', 'S', 'G'] else ['M', 'S', 'G']
    case MSG_END => []
    case OP_P => ['P']
    case OP_PI => ['P', 'I']
    case OP_PIN => ['P', 'I', 'N']
    case OP_PING => ['P', 'I', 'N', 'G']
    case OP_PO => ['P', 'O']
    case OP_PON => ['P', 'O', 'N']
    case OP_PONG => ['P', 'O', 'N', 'G']
    case OP_I => ['I']
    case OP_IN => ['I', 'N']
    case OP_INF => ['I', 'N', 'F']
    case OP_INFO => ['I', 'N', 'F', 'O']
    case OP_INFO_SPC => ['I', 'N', 'F', 'O']
  }

  predicate PlainState(s: State) { s.OP_PING? || s.OP_PONG? || s.OP_PLUS_OK? }

  predicate GapState(s: State) { s.OP_MSG_SPC? || s.OP_INFO_SPC? || s.OP_MINUS_ERR_SPC? }

  predicate WordEnd(s: State) { s.OP_MSG? || s.OP_INFO? || s.OP_MINUS_ERR? }

  function PlainKind(s: State): Kind
    requires PlainState(s)
  {
    match s case OP_PING => PingKind case OP_PONG => PongKind case _ => OkKind
  }

  /** Of the words that are followed by an argument. */
  function ArgKind(s: State, h: bool): Kind {
    if s.OP_INFO? || s.OP_INFO_SPC? || s.INFO_ARG? then InfoKind
    else if s.OP_MINUS_ERR? || s.OP_MINUS_ERR_SPC? || s.MINUS_ERR_ARG? then ErrKind
    else if h then HMsgKind else MsgKind
  }

  /** A message of which the argument has been read. */
  ghost predicate IsBegun(l: Line) {
    && l.Message? && (l.kind.MsgKind? || l.kind.HMsgKind?) && IsHead(l.kind, l.word, l.gap, l.arg, l.k)
    && AreFields(Reading(l.arg, l.k), l.fields, l.seps) && AreArgs(l.kind.HMsgKind?, l.fields)
  }

  ghost predicate IsTextOf(t: Text, arg: seq<byte>, k: nat)
    requires 1 <= k <= |arg|
  {
    match t
    case Indexed(raw, drop) => raw == arg && k == |arg| && drop == HasCR(arg[1..])
    case Spilled(buf) => buf == Reading(arg, k)
  }

  ghost predicate Fits(q: Partial, m: Machine) {
    match q
    case InWord(word) =>
      && m.Keyword? && IsKeyword(m.state) && !GapState(m.state) && !m.state.MSG_END? && (m.state.OP_H? ==> m.headers)
      && (InMessage(m.state) || !m.headers)
      && var p := PrefixOf(m.state, m.headers);
         |word| >= |p| && SameWord(word[..|p|], p) && (if PlainState(m.state) then NoNL(word[|p|..]) else |word| == |p|)
    case InGap(kind, word, gap) =>
      && m.Keyword? && GapState(m.state) && (InMessage(m.state) || !m.headers)
      && kind == ArgKind(m.state, m.headers) && SameWord(word, WordFor(kind)) && Blanks(gap)
    case InArg(kind, word, gap, arg, k) =>
      && m.Arg? && IsArg(m.kind) && kind == ArgKind(m.kind, m.headers) && IsHead(kind, word, gap, arg, k)
      && IsTextOf(m.text, arg, k)
    case InBody(l) => m.Payload? && IsBegun(l) && m.msg == ArgsOf(l.kind.HMsgKind?, l.fields) && m.got == l.body
    case InEnd(l) => m == Keyword(MSG_END, false) && IsLine(l) && l.Message?
  }

  /** The event of a message comes with the first byte behind its body. */
  ghost function Early(q: Partial): seq<ParserEvent>
    requires q.InEnd? ==> IsLine(q.l)
  {
    if q.InEnd? then [EventOf(q.l)] else []
  }

  lemma NextLetter(s: State, h: bool, b: byte) returns (c: char)
    requires IsKeyword(s) && !GapState(s) && !s.MSG_END? && !PlainState(s) && !WordEnd(s) && KeywordMove(s, b).To?
    requires (s.OP_H? ==> h) && (InMessage(s) || !h)
    ensures var next := KeywordMove(s, b).next;
            var h' := InMessage(next) && (if s.OP_START? then next.OP_H? else h);
            && !GapState(next) && !next.MSG_END? && PrefixOf(next, h') == PrefixOf(s, h) + [c]
            && (next.OP_H? ==> h')
    ensures if 'A' <= c <= 'Z' then Letter(b, c) else b == c as int
  {
    hide PrefixOf;
    c := LetterOf(s, b);
    PrefixMore(s, h, KeywordMove(s, b).next, c);
  }

  /** The letter that leads on. */
  lemma LetterOf(s: State, b: byte) returns (c: char)
    requires IsKeyword(s) && !GapState(s) && !s.MSG_END? && !PlainState(s) && !WordEnd(s) && KeywordMove(s, b).To?
    ensures Leads(s, KeywordMove(s, b).next, c)
    ensures if 'A' <= c <= 'Z' then Letter(b, c) else b == c as int
  {
    c := if b >= 97 then (b - 32) as char else b as char;
  }

  predicate Leads(s: State, next: State, c: char) {
    match s
    case OP_START =>
      || (c == 'M' && next.OP_M?) || (c == 'H' && next.OP_H?) || (c == 'P' && next.OP_P?) || (c == '+' && next.OP_PLUS?)
      || (c == '-' && next.OP_MINUS?) || (c == 'I' && next.OP_I?)
    case OP_PLUS => c == 'O' && next.OP_PLUS_O?
    case OP_PLUS_O => c == 'K' && next.OP_PLUS_OK?
    case OP_MINUS => c == 'E' && next.OP_MINUS_E?
    case OP_MINUS_E => c == 'R' && next.OP_MINUS_ER?
    case OP_MINUS_ER => c == 'R' && next.OP_MINUS_ERR?
    case OP_H => c == 'M' && next.OP_M?
    case OP_M => c == 'S' && next.OP_MS?
    case OP_MS => c == 'G' && next.OP_MSG?
    case OP_P => (c == 'I' && next.OP_PI?) || (c == 'O' && next.OP_PO?)
    case OP_PI => c == 'N' && next.OP_PIN?
    case OP_PIN => c == 'G' && next.OP_PING?
    case OP_PO => c == 'N' && next.OP_PON?
    case OP_PON => c == 'G' && next.OP_PONG?
    case OP_I => c == 'N' && next.OP_IN?
    case OP_IN => c == 'F' && next.OP_INF?
    case OP_INF => c == 'O' && next.OP_INFO?
    case _ => false
  }

  lemma PrefixMore(s: State, h: bool, next: State, c: char)
    requires IsKeyword(s) && Leads(s, next, c) && (s.OP_H? ==> h) && (InMessage(s) || !h)
    ensures IsKeyword(next) && !GapState(next) && !next.MSG_END?
    ensures var h' := InMessage(next) && (if s.OP_START? then next.OP_H? else h);
            PrefixOf(next, h') == PrefixOf(s, h) + [c] && (next.OP_H? ==> h')
  {
    if s.OP_START? || s.OP_H? || s.OP_M? || s.OP_MS? {
      MessagePrefix(s, h, next, c);
    } else {
      OtherPrefix(s, h, next, c);
    }
  }

  lemma MessagePrefix(s: State, h: bool, next: State, c: char)
    requires Leads(s, next, c) && (s.OP_H? ==> h) && (s.OP_START? || s.OP_H? || s.OP_M? || s.OP_MS?)
    ensures IsKeyword(next)
    ensures PrefixOf(next, InMessage(next) && (if s.OP_START? then next.OP_H? else h)) == PrefixOf(s, h) + [c]
  {
  }

  lemma OtherPrefix(s: State, h: bool, next: State, c: char)
    requires Leads(s, next, c) && !(s.OP_START? || s.OP_H? || s.OP_M? || s.OP_MS?)
    ensures IsKeyword(next) && PrefixOf(next, false) == PrefixOf(s, false) + [c]
  {
    var p := PrefixOf(s, false);
    if |p| == 1 {
      assert [p[0]] + [c] == [p[0], c];
    } else if |p| == 2 {
      assert p + [c] == [p[0], p[1], c];
    } else {
      assert p + [c] == [p[0], p[1], p[2], c];
    }
  }

  lemma SameWordMore(w: seq<byte>, word: seq<char>, b: byte, c: char)
    requires SameWord(w, word) && if 'A' <= c <= 'Z' then Letter(b, c) else b == c as int
    ensures SameWord(w + [b], word + [c])
  {
  }

  /** A byte takes the line from `q` to `q'`, perhaps by ending one. */
  ghost predicate Goes(q: Partial, b: byte, out: seq<Output>, m: Machine, done: seq<Line>, q': Partial) {
    && |done| <= 1 && AreLines(done) && Fits(q', m)
    && (q.InBody? || q.InEnd? ==> q.l.Message?) && (q'.InBody? || q'.InEnd? ==> q'.l.Message?)
    && (q.InEnd? ==> IsLine(q.l))
    && PartialBytes(q) + [b] == AllBytes(done) + PartialBytes(q')
    && Early(q) + Events(out) == AllEvents(done) + Early(q')
  }

  lemma GoesOn(q: Partial, b: byte, m: Machine, q': Partial)
    requires Fits(q', m) && (q.InBody? ==> q.l.Message?) && !q.InEnd? && !q'.InEnd?
    requires PartialBytes(q) + [b] == PartialBytes(q')
    ensures Goes(q, b, [], m, [], q')
  {
    assert [] + PartialBytes(q') == PartialBytes(q');
  }

  lemma Ends(q: Partial, b: byte, out: seq<Output>, l: Line)
    requires IsLine(l) && (q.InBody? ==> q.l.Message?) && (q.InEnd? ==> q.l == l && l.Message? && out == [])
    requires !q.InEnd? ==> Events(out) == [EventOf(l)]
    requires PartialBytes(q) + [b] == BytesOf(l)
    ensures Goes(q, b, out, START, [l], InWord([]))
  {
    var ls := [l];
    assert ls[1..] == [];
    assert AllBytes(ls) == BytesOf(l) + [] == BytesOf(l);
    assert AllBytes(ls) + [] == BytesOf(l);
    assert AllEvents(ls) == [EventOf(l)] + [] == [EventOf(l)];
    assert [EventOf(l)] + [] == [EventOf(l)] && [] + [EventOf(l)] == [EventOf(l)];
    if q.InEnd? {
      assert Events(out) == [];
    }
  }

  lemma OneEventOf(e: ParserEvent)
    ensures Events([Event(e)]) == [e]
  {
    assert [Event(e)][1..] == [];
  }

  lemma WordStep(q: Partial, m: Machine, b: byte) returns (done: seq<Line>, q': Partial)
    requires q.InWord? && Fits(q, m) && Step(m, b).Next?
    ensures var st := Step(m, b); Goes(q, b, st.out, st.m, done, q')
  {
    hide Step, Goes, PrefixOf;
    done := [];
    if PlainState(m.state) {
      done, q' := PlainStep(q, m, b);
    } else if WordEnd(m.state) {
      q' := WordEndStep(q, m, b);
    } else {
      q' := LetterStep(q, m, b);
    }
  }

  lemma PlainStep(q: Partial, m: Machine, b: byte) returns (done: seq<Line>, q': Partial)
    requires q.InWord? && Fits(q, m) && PlainState(m.state)
    ensures var st := Step(m, b); st.Next? && Goes(q, b, st.out, st.m, done, q')
  {
    hide KeywordMove, Events, PrefixOf;
    var w, s := q.word, m.state;
    PlainMove(s, b);
    var n := |PrefixOf(s, m.headers)|;
    if b == NL {
      var l := Plain(PlainKind(s), w[..n], w[n..]);
      assert w[..n] + w[n..] == w;
      OneEventOf(EventOf(l));
      Ends(q, b, Step(m, b).out, l);
      done, q' := [l], InWord([]);
    } else {
      done, q' := [], InWord(w + [b]);
      assert (w + [b])[..n] == w[..n] && (w + [b])[n..] == w[n..] + [b];
      GoesOn(q, b, Step(m, b).m, q');
    }
  }

  lemma WordEndStep(q: Partial, m: Machine, b: byte) returns (q': Partial)
    requires q.InWord? && Fits(q, m) && WordEnd(m.state) && Step(m, b).Next?
    ensures var st := Step(m, b); Goes(q, b, st.out, st.m, [], q')
  {
    hide KeywordMove, Events, PrefixOf;
    EndMove(m.state, b);
    q' := InGap(ArgKind(m.state, m.headers), q.word, [b]);
    assert q.word[..|q.word|] == q.word;
    GoesOn(q, b, Step(m, b).m, q');
  }

  lemma LetterStep(q: Partial, m: Machine, b: byte) returns (q': Partial)
    requires q.InWord? && Fits(q, m) && !PlainState(m.state) && !WordEnd(m.state) && Step(m, b).Next?
    ensures var st := Step(m, b); Goes(q, b, st.out, st.m, [], q')
  {
    hide KeywordMove, Events, PrefixOf;
    var w := q.word;
    NotBegun(m.state, b);
    var c := NextLetter(m.state, m.headers, b);
    assert w[..|w|] == w;
    SameWordMore(w, PrefixOf(m.state, m.headers), b, c);
    q' := InWord(w + [b]);
    assert (w + [b])[..|w| + 1] == w + [b] && (w + [b])[|w| + 1..] == [];
    GoesOn(q, b, Step(m, b).m, q');
  }

  lemma PlainMove(s: State, b: byte)
    requires PlainState(s)
    ensures KeywordMove(s, b)
         == if b != NL then To(s)
            else Emit(match PlainKind(s) case PingKind => Ping case PongKind => Pong case _ => Ok)
    ensures PrefixOf(s, false) == WordFor(PlainKind(s)) && !InMessage(s)
  {
  }

  lemma EndMove(s: State, b: byte)
    requires WordEnd(s)
    ensures KeywordMove(s, b).To? || KeywordMove(s, b).Reject?
    ensures KeywordMove(s, b).To? ==> Blank(b) && GapState(KeywordMove(s, b).next)
    ensures KeywordMove(s, b).To? ==>
      && InMessage(s) == InMessage(KeywordMove(s, b).next)
      && forall h :: ArgKind(s, h) == ArgKind(KeywordMove(s, b).next, h)
    ensures forall h :: (InMessage(s) || !h) ==> PrefixOf(s, h) == WordFor(ArgKind(s, h))
  {
  }

  lemma NotBegun(s: State, b: byte)
    requires IsKeyword(s) && !GapState(s) && !s.MSG_END? && !PlainState(s) && !WordEnd(s)
    ensures KeywordMove(s, b).To? || KeywordMove(s, b).Reject?
  {
  }

  lemma GapStep(q: Partial, m: Machine, b: byte) returns (q': Partial)
    requires q.InGap? && Fits(q, m) && Step(m, b).Next?
    ensures var st := Step(m, b); Goes(q, b, st.out, st.m, [], q')
  {
    hide KeywordMove, Events;
    GapMoves(m.state, b);
    if Blank(b) {
      q' := InGap(q.kind, q.word, q.gap + [b]);
    } else {
      q' := InArg(q.kind, q.word, q.gap, [b], 1);
      assert [b][1..] == [];
    }
    GoesOn(q, b, Step(m, b).m, q');
  }

  lemma GapMoves(s: State, b: byte)
    requires GapState(s)
    ensures if Blank(b) then KeywordMove(s, b) == To(s)
            else KeywordMove(s, b).Begin? && IsArg(KeywordMove(s, b).arg)
                 && (InMessage(s) <==> KeywordMove(s, b).arg.MSG_ARG?)
                 && forall h :: ArgKind(KeywordMove(s, b).arg, h) == ArgKind(s, h)
  {
  }

  lemma ArgStep(q: Partial, m: Machine, b: byte) returns (done: seq<Line>, q': Partial)
    requires q.InArg? && Fits(q, m) && Step(m, b).Next?
    ensures var st := Step(m, b); Goes(q, b, st.out, st.m, done, q')
  {
    hide Step;
    done := [];
    if b != NL {
      q' := ArgMore(q, m, b);
    } else if m.kind.MSG_ARG? {
      q' := ArgEndsHead(q, m);
    } else {
      var l := ArgEndsLine(q, m);
      done, q' := [l], InWord([]);
    }
  }

  lemma ArgMore(q: Partial, m: Machine, b: byte) returns (q': Partial)
    requires q.InArg? && Fits(q, m) && WireMachine.Valid(m) && b != NL
    ensures var st := Step(m, b); st.Next? && Goes(q, b, st.out, st.m, [], q')
  {
    hide ReadArgs, Events, Reading, Kept, SameWord, Blanks;
    q' := InArg(q.kind, q.word, q.gap, q.arg + [b], if m.text.Indexed? then q.k + 1 else q.k);
    CollectReads(m.text, q.arg, q.k, b);
    assert (q.arg + [b])[1..] == q.arg[1..] + [b];
    GoesOn(q, b, Step(m, b).m, q');
  }

  lemma ArgEndsHead(q: Partial, m: Machine) returns (q': Partial)
    requires q.InArg? && Fits(q, m) && WireMachine.Valid(m) && m.kind.MSG_ARG? && Step(m, NL).Next?
    ensures var st := Step(m, NL); Goes(q, NL, st.out, st.m, [], q')
  {
    hide ReadArgs, Events, Fields, Reading, SameWord, Blanks, AreArgs, AreFields;
    TextIsReading(m.text, q.arg, q.k);
    var text := Reading(q.arg, q.k);
    ArgsIff(m.headers, text);
    var seps := WeaveOfFields(text, []);
    assert [] + text == text;
    q' := InBody(Message(q.kind, q.word, q.gap, q.arg, q.k, Fields(text, []), seps, [], []));
    TextIsNoEvent(text);
    assert q.word + q.gap + q.arg + [NL] + [] == q.word + q.gap + q.arg + [NL];
    assert [] + PartialBytes(q') == PartialBytes(q');
  }

  lemma ArgEndsLine(q: Partial, m: Machine) returns (l: Line)
    requires q.InArg? && Fits(q, m) && WireMachine.Valid(m) && !m.kind.MSG_ARG?
    ensures var st := Step(m, NL); st.Next? && st.m == START && Goes(q, NL, st.out, START, [l], InWord([]))
  {
    hide ReadArgs, Events, Reading, SameWord, Blanks;
    TextIsReading(m.text, q.arg, q.k);
    l := Text(q.kind, q.word, q.gap, q.arg, q.k);
    OneEventOf(EventOf(l));
    Ends(q, NL, Step(m, NL).out, l);
  }

  lemma TextIsNoEvent(text: seq<byte>)
    ensures Events([ArgText(text)]) == []
  {
    assert [ArgText(text)][1..] == [];
  }

  /** What the machine has collected is a reading of the bytes. */
  lemma TextIsReading(t: WireMachine.Text, arg: seq<byte>, k: nat)
    requires 1 <= k <= |arg| && IsTextOf(t, arg, k) && (t.Indexed? ==> |t.raw| >= 1)
    ensures TextOf(t) == Reading(arg, k)
  {
    if t.Indexed? {
      assert arg[..k] == arg && arg[k..] == [];
      assert Kept(arg) + [] == Kept(arg);
    }
  }

  lemma CollectReads(t: WireMachine.Text, arg: seq<byte>, k: nat, b: byte)
    requires 1 <= k <= |arg| && IsTextOf(t, arg, k) && b != NL
    ensures IsTextOf(Collect(t, b), arg + [b], if t.Indexed? then k + 1 else k)
  {
    var more := arg + [b];
    if t.Indexed? {
      assert more[1..] == arg[1..] + [b];
      HasCRMore(arg[1..], b);
    } else {
      assert more[..k] == arg[..k] && more[k..] == arg[k..] + [b];
      assert (arg[k..] + [b])[..|arg| - k] == arg[k..];
      var c: seq<byte> := if b == CR then [] else [b];
      assert WithoutCR(more[k..]) == WithoutCR(arg[k..]) + c;
      Regroup(Kept(arg[..k]), WithoutCR(arg[k..]), c);
      assert Reading(arg, k) + [] == Reading(arg, k);
    }
  }

  lemma HasCRMore(s: seq<byte>, b: byte)
    ensures HasCR(s + [b]) <==> HasCR(s) || b == CR
  {
    assert (s + [b])[|s|] == b;
    assert forall k :: 0 <= k < |s| ==> (s + [b])[k] == s[k];
  }

  lemma BodyStep(q: Partial, m: Machine, b: byte) returns (q': Partial)
    requires q.InBody? && Fits(q, m) && WireMachine.Valid(m)
    ensures var st := Step(m, b); st.Next? && Goes(q, b, st.out, st.m, [], q')
  {
    hide Reading, AreFields, IsHead;
    var l := q.l;
    if |m.got| < m.msg.size {
      q' := InBody(l.(body := l.body + [b]));
      GoesOn(q, b, Step(m, b).m, q');
    } else {
      q' := InEnd(l.(end := [b]));
      OneEventOf(Msg(m.msg, m.got));
      assert [b][1..] == [];
      assert [] + PartialBytes(q') == PartialBytes(q');
    }
  }

  lemma EndStep(q: Partial, m: Machine, b: byte) returns (done: seq<Line>, q': Partial)
    requires q.InEnd? && Fits(q, m)
    ensures var st := Step(m, b); st.Next? && Goes(q, b, st.out, st.m, done, q')
  {
    hide Reading, AreFields, IsHead, AreArgs;
    var l := q.l;
    if b == NL {
      Ends(q, b, [], l);
      done, q' := [l], InWord([]);
    } else {
      done, q' := [], InEnd(l.(end := l.end + [b]));
      assert (l.end + [b])[1..] == l.end[1..] + [b];
      assert [] + PartialBytes(q') == PartialBytes(q');
      assert PartialBytes(q) + [b] == PartialBytes(q');
    }
  }

  lemma StepParses(q: Partial, m: Machine, b: byte) returns (done: seq<Line>, q': Partial)
    requires Fits(q, m) && WireMachine.Valid(m) && Step(m, b).Next?
    ensures var st := Step(m, b); Goes(q, b, st.out, st.m, done, q')
  {
    hide Step, Goes;
    done := [];
    match q
    case InWord(_) => done, q' := WordStep(q, m, b);
    case InGap(_, _, _) => q' := GapStep(q, m, b);
    case InArg(_, _, _, _, _) => done, q' := ArgStep(q, m, b);
    case InBody(_) => q' := BodyStep(q, m, b);
    case InEnd(_) => done, q' := EndStep(q, m, b);
  }

  lemma LinesHead(ls: seq<Line>)
    requires AreLines(ls) && ls != []
    ensures IsLine(ls[0]) && AreLines(ls[1..])
    ensures AllBytes(ls) == BytesOf(ls[0]) + AllBytes(ls[1..])
    ensures AllEvents(ls) == [EventOf(ls[0])] + AllEvents(ls[1..])
  {
  }

  lemma {:induction false} LinesAppend(a: seq<Line>, b: seq<Line>)
    requires AreLines(a) && AreLines(b)
    ensures AreLines(a + b) && AllBytes(a + b) == AllBytes(a) + AllBytes(b)
    ensures AllEvents(a + b) == AllEvents(a) + AllEvents(b)
    decreases |a|
  {
    hide IsLine;
    if a == [] {
      assert a + b == b;
      assert [] + AllBytes(b) == AllBytes(b) && [] + AllEvents(b) == AllEvents(b);
    } else {
      hide AllBytes, AllEvents, EventOf, BytesOf;
      var first, more := a[0], a[1..];
      assert (a + b)[0] == first && (a + b)[1..] == more + b;
      LinesAppend(more, b);
      LinesHead(a);
      LinesHead(a + b);
      Regroup(BytesOf(first), AllBytes(more), AllBytes(b));
      Regroup([EventOf(first)], AllEvents(more), AllEvents(b));
    }
  }

  /** So far `before` was handed on for the lines that have ended, and the event of the
      last one if that comes early. */
  ghost predicate HandedOn(log: seq<Output>, before: seq<ParserEvent>, q: Partial) {
    (q.InEnd? ==> IsLine(q.l)) && Events(log) == before + Early(q)
  }

  ghost predicate Parsed(q: Partial, s: seq<byte>, before: seq<ParserEvent>, m: Machine, log: seq<Output>,
                         ls: seq<Line>, q': Partial) {
    && AreLines(ls) && Fits(q', m)
    && (q.InBody? || q.InEnd? ==> q.l.Message?) && (q'.InBody? || q'.InEnd? ==> q'.l.Message?)
    && PartialBytes(q) + s == AllBytes(ls) + PartialBytes(q')
    && HandedOn(log, before + AllEvents(ls), q')
  }

  lemma {:induction false} RunParses(q: Partial, m: Machine, s: seq<byte>, at: nat, log: seq<Output>,
                                     before: seq<ParserEvent>) returns (ls: seq<Line>, q': Partial)
    requires WireMachine.Valid(m) && Fits(q, m) && HandedOn(log, before, q) && Run(m, s, at, log).Live?
    ensures var r := Run(m, s, at, log); Parsed(q, s, before, r.m, r.log, ls, q')
    decreases |s|
  {
    if s == [] {
      NothingParsed(q, m, log, before);
      ls, q' := [], q;
    } else {
      hide Step, Fits, Goes, Parsed, Events, HandedOn;
      var st := Step(m, s[0]);
      var done, q1 := StepParses(q, m, s[0]);
      GoesHandsOn(q, s[0], st.out, st.m, done, q1, log, before);
      var more;
      more, q' := RunParses(q1, st.m, s[1..], at + 1, log + st.out, before + AllEvents(done));
      var r := Run(st.m, s[1..], at + 1, log + st.out);
      ls := done + more;
      ParsedMore(q, s, before, st.out, st.m, done, q1, r.m, r.log, more, q');
    }
  }

  lemma NothingParsed(q: Partial, m: Machine, log: seq<Output>, before: seq<ParserEvent>)
    requires Fits(q, m) && HandedOn(log, before, q)
    ensures Parsed(q, [], before, m, log, [], q)
  {
    assert before + AllEvents([]) == before;
    assert PartialBytes(q) + [] == PartialBytes(q) == [] + PartialBytes(q);
  }

  lemma GoesHandsOn(q: Partial, b: byte, out: seq<Output>, m: Machine, done: seq<Line>, q1: Partial,
                    log: seq<Output>, before: seq<ParserEvent>)
    requires Goes(q, b, out, m, done, q1) && HandedOn(log, before, q)
    ensures AreLines(done) && Fits(q1, m) && HandedOn(log + out, before + AllEvents(done), q1)
  {
    hide Events;
    EventsAppend(log, out);
    Regroup(before, Early(q), Events(out));
    Regroup(before, AllEvents(done), Early(q1));
  }

  lemma ParsedMore(q: Partial, s: seq<byte>, before: seq<ParserEvent>, out: seq<Output>, m1: Machine, done: seq<Line>,
                   q1: Partial, m: Machine, log: seq<Output>, more: seq<Line>, q': Partial)
    requires s != [] && Goes(q, s[0], out, m1, done, q1) && AreLines(done)
    requires Parsed(q1, s[1..], before + AllEvents(done), m, log, more, q')
    ensures Parsed(q, s, before, m, log, done + more, q')
  {
    hide Events, Fits, IsLine, HandedOn, AllBytes, AllEvents, PartialBytes;
    LinesAppend(done, more);
    Regroup(before, AllEvents(done), AllEvents(more));
    assert [s[0]] + s[1..] == s;
    Regroup(PartialBytes(q), [s[0]], s[1..]);
    Regroup(AllBytes(done), PartialBytes(q1), s[1..]);
    Regroup(AllBytes(done), AllBytes(more), PartialBytes(q'));
  }

  /** A cut fixes how many bytes of an argument came in one buffer. */
  lemma CutFits(q: Partial, m: Machine)
    requires Fits(q, m) && WireMachine.Valid(m)
    ensures Fits(q, Cut(m))
  {
    if q.InArg? {
      hide Reading;
      TextIsReading(m.text, q.arg, q.k);
    }
  }

  lemma {:induction false} FeedParses(q: Partial, m: Machine, chunks: seq<seq<byte>>, at: nat, log: seq<Output>,
                                      before: seq<ParserEvent>) returns (ls: seq<Line>, q': Partial)
    requires WireMachine.Valid(m) && Fits(q, m) && HandedOn(log, before, q)
    requires FeedAll(Live(m, at, log), chunks).Live?
    ensures var r := FeedAll(Live(m, at, log), chunks); Parsed(q, Flatten(chunks), before, r.m, r.log, ls, q')
    decreases |chunks|
  {
    hide Run, Fits, HandedOn, Parsed, Events;
    if chunks == [] {
      NothingParsed(q, m, log, before);
      ls, q' := [], q;
    } else {
      var r := Run(m, chunks[0], at, log);
      if r.Dead? {
        FeedAllDead(r, chunks[1..]);
      }
      var first, q1 := RunParses(q, m, chunks[0], at, log, before);
      ParsedFits(q, chunks[0], before, r.m, r.log, first, q1);
      CutFits(q1, r.m);
      var more;
      more, q' := FeedParses(q1, Cut(r.m), chunks[1..], r.at, r.log, before + AllEvents(first));
      var f := FeedAll(Live(Cut(r.m), r.at, r.log), chunks[1..]);
      ls := first + more;
      ParsedThen(q, chunks[0], before, r.m, r.log, first, q1, Flatten(chunks[1..]), f.m, f.log, more, q');
    }
  }

  lemma ParsedFits(q: Partial, s: seq<byte>, before: seq<ParserEvent>, m: Machine, log: seq<Output>, ls: seq<Line>,
                   q': Partial)
    requires Parsed(q, s, before, m, log, ls, q')
    ensures AreLines(ls) && Fits(q', m) && HandedOn(log, before + AllEvents(ls), q')
  {
  }

  lemma ParsedThen(q: Partial, s: seq<byte>, before: seq<ParserEvent>, m1: Machine, log1: seq<Output>, first: seq<Line>,
                   q1: Partial, s': seq<byte>, m: Machine, log: seq<Output>, more: seq<Line>, q': Partial)
    requires AreLines(first) && Parsed(q, s, before, m1, log1, first, q1)
    requires Parsed(q1, s', before + AllEvents(first), m, log, more, q')
    ensures Parsed(q, s + s', before, m, log, first + more, q')
  {
    hide Events, Fits, IsLine, HandedOn, AllBytes, AllEvents, PartialBytes;
    LinesAppend(first, more);
    Regroup(before, AllEvents(first), AllEvents(more));
    Regroup(PartialBytes(q), s, s');
    Regroup(AllBytes(first), PartialBytes(q1), s');
    Regroup(AllBytes(first), AllBytes(more), PartialBytes(q'));
  }

  /** Whatever is read to the start state, in whatever buffers it came, is lines of the
      protocol, and what was handed on are their events. */
  lemma ReadIsLines(chunks: seq<seq<byte>>) returns (ls: seq<Line>)
    requires var r := FeedAll(NEW, chunks); r.Live? && r.m == START
    ensures AreLines(ls) && AllBytes(ls) == Flatten(chunks)
    ensures Events(FeedAll(NEW, chunks).log) == AllEvents(ls)
  {
    var r := FeedAll(NEW, chunks);
    assert Fits(InWord([]), START) && HandedOn([], [], InWord([]));
    hide FeedAll, Fits, HandedOn, Events;
    var q;
    ls, q := FeedParses(InWord([]), START, chunks, 0, [], []);
    assert q == InWord([]) by { AtStart(q); }
    assert [] + Flatten(chunks) == Flatten(chunks) && AllBytes(ls) + [] == AllBytes(ls);
    assert [] + AllEvents(ls) + [] == AllEvents(ls);
  }

  lemma AtStart(q: Partial)
    requires Fits(q, START)
    ensures q == InWord([])
  {
  }

  // --------------------------------------------------- all such lines are read

  /** `s` takes the machine from `m` to `m'` and puts out `out`, whatever follows. */
  ghost predicate Takes(m: Machine, s: seq<byte>, m': Machine, out: seq<Output>)
    requires WireMachine.Valid(m) && WireMachine.Valid(m')
  {
    forall rest: seq<byte>, at: nat, log: seq<Output> :: TakesBefore(m, s, m', out, rest, at, log)
  }

  ghost predicate TakesBefore(m: Machine, s: seq<byte>, m': Machine, out: seq<Output>,
                              rest: seq<byte>, at: nat, log: seq<Output>)
    requires WireMachine.Valid(m) && WireMachine.Valid(m')
  {
    Run(m, s + rest, at, log) == Run(m', rest, at + |s|, log + out)
  }

  lemma ReadsTakes(m: Machine, s: seq<byte>, m': Machine, out: seq<Output>)
    requires WireMachine.Valid(m) && WireMachine.Valid(m') && Reads(m, s, m', out)
    ensures Takes(m, s, m', out)
  {
    hide Run, Clean;
    forall rest: seq<byte>, at: nat, log: seq<Output>
      ensures TakesBefore(m, s, m', out, rest, at, log)
    {
      assert ReadsBefore(m, s, m', out, rest, at, log);
    }
  }

  lemma TakesThen(m: Machine, a: seq<byte>, m1: Machine, o1: seq<Output>, b: seq<byte>, m2: Machine, o2: seq<Output>)
    requires WireMachine.Valid(m) && WireMachine.Valid(m1) && WireMachine.Valid(m2)
    requires Takes(m, a, m1, o1) && Takes(m1, b, m2, o2)
    ensures Takes(m, a + b, m2, o1 + o2)
  {
    hide Run;
    forall rest: seq<byte>, at: nat, log: seq<Output>
      ensures TakesBefore(m, a + b, m2, o1 + o2, rest, at, log)
    {
      assert TakesBefore(m, a, m1, o1, b + rest, at, log);
      assert TakesBefore(m1, b, m2, o2, rest, at + |a|, log + o1);
      Regroup(a, b, rest);
      Regroup(log, o1, o2);
    }
  }

  lemma TakesByte(m: Machine, b: byte)
    requires WireMachine.Valid(m) && Step(m, b).Next?
    ensures Takes(m, [b], Step(m, b).m, Step(m, b).out)
  {
    hide Step;
    forall rest: seq<byte>, at: nat, log: seq<Output>
      ensures TakesBefore(m, [b], Step(m, b).m, Step(m, b).out, rest, at, log)
    {
      assert ([b] + rest)[1..] == rest && ([b] + rest)[0] == b;
    }
  }

  lemma TakesNothing(m: Machine)
    requires WireMachine.Valid(m)
    ensures Takes(m, [], m, [])
  {
    hide Run;
    forall rest: seq<byte>, at: nat, log: seq<Output>
      ensures TakesBefore(m, [], m, [], rest, at, log)
    {
      assert [] + rest == rest && log + [] == log;
    }
  }

  /** Bytes that leave the machine where it is. */
  lemma {:induction false} TakesIgnored(m: Machine, s: seq<byte>)
    requires WireMachine.Valid(m) && forall k :: 0 <= k < |s| ==> Step(m, s[k]) == Next(m, [])
    ensures Takes(m, s, m, [])
    decreases |s|
  {
    hide Takes, Step;
    if s == [] {
      TakesNothing(m);
    } else {
      TakesByte(m, s[0]);
      TakesIgnored(m, s[1..]);
      TakesThen(m, [s[0]], m, [], s[1..], m, []);
      assert [s[0]] + s[1..] == s;
      NoOutput();
    }
  }

  lemma NoOutput()
    ensures var none: seq<Output> := []; none + none == none
  {
  }

  function CollectAll(t: WireMachine.Text, s: seq<byte>): WireMachine.Text {
    if s == [] then t else Collect(CollectAll(t, s[..|s| - 1]), s[|s| - 1])
  }

  lemma CollectValid(t: WireMachine.Text, s: seq<byte>)
    requires t.Indexed? ==> |t.raw| >= if t.drop then 2 else 1
    ensures var t' := CollectAll(t, s); t'.Indexed? ==> |t'.raw| >= if t'.drop then 2 else 1
  {
  }

  lemma {:induction false} TakesArg(kind: State, h: bool, t: WireMachine.Text, s: seq<byte>)
    requires WireMachine.Valid(Arg(kind, h, t)) && NoNL(s)
    ensures WireMachine.Valid(Arg(kind, h, CollectAll(t, s)))
    ensures Takes(Arg(kind, h, t), s, Arg(kind, h, CollectAll(t, s)), [])
    decreases |s|
  {
    hide Takes;
    CollectValid(t, s);
    if s == [] {
      TakesNothing(Arg(kind, h, t));
    } else {
      var init, b := s[..|s| - 1], s[|s| - 1];
      var m1 := Arg(kind, h, CollectAll(t, init));
      TakesArg(kind, h, t, init);
      TakesByte(m1, b);
      assert b != NL;
      TakesThen(Arg(kind, h, t), init, m1, [], [b], Step(m1, b).m, []);
      assert init + [b] == s;
      NoOutput();
    }
  }

  lemma {:induction false} CollectIndexed(first: byte, s: seq<byte>)
    ensures CollectAll(Indexed([first], false), s) == Indexed([first] + s, HasCR(s))
  {
    if s != [] {
      var init := s[..|s| - 1];
      CollectIndexed(first, init);
      HasCRMore(init, s[|s| - 1]);
      assert init + [s[|s| - 1]] == s;
      assert [first] + init + [s[|s| - 1]] == [first] + s;
    }
  }

  lemma {:induction false} CollectSpilled(buf: seq<byte>, s: seq<byte>)
    ensures CollectAll(Spilled(buf), s) == Spilled(buf + WithoutCR(s))
  {
    if s == [] {
      assert buf + [] == buf;
    } else {
      CollectSpilled(buf, s[..|s| - 1]);
      Regroup(buf, WithoutCR(s[..|s| - 1]), if s[|s| - 1] == CR then [] else [s[|s| - 1]]);
      assert buf + WithoutCR(s[..|s| - 1]) + [] == buf + WithoutCR(s[..|s| - 1]);
    }
  }

  /** An operation of each kind, for its word. */
  function OpOf(kind: Kind): (op: Op)
    ensures WordOf(op) == WordFor(kind) && (op.HMsgOp? <==> kind.HMsgKind?)
    ensures op.PingOp? || op.PongOp? || op.OkOp? <==> IsPlain(kind)
  {
    match kind
    case PingKind => PingOp
    case PongKind => PongOp
    case OkKind => OkOp
    case ErrKind => ErrOp([])
    case InfoKind => InfoOp([])
    case MsgKind => MsgOp([], 0, None, [])
    case HMsgKind => HMsgOp([], 0, None, 0, [])
  }

  function ArgStateOf(kind: Kind): State {
    match kind case ErrKind => MINUS_ERR_ARG case InfoKind => INFO_ARG case _ => MSG_ARG
  }

  /** A word, a gap and the first bytes of an argument. */
  lemma TakesHead(kind: Kind, word: seq<byte>, gap: seq<byte>, a: seq<byte>)
    requires !IsPlain(kind) && SameWord(word, WordFor(kind)) && Blanks(gap) && IsArgument(a)
    ensures var m := Arg(ArgStateOf(kind), kind.HMsgKind?, Indexed(a, HasCR(a[1..])));
            WireMachine.Valid(m) && Takes(START, word + gap + a, m, [])
  {
    hide Takes, Reads, HasCR;
    var op := OpOf(kind);
    var w, spc := Keyword(WordState(op), op.HMsgOp?), Keyword(SpaceState(op), op.HMsgOp?);
    ReadsWord(op, word);
    ReadsTakes(START, word, w, []);
    GapTaken(op, gap);
    NoOutput();
    TakesThen(START, word, w, [], gap, spc, []);
    var m1 := Arg(ArgStateOf(kind), op.HMsgOp?, Indexed([a[0]], false));
    FirstByte(kind, a[0]);
    TakesByte(spc, a[0]);
    TakesThen(START, word + gap, spc, [], [a[0]], m1, []);
    TakesArg(ArgStateOf(kind), op.HMsgOp?, Indexed([a[0]], false), a[1..]);
    CollectIndexed(a[0], a[1..]);
    assert [a[0]] + a[1..] == a;
    var m2 := Arg(ArgStateOf(kind), op.HMsgOp?, Indexed(a, HasCR(a[1..])));
    TakesThen(START, word + gap + [a[0]], m1, [], a[1..], m2, []);
    Regroup(word + gap, [a[0]], a[1..]);
  }

  lemma GapTaken(op: Op, gap: seq<byte>)
    requires !(op.PingOp? || op.PongOp? || op.OkOp?) && Blanks(gap)
    ensures Takes(Keyword(WordState(op), op.HMsgOp?), gap, Keyword(SpaceState(op), op.HMsgOp?), [])
  {
    SilentGap(op, gap, true);
    assert forall k :: 0 <= k < |gap| ==> Blank(gap[k]);
    ReadsSilently(Keyword(WordState(op), op.HMsgOp?), gap);
    ReadsTakes(Keyword(WordState(op), op.HMsgOp?), gap, Keyword(SpaceState(op), op.HMsgOp?), []);
  }

  lemma FirstByte(kind: Kind, b: byte)
    requires !IsPlain(kind) && !Blank(b)
    ensures var op := OpOf(kind);
            Step(Keyword(SpaceState(op), op.HMsgOp?), b)
            == Next(Arg(ArgStateOf(kind), op.HMsgOp?, Indexed([b], false)), [])
  {
    hide KeywordMove;
    BeginMove(OpOf(kind), b);
  }

  /** What follows the argument of a line. */
  function TailOf(l: Line): seq<byte>
    requires !l.Plain?
  {
    match l
    case Text(_, _, _, _, _) => [NL]
    case Message(_, _, _, _, _, _, _, body, end) => [NL] + body + end + [NL]
  }

  lemma TakesTail(l: Line, t: WireMachine.Text) returns (out: seq<Output>)
    requires IsLine(l) && !l.Plain? && WireMachine.Valid(Arg(ArgStateOf(l.kind), l.kind.HMsgKind?, t))
    requires TextOf(t) == Reading(l.arg, l.k)
    ensures Takes(Arg(ArgStateOf(l.kind), l.kind.HMsgKind?, t), TailOf(l), START, out) && Events(out) == [EventOf(l)]
  {
    hide Takes, Reading;
    var m := Arg(ArgStateOf(l.kind), l.kind.HMsgKind?, t);
    if l.Text? {
      TakesByte(m, NL);
      out := [Event(EventOf(l))];
      OneEventOf(EventOf(l));
    } else {
      out := TakesMessage(l, t);
    }
  }

  lemma TakesMessage(l: Line, t: WireMachine.Text) returns (out: seq<Output>)
    requires IsLine(l) && l.Message? && WireMachine.Valid(Arg(MSG_ARG, l.kind.HMsgKind?, t))
    requires TextOf(t) == Reading(l.arg, l.k)
    ensures Takes(Arg(MSG_ARG, l.kind.HMsgKind?, t), TailOf(l), START, out) && Events(out) == [EventOf(l)]
  {
    hide Takes, Reading, ReadArgs, Fields, IsHead, Events;
    LineCuts(l);
    var text := Reading(l.arg, l.k);
    FieldsOfWeave(l.fields, l.seps);
    ArgsIff(l.kind.HMsgKind?, text);
    var m, msg := Arg(MSG_ARG, l.kind.HMsgKind?, t), ArgsOf(l.kind.HMsgKind?, l.fields);
    assert Step(m, NL) == Next(Payload(msg, []), [ArgText(text)]);
    TakesByte(m, NL);
    TakesBody(msg, l.body, l.end);
    TakesThen(m, [NL], Payload(msg, []), [ArgText(text)], l.body + l.end + [NL], START, [Event(Msg(msg, l.body))]);
    assert [NL] + (l.body + l.end + [NL]) == TailOf(l);
    out := [ArgText(text)] + [Event(Msg(msg, l.body))];
    EventsAppend([ArgText(text)], [Event(Msg(msg, l.body))]);
    TextIsNoEvent(text);
    OneEventOf(Msg(msg, l.body));
  }

  lemma TakesBody(msg: MsgArg, body: seq<byte>, end: seq<byte>)
    requires msg.size == |body| && end != [] && NoNL(end[1..])
    ensures Takes(Payload(msg, []), body + end + [NL], START, [Event(Msg(msg, body))])
  {
    hide Takes;
    var m, full, after, e := Payload(msg, []), Payload(msg, body), Keyword(MSG_END, false), [Event(Msg(msg, body))];
    ReadsBodyBytes(msg, body);
    ReadsTakes(m, body, full, []);
    TakesByte(full, end[0]);
    TakesThen(m, body, full, [], [end[0]], after, e);
    assert [] + e == e && e + [] == e;
    TakesIgnored(after, end[1..]);
    TakesThen(m, body + [end[0]], after, e, end[1..], after, []);
    Regroup(body, [end[0]], end[1..]);
    assert [end[0]] + end[1..] == end;
    TakesByte(after, NL);
    TakesThen(m, body + end, after, e, [NL], START, []);
  }

  lemma TakesPlain(l: Line)
    requires IsLine(l) && l.Plain?
    ensures Takes(START, BytesOf(l), START, [Event(EventOf(l))])
  {
    hide Takes, Reads, KeywordMove;
    var op := OpOf(l.kind);
    var m, e := Keyword(WordState(op), false), [Event(EventOf(l))];
    ReadsWord(op, l.word);
    ReadsTakes(START, l.word, m, []);
    PlainMove(WordState(op), NL);
    forall k | 0 <= k < |l.ignored|
      ensures Step(m, l.ignored[k]) == Next(m, [])
    {
      PlainMove(WordState(op), l.ignored[k]);
    }
    TakesIgnored(m, l.ignored);
    NoOutput();
    TakesThen(START, l.word, m, [], l.ignored, m, []);
    TakesByte(m, NL);
    TakesThen(START, l.word + l.ignored, m, [], [NL], START, e);
    assert [] + e == e;
  }

  /** A line whose argument comes in one buffer, with what is before and behind it. */
  lemma TakesLine(l: Line) returns (out: seq<Output>)
    requires IsLine(l) && (l.Plain? || l.k == |l.arg|)
    ensures Takes(START, BytesOf(l), START, out) && Events(out) == [EventOf(l)]
  {
    hide Takes, Events, Reading;
    if l.Plain? {
      TakesPlain(l);
      out := [Event(EventOf(l))];
      OneEventOf(EventOf(l));
    } else {
      out := TakesArgLine(l);
    }
  }

  lemma TakesArgLine(l: Line) returns (out: seq<Output>)
    requires IsLine(l) && !l.Plain? && l.k == |l.arg|
    ensures Takes(START, BytesOf(l), START, out) && Events(out) == [EventOf(l)]
  {
    hide Takes, Events, Reading, AreArgs, AreFields;
    TakesHead(l.kind, l.word, l.gap, l.arg);
    var t := Indexed(l.arg, HasCR(l.arg[1..]));
    TextIsReading(t, l.arg, l.k);
    out := TakesTail(l, t);
    TakesThen(START, l.word + l.gap + l.arg, Arg(ArgStateOf(l.kind), l.kind.HMsgKind?, t), [], TailOf(l), START, out);
    assert [] + out == out;
    TailEnds(l);
  }

  lemma {:induction false} TakesLines(ls: seq<Line>) returns (out: seq<Output>)
    requires AreLines(ls) && forall i :: 0 <= i < |ls| ==> ls[i].Plain? || ls[i].k == |ls[i].arg|
    ensures Takes(START, AllBytes(ls), START, out) && Events(out) == AllEvents(ls)
    decreases |ls|
  {
    hide Takes, IsLine, EventOf;
    if ls == [] {
      TakesNothing(START);
      out := [];
    } else {
      var first := TakesLine(ls[0]);
      var more := TakesLines(ls[1..]);
      TakesThen(START, BytesOf(ls[0]), START, first, AllBytes(ls[1..]), START, more);
      EventsAppend(first, more);
      out := first + more;
    }
  }

  /** In one buffer exactly the lines of the protocol are read to the start state, each
      argument with the reading it has in one buffer. */
  lemma LinesAreRead(ls: seq<Line>)
    requires AreLines(ls) && forall i :: 0 <= i < |ls| ==> ls[i].Plain? || ls[i].k == |ls[i].arg|
    ensures var r := Feed(NEW, AllBytes(ls)); r.Live? && r.m == START && Events(r.log) == AllEvents(ls)
  {
    var out := TakesLines(ls);
    assert TakesBefore(START, AllBytes(ls), START, out, [], 0, []);
    assert AllBytes(ls) + [] == AllBytes(ls) && [] + out == out;
  }

  // ---- and with each argument cut where it says

  /** Buffers in which the argument is cut after its first `k` bytes. */
  function ChunksOf(l: Line): seq<seq<byte>>
    requires l.Plain? || l.k <= |l.arg|
  {
    if l.Plain? then [BytesOf(l)] else [l.word + l.gap + l.arg[..l.k], l.arg[l.k..] + TailOf(l)]
  }

  lemma LineCuts(l: Line)
    requires IsLine(l)
    ensures l.Plain? || 1 <= l.k <= |l.arg|
  {
  }

  lemma FeedTakes(m: Machine, s: seq<byte>, m': Machine, out: seq<Output>, at: nat, log: seq<Output>)
    requires WireMachine.Valid(m) && WireMachine.Valid(m') && Takes(m, s, m', out)
    ensures Feed(Live(m, at, log), s) == Live(Cut(m'), at + |s|, log + out)
  {
    assert TakesBefore(m, s, m', out, [], at, log);
    assert s + [] == s;
  }

  lemma {:induction false} FeedAppend(o: Outcome, a: seq<seq<byte>>, b: seq<seq<byte>>)
    requires o.Live? ==> WireMachine.Valid(o.m)
    ensures FeedAll(o, a + b) == FeedAll(FeedAll(o, a), b)
    decreases |a|
  {
    hide Feed;
    if a == [] {
      assert a + b == b;
    } else {
      assert (a + b)[0] == a[0] && (a + b)[1..] == a[1..] + b;
      FeedAppend(Feed(o, a[0]), a[1..], b);
    }
  }

  lemma FeedLine(l: Line, at: nat, log: seq<Output>) returns (out: seq<Output>)
    requires IsLine(l)
    ensures Flatten(ChunksOf(l)) == BytesOf(l) && Events(out) == [EventOf(l)]
    ensures FeedAll(Live(START, at, log), ChunksOf(l)) == Live(START, at + |BytesOf(l)|, log + out)
  {
    hide Takes, Events, Reading, Feed;
    var cs := ChunksOf(l);
    if l.Plain? {
      TakesPlain(l);
      out := [Event(EventOf(l))];
      OneEventOf(EventOf(l));
      FeedTakes(START, BytesOf(l), START, out, at, log);
      assert cs[1..] == [] && BytesOf(l) + [] == BytesOf(l);
    } else {
      out := FeedArgLine(l, at, log);
    }
  }

  lemma FeedArgLine(l: Line, at: nat, log: seq<Output>) returns (out: seq<Output>)
    requires IsLine(l) && !l.Plain?
    ensures Flatten(ChunksOf(l)) == BytesOf(l) && Events(out) == [EventOf(l)]
    ensures FeedAll(Live(START, at, log), ChunksOf(l)) == Live(START, at + |BytesOf(l)|, log + out)
  {
    hide Takes, Events, Feed, Reading, IsHead;
    LineCuts(l);
    var cs := ChunksOf(l);
    var m := HeadTaken(l);
    FeedTakes(START, cs[0], m, [], at, log);
    out := RestTaken(l, m);
    FeedTakes(Cut(m), cs[1], START, out, at + |cs[0]|, log);
    var none: seq<Output> := [];
    assert log + none == log;
    TwoChunks(cs, l);
    FeedPair(Live(START, at, log), cs);
  }

  /** The first buffer ends in the argument. */
  lemma HeadTaken(l: Line) returns (m: Machine)
    requires IsLine(l) && !l.Plain?
    ensures m == Arg(ArgStateOf(l.kind), l.kind.HMsgKind?, Indexed(l.arg[..l.k], HasCR(l.arg[..l.k][1..])))
    ensures WireMachine.Valid(m) && Takes(START, l.word + l.gap + l.arg[..l.k], m, [])
  {
    hide Takes, Reading;
    assert l.arg[..l.k][1..] == l.arg[1..][..l.k - 1];
    TakesHead(l.kind, l.word, l.gap, l.arg[..l.k]);
    m := Arg(ArgStateOf(l.kind), l.kind.HMsgKind?, Indexed(l.arg[..l.k], HasCR(l.arg[..l.k][1..])));
  }

  /** The second begins with the argument spilled. */
  lemma RestTaken(l: Line, m: Machine) returns (out: seq<Output>)
    requires IsLine(l) && !l.Plain? && WireMachine.Valid(m)
    requires m == Arg(ArgStateOf(l.kind), l.kind.HMsgKind?, Indexed(l.arg[..l.k], HasCR(l.arg[..l.k][1..])))
    ensures Takes(Cut(m), l.arg[l.k..] + TailOf(l), START, out) && Events(out) == [EventOf(l)]
  {
    hide Takes, Events, AreFields, AreArgs;
    var kept, rest, s, h := Kept(l.arg[..l.k]), l.arg[l.k..], ArgStateOf(l.kind), l.kind.HMsgKind?;
    assert rest == l.arg[1..][l.k - 1..];
    TakesArg(s, h, Spilled(kept), rest);
    CollectSpilled(kept, rest);
    var t := Spilled(kept + WithoutCR(rest));
    hide IsLine, Reading;
    out := ReadingTaken(l, t);
    TakesThen(Cut(m), rest, Arg(s, h, t), [], TailOf(l), START, out);
    assert [] + out == out;
  }

  lemma ReadingTaken(l: Line, t: WireMachine.Text) returns (out: seq<Output>)
    requires IsLine(l) && !l.Plain? && t == Spilled(Kept(l.arg[..l.k]) + WithoutCR(l.arg[l.k..]))
    ensures Takes(Arg(ArgStateOf(l.kind), l.kind.HMsgKind?, t), TailOf(l), START, out) && Events(out) == [EventOf(l)]
  {
    hide Takes, Events, AreFields, AreArgs;
    out := TakesTail(l, t);
  }

  lemma FeedPair(o: Outcome, cs: seq<seq<byte>>)
    requires |cs| == 2 && (o.Live? ==> WireMachine.Valid(o.m))
    ensures FeedAll(o, cs) == Feed(Feed(o, cs[0]), cs[1])
  {
    hide Feed;
    assert cs[1..] == [cs[1]] && cs[1..][1..] == [];
    assert FeedAll(Feed(Feed(o, cs[0]), cs[1]), []) == Feed(Feed(o, cs[0]), cs[1]);
  }

  lemma TwoChunks(cs: seq<seq<byte>>, l: Line)
    requires !l.Plain? && l.k <= |l.arg| && cs == ChunksOf(l)
    ensures Flatten(cs) == BytesOf(l) && |cs[0]| + |cs[1]| == |BytesOf(l)|
  {
    hide BytesOf, TailOf;
    var head, a, rest, tail := l.word + l.gap, l.arg[..l.k], l.arg[l.k..], TailOf(l);
    FlattenPair(cs);
    assert a + rest == l.arg;
    Regroup(head + a, rest, tail);
    Regroup(head, a, rest);
    TailEnds(l);
  }

  lemma FlattenPair(cs: seq<seq<byte>>)
    requires |cs| == 2
    ensures Flatten(cs) == cs[0] + cs[1]
  {
    assert cs[1..] == [cs[1]];
    assert Flatten([cs[1]]) == cs[1];
  }

  lemma TailEnds(l: Line)
    requires !l.Plain?
    ensures l.word + l.gap + l.arg + TailOf(l) == BytesOf(l)
  {
    if l.Message? {
      Regroup(l.word + l.gap + l.arg, [NL] + l.body + l.end, [NL]);
      Regroup(l.word + l.gap + l.arg, [NL] + l.body, l.end);
      Regroup(l.word + l.gap + l.arg, [NL], l.body);
    }
  }

  lemma {:induction false} FeedLines(ls: seq<Line>, at: nat, log: seq<Output>)
    returns (chunks: seq<seq<byte>>, out: seq<Output>)
    requires AreLines(ls)
    ensures Flatten(chunks) == AllBytes(ls) && Events(out) == AllEvents(ls)
    ensures FeedAll(Live(START, at, log), chunks) == Live(START, at + |AllBytes(ls)|, log + out)
    decreases |ls|
  {
    hide IsLine, EventOf, Feed, Takes;
    if ls == [] {
      chunks, out := [], [];
      assert log + [] == log;
    } else {
      LineCuts(ls[0]);
      var first := FeedLine(ls[0], at, log);
      var cs, more := FeedLines(ls[1..], at + |BytesOf(ls[0])|, log + first);
      chunks, out := ChunksOf(ls[0]) + cs, first + more;
      FlattenAppend(ChunksOf(ls[0]), cs);
      EventsAppend(first, more);
      FeedAppend(Live(START, at, log), ChunksOf(ls[0]), cs);
      Regroup(log, first, more);
    }
  }

  ghost predicate ReadTo(chunks: seq<seq<byte>>, s: seq<byte>, events: seq<ParserEvent>) {
    Flatten(chunks) == s && var r := FeedAll(NEW, chunks); r.Live? && r.m == START && Events(r.log) == events
  }

  ghost predicate SpeltBy(ls: seq<Line>, s: seq<byte>, events: seq<ParserEvent>) {
    AreLines(ls) && AllBytes(ls) == s && AllEvents(ls) == events
  }

  /** The language: bytes can be read to the start state, with these events, exactly when
      they are lines of the protocol with these events. */
  lemma LanguageIff(s: seq<byte>, events: seq<ParserEvent>)
    ensures (exists chunks :: ReadTo(chunks, s, events)) <==> (exists ls :: SpeltBy(ls, s, events))
  {
    hide FeedAll, AreLines;
    forall chunks | ReadTo(chunks, s, events)
      ensures exists ls :: SpeltBy(ls, s, events)
    {
      var ls := ReadIsLines(chunks);
      assert SpeltBy(ls, s, events);
    }
    forall ls | SpeltBy(ls, s, events)
      ensures exists chunks :: ReadTo(chunks, s, events)
    {
      var chunks, out := FeedLines(ls, 0, []);
      assert [] + out == out;
      assert ReadTo(chunks, s, events);
    }
  }
}
