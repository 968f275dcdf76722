/** The client side of the NATS wire protocol as a machine that reads one byte
    at a time. A cut, the end of one buffer handed to the parser, is a separate
    input, because the parser treats the bytes of an argument differently once
    the argument has been spilled into a buffer of its own. */
module WireMachine {
  import opened Bytes

  const TAB: byte := 9
  const NL: byte := 10
  const CR: byte := 13
  const SPACE: byte := 32

  datatype State =
    | OP_START
    | OP_PLUS | OP_PLUS_O | OP_PLUS_OK
    | OP_MINUS | OP_MINUS_E | OP_MINUS_ER | OP_MINUS_ERR | OP_MINUS_ERR_SPC | MINUS_ERR_ARG
    | OP_M | OP_MS | OP_MSG | OP_MSG_SPC | MSG_ARG | MSG_PAYLOAD | MSG_END
    | OP_H
    | OP_P | OP_PI | OP_PIN | OP_PING | OP_PO | OP_PON | OP_PONG
    | OP_I | OP_IN | OP_INF | OP_INFO | OP_INFO_SPC | INFO_ARG

  /** `hdr` is -1 for a message that came without headers. */
  datatype MsgArg = MsgArg(subject: seq<byte>, reply: Option<seq<byte>>, sid: int, hdr: int, size: int)

  datatype ParserEvent =
    | Msg(msg: MsgArg, data: seq<byte>)
    | Ok
    | Err(data: seq<byte>)
    | Info(data: seq<byte>)
    | Ping
    | Pong

  datatype ParseError = BadByte(state: State) | BadArgs | BadSid | BadHdr | BadSize

  // ------------------------------------------------------------ keywords

  /** What a byte does in a state that collects nothing. */
  datatype Move = To(next: State) | Emit(event: ParserEvent) | Begin(arg: State) | Reject

  predicate Blank(b: byte) {
    b == SPACE || b == TAB
  }

  predicate Letter(b: byte, upper: char)
    requires 'A' <= upper <= 'Z'
  {
    b == upper as int || b == upper as int + 32
  }

  predicate IsArg(s: State) {
    s.MSG_ARG? || s.MINUS_ERR_ARG? || s.INFO_ARG?
  }

  predicate IsKeyword(s: State) {
    !IsArg(s) && !s.MSG_PAYLOAD?
  }

  function OnLetter(b: byte, upper: char, next: State): Move
    requires 'A' <= upper <= 'Z'
  {
    if Letter(b, upper) then To(next) else Reject
  }

  function OnStart(b: byte): Move {
    if Letter(b, 'M') then To(OP_M)
    else if Letter(b, 'H') then To(OP_H)
    else if Letter(b, 'P') then To(OP_P)
    else if b == '+' as int then To(OP_PLUS)
    else if b == '-' as int then To(OP_MINUS)
    else if Letter(b, 'I') then To(OP_I)
    else Reject
  }

  function KeywordMove(s: State, b: byte): (r: Move)
    requires IsKeyword(s)
    ensures r.To? ==> IsKeyword(r.next)
    ensures r.Begin? ==> IsArg(r.arg)
    ensures r.Emit? ==> (r.event.Ok? || r.event.Ping? || r.event.Pong?) && b == NL
  {
    match s
    case OP_START => OnStart(b)
    case OP_H => OnLetter(b, 'M', OP_M)
    case OP_M => OnLetter(b, 'S', OP_MS)
    case OP_MS => OnLetter(b, 'G', OP_MSG)
    case OP_MSG => if Blank(b) then To(OP_MSG_SPC) else Reject
    case OP_MSG_SPC => if Blank(b) then To(OP_MSG_SPC) else Begin(MSG_ARG)
    case MSG_END => if b == NL then To(OP_START) else To(MSG_END)
    case OP_PLUS => OnLetter(b, 'O', OP_PLUS_O)
    case OP_PLUS_O => OnLetter(b, 'K', OP_PLUS_OK)
    case OP_PLUS_OK => if b == NL then Emit(Ok) else To(OP_PLUS_OK)
    case OP_MINUS => OnLetter(b, 'E', OP_MINUS_E)
    case OP_MINUS_E => OnLetter(b, 'R', OP_MINUS_ER)
    case OP_MINUS_ER => OnLetter(b, 'R', OP_MINUS_ERR)
    case OP_MINUS_ERR => if Blank(b) then To(OP_MINUS_ERR_SPC) else Reject
    case OP_MINUS_ERR_SPC => if Blank(b) then To(OP_MINUS_ERR_SPC) else Begin(MINUS_ERR_ARG)
    case OP_P => if Letter(b, 'I') then To(OP_PI) else OnLetter(b, 'O', OP_PO)
    case OP_PO => OnLetter(b, 'N', OP_PON)
    case OP_PON => OnLetter(b, 'G', OP_PONG)
    case OP_PONG => if b == NL then Emit(Pong) else To(OP_PONG)
    case OP_PI => OnLetter(b, 'N', OP_PIN)
    case OP_PIN => OnLetter(b, 'G', OP_PING)
    case OP_PING => if b == NL then Emit(Ping) else To(OP_PING)
    case OP_I => OnLetter(b, 'N', OP_IN)
    case OP_IN => OnLetter(b, 'F', OP_INF)
    case OP_INF => OnLetter(b, 'O', OP_INFO)
    case OP_INFO => if Blank(b) then To(OP_INFO_SPC) else Reject
    case OP_INFO_SPC => if Blank(b) then To(OP_INFO_SPC) else Begin(INFO_ARG)
  }

  // ----------------------------------------------------- message arguments

  predicate Separator(b: byte) {
    b == SPACE || b == TAB || b == CR || b == NL
  }

  /** The separator-free runs of `current + s`, where `current` is a run that has
      already begun. */
  function Fields(s: seq<byte>, current: seq<byte>): seq<seq<byte>> {
    var done := if current == [] then [] else [current];
    if s == [] then done
    else if Separator(s[0]) then done + Fields(s[1..], [])
    else Fields(s[1..], current + [s[0]])
  }

  predicate Digit(b: byte) {
    '0' as int <= b <= '9' as int
  }

  /** The value of a run of decimal digits; -1 for no digits or anything else. */
  function DecimalValue(a: seq<byte>): int {
    if a == [] || exists k :: 0 <= k < |a| && !Digit(a[k]) then -1 else DigitsValue(a)
  }

  function DigitsValue(a: seq<byte>): (n: nat)
    requires forall k :: 0 <= k < |a| ==> Digit(a[k])
  {
    if a == [] then 0
    else
      assert Digit(a[|a| - 1]);
      DigitsValue(a[..|a| - 1]) * 10 + (a[|a| - 1] - '0' as int)
  }

  datatype Result<+T> = Good(value: T) | Bad(error: ParseError)

  function ReadMsgArgs(arg: seq<byte>): Result<MsgArg> {
    var f := Fields(arg, []);
    if |f| != 3 && |f| != 4 then Bad(BadArgs) else
    var ma := MsgArg(f[0], if |f| == 4 then Some(f[2]) else None, DecimalValue(f[1]), -1, DecimalValue(f[|f| - 1]));
    if ma.sid < 0 then Bad(BadSid)
    else if ma.size < 0 then Bad(BadSize)
    else Good(ma)
  }

  function ReadHeaderMsgArgs(arg: seq<byte>): Result<MsgArg> {
    var f := Fields(arg, []);
    if |f| != 4 && |f| != 5 then Bad(BadArgs) else
    var ma := MsgArg(f[0], if |f| == 5 then Some(f[2]) else None, DecimalValue(f[1]),
                     DecimalValue(f[|f| - 2]), DecimalValue(f[|f| - 1]));
    if ma.sid < 0 then Bad(BadSid)
    else if ma.hdr < 0 || ma.hdr > ma.size then Bad(BadHdr)
    else if ma.size < 0 then Bad(BadSize)
    else Good(ma)
  }

  function ReadArgs(headers: bool, arg: seq<byte>): (r: Result<MsgArg>)
    ensures r.Good? ==> r.value.sid >= 0 && r.value.size >= 0
    ensures r.Good? ==> if headers then 0 <= r.value.hdr <= r.value.size else r.value.hdr == -1
  {
    if headers then ReadHeaderMsgArgs(arg) else ReadMsgArgs(arg)
  }

  // ------------------------------------------------------------ the machine

  /** The bytes of an argument read so far. While they lie in one buffer they are
      kept as they came, with a note that a CR was among them; once spilled, CRs
      are no longer recorded. */
  datatype Text = Indexed(raw: seq<byte>, drop: bool) | Spilled(buf: seq<byte>)

  datatype Machine =
    | Keyword(state: State, headers: bool)
    | Arg(kind: State, headers: bool, text: Text)
    | Payload(msg: MsgArg, got: seq<byte>)

  const START := Keyword(OP_START, false)

  /** What the machine hands on: the text of each argument of a message, and the
      events given to the dispatcher. */
  datatype Output = ArgText(text: seq<byte>) | Event(event: ParserEvent)

  datatype StepResult = Next(m: Machine, out: seq<Output>) | Halt(out: seq<Output>, error: ParseError)

  predicate Valid(m: Machine) {
    match m
    case Keyword(s, headers) => IsKeyword(s)
    case Arg(k, headers, text) => IsArg(k) && (text.Indexed? ==> |text.raw| >= (if text.drop then 2 else 1))
    case Payload(msg, got) => |got| <= msg.size
  }

  /** Only the operations that carry a message remember whether it has headers. */
  predicate InMessage(s: State) {
    s.OP_H? || s.OP_M? || s.OP_MS? || s.OP_MSG? || s.OP_MSG_SPC? || s.MSG_ARG?
  }

  function Enter(s: State, from: State, headers: bool): Machine {
    Keyword(s, InMessage(s) && (if from.OP_START? then s.OP_H? else headers))
  }

  /** The text of an argument when it is complete, or spilled. */
  function TextOf(t: Text): seq<byte>
    requires t.Indexed? && t.drop ==> |t.raw| >= 1
  {
    match t
    case Indexed(raw, drop) => if drop then raw[..|raw| - 1] else raw
    case Spilled(buf) => buf
  }

  function Collect(t: Text, b: byte): Text {
    match t
    case Indexed(raw, drop) => Indexed(raw + [b], drop || b == CR)
    case Spilled(buf) => if b == CR then t else Spilled(buf + [b])
  }

  function FinishArg(kind: State, headers: bool, arg: seq<byte>): StepResult
    requires IsArg(kind)
  {
    match kind
    case MINUS_ERR_ARG => Next(START, [Event(Err(arg))])
    case INFO_ARG => Next(START, [Event(Info(arg))])
    case MSG_ARG =>
      match ReadArgs(headers, arg)
      case Bad(e) => Halt([ArgText(arg)], e)
      case Good(ma) => Next(Payload(ma, []), [ArgText(arg)])
  }

  function Step(m: Machine, b: byte): (r: StepResult)
    requires Valid(m)
    ensures r.Next? ==> Valid(r.m)
  {
    match m
    case Keyword(s, headers) => (
      match KeywordMove(s, b)
      case To(next) => Next(Enter(next, s, headers), [])
      case Emit(e) => Next(START, [Event(e)])
      case Begin(arg) => Next(Arg(arg, arg.MSG_ARG? && headers, Indexed([b], false)), [])
      case Reject => Halt([], BadByte(s))
    )
    case Arg(kind, headers, text) =>
      if b == NL then FinishArg(kind, headers, TextOf(text))
      else Next(Arg(kind, headers, Collect(text, b)), [])
    case Payload(msg, got) =>
      if |got| >= msg.size then Next(Keyword(MSG_END, false), [Event(Msg(msg, got))])
      else Next(Payload(msg, got + [b]), [])
  }

  function Cut(m: Machine): (r: Machine)
    requires Valid(m)
    ensures Valid(r)
  {
    if m.Arg? then m.(text := Spilled(TextOf(m.text))) else m
  }

  /** Where reading a stretch of bytes ends: in a state, or at the byte the machine
      refuses. `at` counts from the first byte ever read. */
  datatype Outcome =
    | Live(m: Machine, at: nat, log: seq<Output>)
    | Dead(at: nat, error: ParseError, log: seq<Output>)

  function Run(m: Machine, s: seq<byte>, at: nat, log: seq<Output>): (r: Outcome)
    requires Valid(m)
    ensures r.Live? ==> Valid(r.m) && r.at == at + |s|
    decreases |s|
  {
    if s == [] then Live(m, at, log)
    else
      match Step(m, s[0])
      case Halt(out, e) => Dead(at, e, log + out)
      case Next(m', out) => Run(m', s[1..], at + 1, log + out)
  }

  /** One call of `parse`: read the whole buffer, then cut. */
  function Feed(o: Outcome, chunk: seq<byte>): (r: Outcome)
    requires o.Live? ==> Valid(o.m)
    ensures r.Live? ==> Valid(r.m)
  {
    if o.Dead? then o else
    var r := Run(o.m, chunk, o.at, o.log);
    if r.Live? then r.(m := Cut(r.m)) else r
  }

  /** Successive calls of `parse`; nothing is read after a failure. */
  function FeedAll(o: Outcome, chunks: seq<seq<byte>>): (r: Outcome)
    requires o.Live? ==> Valid(o.m)
    ensures r.Live? ==> Valid(r.m)
    decreases |chunks|
  {
    if chunks == [] then o else FeedAll(Feed(o, chunks[0]), chunks[1..])
  }

  const NEW := Live(START, 0, [])

  /** The events given to the dispatcher, in order. */
  function Events(log: seq<Output>): seq<ParserEvent> {
    if log == [] then []
    else (if log[0].Event? then [log[0].event] else []) + Events(log[1..])
  }

  // ------------------------------------------------------------- basic laws

  lemma {:induction false} RunConcat(m: Machine, a: seq<byte>, b: seq<byte>, at: nat, log: seq<Output>)
    requires Valid(m)
    ensures var r := Run(m, a, at, log);
            Run(m, a + b, at, log) == if r.Live? then Run(r.m, b, r.at, r.log) else r
    decreases |a|
  {
    if a == [] {
      assert a + b == b;
    } else {
      assert (a + b)[1..] == a[1..] + b;
      var st := Step(m, a[0]);
      if st.Next? {
        RunConcat(st.m, a[1..], b, at + 1, log + st.out);
      }
    }
  }

  /** A message body is absorbed whatever its bytes are. */
  lemma {:induction false} RunPayload(msg: MsgArg, got: seq<byte>, s: seq<byte>, k: nat, at: nat, log: seq<Output>)
    requires k <= |s| && |got| + k <= msg.size
    ensures Run(Payload(msg, got), s, at, log) == Run(Payload(msg, got + s[..k]), s[k..], at + k, log)
    decreases k
  {
    hide KeywordMove, Run;
    if k == 0 {
      assert s[..0] == [] && s[0..] == s;
      assert got + s[..0] == got;
    } else {
      PayloadByte(msg, got, s, at, log);
      RunPayload(msg, got + [s[0]], s[1..], k - 1, at + 1, log);
      assert got + [s[0]] + s[1..][..k - 1] == got + s[..k];
      assert s[1..][k - 1..] == s[k..];
    }
  }

  lemma PayloadByte(msg: MsgArg, got: seq<byte>, s: seq<byte>, at: nat, log: seq<Output>)
    requires s != [] && |got| < msg.size
    ensures Run(Payload(msg, got), s, at, log) == Run(Payload(msg, got + [s[0]]), s[1..], at + 1, log)
  {
    hide KeywordMove;
    assert log + [] == log;
  }

  lemma EventsAppend(a: seq<Output>, b: seq<Output>)
    ensures Events(a + b) == Events(a) + Events(b)
  {
    if a == [] {
      assert a + b == b;
    } else {
      assert (a + b)[1..] == a[1..] + b;
    }
  }
}
