/** The incremental wire parser: it keeps an index into the caller's buffer, jumps
    over message bodies, and spills what is incomplete when a buffer ends. */
module Wire {
  import opened Bytes
  import opened WireMachine
  import opened Chunking

  /** The exception `parse` throws: where in the buffer, and why. */
  datatype Failure = Failure(index: nat, error: ParseError)

  const NEW_MSG_ARG := MsgArg([], None, -1, -1, -1)

  class Parser {
    var state: State
    var argStart: nat             // `as`
    var drop: nat
    var hdr: int
    var ma: MsgArg
    var argBuf: Option<seq<byte>>
    var msgBuf: Option<seq<byte>>
    var dispatched: seq<ParserEvent>  // what the dispatcher has been given
    ghost var log: seq<Output>
    ghost var at: nat                 // bytes read by completed calls
    ghost var failed: Option<ParseError>

    constructor ()
      ensures Valid() && Result() == NEW && dispatched == []
    {
      state, argStart, drop, hdr, ma := OP_START, 0, 0, 0, NEW_MSG_ARG;
      argBuf, msgBuf, dispatched := None, None, [];
      log, at, failed := [], 0, None;
    }

    // ------------------------------------------------------- abstraction

    ghost predicate Common()
      reads this
    {
      && failed.None?
      && -1 <= hdr <= 0
      && drop <= 1
      && (!IsArg(state) ==> drop == 0)
      && (IsKeyword(state) ==> argBuf.None?)
      && (msgBuf.Some? ==> state.MSG_PAYLOAD? && |msgBuf.value| <= ma.size)
      && (InMessage(state) ==> ma.hdr == -1)
      && (state.MSG_PAYLOAD? ==> ma.size >= 0)
      && dispatched == Events(log)
    }

    /** Between two calls: whatever is incomplete lies in a buffer of its own. */
    ghost predicate Ready()
      reads this
    {
      && Common()
      && (IsArg(state) ==> argBuf.Some?)
      && (state.MSG_PAYLOAD? ==> msgBuf.Some?)
    }

    /** After an exception only what was handed on still means something. */
    ghost predicate Valid()
      reads this
    {
      Ready() || (failed.Some? && dispatched == Events(log))
    }

    /** During a call, with the bytes before `i` dealt with: an argument not yet
        spilled is what `buf` holds from `argStart`, and a message body not yet
        spilled has been jumped over, possibly past the end of the buffer. */
    ghost predicate Reading(buf: seq<byte>, i: nat)
      reads this
    {
      && Common()
      && (IsArg(state) && argBuf.None? ==> argStart < i <= |buf| && (drop == 1 ==> argStart + 1 < i))
      && (state.MSG_PAYLOAD? && msgBuf.None? ==> argStart <= |buf| && i == argStart + ma.size)
      && (i > |buf| ==> state.MSG_PAYLOAD? && msgBuf.None?)
    }

    ghost function MachineAt(buf: seq<byte>, i: nat): (m: Machine)
      requires Reading(buf, i)
      reads this
      ensures WireMachine.Valid(m)
    {
      if IsKeyword(state) then Keyword(state, InMessage(state) && hdr >= 0)
      else if state.MSG_PAYLOAD? then
        Payload(ma, if msgBuf.Some? then msgBuf.value else buf[argStart..Upto(buf, i)])
      else
        Arg(state, state.MSG_ARG? && hdr >= 0,
            if argBuf.Some? then Spilled(argBuf.value) else Indexed(buf[argStart..i], drop == 1))
    }

    static ghost function Upto(buf: seq<byte>, i: nat): (n: nat)
      ensures n <= |buf|
    {
      if i <= |buf| then i else |buf|
    }

    /** What reading the rest of `buf` from here must come to. */
    ghost function Future(buf: seq<byte>, i: nat): Outcome
      requires Reading(buf, i)
      reads this
    {
      var n := Upto(buf, i);
      Run(MachineAt(buf, i), buf[n..], at + n, log)
    }

    /** The parser between two calls, as an outcome of the machine. */
    ghost function Result(): (o: Outcome)
      requires Valid()
      reads this
      ensures o.Live? ==> WireMachine.Valid(o.m)
    {
      if failed.Some? then Dead(at, failed.value, log)
      else Live(MachineAt([], 0), at, log)
    }

    // -------------------------------------------------------------- parse

    /** For every buffer, `Parse` goes exactly where the byte-at-a-time machine goes,
        and throws at the byte the machine refuses. */
    method Parse(buf: seq<byte>) returns (failure: Option<Failure>)
      requires Ready()
      modifies this
      ensures Valid() && Result() == Feed(old(Result()), buf)
      ensures old(dispatched) <= dispatched
      ensures failed.None? ==> failure.None?
      ensures failed.Some? ==> failure.Some? && failure.value.error == failed.value
      ensures failed.Some? ==> at == old(at) + failure.value.index
    {
      hide Run, Step, Events;
      var i := 0;
      ghost var start := MachineAt([], 0);
      assert buf[0..] == buf;
      while i < |buf|
        invariant Reading(buf, i) && at == old(at)
        invariant Future(buf, i) == Run(start, buf, old(at), old(log))
        invariant old(dispatched) <= dispatched
        decreases |buf| - i
      {
        var e: Option<ParseError>;
        i, e := ParseAt(buf, i);
        if e.Some? {
          GiveUp(i, e.value);
          return Some(Failure(i, e.value));
        }
        i := i + 1;
      }
      RunNothing(MachineAt(buf, i), at + |buf|, log);
      assert buf[|buf|..] == [];
      SpillRest(buf, i);
      failure := None;
    }

    /** The exception leaves the parser where it is; nothing more is read. */
    ghost method GiveUp(i: nat, error: ParseError)
      requires failed.None? && dispatched == Events(log)
      modifies this`at, this`failed
      ensures failed == Some(error) && at == old(at) + i
      ensures Valid() && Result() == Dead(old(at) + i, error, log)
    {
      at, failed := at + i, Some(error);
    }

    /** One turn of the loop: `j` is the last index it dealt with. */
    method ParseAt(buf: seq<byte>, i: nat) returns (j: nat, e: Option<ParseError>)
      requires i < |buf| && Reading(buf, i)
      modifies this
      ensures i <= j && at == old(at) && old(dispatched) <= dispatched == Events(log)
      ensures e.None? ==> Reading(buf, j + 1) && Future(buf, j + 1) == old(Future(buf, i))
      ensures e.Some? ==> failed == old(failed) && old(Future(buf, i)) == Dead(at + j, e.value, log)
    {
      hide Run, Step, Events;
      j, e := i, None;
      RunOne(MachineAt(buf, i), buf, i, at, log);
      if IsArg(state) {
        if buf[i] != NL {
          ArgByte(buf, i);
        } else if state.MSG_ARG? {
          e := EndOfMsgArg(buf, i);
          if e.None? {
            JumpOverBody(ma, buf, argStart, at, log);
            j := argStart + ma.size - 1;
          }
        } else {
          EndOfTextArg(buf, i);
        }
      } else if !state.MSG_PAYLOAD? {
        e := KeywordByte(buf, i);
      } else if msgBuf.Some? && |msgBuf.value| < ma.size {
        j := BodyBytes(buf, i);
      } else {
        AfterBody(buf, i);
      }
    }

    /** One byte took the parser where `st` says. */
    ghost predicate Took(st: StepResult, buf: seq<byte>, i: nat, before: seq<Output>)
      requires i < |buf|
      reads this
    {
      log == before + st.out && st.Next? && Reading(buf, i + 1) && MachineAt(buf, i + 1) == st.m
    }

    /** A byte in a state that collects nothing. */
    method KeywordByte(buf: seq<byte>, i: nat) returns (e: Option<ParseError>)
      requires i < |buf| && Reading(buf, i) && IsKeyword(state)
      modifies this
      ensures at == old(at) && failed == old(failed) && old(dispatched) <= dispatched == Events(log)
      ensures var st := Step(old(MachineAt(buf, i)), buf[i]);
              if e.None? then Took(st, buf, i, old(log)) else st == Halt([], e.value) && log == old(log)
    {
      hide KeywordMove, Events, Step;
      MovesOfMessages(state, buf[i]);
      KeywordStep(MachineAt(buf, i), buf[i]);
      assert log + [] == log;
      match KeywordMove(state, buf[i]) {
        case To(next) =>
          MoveTo(buf, i, next);
        case Emit(event) =>
          Dispatch(event);
          drop, state := 0, OP_START;
        case Begin(arg) =>
          state, argStart := arg, i;
          assert buf[i..i + 1] == [buf[i]];
        case Reject =>
          return Some(BadByte(state));
      }
      e := None;
    }

    /** From one state that collects nothing to another. */
    method MoveTo(buf: seq<byte>, i: nat, next: State)
      requires i < |buf| && Reading(buf, i) && IsKeyword(state) && KeywordMove(state, buf[i]) == To(next)
      modifies this`hdr, this`ma, this`drop, this`argStart, this`state
      ensures Reading(buf, i + 1) && MachineAt(buf, i + 1) == Enter(next, old(state), old(MachineAt(buf, i)).headers)
    {
      hide KeywordMove, Events;
      MovesOfMessages(state, buf[i]);
      if state.OP_START? && next.OP_M? {
        hdr, ma := -1, NEW_MSG_ARG;
      } else if state.OP_START? && next.OP_H? {
        hdr, ma := 0, NEW_MSG_ARG;
      } else if state.MSG_END? && next.OP_START? {
        drop, argStart := 0, i + 1;
      }
      state := next;
    }

    method Dispatch(event: ParserEvent)
      requires dispatched == Events(log)
      modifies this`dispatched, this`log
      ensures dispatched == old(dispatched) + [event] == Events(log) && log == old(log) + [Event(event)]
    {
      dispatched := dispatched + [event];
      EventsAppend(log, [Event(event)]);
      log := log + [Event(event)];
    }

    /** A byte of an argument other than the NL that ends it. */
    method ArgByte(buf: seq<byte>, i: nat)
      requires i < |buf| && Reading(buf, i) && IsArg(state) && buf[i] != NL
      modifies this`drop, this`argBuf
      ensures Took(Step(old(MachineAt(buf, i)), buf[i]), buf, i, old(log))
    {
      hide KeywordMove;
      var b := buf[i];
      if b == CR {
        drop := 1;
      } else if argBuf.Some? {
        argBuf := Some(argBuf.value + [b]);
      }
      assert argBuf.None? ==> buf[argStart..i + 1] == buf[argStart..i] + [b];
    }

    /** The text of an argument that ends before `i`. */
    method Argument(buf: seq<byte>, i: nat) returns (arg: seq<byte>)
      requires i < |buf| && Reading(buf, i) && IsArg(state)
      ensures arg == TextOf(MachineAt(buf, i).text)
    {
      if argBuf.None? {
        TextInBuffer(buf, argStart, i, drop);
      }
      arg := if argBuf.Some? then argBuf.value else buf[argStart..i - drop];
    }

    /** The NL that ends the arguments of a message. */
    method EndOfMsgArg(buf: seq<byte>, i: nat) returns (e: Option<ParseError>)
      requires i < |buf| && Reading(buf, i) && state.MSG_ARG? && buf[i] == NL
      modifies this
      ensures at == old(at) && failed == old(failed) && dispatched == old(dispatched) == Events(log)
      ensures var st := Step(old(MachineAt(buf, i)), buf[i]);
              && log == old(log) + st.out
              && (e.Some? ==> st.Halt? && st.error == e.value)
              && (e.None? ==> Common() && state.MSG_PAYLOAD? && msgBuf.None? && argStart == i + 1)
              && (e.None? ==> st == Next(Payload(ma, []), st.out))
    {
      hide KeywordMove, ReadArgs, Events;
      var arg := Argument(buf, i);
      e := ProcessMsgArgs(arg);
      TextIsNoEvent(log, arg);
      log := log + [ArgText(arg)];
      if e.None? {
        drop, argStart, state := 0, i + 1, MSG_PAYLOAD;
      }
    }

    /** The NL that ends the text of an error or of a server's information. */
    method EndOfTextArg(buf: seq<byte>, i: nat)
      requires i < |buf| && Reading(buf, i) && (state.INFO_ARG? || state.MINUS_ERR_ARG?) && buf[i] == NL
      modifies this
      ensures at == old(at) && old(dispatched) <= dispatched
      ensures Took(Step(old(MachineAt(buf, i)), buf[i]), buf, i, old(log))
    {
      hide Step, Events;
      var arg := Argument(buf, i);
      TextStep(MachineAt(buf, i));
      argBuf := None;
      Dispatch(if state.INFO_ARG? then Info(arg) else Err(arg));
      BackToStart(buf, i);
    }

    method BackToStart(buf: seq<byte>, i: nat)
      requires i < |buf| && IsArg(state) && Common() && argBuf.None?
      modifies this`drop, this`argStart, this`state
      ensures Reading(buf, i + 1) && MachineAt(buf, i + 1) == START
    {
      hide Events;
      drop, argStart, state := 0, i + 1, OP_START;
    }

    /** The byte after a complete body. */
    method AfterBody(buf: seq<byte>, i: nat)
      requires i < |buf| && Reading(buf, i) && state.MSG_PAYLOAD?
      requires msgBuf.Some? ==> |msgBuf.value| >= ma.size
      modifies this
      ensures at == old(at) && old(dispatched) <= dispatched
      ensures Took(Step(old(MachineAt(buf, i)), buf[i]), buf, i, old(log))
    {
      hide KeywordMove;
      Dispatch(Msg(ma, if msgBuf.Some? then msgBuf.value else buf[argStart..i]));
      argBuf, msgBuf, state := None, None, MSG_END;
    }

    /** Bytes of a body that began in an earlier buffer, as many as there are. */
    method BodyBytes(buf: seq<byte>, i: nat) returns (j: nat)
      requires i < |buf| && Reading(buf, i) && state.MSG_PAYLOAD?
      requires msgBuf.Some? && |msgBuf.value| < ma.size
      modifies this`msgBuf
      ensures i <= j < |buf| && Reading(buf, j + 1) && Future(buf, j + 1) == old(Future(buf, i))
    {
      hide Run;
      var toCopy := ma.size - |msgBuf.value|;
      var avail := |buf| - i;
      if avail < toCopy {
        toCopy := avail;
      }
      RunPayload(ma, msgBuf.value, buf[i..], toCopy, at + i, log);
      assert buf[i..][..toCopy] == buf[i..i + toCopy] && buf[i..][toCopy..] == buf[i + toCopy..];
      msgBuf := Some(msgBuf.value + buf[i..i + toCopy]);
      j := i + toCopy - 1;
    }

    /** At the end of a buffer: spill an incomplete argument or body. */
    method SpillRest(buf: seq<byte>, i: nat)
      requires |buf| <= i && Reading(buf, i)
      modifies this
      ensures Ready() && log == old(log) && dispatched == old(dispatched) && at == old(at) + |buf|
      ensures MachineAt([], 0) == Cut(old(MachineAt(buf, i)))
    {
      hide KeywordMove, Events;
      if IsArg(state) && argBuf.None? {
        TextInBuffer(buf, argStart, i, drop);
        argBuf := Some(buf[argStart..i - drop]);
      }
      if state.MSG_PAYLOAD? && msgBuf.None? {
        if argBuf.None? {
          CloneMsgArg();
        }
        msgBuf := Some(buf[argStart..]);
        assert buf[argStart..|buf|] == buf[argStart..];
      }
      at := at + |buf|;
    }

    /** Subject and reply are moved into a buffer of their own; they stay what they were. */
    method CloneMsgArg()
      modifies this`argBuf, this`ma
      ensures argBuf.Some? && ma == old(ma)
    {
      var s := |ma.subject|;
      var buf := ma.subject + if ma.reply.Some? then ma.reply.value else [];
      argBuf := Some(buf);
      ma := ma.(subject := buf[..s]);
      if ma.reply.Some? {
        ma := ma.(reply := Some(buf[s..]));
      }
    }

    // ------------------------------------------------------ message arguments

    method ProcessMsgArgs(arg: seq<byte>) returns (e: Option<ParseError>)
      requires ma.hdr == -1
      modifies this`ma
      ensures ReadArgs(hdr >= 0, arg) == if e.None? then Good(ma) else Bad(e.value)
    {
      if hdr >= 0 {
        e := ProcessHeaderMsgArgs(arg);
        return;
      }
      var args := SplitArgs(arg);
      if |args| == 3 {
        var sid := ProtoParseInt(args[1]);
        var size := ProtoParseInt(args[2]);
        ma := ma.(subject := args[0], sid := sid, reply := None, size := size);
      } else if |args| == 4 {
        var sid := ProtoParseInt(args[1]);
        var size := ProtoParseInt(args[3]);
        ma := ma.(subject := args[0], sid := sid, reply := Some(args[2]), size := size);
      } else {
        return Some(BadArgs);
      }
      if ma.sid < 0 {
        return Some(BadSid);
      }
      if ma.size < 0 {
        return Some(BadSize);
      }
      e := None;
    }

    method ProcessHeaderMsgArgs(arg: seq<byte>) returns (e: Option<ParseError>)
      modifies this`ma
      ensures ReadHeaderMsgArgs(arg) == if e.None? then Good(ma) else Bad(e.value)
    {
      var args := SplitArgs(arg);
      if |args| == 4 {
        var sid := ProtoParseInt(args[1]);
        var h := ProtoParseInt(args[2]);
        var size := ProtoParseInt(args[3]);
        ma := ma.(subject := args[0], sid := sid, reply := None, hdr := h, size := size);
      } else if |args| == 5 {
        var sid := ProtoParseInt(args[1]);
        var h := ProtoParseInt(args[3]);
        var size := ProtoParseInt(args[4]);
        ma := ma.(subject := args[0], sid := sid, reply := Some(args[2]), hdr := h, size := size);
      } else {
        return Some(BadArgs);
      }
      if ma.sid < 0 {
        return Some(BadSid);
      }
      if ma.hdr < 0 || ma.hdr > ma.size {
        return Some(BadHdr);
      }
      if ma.size < 0 {
        return Some(BadSize);
      }
      e := None;
    }
  }

  /** An argument in the caller's buffer: `drop` cuts its last byte. */
  lemma KeywordStep(m: Machine, b: byte)
    requires WireMachine.Valid(m) && m.Keyword?
    ensures Step(m, b)
         == match KeywordMove(m.state, b)
            case To(next) => Next(Enter(next, m.state, m.headers), [])
            case Emit(e) => Next(START, [Event(e)])
            case Begin(arg) => Next(Arg(arg, arg.MSG_ARG? && m.headers, Indexed([b], false)), [])
            case Reject => Halt([], BadByte(m.state))
  {
    hide KeywordMove;
  }

  /** The NL behind the text of an error or of a server's information. */
  lemma TextStep(m: Machine)
    requires WireMachine.Valid(m) && m.Arg? && !m.kind.MSG_ARG?
    ensures var text := TextOf(m.text);
            Step(m, NL) == Next(START, [Event(if m.kind.INFO_ARG? then Info(text) else Err(text))])
  {
  }

  lemma TextInBuffer(buf: seq<byte>, start: nat, i: nat, drop: nat)
    requires start < i <= |buf| && drop <= 1
    ensures TextOf(Indexed(buf[start..i], drop == 1)) == buf[start..i - drop]
  {
  }

  lemma TextIsNoEvent(log: seq<Output>, text: seq<byte>)
    ensures Events(log + [ArgText(text)]) == Events(log)
  {
    EventsAppend(log, [ArgText(text)]);
    assert Events([ArgText(text)]) == [];
  }

  /** Only the first letter of an operation says whether it is a message. */
  lemma MovesOfMessages(s: State, b: byte)
    requires IsKeyword(s)
    ensures var r := KeywordMove(s, b);
            && (r.To? && s.OP_START? ==> !r.next.OP_START? && (InMessage(r.next) <==> r.next.OP_M? || r.next.OP_H?))
            && (r.To? && !s.OP_START? ==> (InMessage(r.next) ==> InMessage(s)) && !r.next.OP_H?)
            && (r.Begin? ==> !s.OP_START? && (r.arg.MSG_ARG? ==> InMessage(s)))
  {
  }

  lemma RunNothing(m: Machine, at: nat, log: seq<Output>)
    requires WireMachine.Valid(m)
    ensures Run(m, [], at, log) == Live(m, at, log)
  {
  }

  /** One byte of a run. */
  lemma RunOne(m: Machine, buf: seq<byte>, i: nat, at: nat, log: seq<Output>)
    requires WireMachine.Valid(m) && i < |buf|
    ensures Run(m, buf[i..], at + i, log)
         == match Step(m, buf[i]) {
              case Halt(out, e) => Dead(at + i, e, log + out)
              case Next(m', out) => Run(m', buf[i + 1..], at + i + 1, log + out)
            }
  {
    assert buf[i..][0] == buf[i] && buf[i..][1..] == buf[i + 1..];
  }

  /** The index may jump to the byte after a body, even past the end of the buffer. */
  lemma JumpOverBody(msg: MsgArg, buf: seq<byte>, start: nat, at: nat, log: seq<Output>)
    requires start <= |buf| && msg.size >= 0
    ensures var n := Parser.Upto(buf, start + msg.size);
            |buf[start..n]| <= msg.size
            && Run(Payload(msg, []), buf[start..], at + start, log)
            == Run(Payload(msg, buf[start..n]), buf[n..], at + n, log)
  {
    hide Run, Step;
    var n := Parser.Upto(buf, start + msg.size);
    RunPayload(msg, [], buf[start..], n - start, at + start, log);
    assert [] + buf[start..][..n - start] == buf[start..n] && buf[start..][n - start..] == buf[n..];
  }

  /** The separator-free runs of an argument, found with one index. */
  method SplitArgs(arg: seq<byte>) returns (args: seq<seq<byte>>)
    ensures args == Fields(arg, [])
  {
    hide Fields;
    args := [];
    var start := -1;
    assert arg[0..] == arg;
    for i := 0 to |arg|
      invariant -1 <= start < i
      invariant args + Fields(arg[i..], if start >= 0 then arg[start..i] else []) == Fields(arg, [])
    {
      FieldsNext(arg, i, if start >= 0 then arg[start..i] else []);
      if Separator(arg[i]) {
        if start >= 0 {
          args := args + [arg[start..i]];
          start := -1;
        }
      } else if start < 0 {
        OneLonger(arg, i, i);
        start := i;
      } else {
        OneLonger(arg, start, i);
      }
    }
    FieldsEnd(if start >= 0 then arg[start..] else []);
    assert arg[|arg|..] == [];
    if start >= 0 {
      assert arg[start..] == arg[start..|arg|];
      args := args + [arg[start..]];
    }
  }

  lemma OneLonger(s: seq<byte>, i: nat, j: nat)
    requires i <= j < |s|
    ensures s[i..j] + [s[j]] == s[i..j + 1]
  {
  }

  lemma FieldsNext(arg: seq<byte>, i: nat, cur: seq<byte>)
    requires i < |arg|
    ensures Fields(arg[i..], cur)
         == if Separator(arg[i]) then (if cur == [] then [] else [cur]) + Fields(arg[i + 1..], [])
            else Fields(arg[i + 1..], cur + [arg[i]])
  {
    assert arg[i..][0] == arg[i] && arg[i..][1..] == arg[i + 1..];
  }

  lemma FieldsEnd(cur: seq<byte>)
    ensures Fields([], cur) == if cur == [] then [] else [cur]
  {
  }

  method ProtoParseInt(a: seq<byte>) returns (n: int)
    ensures n == DecimalValue(a)
  {
    if |a| == 0 {
      return -1;
    }
    n := 0;
    for i := 0 to |a|
      invariant forall k :: 0 <= k < i ==> Digit(a[k])
      invariant n == DigitsValue(a[..i])
    {
      if !Digit(a[i]) {
        return -1;
      }
      assert a[..i + 1][..i] == a[..i];
      n := n * 10 + (a[i] - '0' as int);
    }
    assert a[..|a|] == a;
  }

  /** The reader of a connection: every buffer the transport yields is parsed, until
      one throws. */
  method ReadLoop(p: Parser, chunks: seq<seq<byte>>)
    requires p.Ready()
    modifies p
    ensures p.Valid() && p.Result() == FeedAll(old(p.Result()), chunks)
  {
    var k := 0;
    while k < |chunks|
      invariant k <= |chunks| && p.Ready()
      invariant FeedAll(p.Result(), chunks[k..]) == FeedAll(old(p.Result()), chunks)
    {
      assert chunks[k..][0] == chunks[k] && chunks[k..][1..] == chunks[k + 1..];
      var failure := p.Parse(chunks[k]);
      if failure.Some? {
        FeedAllDead(p.Result(), chunks[k + 1..]);
        return;
      }
      k := k + 1;
    }
  }
}
