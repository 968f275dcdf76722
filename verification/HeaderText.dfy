/** Text operations that headers are read and printed with. */
module HeaderText {
  import opened Bytes

  predicate Space(ch: char) { ch in "\t\n\U{000B}\U{000C}\r " }

  function TrimStart(s: string): (t: string)
    ensures t == "" || !Space(t[0])
  {
    if s != "" && Space(s[0]) then TrimStart(s[1..]) else s
  }

  function TrimEnd(s: string): (t: string)
    ensures t == "" || !Space(t[|t| - 1])
  {
    if s != "" && Space(s[|s| - 1]) then TrimEnd(s[..|s| - 1]) else s
  }

  function Trim(s: string): string { TrimEnd(TrimStart(s)) }

  ghost predicate Trimmed(s: string) {
    s == "" || (!Space(s[0]) && !Space(s[|s| - 1]))
  }

  /** No line is ended in it. */
  predicate OneLine(s: string) {
    forall i :: 0 <= i < |s| ==> s[i] != '\r' && s[i] != '\n'
  }

  lemma TrimOf(pad: string, s: string, tail: string)
    requires (forall i :: 0 <= i < |pad| ==> Space(pad[i])) && (forall i :: 0 <= i < |tail| ==> Space(tail[i]))
    requires s != "" && Trimmed(s)
    ensures Trim(pad + s + tail) == s
  {
    TrimStartOf(pad, s + tail);
    assert pad + s + tail == pad + (s + tail);
    TrimEndOf(s, tail);
  }

  lemma {:induction false} TrimStartOf(pad: string, s: string)
    requires (forall i :: 0 <= i < |pad| ==> Space(pad[i])) && s != "" && !Space(s[0])
    ensures TrimStart(pad + s) == s
    decreases |pad|
  {
    if pad == "" {
      assert pad + s == s;
    } else {
      assert (pad + s)[0] == pad[0] && (pad + s)[1..] == pad[1..] + s;
      TrimStartOf(pad[1..], s);
    }
  }

  lemma {:induction false} TrimEndOf(s: string, tail: string)
    requires (forall i :: 0 <= i < |tail| ==> Space(tail[i])) && s != "" && !Space(s[|s| - 1])
    ensures TrimEnd(s + tail) == s
    decreases |tail|
  {
    if tail == "" {
      assert s + tail == s;
    } else {
      var all := s + tail;
      assert all[|all| - 1] == tail[|tail| - 1] && all[..|all| - 1] == s + tail[..|tail| - 1];
      TrimEndOf(s, tail[..|tail| - 1]);
    }
  }

  lemma {:induction false} TrimBlank(pad: string)
    requires forall i :: 0 <= i < |pad| ==> Space(pad[i])
    ensures Trim(pad) == ""
    decreases |pad|
  {
    if pad != "" {
      TrimBlank(pad[1..]);
    }
  }

  lemma TrimIsTrimmed(s: string)
    ensures Trimmed(Trim(s))
  {
    var t := TrimStart(s);
    TrimEndKeeps(t);
  }

  lemma {:induction false} TrimEndKeeps(s: string)
    ensures TrimEnd(s) <= s
    decreases |s|
  {
    if s != "" && Space(s[|s| - 1]) {
      TrimEndKeeps(s[..|s| - 1]);
    }
  }

  lemma {:induction false} TrimShortens(s: string)
    ensures |TrimStart(s)| <= |s| && |TrimEnd(s)| <= |s|
    decreases |s|
  {
    TrimEndKeeps(s);
    if s != "" && Space(s[0]) {
      TrimShortens(s[1..]);
    }
  }

  lemma {:induction false} TrimKeepsOneLine(s: string)
    requires OneLine(s)
    ensures OneLine(Trim(s))
  {
    TrimEndKeeps(TrimStart(s));
    TrimStartKeeps(s);
  }

  lemma {:induction false} TrimStartKeeps(s: string)
    requires OneLine(s)
    ensures OneLine(TrimStart(s))
    decreases |s|
  {
    if s != "" && Space(s[0]) {
      TrimStartKeeps(s[1..]);
    }
  }

  // --------------------------------------------------------------------- lines

  /** The pieces between the line ends. */
  function Lines(s: string): (ls: seq<string>)
    ensures ls != []
  {
    if s == "" then [""]
    else if |s| >= 2 && s[0] == '\r' && s[1] == '\n' then [""] + Lines(s[2..])
    else
      var rest := Lines(s[1..]);
      [[s[0]] + rest[0]] + rest[1..]
  }

  /** No line ends within it. */
  predicate NoBreak(s: string) {
    forall i :: 0 <= i < |s| - 1 ==> !(s[i] == '\r' && s[i + 1] == '\n')
  }

  lemma {:induction false} FirstLine(a: string, rest: string)
    requires NoBreak(a)
    ensures Lines(a + ("\r\n" + rest)) == [a] + Lines(rest)
    decreases |a|
  {
    var s := a + ("\r\n" + rest);
    if a == "" {
      assert s == "\r\n" + rest && s[2..] == rest;
    } else {
      assert s[0] == a[0] && s[1..] == a[1..] + ("\r\n" + rest);
      assert |a| > 1 ==> s[1] == a[1];
      FirstLine(a[1..], rest);
      assert Lines(s[1..])[0] == a[1..] && Lines(s[1..])[1..] == Lines(rest);
      assert [a[0]] + a[1..] == a;
    }
  }

  /** The first line goes on through text in which no line ends. */
  lemma {:induction false} LineGoesOn(a: string, s: string)
    requires OneLine(a)
    ensures Lines(a + s)[0] == a + Lines(s)[0]
    decreases |a|
  {
    if a == "" {
      assert a + s == s;
    } else {
      assert (a + s)[0] == a[0] && (a + s)[1..] == a[1..] + s;
      LineGoesOn(a[1..], s);
      assert [a[0]] + (a[1..] + Lines(s)[0]) == a + Lines(s)[0];
    }
  }

  /** Text in which a line ends does not fit into the first line. */
  lemma {:induction false} BrokenLine(a: string, s: string)
    requires !NoBreak(a)
    ensures |Lines(a + s)[0]| < |a|
    decreases |a|
  {
    var all := a + s;
    assert all[0] == a[0] && all[1] == a[1] && all[1..] == a[1..] + s;
    if !(a[0] == '\r' && a[1] == '\n') {
      assert !NoBreak(a[1..]) by {
        var i :| 0 <= i < |a| - 1 && a[i] == '\r' && a[i + 1] == '\n';
        assert a[1..][i - 1] == '\r' && a[1..][i - 1 + 1] == '\n';
      }
      BrokenLine(a[1..], s);
    }
  }

  // ---------------------------------------------------------------------- find

  function IndexOf(s: string, p: string): (i: Option<nat>)
    ensures i.Some? ==> i.value + |p| <= |s| && s[i.value..i.value + |p|] == p
  {
    if |s| < |p| then None
    else if s[..|p|] == p then Some(0)
    else if s == "" then None
    else match IndexOf(s[1..], p)
      case None => None
      case Some(k) =>
        assert s[1..][k..k + |p|] == s[k + 1..k + 1 + |p|];
        Some(k + 1)
  }

  /** Without the first occurrence of `p`. */
  function Remove(s: string, p: string): string {
    match IndexOf(s, p)
    case None => s
    case Some(i) => s[..i] + s[i + |p|..]
  }

  lemma RemovePrefix(p: string, s: string)
    ensures Remove(p + s, p) == s
  {
    assert (p + s)[..|p|] == p;
    assert (p + s)[..0] + (p + s)[|p|..] == s;
  }

  lemma {:induction false} ColonAt(k: string, rest: string)
    requires forall i :: 0 <= i < |k| ==> k[i] != ':'
    ensures IndexOf(k + (":" + rest), ":") == Some(|k|)
    decreases |k|
  {
    var s := k + (":" + rest);
    if k == "" {
      assert s[..1] == ":";
    } else {
      assert s[..1] == [k[0]] && s[0] == k[0] && s[1..] == k[1..] + (":" + rest);
      assert s[..1][0] != ":"[0];
      ColonAt(k[1..], rest);
    }
  }

  // ------------------------------------------------------------------- numbers

  predicate Decimal(ch: char) { '0' <= ch <= '9' }

  function DigitChar(d: nat): (ch: char)
    requires d < 10
    ensures Decimal(ch) && ch as int == 48 + d
  {
    (48 + d) as char
  }

  function Text(n: nat): (s: string)
    ensures s != "" && forall i :: 0 <= i < |s| ==> Decimal(s[i])
  {
    if n < 10 then [DigitChar(n)] else Text(n / 10) + [DigitChar(n % 10)]
  }

  function SignedText(n: int): string { if n < 0 then "-" + Text(-n) else Text(n) }

  /** The number at the front of a text, 0 when there is none. */
  function ParseInt(s: string): int {
    var t := TrimStart(s);
    if t != "" && t[0] == '-' then -(Leading(t[1..], 0) as int)
    else if t != "" && t[0] == '+' then Leading(t[1..], 0)
    else Leading(t, 0)
  }

  function Leading(s: string, n: nat): nat {
    if s != "" && Decimal(s[0]) then Leading(s[1..], 10 * n + (s[0] as int - 48)) else n
  }

  lemma {:induction false} LeadingOf(n: nat, rest: string)
    ensures Leading(Text(n) + rest, 0) == Leading(rest, n)
    decreases n
  {
    if n < 10 {
      assert (Text(n) + rest)[1..] == rest;
    } else {
      var last := [DigitChar(n % 10)] + rest;
      assert Text(n) + rest == Text(n / 10) + last;
      LeadingOf(n / 10, last);
      assert last[1..] == rest;
    }
  }
}
