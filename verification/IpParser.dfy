/** Internet addresses from text. */
module IpParser {
  import opened Bytes

  const BIG := 0xFFFFFF

  datatype Number = Number(n: nat, c: nat, ok: bool)

  // ------------------------------------------------------------------ numbers

  predicate Decimal(ch: char) { '0' <= ch <= '9' }

  predicate Hex(ch: char) { Decimal(ch) || 'a' <= ch <= 'f' || 'A' <= ch <= 'F' }

  function Digit(ch: char): (d: nat)
    requires Hex(ch)
    ensures d < 16 && (Decimal(ch) ==> d < 10)
  {
    if Decimal(ch) then ch as int - 48
    else if 'a' <= ch then ch as int - 97 + 10
    else ch as int - 65 + 10
  }

  /** The value of the digits of `s` in base `base`, the most significant first. */
  function Value(s: string, base: nat): nat
    requires forall i :: 0 <= i < |s| ==> Hex(s[i])
  {
    if s == [] then 0 else Value(s[..|s| - 1], base) * base + Digit(s[|s| - 1])
  }

  /** How many of the first characters of `s` are digits. */
  function Span(s: string, hex: bool): (c: nat)
    ensures c <= |s| && forall i :: 0 <= i < c ==> (if hex then Hex(s[i]) else Decimal(s[i]))
    ensures c < |s| ==> !(if hex then Hex(s[c]) else Decimal(s[c]))
  {
    if s == [] || !(if hex then Hex(s[0]) else Decimal(s[0])) then 0
    else
      assert forall i :: 0 <= i < |s[1..]| ==> s[1..][i] == s[i + 1];
      1 + Span(s[1..], hex)
  }

  /** A number at the front of a text: there must be a digit, and it must be below `BIG`. */
  predicate Readable(s: string, hex: bool) {
    Span(s, hex) > 0 && Value(s[..Span(s, hex)], if hex then 16 else 10) < BIG
  }

  method Dtoi(s: string) returns (r: Number)
    ensures r.ok <==> Readable(s, false)
    ensures r.ok ==> r.c == Span(s, false) && r.n == Value(s[..r.c], 10)
  {
    var n, i := 0, 0;
    while i < |s| && Decimal(s[i])
      invariant i <= |s| && (forall k :: 0 <= k < i ==> Decimal(s[k])) && n == Value(s[..i], 10) < BIG
    {
      assert s[..i + 1][..i] == s[..i];
      n := n * 10 + (s[i] as int - 48);
      if n >= BIG {
        SpanPast(s, i + 1, false);
        return Number(BIG, i, false);
      }
      i := i + 1;
    }
    SpanIs(s, i, false);
    if i == 0 {
      return Number(0, 0, false);
    }
    r := Number(n, i, true);
  }

  method Xtoi(s: string) returns (r: Number)
    ensures r.ok <==> Readable(s, true)
    ensures r.ok ==> r.c == Span(s, true) && r.n == Value(s[..r.c], 16)
  {
    var n, i := 0, 0;
    while i < |s|
      invariant i <= |s| && (forall k :: 0 <= k < i ==> Hex(s[k])) && n == Value(s[..i], 16) < BIG
    {
      if Decimal(s[i]) {
        n := n * 16 + (s[i] as int - 48);
      } else if 'a' <= s[i] <= 'f' {
        n := n * 16 + (s[i] as int - 97) + 10;
      } else if 'A' <= s[i] <= 'F' {
        n := n * 16 + (s[i] as int - 65) + 10;
      } else {
        break;
      }
      assert s[..i + 1][..i] == s[..i];
      if n >= BIG {
        SpanPast(s, i + 1, true);
        return Number(0, i, false);
      }
      i := i + 1;
    }
    SpanIs(s, i, true);
    if i == 0 {
      return Number(0, i, false);
    }
    r := Number(n, i, true);
  }

  lemma {:induction false} SpanIs(s: string, i: nat, hex: bool)
    requires i <= |s| && forall k :: 0 <= k < i ==> if hex then Hex(s[k]) else Decimal(s[k])
    requires i < |s| ==> !(if hex then Hex(s[i]) else Decimal(s[i]))
    ensures Span(s, hex) == i
  {
    if Span(s, hex) < i {
      assert false;
    }
  }

  /** A number that is too large already is too large in the end. */
  lemma SpanPast(s: string, i: nat, hex: bool)
    requires i <= |s| && forall k :: 0 <= k < i ==> if hex then Hex(s[k]) else Decimal(s[k])
    requires Value(s[..i], if hex then 16 else 10) >= BIG
    ensures !Readable(s, hex)
  {
    var c := Span(s, hex);
    assert c >= i;
    assert s[..c][..i] == s[..i];
    ValueGrows(s[..c], i, if hex then 16 else 10);
  }

  lemma {:induction false} ValueGrows(s: string, i: nat, base: nat)
    requires base >= 1 && i <= |s| && forall k :: 0 <= k < |s| ==> Hex(s[k])
    ensures Value(s[..i], base) <= Value(s, base)
  {
    if i < |s| {
      assert s[..|s| - 1][..i] == s[..i];
      ValueGrows(s[..|s| - 1], i, base);
      TimesGrows(Value(s[..|s| - 1], base), base);
    } else {
      assert s[..i] == s;
    }
  }

  lemma TimesGrows(x: nat, base: nat)
    requires base >= 1
    ensures x * base >= x
  {
  }

  // ------------------------------------------------- what is read, as functions

  /** The address of four octets in sixteen. */
  function IpV4(ip: seq<byte>): seq<byte>
    requires |ip| == 4
  {
    Repeat<byte>(0, 10) + [0xff, 0xff] + ip
  }

  /** One octet, after a dot unless it is the first, and what is behind it. */
  function OctetAt(s: string, first: bool): (r: Option<(byte, string)>)
  {
    if s == "" || (!first && s[0] != '.') then None
    else
      var t := if first then s else s[1..];
      if !Readable(t, false) || Value(t[..Span(t, false)], 10) > 0xff then None
      else Some((Value(t[..Span(t, false)], 10), t[Span(t, false)..]))
  }

  /** `k` octets; what follows them is ignored. */
  function Octets(s: string, k: nat, first: bool): (r: Option<seq<byte>>)
    ensures r.Some? ==> |r.value| == k
    decreases k
  {
    if k == 0 then Some([])
    else match OctetAt(s, first)
      case None => None
      case Some((b, t)) => Behind([b], Octets(t, k - 1, false))
  }

  function Behind(got: seq<byte>, more: Option<seq<byte>>): Option<seq<byte>> {
    match more case None => None case Some(m) => Some(got + m)
  }

  datatype Turn =
    | Bad
    | End(got: seq<byte>, ellipsis: Option<nat>)
    | More(s: string, got: seq<byte>, ellipsis: Option<nat>)

  /** Four octets. */
  function Quad(s: string): (r: Option<seq<byte>>)
    ensures r.Some? ==> |r.value| == 4
  {
    Octets(s, 4, true)
  }

  function Pair(n: nat): (p: seq<byte>)
    requires n <= 0xffff
    ensures |p| == 2
  {
    [n / 256, n % 256]
  }

  predicate InRange(got: seq<byte>, ellipsis: Option<nat>) {
    ellipsis.Some? ==> ellipsis.value <= |got|
  }

  /** What comes behind a group: nothing, a colon, or two of them. */
  function AfterGroup(t: string, got: seq<byte>, ellipsis: Option<nat>): (r: Turn)
    requires InRange(got, ellipsis)
    ensures !r.Bad? ==> InRange(r.got, r.ellipsis)
    ensures r.More? ==> |r.s| < |t|
  {
    if t == "" then End(got, ellipsis)
    else if t[0] != ':' || |t| == 1 then Bad
    else if t[1] != ':' then More(t[1..], got, ellipsis)
    else if ellipsis.Some? then Bad
    else if |t| == 2 then End(got, Some(|got|))
    else More(t[2..], got, Some(|got|))
  }

  /** Dotted octets at the end. */
  function Dotted(s: string, got: seq<byte>, ellipsis: Option<nat>): (r: Turn)
    requires InRange(got, ellipsis)
    ensures !r.Bad? ==> r.End? && InRange(r.got, r.ellipsis)
  {
    if (ellipsis.None? && |got| != 12) || |got| + 4 > 16 then Bad
    else if Quad(s).None? then Bad
    else End(got + Quad(s).value, ellipsis)
  }

  /** Reads a group, or dotted octets at the end, behind the bytes already got; with the
      place of the "::" if there was one. */
  function Group(s: string, got: seq<byte>, ellipsis: Option<nat>): (r: Turn)
    requires InRange(got, ellipsis)
    ensures !r.Bad? ==> InRange(r.got, r.ellipsis)
    ensures r.More? ==> |r.s| < |s|
  {
    var c := Span(s, true);
    if !Readable(s, true) || Value(s[..c], 16) > 0xffff then Bad
    else if c < |s| && s[c] == '.' then Dotted(s, got, ellipsis)
    else AfterGroup(s[c..], got + Pair(Value(s[..c], 16)), ellipsis)
  }

  function Groups(s: string, got: seq<byte>, ellipsis: Option<nat>): (r: Option<(seq<byte>, Option<nat>)>)
    requires InRange(got, ellipsis)
    ensures r.Some? ==> InRange(r.value.0, r.value.1)
    decreases |s|
  {
    if |got| >= 16 then if s == "" then Some((got, ellipsis)) else None
    else match Group(s, got, ellipsis)
      case Bad => None
      case End(g, e) => Some((g, e))
      case More(t, g, e) => Groups(t, g, e)
  }

  /** Zeros in place of the "::", which must stand for something. */
  function Expanded(got: seq<byte>, ellipsis: Option<nat>): Option<seq<byte>>
    requires ellipsis.Some? ==> ellipsis.value <= |got|
  {
    if |got| < 16 then
      if ellipsis.None? then None
      else Some(got[..ellipsis.value] + Repeat<byte>(0, 16 - |got|) + got[ellipsis.value..])
    else if ellipsis.Some? then None
    else Some(got)
  }

  function V6(s: string): Option<seq<byte>> {
    if s == "::" then Some(Repeat<byte>(0, 16))
    else
      var dots := |s| >= 2 && s[0] == ':' && s[1] == ':';
      match Groups(if dots then s[2..] else s, [], if dots then Some(0) else None)
      case None => None
      case Some((got, ellipsis)) => Expanded(got, ellipsis)
  }

  /** The first dot or colon decides. */
  function Parsed(h: string): Option<seq<byte>> {
    ParsedFrom(h, h)
  }

  function ParsedFrom(h: string, rest: string): Option<seq<byte>> {
    if rest == "" then None
    else if rest[0] == '.' then
      (match Quad(h)
       case None => None
       case Some(ip) => Some(IpV4(ip)))
    else if rest[0] == ':' then V6(h)
    else ParsedFrom(h, rest[1..])
  }

  // --------------------------------------------------------------- the parser

  method ParseOctet(s: string, first: bool) returns (r: Option<(byte, string)>)
    ensures r == OctetAt(s, first)
  {
    if |s| == 0 {
      return None;
    }
    var t := s;
    if !first {
      if s[0] != '.' {
        return None;
      }
      t := s[1..];
    }
    var x := Dtoi(t);
    if !x.ok || x.n > 0xff {
      return None;
    }
    r := Some((x.n, t[x.c..]));
  }

  method ParseIPv4(h: string) returns (ip4: Option<seq<byte>>)
    ensures ip4 == match Quad(h) case None => None case Some(ip) => Some(IpV4(ip))
  {
    hide OctetAt;
    var s := h;
    var ip: array<byte> := new byte[4](_ => 0);
    assert ip[..0] == [];
    BehindNothing(Octets(h, 4, true));
    for i := 0 to 4
      invariant i == 0 ==> s == h
      invariant Octets(h, 4, true) == Behind(ip[..i], Octets(s, 4 - i, i == 0))
    {
      var r := ParseOctet(s, i == 0);
      if r.None? {
        return None;
      }
      BehindMore(ip[..i], r.value.0, Octets(r.value.1, 3 - i, false));
      ip[i], s := r.value.0, r.value.1;
      assert ip[..i + 1] == ip[..i] + [r.value.0];
    }
    assert ip[..4] == ip[..] && ip[..] + [] == ip[..];
    ip4 := Some(IpV4(ip[..]));
  }

  lemma BehindNothing(more: Option<seq<byte>>)
    ensures Behind([], more) == more
  {
    if more.Some? {
      assert [] + more.value == more.value;
    }
  }

  lemma BehindMore(got: seq<byte>, b: byte, more: Option<seq<byte>>)
    ensures Behind(got, Behind([b], more)) == Behind(got + [b], more)
  {
    if more.Some? {
      assert got + ([b] + more.value) == got + [b] + more.value;
    }
  }

  /** Makes room for the zeros the "::" stands for, in place. */
  method Expand(ip: array<byte>, i: nat, ellipsis: nat)
    requires ip.Length == 16 && ellipsis <= i < 16
    modifies ip
    ensures ip[..] == old(ip[..ellipsis]) + Repeat<byte>(0, 16 - i) + old(ip[ellipsis..i])
  {
    var n := 16 - i;
    ghost var before := ip[..];
    ShiftUp(ip, i, ellipsis);
    Clear(ip, ellipsis, ellipsis + n);
    Shifted(before, ip[..], i, ellipsis);
    assert before[..ellipsis] == old(ip[..ellipsis]) && before[ellipsis..i] == old(ip[ellipsis..i]);
  }

  method ShiftUp(ip: array<byte>, i: nat, ellipsis: nat)
    requires ip.Length == 16 && ellipsis <= i < 16
    modifies ip
    ensures forall k :: 0 <= k < ellipsis ==> ip[k] == old(ip[k])
    ensures forall k :: ellipsis + 16 - i <= k < 16 ==> ip[k] == old(ip[k - (16 - i)])
  {
    var n := 16 - i;
    var j := i - 1;
    while j >= ellipsis
      invariant ellipsis - 1 <= j < i
      invariant forall k :: 0 <= k < i && k <= j + n ==> ip[k] == old(ip[k])
      invariant forall k :: j + n < k < 16 ==> ip[k] == old(ip[k - n])
    {
      ip[j + n] := ip[j];
      j := j - 1;
    }
  }

  method Clear(ip: array<byte>, from: nat, to: nat)
    requires from <= to <= ip.Length
    modifies ip
    ensures forall k :: 0 <= k < ip.Length ==> ip[k] == if from <= k < to then 0 else old(ip[k])
  {
    var j: int := to - 1;
    while j >= from
      invariant from - 1 <= j < to
      invariant forall k :: 0 <= k < ip.Length ==> ip[k] == if j < k < to then 0 else old(ip[k])
    {
      ip[j] := 0;
      j := j - 1;
    }
  }

  lemma Shifted(before: seq<byte>, after: seq<byte>, i: nat, ellipsis: nat)
    requires |before| == |after| == 16 && ellipsis <= i < 16
    requires forall k :: 0 <= k < ellipsis ==> after[k] == before[k]
    requires forall k :: ellipsis + 16 - i <= k < 16 ==> after[k] == before[k - (16 - i)]
    requires forall k :: ellipsis <= k < ellipsis + 16 - i ==> after[k] == 0
    ensures after == before[..ellipsis] + Repeat<byte>(0, 16 - i) + before[ellipsis..i]
  {
  }

  /** One turn of the loop; `bad`: the text is no address, `over`: it is at its end. */
  method ParseGroup(ip: array<byte>, i: nat, s: string, ellipsis: int)
    returns (bad: bool, over: bool, at: nat, rest: string, place: int)
    requires ip.Length == 16 && i < 16 && i % 2 == 0 && -1 <= ellipsis <= i
    modifies ip
    ensures var turn := Group(s, old(ip[..i]), Place(ellipsis));
            if bad then turn == Bad
            else
              && at <= 16 && at % 2 == 0 && -1 <= place <= at
              && turn == (if over then End(ip[..at], Place(place)) else More(rest, ip[..at], Place(place)))
              && (over ==> rest == "")
  {
    hide Quad, Dotted, AfterGroup;
    ghost var got := ip[..i];
    bad, over, at, rest, place := true, false, i, s, ellipsis;
    var x := Xtoi(s);
    if !x.ok || x.n > 0xffff {
      return;
    }
    if x.c < |s| && s[x.c] == '.' {
      bad, at := ParseDotted(ip, i, s, ellipsis);
      over, rest := true, "";
      return;
    }
    ip[i] := x.n / 256;
    ip[i + 1] := x.n % 256;
    at := i + 2;
    assert ip[..at] == got + Pair(x.n);
    bad, over, rest, place := ParseColons(ip[..at], at, s[x.c..], ellipsis);
  }

  /** Four octets in the last places. */
  method ParseDotted(ip: array<byte>, i: nat, s: string, ellipsis: int) returns (bad: bool, at: nat)
    requires ip.Length == 16 && i < 16 && i % 2 == 0 && -1 <= ellipsis <= i
    modifies ip
    ensures var turn := Dotted(s, old(ip[..i]), Place(ellipsis));
            if bad then turn == Bad
            else at <= 16 && at % 2 == 0 && ellipsis <= at && turn == End(ip[..at], Place(ellipsis))
  {
    hide Quad;
    ghost var got := ip[..i];
    bad, at := true, i;
    if ellipsis < 0 && i != 12 {
      return;
    }
    if i + 4 > 16 {
      return;
    }
    var ip4 := ParseIPv4(s);
    if ip4.None? {
      return;
    }
    ip[i], ip[i + 1], ip[i + 2], ip[i + 3] := ip4.value[12], ip4.value[13], ip4.value[14], ip4.value[15];
    bad, at := false, i + 4;
    assert ip[..at] == got + ip4.value[12..];
  }

  /** What follows a group. */
  method ParseColons(ghost got: seq<byte>, at: nat, t: string, ellipsis: int)
    returns (bad: bool, over: bool, rest: string, place: int)
    requires at == |got| && -1 <= ellipsis <= at
    ensures var turn := AfterGroup(t, got, Place(ellipsis));
            if bad then turn == Bad
            else
              && -1 <= place <= |got|
              && turn == (if over then End(got, Place(place)) else More(rest, got, Place(place)))
              && (over ==> rest == "")
  {
    bad, over, rest, place := true, false, t, ellipsis;
    if |rest| == 0 {
      return false, true, rest, place;
    }
    if rest[0] != ':' || |rest| == 1 {
      return;
    }
    rest := rest[1..];
    if rest[0] == ':' {
      if ellipsis >= 0 {
        return;
      }
      place := at;
      rest := rest[1..];
      over := |rest| == 0;
    }
    bad := false;
  }

  method ParseIPv6(h: string) returns (r: Option<seq<byte>>)
    ensures r == V6(h)
  {
    hide Group;
    var s := h;
    var ip: array<byte> := new byte[16](_ => 0);
    var ellipsis := -1;
    if |s| >= 2 && s[0] == ':' && s[1] == ':' {
      ellipsis := 0;
      s := s[2..];
      if |s| == 0 {
        assert ip[..] == Repeat<byte>(0, 16);
        return Some(ip[..]);
      }
    }
    ghost var wanted := Groups(s, [], Place(ellipsis));
    var i, over := 0, false;
    assert ip[..0] == [];
    while i < 16 && !over
      invariant i <= 16 && i % 2 == 0 && -1 <= ellipsis <= i
      invariant if over then s == "" && wanted == Some((ip[..i], Place(ellipsis)))
                else Groups(s, ip[..i], Place(ellipsis)) == wanted
      decreases |s|, !over
    {
      var bad;
      bad, over, i, s, ellipsis := ParseGroup(ip, i, s, ellipsis);
      if bad {
        return None;
      }
    }
    if |s| != 0 {
      return None;
    }
    r := FillUp(ip, i, ellipsis);
  }

  /** The address, when the "::" has been made room for. */
  method FillUp(ip: array<byte>, i: nat, ellipsis: int) returns (r: Option<seq<byte>>)
    requires ip.Length == 16 && i <= 16 && -1 <= ellipsis <= i
    modifies ip
    ensures r == Expanded(old(ip[..i]), Place(ellipsis))
  {
    ghost var got := ip[..i];
    if i < 16 {
      if ellipsis < 0 {
        return None;
      }
      assert got[..ellipsis] == ip[..ellipsis];
      assert got[ellipsis..] == ip[ellipsis..i];
      Expand(ip, i, ellipsis);
    } else if ellipsis >= 0 {
      return None;
    }
    assert i == 16 ==> got == ip[..];
    r := Some(ip[..]);
  }

  function Place(ellipsis: int): Option<nat> {
    if ellipsis < 0 then None else Some(ellipsis)
  }

  method ParseIP(h: string) returns (r: Option<seq<byte>>)
    ensures r == Parsed(h)
  {
    for i := 0 to |h|
      invariant ParsedFrom(h, h[i..]) == Parsed(h)
    {
      assert h[i..][1..] == h[i + 1..];
      if h[i] == '.' {
        r := ParseIPv4(h);
        return;
      } else if h[i] == ':' {
        r := ParseIPv6(h);
        return;
      }
    }
    r := None;
  }
}
