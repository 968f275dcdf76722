/** The text representations of addresses of section 2.2 of RFC 4291, and what the
    parser makes of each of them. */
module IpText {
  import opened Bytes
  import opened IpParser

  /** Eight groups of hexadecimal digits; or fewer with one "::" for one or more groups
      of zeros; and in either form four decimal octets may stand for the last two groups. */
  datatype Spelling =
    | Full(groups: seq<string>, octets: Option<seq<string>>)
    | Compressed(left: seq<string>, right: seq<string>, octets: Option<seq<string>>)

  /** One to four digits, in either case. */
  ghost predicate IsGroup(g: string) {
    1 <= |g| <= 4 && forall i :: 0 <= i < |g| ==> Hex(g[i])
  }

  ghost predicate IsOctet(o: string) {
    && 1 <= |o| <= 3 && (forall i :: 0 <= i < |o| ==> Decimal(o[i]))
    && (forall i :: 0 <= i < |o| ==> Hex(o[i])) && Value(o, 10) <= 255
  }

  ghost predicate AreGroups(gs: seq<string>) {
    forall i :: 0 <= i < |gs| ==> IsGroup(gs[i])
  }

  ghost predicate AreOctets(os: Option<seq<string>>) {
    os.Some? ==> |os.value| == 4 && forall i :: 0 <= i < 4 ==> IsOctet(os.value[i])
  }

  function Weight(os: Option<seq<string>>): nat { if os.Some? then 2 else 0 }

  ghost predicate Allowed(sp: Spelling) {
    match sp
    case Full(groups, octets) => AreGroups(groups) && AreOctets(octets) && |groups| + Weight(octets) == 8
    case Compressed(left, right, octets) =>
      AreGroups(left) && AreGroups(right) && AreOctets(octets) && |left| + |right| + Weight(octets) <= 7
  }

  ghost function DottedText(os: seq<string>): string
    requires |os| == 4
  {
    os[0] + "." + os[1] + "." + os[2] + "." + os[3]
  }

  ghost function Join(parts: seq<string>): string {
    if parts == [] then ""
    else if |parts| == 1 then parts[0]
    else parts[0] + (":" + Join(parts[1..]))
  }

  ghost function Parts(groups: seq<string>, os: Option<seq<string>>): seq<string>
    requires AreOctets(os)
  {
    groups + if os.Some? then [DottedText(os.value)] else []
  }

  ghost function Text(sp: Spelling): string
    requires Allowed(sp)
  {
    match sp
    case Full(groups, octets) => Join(Parts(groups, octets))
    case Compressed(left, right, octets) => Join(left) + ("::" + Join(Parts(right, octets)))
  }

  ghost function GroupBytes(groups: seq<string>): (b: seq<byte>)
    requires AreGroups(groups)
    ensures |b| == 2 * |groups|
  {
    if groups == [] then []
    else
      ValueBelow(groups[0], 16);
      Pair(Value(groups[0], 16)) + GroupBytes(groups[1..])
  }

  ghost function OctetBytes(os: Option<seq<string>>): (b: seq<byte>)
    requires AreOctets(os)
    ensures |b| == 2 * Weight(os)
  {
    if os.None? then []
    else [Value(os.value[0], 10), Value(os.value[1], 10), Value(os.value[2], 10), Value(os.value[3], 10)]
  }

  ghost function SideBytes(groups: seq<string>, os: Option<seq<string>>): (b: seq<byte>)
    requires AreGroups(groups) && AreOctets(os)
    ensures |b| == 2 * (|groups| + Weight(os))
  {
    GroupBytes(groups) + OctetBytes(os)
  }

  /** The sixteen octets a spelling stands for. */
  ghost function Denoted(sp: Spelling): (b: seq<byte>)
    requires Allowed(sp)
    ensures |b| == 16
  {
    match sp
    case Full(groups, octets) => SideBytes(groups, octets)
    case Compressed(left, right, octets) =>
      GroupBytes(left) + Repeat<byte>(0, 16 - 2 * (|left| + |right| + Weight(octets))) + SideBytes(right, octets)
  }

  // ------------------------------------------------------------------- numbers

  function Power(base: nat, k: nat): nat { if k == 0 then 1 else Power(base, k - 1) * base }

  lemma {:induction false} ValueBelowPower(s: string, base: nat)
    requires base in {10, 16} && forall i :: 0 <= i < |s| ==> Hex(s[i]) && (base == 10 ==> Decimal(s[i]))
    ensures Value(s, base) < Power(base, |s|)
  {
    if s != [] {
      ValueBelowPower(s[..|s| - 1], base);
    }
  }

  lemma ValueBelow(s: string, base: nat)
    requires base == 16 && |s| <= 4 && forall i :: 0 <= i < |s| ==> Hex(s[i])
    ensures Value(s, 16) <= 0xffff
  {
    ValueBelowPower(s, 16);
    assert Power(16, 0) == 1 && Power(16, 1) == 16 && Power(16, 2) == 256;
    assert Power(16, 3) == 4096 && Power(16, 4) == 65536;
  }

  /** Digits, and something that is no digit behind them. */
  lemma SpanOf(g: string, rest: string, hex: bool)
    requires forall i :: 0 <= i < |g| ==> if hex then Hex(g[i]) else Decimal(g[i])
    requires rest != "" ==> rest[0] in ":."
    ensures Span(g + rest, hex) == |g| && (g + rest)[..|g|] == g && (g + rest)[|g|..] == rest
  {
    SpanIs(g + rest, |g|, hex);
  }

  // ----------------------------------------------------------- one part at a time

  lemma ReadsGroup(g: string, rest: string, got: seq<byte>, e: Option<nat>)
    requires IsGroup(g) && (rest == "" || rest[0] == ':') && InRange(got, e)
    ensures Value(g, 16) <= 0xffff
    ensures Group(g + rest, got, e) == AfterGroup(rest, got + Pair(Value(g, 16)), e)
  {
    SpanOf(g, rest, true);
    ValueBelow(g, 16);
  }

  lemma ReadsOctet(o: string, rest: string, first: bool)
    requires IsOctet(o) && (rest == "" || rest[0] == '.')
    ensures OctetAt((if first then "" else ".") + (o + rest), first) == Some((Value(o, 10), rest))
  {
    SpanOf(o, rest, false);
    var s := (if first then "" else ".") + (o + rest);
    assert (if first then s else s[1..]) == o + rest;
  }

  lemma ReadsQuad(os: seq<string>)
    requires AreOctets(Some(os))
    ensures Quad(DottedText(os)) == Some(OctetBytes(Some(os)))
  {
    hide OctetAt, Value;
    var r3 := "." + (os[3] + "");
    var r2 := "." + (os[2] + r3);
    var r1 := "." + (os[1] + r2);
    assert DottedText(os) == "" + (os[0] + r1);
    ReadsOctet(os[0], r1, true);
    ReadsOctet(os[1], r2, false);
    ReadsOctet(os[2], r3, false);
    ReadsOctet(os[3], "", false);
    assert Octets("", 0, false) == Some([]);
    assert Octets(r3, 1, false) == Some([Value(os[3], 10)] + []);
    assert Octets(r2, 2, false) == Some([Value(os[2], 10)] + ([Value(os[3], 10)] + []));
    var o1: seq<byte> := [Value(os[1], 10)] + ([Value(os[2], 10)] + ([Value(os[3], 10)] + []));
    assert Octets(r1, 3, false) == Some(o1);
    assert Octets(DottedText(os), 4, true) == Some([Value(os[0], 10)] + o1);
    assert [Value(os[0], 10)] + o1 == OctetBytes(Some(os));
  }

  lemma ReadsDotted(os: seq<string>, got: seq<byte>, e: Option<nat>)
    requires AreOctets(Some(os)) && InRange(got, e) && |got| + 4 <= 16 && (e.None? ==> |got| == 12)
    ensures Group(DottedText(os), got, e) == End(got + OctetBytes(Some(os)), e)
  {
    var rest := "." + os[1] + "." + os[2] + "." + os[3];
    assert DottedText(os) == os[0] + rest;
    assert IsOctet(os[0]);
    SpanOf(os[0], rest, true);
    ValueBelow(os[0], 16);
    ReadsQuad(os);
  }

  // ---------------------------------------------------------------- both sides

  lemma FirstIsHex(groups: seq<string>, os: Option<seq<string>>)
    requires AreGroups(groups) && AreOctets(os) && Parts(groups, os) != []
    ensures Join(Parts(groups, os)) != "" && Hex(Join(Parts(groups, os))[0])
  {
    var parts := Parts(groups, os);
    if groups != [] {
      assert parts[0] == groups[0] && IsGroup(groups[0]);
    } else {
      assert parts[0] == DottedText(os.value) && IsOctet(os.value[0]);
    }
  }

  /** Groups up to the end of the text. */
  lemma {:induction false} ReadsSide(groups: seq<string>, os: Option<seq<string>>, got: seq<byte>, e: Option<nat>)
    requires AreGroups(groups) && AreOctets(os) && InRange(got, e) && Parts(groups, os) != []
    requires |got| + 2 * (|groups| + Weight(os)) <= 16 && (os.Some? && e.None? ==> |got| + 2 * |groups| == 12)
    ensures Groups(Join(Parts(groups, os)), got, e) == Some((got + SideBytes(groups, os), e))
    decreases |groups|
  {
    hide Group, AfterGroup, Value;
    var parts := Parts(groups, os);
    if groups == [] {
      ReadsDotted(os.value, got, e);
      assert parts == [DottedText(os.value)];
      assert GroupBytes([]) + OctetBytes(os) == OctetBytes(os);
    } else {
      assert IsGroup(groups[0]);
      var more, rest := Parts(groups[1..], os), if |parts| == 1 then "" else ":" + Join(parts[1..]);
      assert parts[0] == groups[0] && parts[1..] == more;
      assert Join(parts) == groups[0] + rest;
      ReadsGroup(groups[0], rest, got, e);
      var got1 := got + Pair(Value(groups[0], 16));
      BytesSplit(groups, os, got);
      if |parts| == 1 {
        EndsThere(got1, e);
        assert GroupBytes([]) == [];
        assert got1 + SideBytes(groups[1..], os) == got1;
      } else {
        FirstIsHex(groups[1..], os);
        GoesOn(Join(more), got1, e);
        ReadsSide(groups[1..], os, got1, e);
      }
    }
  }

  lemma BytesSplit(groups: seq<string>, os: Option<seq<string>>, got: seq<byte>)
    requires AreGroups(groups) && AreOctets(os) && groups != []
    ensures Value(groups[0], 16) <= 0xffff
    ensures got + SideBytes(groups, os) == got + Pair(Value(groups[0], 16)) + SideBytes(groups[1..], os)
  {
    ValueBelow(groups[0], 16);
    hide Pair, Value, OctetBytes;
    var p, g, o := Pair(Value(groups[0], 16)), GroupBytes(groups[1..]), OctetBytes(os);
    assert GroupBytes(groups) == p + g;
    assert got + (p + g + o) == got + p + (g + o);
  }

  lemma EndsThere(got: seq<byte>, e: Option<nat>)
    requires InRange(got, e)
    ensures AfterGroup("", got, e) == End(got, e)
  {
  }

  lemma GoesOn(s: string, got: seq<byte>, e: Option<nat>)
    requires InRange(got, e) && s != "" && Hex(s[0])
    ensures AfterGroup(":" + s, got, e) == More(s, got, e)
  {
    assert (":" + s)[1..] == s;
  }

  lemma Ellipsis(s: string, got: seq<byte>)
    ensures AfterGroup("::" + s, got, None)
         == if s == "" then End(got, Some(|got|)) else More(s, got, Some(|got|))
  {
    assert ("::" + s)[2..] == s;
  }

  /** Groups up to the "::", and what is done at it. */
  lemma {:induction false} ReadsLeft(left: seq<string>, s: string, got: seq<byte>)
    requires AreGroups(left) && left != [] && |got| + 2 * |left| <= 14
    ensures var all, place := got + GroupBytes(left), Some(|got| + 2 * |left|);
            Groups(Join(left) + ("::" + s), got, None) == if s == "" then Some((all, place)) else Groups(s, all, place)
    decreases |left|
  {
    hide Group, AfterGroup, Value;
    assert IsGroup(left[0]);
    var rest := if |left| == 1 then "::" + s else ":" + (Join(left[1..]) + ("::" + s));
    assert Join(left) + ("::" + s) == left[0] + rest;
    ReadsGroup(left[0], rest, got, None);
    var got1 := got + Pair(Value(left[0], 16));
    assert got + GroupBytes(left) == got1 + GroupBytes(left[1..]);
    if |left| == 1 {
      Ellipsis(s, got1);
      assert GroupBytes([]) == [] && got1 + [] == got1;
    } else {
      var next := Join(left[1..]) + ("::" + s);
      assert Parts(left[1..], None) == left[1..];
      FirstIsHex(left[1..], None);
      assert next[0] == Join(left[1..])[0];
      GoesOn(next, got1, None);
      ReadsLeft(left[1..], s, got1);
    }
  }

  // ----------------------------------------------------------------- addresses

  lemma {:induction false} FirstColon(h: string, digits: string, rest: string)
    requires forall i :: 0 <= i < |digits| ==> Hex(digits[i])
    ensures ParsedFrom(h, digits + (":" + rest)) == V6(h)
    decreases |digits|
  {
    var s := digits + (":" + rest);
    if digits != [] {
      assert s[0] == digits[0] && Hex(digits[0]);
      assert s[1..] == digits[1..] + (":" + rest);
      FirstColon(h, digits[1..], rest);
    }
  }

  lemma FullParses(groups: seq<string>, octets: Option<seq<string>>)
    requires Allowed(Full(groups, octets))
    ensures V6(Text(Full(groups, octets))) == Some(Denoted(Full(groups, octets)))
  {
    var text := Join(Parts(groups, octets));
    FirstIsHex(groups, octets);
    ReadsSide(groups, octets, [], None);
    assert [] + SideBytes(groups, octets) == SideBytes(groups, octets);
  }

  lemma NoLeftParses(right: seq<string>, octets: Option<seq<string>>)
    requires Allowed(Compressed([], right, octets))
    ensures var b := SideBytes(right, octets);
            |b| <= 14 && V6("::" + Join(Parts(right, octets))) == Some(Repeat<byte>(0, 16 - |b|) + b)
  {
    hide SideBytes, Groups;
    var s, b := Join(Parts(right, octets)), SideBytes(right, octets);
    assert ("::" + s)[2..] == s;
    if Parts(right, octets) == [] {
      assert Repeat<byte>(0, 16) + b == Repeat<byte>(0, 16);
    } else {
      FirstIsHex(right, octets);
      ReadsSide(right, octets, [], Some(0));
      assert [] + b == b && b[..0] + Repeat<byte>(0, 16 - |b|) + b[0..] == Repeat<byte>(0, 16 - |b|) + b;
    }
  }

  lemma WithLeftParses(left: seq<string>, right: seq<string>, octets: Option<seq<string>>)
    requires Allowed(Compressed(left, right, octets)) && left != []
    ensures var a, b := GroupBytes(left), SideBytes(right, octets);
            && |a + b| <= 14
            && V6(Join(left) + ("::" + Join(Parts(right, octets)))) == Some(a + Repeat<byte>(0, 16 - |a + b|) + b)
  {
    hide SideBytes, Groups, GroupBytes, V6, Join, Parts, Expanded;
    var s, a, b := Join(Parts(right, octets)), GroupBytes(left), SideBytes(right, octets);
    var text := Join(left) + ("::" + s);
    ReadsLeft(left, s, []);
    assert [] + a == a;
    StartsWithDigit(left);
    assert text[0] == Join(left)[0];
    NothingRight(right, octets);
    if Parts(right, octets) == [] {
      assert a + b == a;
    } else {
      FirstIsHex(right, octets);
      ReadsSide(right, octets, a, Some(2 * |left|));
    }
    V6Is(text, a + b, Some(|a|));
    ExpandedIs(a, b);
  }

  lemma StartsWithDigit(left: seq<string>)
    requires AreGroups(left) && left != []
    ensures Join(left) != "" && Hex(Join(left)[0])
  {
    assert Parts(left, None) == left;
    FirstIsHex(left, None);
  }

  lemma NothingRight(right: seq<string>, octets: Option<seq<string>>)
    requires AreGroups(right) && AreOctets(octets)
    ensures Parts(right, octets) == [] ==> SideBytes(right, octets) == [] && Join(Parts(right, octets)) == ""
  {
  }

  lemma V6Is(text: string, got: seq<byte>, place: Option<nat>)
    requires text != "" && text[0] != ':' && InRange(got, place)
    requires Groups(text, [], None) == Some((got, place))
    ensures V6(text) == Expanded(got, place)
  {
  }

  lemma ExpandedIs(a: seq<byte>, b: seq<byte>)
    requires |a + b| < 16
    ensures Expanded(a + b, Some(|a|)) == Some(a + Repeat<byte>(0, 16 - |a + b|) + b)
  {
    assert (a + b)[..|a|] == a && (a + b)[|a|..] == b;
  }

  lemma CompressedParses(left: seq<string>, right: seq<string>, octets: Option<seq<string>>)
    requires Allowed(Compressed(left, right, octets))
    ensures V6(Text(Compressed(left, right, octets))) == Some(Denoted(Compressed(left, right, octets)))
  {
    hide SideBytes, V6;
    if left == [] {
      NoLeftParses(right, octets);
      assert Join(left) + ("::" + Join(Parts(right, octets))) == "::" + Join(Parts(right, octets));
      var b := SideBytes(right, octets);
      assert GroupBytes(left) + Repeat<byte>(0, 16 - |b|) + b == Repeat<byte>(0, 16 - |b|) + b;
    } else {
      WithLeftParses(left, right, octets);
    }
  }

  lemma ColonComesFirst(sp: Spelling)
    requires Allowed(sp)
    ensures Parsed(Text(sp)) == V6(Text(sp))
  {
    var text := Text(sp);
    match sp
    case Full(groups, octets) =>
      var parts := Parts(groups, octets);
      assert parts[0] == groups[0] && IsGroup(groups[0]);
      FirstColon(text, groups[0], Join(parts[1..]));
    case Compressed(left, right, octets) =>
      var s := Join(Parts(right, octets));
      if left == [] {
        assert text == "" + (":" + (":" + s));
        FirstColon(text, "", ":" + s);
      } else if |left| == 1 {
        assert IsGroup(left[0]);
        assert text == left[0] + (":" + (":" + s));
        FirstColon(text, left[0], ":" + s);
      } else {
        assert IsGroup(left[0]);
        assert text == left[0] + (":" + (Join(left[1..]) + ("::" + s)));
        FirstColon(text, left[0], Join(left[1..]) + ("::" + s));
      }
  }

  /** Every spelling the standard allows is read as the address it stands for. */
  lemma EverySpellingParses(sp: Spelling)
    requires Allowed(sp)
    ensures Parsed(Text(sp)) == Some(Denoted(sp))
  {
    hide Allowed, Text, Denoted, V6;
    ColonComesFirst(sp);
    match sp
    case Full(groups, octets) => FullParses(groups, octets);
    case Compressed(left, right, octets) => CompressedParses(left, right, octets);
  }

  /** Four decimal octets are read as an address of four octets, in sixteen. */
  lemma DottedParses(os: seq<string>)
    requires AreOctets(Some(os))
    ensures Parsed(DottedText(os)) == Some(IpV4(OctetBytes(Some(os))))
  {
    hide Quad, Value, ParsedFrom, IpV4, OctetBytes;
    ReadsQuad(os);
    assert IsOctet(os[0]);
    var rest := "." + os[1] + "." + os[2] + "." + os[3];
    assert DottedText(os) == os[0] + rest;
    FirstDot(DottedText(os), os[0], rest);
  }

  lemma {:induction false} FirstDot(h: string, digits: string, rest: string)
    requires (forall i :: 0 <= i < |digits| ==> Decimal(digits[i])) && rest != "" && rest[0] == '.'
    ensures ParsedFrom(h, digits + rest) == match Quad(h) case None => None case Some(ip) => Some(IpV4(ip))
    decreases |digits|
  {
    if digits != [] {
      assert (digits + rest)[0] == digits[0] && (digits + rest)[1..] == digits[1..] + rest;
      FirstDot(h, digits[1..], rest);
    }
  }

  /** A caller's view: the method returns what the spelling stands for. */
  method ReadAddress(text: string, ghost sp: Spelling) returns (r: Option<seq<byte>>)
    requires Allowed(sp) && text == Text(sp)
    ensures r == Some(Denoted(sp))
  {
    EverySpellingParses(sp);
    r := ParseIP(text);
  }
}
