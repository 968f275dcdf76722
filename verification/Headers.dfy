/** Message headers: a status and an ordered map from keys to lists of values, with their
    text form. */
module Headers {
  import opened Bytes
  import opened HeaderText

  datatype HeaderError = BadKey | BadValue | StatusNeedsBoth

  datatype Result<+T> = Ok(value: T) | Err(error: HeaderError)

  datatype Match = Exact | CanonicalMIME | IgnoreCase

  datatype Field = Field(key: string, values: seq<string>)

  datatype HeaderSet = HeaderSet(code: int, description: string, fields: seq<Field>)

  // -------------------------------------------------------------- canonical keys

  predicate KeyChar(ch: char) { 33 <= ch as int <= 126 && ch != ':' }

  predicate ValidKey(k: string) {
    forall i :: 0 <= i < |k| ==> KeyChar(k[i])
  }

  function LowerChar(ch: char): char { if 'A' <= ch <= 'Z' then (ch as int + 32) as char else ch }

  function UpperChar(ch: char): char { if 'a' <= ch <= 'z' then (ch as int - 32) as char else ch }

  function Lower(k: string): (l: string)
    ensures |l| == |k| && forall i :: 0 <= i < |k| ==> l[i] == LowerChar(k[i])
  {
    seq(|k|, i requires 0 <= i < |k| => LowerChar(k[i]))
  }

  /** A letter is upper case at the start and after a dash, and lower case elsewhere. */
  function CanonicalChar(k: string, i: nat): char
    requires i < |k|
  {
    if i == 0 || k[i - 1] == '-' then UpperChar(k[i]) else LowerChar(k[i])
  }

  function CanonicalOf(k: string): (c: string)
    ensures |c| == |k| && forall i :: 0 <= i < |k| ==> c[i] == CanonicalChar(k, i)
  {
    seq(|k|, i requires 0 <= i < |k| => CanonicalChar(k, i))
  }

  function Canonical(k: string): Result<string> {
    if ValidKey(k) then Ok(CanonicalOf(k)) else Err(BadKey)
  }

  method CanonicalMIMEHeaderKey(k: string) returns (r: Result<string>)
    ensures r == Canonical(k)
  {
    var upper := true;
    var buf: array<char> := new char[|k|](_ => ' ');
    for i := 0 to |k|
      invariant upper == (i == 0 || k[i - 1] == '-')
      invariant forall j :: 0 <= j < i ==> KeyChar(k[j]) && buf[j] == CanonicalChar(k, j)
    {
      var c := k[i];
      if c == ':' || c as int < 33 || c as int > 126 {
        assert !KeyChar(k[i]);
        return Err(BadKey);
      }
      if upper && 'a' <= c <= 'z' {
        c := (c as int - 32) as char;
      } else if !upper && 'A' <= c <= 'Z' {
        c := (c as int + 32) as char;
      }
      buf[i] := c;
      upper := c == '-';
    }
    assert buf[..] == CanonicalOf(k);
    r := Ok(buf[..]);
  }

  /** The canonical form of a key is valid and is its own canonical form. */
  lemma CanonicalTwice(k: string)
    requires ValidKey(k)
    ensures ValidKey(CanonicalOf(k)) && CanonicalOf(CanonicalOf(k)) == CanonicalOf(k)
  {
    var c := CanonicalOf(k);
    forall i | 0 <= i < |k|
      ensures KeyChar(c[i]) && CanonicalChar(c, i) == c[i]
    {
      assert KeyChar(k[i]);
      assert i > 0 ==> (c[i - 1] == '-' <==> k[i - 1] == '-') by {
        if i > 0 { assert c[i - 1] == CanonicalChar(k, i - 1); }
      }
    }
  }

  /** Two keys have one canonical form exactly when they differ in case alone. */
  lemma SameCanonicalIff(k: string, l: string)
    ensures CanonicalOf(k) == CanonicalOf(l) <==> Lower(k) == Lower(l)
  {
    if CanonicalOf(k) == CanonicalOf(l) {
      LowerOfCanonical(k);
      LowerOfCanonical(l);
    } else if Lower(k) == Lower(l) {
      CanonicalOfLower(k);
      CanonicalOfLower(l);
    }
  }

  lemma LowerOfCanonical(k: string)
    ensures Lower(CanonicalOf(k)) == Lower(k)
  {
    assert forall i :: 0 <= i < |k| ==> LowerChar(CanonicalChar(k, i)) == LowerChar(k[i]);
  }

  lemma CanonicalOfLower(k: string)
    ensures CanonicalOf(Lower(k)) == CanonicalOf(k)
  {
    var l := Lower(k);
    forall i | 0 <= i < |k|
      ensures CanonicalChar(l, i) == CanonicalChar(k, i)
    {
      assert i > 0 ==> l[i - 1] == LowerChar(k[i - 1]);
    }
  }

  // ------------------------------------------------------------- the operations

  function Keys(fields: seq<Field>): seq<string> {
    if fields == [] then [] else [fields[0].key] + Keys(fields[1..])
  }

  predicate Matches(key: string, k: string, how: Match) {
    match how
    case Exact => key == k
    case CanonicalMIME => key == CanonicalOf(k)
    case IgnoreCase => Lower(key) == Lower(k)
  }

  function Filtered(keys: seq<string>, k: string, how: Match): seq<string> {
    if keys == [] then []
    else if Matches(keys[0], k, how) then [keys[0]] + Filtered(keys[1..], k, how)
    else Filtered(keys[1..], k, how)
  }

  /** The keys that match; asking for a canonical key that is no key is an error. */
  function FindKeys(h: HeaderSet, k: string, how: Match): Result<seq<string>> {
    if how == CanonicalMIME && !ValidKey(k) then Err(BadKey) else Ok(Filtered(Keys(h.fields), k, how))
  }

  function Without(fields: seq<Field>, keys: seq<string>): seq<Field> {
    if fields == [] then []
    else if fields[0].key in keys then Without(fields[1..], keys)
    else [fields[0]] + Without(fields[1..], keys)
  }

  /** One more value for a key, which comes last if it is new. */
  function With(fields: seq<Field>, k: string, v: string): seq<Field> {
    if fields == [] then [Field(k, [v])]
    else if fields[0].key == k then [Field(k, fields[0].values + [v])] + fields[1..]
    else [fields[0]] + With(fields[1..], k, v)
  }

  /** The key a value goes to. */
  function Target(h: HeaderSet, k: string, how: Match): (t: string)
  {
    var key := if how == CanonicalMIME then CanonicalOf(k) else k;
    var keys := Filtered(Keys(h.fields), key, how);
    if keys != [] then keys[0] else key
  }

  function Appended(h: HeaderSet, k: string, v: string, how: Match): Result<HeaderSet> {
    if !ValidKey(k) then Err(BadKey)
    else if !OneLine(v) then Err(BadValue)
    else Ok(h.(fields := With(h.fields, Target(h, k, how), Trim(v))))
  }

  function Deleted(h: HeaderSet, k: string, how: Match): Result<HeaderSet> {
    match FindKeys(h, k, how)
    case Err(e) => Err(e)
    case Ok(keys) => Ok(h.(fields := Without(h.fields, keys)))
  }

  // ------------------------------------------------------------------ text form

  const HEADER := "NATS/1.0"

  function Status(h: HeaderSet): string {
    if h.code > 0 && h.description != "" then " " + (Text(h.code) + (" " + h.description)) else ""
  }

  /** Each value with its key, in the order of the keys and of their values. */
  function PairsOf(k: string, values: seq<string>): seq<(string, string)> {
    if values == [] then [] else [(k, values[0])] + PairsOf(k, values[1..])
  }

  function Pairs(fields: seq<Field>): seq<(string, string)> {
    if fields == [] then [] else PairsOf(fields[0].key, fields[0].values) + Pairs(fields[1..])
  }

  function Line(p: (string, string)): string { p.0 + (":" + (" " + p.1)) }

  function LinesOf(ps: seq<(string, string)>): string {
    if ps == [] then "" else "\r\n" + (Line(ps[0]) + LinesOf(ps[1..]))
  }

  function Printed(h: HeaderSet): string {
    if h.fields == [] && h.code == 0 then ""
    else (HEADER + Status(h)) + (LinesOf(Pairs(h.fields)) + "\r\n\r\n")
  }

  function ReadStatus(line: string): (int, string) {
    if line == HEADER then (0, "")
    else
      var text := Trim(Remove(line, HEADER));
      if text == "" then (0, "")
      else (ParseInt(text), Trim(Remove(text, SignedText(ParseInt(text)))))
  }

  function ReadLine(h: HeaderSet, line: string): Result<HeaderSet> {
    match IndexOf(line, ":")
    case None => Ok(h)
    case Some(i) => Appended(h, line[..i], Trim(line[i + 1..]), Exact)
  }

  function ReadLines(h: HeaderSet, lines: seq<string>): Result<HeaderSet>
    decreases |lines|
  {
    if lines == [] then Ok(h)
    else match ReadLine(h, lines[0])
      case Err(e) => Err(e)
      case Ok(more) => ReadLines(more, lines[1..])
  }

  function Decoded(s: string): Result<HeaderSet> {
    var lines := Lines(s);
    var (code, description) := ReadStatus(lines[0]);
    ReadLines(HeaderSet(code, description, []), lines[1..])
  }

  // ------------------------------------------------------------------ the class

  ghost predicate Clean(f: Field) {
    && ValidKey(f.key) && f.values != []
    && forall i :: 0 <= i < |f.values| ==> OneLine(f.values[i]) && Trimmed(f.values[i])
  }

  ghost predicate DistinctKeys(fields: seq<Field>) {
    forall i, j :: 0 <= i < j < |fields| ==> fields[i].key != fields[j].key
  }

  /** Headers made with `headers()` and changed with append, set and delete. */
  ghost predicate WellMade(h: HeaderSet) {
    && (forall i :: 0 <= i < |h.fields| ==> Clean(h.fields[i]))
    && DistinctKeys(h.fields)
    && (h.code == 0 ==> h.description == "") && (h.code > 0 ==> h.description != "")
  }

  lemma {:induction false} KeysAre(fields: seq<Field>)
    ensures |Keys(fields)| == |fields| && forall i :: 0 <= i < |fields| ==> Keys(fields)[i] == fields[i].key
  {
    if fields != [] {
      KeysAre(fields[1..]);
    }
  }

  /** Where the key is, if it is there. */
  function Find(fields: seq<Field>, k: string): (i: Option<nat>)
    ensures i.Some? ==> i.value < |fields| && fields[i.value].key == k
    ensures i.None? ==> forall j :: 0 <= j < |fields| ==> fields[j].key != k
  {
    if fields == [] then None
    else if fields[0].key == k then Some(0)
    else match Find(fields[1..], k)
      case None => None
      case Some(j) => Some(j + 1)
  }

  lemma {:induction false} WithIs(fields: seq<Field>, k: string, v: string)
    ensures With(fields, k, v)
         == match Find(fields, k)
            case None => fields + [Field(k, [v])]
            case Some(i) => fields[i := Field(k, fields[i].values + [v])]
  {
    if fields != [] && fields[0].key != k {
      WithIs(fields[1..], k, v);
      match Find(fields[1..], k)
      case None => assert fields + [Field(k, [v])] == [fields[0]] + (fields[1..] + [Field(k, [v])]);
      case Some(i) =>
        var f := Field(k, fields[i + 1].values + [v]);
        assert fields[i + 1 := f] == [fields[0]] + fields[1..][i := f];
    }
  }

  lemma {:induction false} WithoutIs(fields: seq<Field>, keys: seq<string>)
    requires DistinctKeys(fields)
    ensures var r := Without(fields, keys);
            && (forall f :: f in r <==> f in fields && f.key !in keys)
            && DistinctKeys(r)
  {
    if fields != [] {
      WithoutIs(fields[1..], keys);
    }
  }

  lemma {:induction false} FilteredMembers(keys: seq<string>, k: string, how: Match)
    ensures forall x :: x in Filtered(keys, k, how) <==> x in keys && Matches(x, k, how)
  {
    if keys != [] {
      FilteredMembers(keys[1..], k, how);
    }
  }

  lemma TargetIsValid(h: HeaderSet, k: string, how: Match)
    requires WellMade(h) && ValidKey(k)
    ensures ValidKey(Target(h, k, how))
  {
    CanonicalTwice(k);
    var key := if how == CanonicalMIME then CanonicalOf(k) else k;
    FilteredMembers(Keys(h.fields), key, how);
    KeysAre(h.fields);
    var keys := Filtered(Keys(h.fields), key, how);
    if keys != [] {
      assert keys[0] in Keys(h.fields);
      var i :| 0 <= i < |h.fields| && Keys(h.fields)[i] == keys[0];
      assert Clean(h.fields[i]);
    }
  }

  lemma AppendedWellMade(h: HeaderSet, k: string, v: string, how: Match)
    requires WellMade(h) && Appended(h, k, v, how).Ok?
    ensures WellMade(Appended(h, k, v, how).value)
  {
    TargetIsValid(h, k, how);
    TrimKeepsOneLine(v);
    TrimIsTrimmed(v);
    WithGood(h.fields, Target(h, k, how), Trim(v));
  }

  lemma WithGood(fields: seq<Field>, k: string, v: string)
    requires (forall i :: 0 <= i < |fields| ==> Clean(fields[i])) && DistinctKeys(fields)
    requires ValidKey(k) && OneLine(v) && Trimmed(v)
    ensures var r := With(fields, k, v);
            (forall i :: 0 <= i < |r| ==> Clean(r[i])) && DistinctKeys(r)
  {
    WithIs(fields, k, v);
    var at := Find(fields, k);
    hide With, Find;
    if at.Some? {
      var f := fields[at.value];
      assert Clean(f);
      assert Clean(Field(k, f.values + [v]));
    } else {
      assert Clean(Field(k, [v]));
    }
  }

  lemma DeletedWellMade(h: HeaderSet, k: string, how: Match)
    requires WellMade(h) && Deleted(h, k, how).Ok?
    ensures WellMade(Deleted(h, k, how).value)
  {
    WithoutIs(h.fields, FindKeys(h, k, how).value);
    var r := Deleted(h, k, how).value;
    forall i | 0 <= i < |r.fields|
      ensures Clean(r.fields[i])
    {
      assert r.fields[i] in h.fields;
    }
  }

  /** A canonical lookup finds the one key of that form; looking regardless of case finds
      all that differ in case alone. */
  lemma FindKeysFinds(h: HeaderSet, k: string, how: Match, x: string)
    requires FindKeys(h, k, how).Ok?
    ensures x in FindKeys(h, k, how).value
         <==> x in Keys(h.fields) && (match how
              case Exact => x == k
              case CanonicalMIME => x == CanonicalOf(k)
              case IgnoreCase => CanonicalOf(x) == CanonicalOf(k))
  {
    FilteredMembers(Keys(h.fields), k, how);
    SameCanonicalIff(x, k);
  }

  // ---------------------------------------------------------------- round trip

  function LineList(ps: seq<(string, string)>): seq<string> {
    if ps == [] then [] else [Line(ps[0])] + LineList(ps[1..])
  }

  ghost predicate CleanPair(p: (string, string)) {
    ValidKey(p.0) && OneLine(p.1) && Trimmed(p.1)
  }

  ghost predicate CleanPairs(ps: seq<(string, string)>) {
    forall i :: 0 <= i < |ps| ==> CleanPair(ps[i])
  }

  lemma {:induction false} LinesOfLines(a: string, ps: seq<(string, string)>)
    requires NoBreak(a) && CleanPairs(ps)
    ensures Lines(a + (LinesOf(ps) + "\r\n\r\n")) == [a] + LineList(ps) + ["", ""]
    decreases |ps|
  {
    if ps == [] {
      FirstLine(a, "\r\n");
      FirstLine("", "");
      assert LinesOf(ps) + "\r\n\r\n" == "\r\n" + "\r\n";
      assert "" + ("\r\n" + "") == "\r\n";
    } else {
      var rest := Line(ps[0]) + (LinesOf(ps[1..]) + "\r\n\r\n");
      assert LinesOf(ps) + "\r\n\r\n" == "\r\n" + rest;
      FirstLine(a, rest);
      assert CleanPair(ps[0]);
      LinesOfLines(Line(ps[0]), ps[1..]);
    }
  }

  function WithAll(fields: seq<Field>, ps: seq<(string, string)>): seq<Field>
    decreases |ps|
  {
    if ps == [] then fields else WithAll(With(fields, ps[0].0, ps[0].1), ps[1..])
  }

  lemma ReadsLine(h: HeaderSet, p: (string, string))
    requires CleanPair(p)
    ensures ReadLine(h, Line(p)) == Ok(h.(fields := With(h.fields, p.0, p.1)))
  {
    var rest := " " + p.1;
    ColonAt(p.0, rest);
    assert Line(p)[..|p.0|] == p.0 && Line(p)[|p.0| + 1..] == rest;
    if p.1 == "" {
      TrimBlank(" ");
      TrimBlank("");
      assert rest == " ";
    } else {
      TrimOf(" ", p.1, "");
      TrimOf("", p.1, "");
      assert " " + p.1 + "" == rest && "" + p.1 + "" == p.1;
    }
    FilteredMembers(Keys(h.fields), p.0, Exact);
    var keys := Filtered(Keys(h.fields), p.0, Exact);
    assert keys != [] ==> keys[0] in keys;
  }

  lemma {:induction false} ReadsLines(h: HeaderSet, ps: seq<(string, string)>)
    requires CleanPairs(ps)
    ensures ReadLines(h, LineList(ps) + ["", ""]) == Ok(h.(fields := WithAll(h.fields, ps)))
    decreases |ps|
  {
    hide ReadLine, Line, With;
    var lines := LineList(ps) + ["", ""];
    if ps == [] {
      assert lines == ["", ""] && lines[1..] == [""] && [""][1..] == [];
      EmptyLine(h);
      assert ReadLines(h, []) == Ok(h);
      assert ReadLines(h, [""]) == Ok(h);
    } else {
      assert lines[0] == Line(ps[0]) && lines[1..] == LineList(ps[1..]) + ["", ""];
      assert CleanPair(ps[0]);
      ReadsLine(h, ps[0]);
      ReadsLines(h.(fields := With(h.fields, ps[0].0, ps[0].1)), ps[1..]);
    }
  }

  lemma EmptyLine(h: HeaderSet)
    ensures ReadLine(h, "") == Ok(h)
  {
  }

  lemma {:induction false} WithAllAppend(fields: seq<Field>, a: seq<(string, string)>, b: seq<(string, string)>)
    ensures WithAll(fields, a + b) == WithAll(WithAll(fields, a), b)
    decreases |a|
  {
    if a == [] {
      assert a + b == b;
    } else {
      assert (a + b)[0] == a[0] && (a + b)[1..] == a[1..] + b;
      WithAllAppend(With(fields, a[0].0, a[0].1), a[1..], b);
    }
  }

  lemma AnotherValue(done: seq<Field>, k: string, got: seq<string>, v: string)
    requires forall i :: 0 <= i < |done| ==> done[i].key != k
    ensures With(done + [Field(k, got)], k, v) == done + [Field(k, got + [v])]
  {
    WithIs(done + [Field(k, got)], k, v);
    LastFound(done, Field(k, got));
  }

  lemma {:induction false} MoreValues(done: seq<Field>, k: string, got: seq<string>, values: seq<string>)
    requires forall i :: 0 <= i < |done| ==> done[i].key != k
    ensures WithAll(done + [Field(k, got)], PairsOf(k, values)) == done + [Field(k, got + values)]
    decreases |values|
  {
    hide With;
    if values == [] {
      assert got + values == got;
    } else {
      AnotherValue(done, k, got, values[0]);
      assert PairsOf(k, values)[0] == (k, values[0]) && PairsOf(k, values)[1..] == PairsOf(k, values[1..]);
      assert got + [values[0]] + values[1..] == got + values;
      MoreValues(done, k, got + [values[0]], values[1..]);
    }
  }

  lemma FirstPair(done: seq<Field>, k: string, values: seq<string>)
    requires values != []
    ensures WithAll(done, PairsOf(k, values)) == WithAll(With(done, k, values[0]), PairsOf(k, values[1..]))
  {
    hide With;
    assert PairsOf(k, values)[0] == (k, values[0]) && PairsOf(k, values)[1..] == PairsOf(k, values[1..]);
  }

  lemma FirstValue(done: seq<Field>, k: string, v: string)
    requires forall i :: 0 <= i < |done| ==> done[i].key != k
    ensures With(done, k, v) == done + [Field(k, [v])]
  {
    WithIs(done, k, v);
    NotFound(done, k);
  }

  lemma OneField(done: seq<Field>, f: Field)
    requires f.values != []
    requires forall i :: 0 <= i < |done| ==> done[i].key != f.key
    ensures WithAll(done, PairsOf(f.key, f.values)) == done + [f]
  {
    hide With, WithAll, PairsOf;
    FirstPair(done, f.key, f.values);
    FirstValue(done, f.key, f.values[0]);
    MoreValues(done, f.key, [f.values[0]], f.values[1..]);
    assert [f.values[0]] + f.values[1..] == f.values;
  }

  lemma {:induction false} LastFound(done: seq<Field>, f: Field)
    requires forall i :: 0 <= i < |done| ==> done[i].key != f.key
    ensures Find(done + [f], f.key) == Some(|done|)
  {
    if done != [] {
      assert (done + [f])[1..] == done[1..] + [f];
      LastFound(done[1..], f);
    }
  }

  lemma {:induction false} NotFound(done: seq<Field>, k: string)
    requires forall i :: 0 <= i < |done| ==> done[i].key != k
    ensures Find(done, k) == None
  {
    if done != [] {
      NotFound(done[1..], k);
    }
  }

  lemma NoMore(done: seq<Field>)
    ensures WithAll(done, []) == done
  {
  }

  /** The values put back one by one make the fields they came from. */
  lemma {:induction false} FieldsAgain(done: seq<Field>, fields: seq<Field>)
    requires DistinctKeys(done + fields)
    requires forall i :: 0 <= i < |fields| ==> fields[i].values != []
    ensures WithAll(done, Pairs(fields)) == done + fields
    decreases |fields|
  {
    hide WithAll, PairsOf;
    assert WithAll(done, []) == done by { NoMore(done); }
    if fields == [] {
      assert done + fields == done;
    } else {
      var f := fields[0];
      forall i | 0 <= i < |done|
        ensures done[i].key != f.key
      {
        assert (done + fields)[i] == done[i] && (done + fields)[|done|] == f;
      }
      WithAllAppend(done, PairsOf(f.key, f.values), Pairs(fields[1..]));
      OneField(done, f);
      assert done + [f] + fields[1..] == done + fields;
      FieldsAgain(done + [f], fields[1..]);
    }
  }

  lemma {:induction false} PairsAreClean(fields: seq<Field>)
    requires forall i :: 0 <= i < |fields| ==> Clean(fields[i])
    ensures CleanPairs(Pairs(fields))
  {
    if fields != [] {
      PairsAreClean(fields[1..]);
      assert Clean(fields[0]);
      PairsOfAreClean(fields[0].key, fields[0].values);
    }
  }

  lemma {:induction false} PairsOfAreClean(k: string, values: seq<string>)
    requires ValidKey(k) && forall i :: 0 <= i < |values| ==> OneLine(values[i]) && Trimmed(values[i])
    ensures CleanPairs(PairsOf(k, values))
  {
    if values != [] {
      PairsOfAreClean(k, values[1..]);
    }
  }

  // ---------------------------------------------------------------- the status

  lemma {:induction false} DigitsAreOneLine(n: nat)
    ensures OneLine(Text(n)) && !Space(Text(n)[0]) && Text(n)[0] != '-' && Text(n)[0] != '+'
  {
    var t := Text(n);
    assert forall i :: 0 <= i < |t| ==> Decimal(t[i]);
  }

  lemma ParsesNumber(n: nat, rest: string)
    requires rest != "" ==> rest[0] == ' '
    ensures ParseInt(Text(n) + rest) == n
  {
    DigitsAreOneLine(n);
    LeadingOf(n, rest);
    TrimStartOf("", Text(n) + rest);
    assert "" + (Text(n) + rest) == Text(n) + rest;
  }

  /** What the status line says when some text `d` stands behind the code. */
  lemma ReadsStatus(n: nat, d: string)
    ensures ReadStatus(HEADER + (" " + (Text(n) + (" " + d)))) == (n, Trim(TrimEnd(" " + d)))
  {
    hide TrimStart, TrimEnd, Remove, ParseInt, Text;
    var text, rest := Text(n) + (" " + d), TrimEnd(" " + d);
    var line := HEADER + (" " + text);
    DigitsAreOneLine(n);
    RemovePrefix(HEADER, " " + text);
    TrimStartOf(" ", text);
    TrimEndBehind(Text(n), " " + d);
    assert Trim(" " + text) == Text(n) + rest;
    TrimEndKeeps(" " + d);
    ParsesNumber(n, rest);
    RemovePrefix(Text(n), rest);
    assert line != HEADER by { assert |line| > |HEADER|; }
  }

  /** What is read of it is trimmed and no longer than it, and the same when it is
      trimmed already. */
  lemma TrimmedDescription(d: string)
    ensures var t := Trim(TrimEnd(" " + d));
            && Trimmed(t) && |t| <= |d| && (d != "" && Trimmed(d) ==> t == d)
  {
    var x := TrimEnd(" " + d);
    TrimIsTrimmed(x);
    TrimEndKeeps(" " + d);
    TrimShortens(x);
    if x != "" {
      assert x[0] == ' ';
      TrimShortens(x[1..]);
      TrimShortens(TrimStart(x));
    }
    if d != "" && Trimmed(d) {
      TrimEndBehind(" " + d, "");
      assert " " + d + "" == " " + d;
      TrimOf(" ", d, "");
    }
  }

  lemma {:induction false} TrimEndBehind(a: string, s: string)
    requires a != "" && !Space(a[|a| - 1])
    ensures TrimEnd(a + s) == a + TrimEnd(s)
    decreases |s|
  {
    hide Space;
    var all := a + s;
    if s == "" {
      assert all == a && a + TrimEnd(s) == a;
    } else {
      assert all[|all| - 1] == s[|s| - 1] && all[..|all| - 1] == a + s[..|s| - 1];
      if Space(s[|s| - 1]) {
        TrimEndBehind(a, s[..|s| - 1]);
      }
    }
  }

  lemma StatusStart(n: nat, x: string)
    ensures OneLine(HEADER + (" " + (Text(n) + " ")))
    ensures HEADER + (" " + (Text(n) + (" " + x))) == HEADER + (" " + (Text(n) + " ")) + x
  {
    DigitsAreOneLine(n);
    hide Text;
    assert OneLine(HEADER);
  }

  /** The first line, when there is a status to print: the description up to the place
      where a line ends in it, if there is one. */
  lemma FirstLineOfStatus(h: HeaderSet, rest: string) returns (x: string)
    requires h.code > 0 && h.description != ""
    ensures Lines((HEADER + Status(h)) + ("\r\n" + rest))[0] == HEADER + (" " + (Text(h.code) + (" " + x)))
    ensures if NoBreak(h.description) then x == h.description else |x| < |h.description|
  {
    hide Lines, Text, OneLine, NoBreak;
    var start, d := HEADER + (" " + (Text(h.code) + " ")), h.description;
    x := Lines(d + ("\r\n" + rest))[0];
    StatusStart(h.code, x);
    StatusStart(h.code, d);
    assert (HEADER + Status(h)) + ("\r\n" + rest) == start + (d + ("\r\n" + rest));
    LineGoesOn(start, d + ("\r\n" + rest));
    if NoBreak(d) {
      FirstLine(d, rest);
    } else {
      BrokenLine(d, "\r\n" + rest);
    }
  }

  /** Whether printing and reading gives the status back. */
  ghost predicate PrintsWell(h: HeaderSet) {
    h.code >= 0 && (h.code > 0 ==> Trimmed(h.description) && NoBreak(h.description))
  }

  lemma StatusNoBreak(h: HeaderSet)
    requires WellMade(h) && PrintsWell(h)
    ensures NoBreak(HEADER + Status(h)) && ReadStatus(HEADER + Status(h)) == (h.code, h.description)
  {
    if h.code > 0 {
      StatusStart(h.code, h.description);
      NoBreakAppend(HEADER + (" " + (Text(h.code) + " ")), h.description);
      ReadsStatus(h.code, h.description);
      TrimmedDescription(h.description);
    } else {
      assert HEADER + Status(h) == HEADER;
    }
  }

  lemma NoBreakAppend(a: string, d: string)
    requires OneLine(a) && NoBreak(d)
    ensures NoBreak(a + d)
  {
    var s := a + d;
    forall i | 0 <= i < |s| - 1
      ensures !(s[i] == '\r' && s[i + 1] == '\n')
    {
      if i >= |a| {
        assert s[i] == d[i - |a|] && s[i + 1] == d[i - |a| + 1];
      }
    }
  }

  lemma PrintsWellReadsBack(h: HeaderSet)
    requires WellMade(h) && PrintsWell(h)
    ensures Decoded(Printed(h)) == Ok(h)
  {
    hide ReadStatus, Status;
    StatusNoBreak(h);
    PairsAreClean(h.fields);
    var ps := Pairs(h.fields);
    if h.fields == [] && h.code == 0 {
      NothingReadsBack();
    } else {
      LinesOfLines(HEADER + Status(h), ps);
      var lines := Lines(Printed(h));
      assert lines[0] == HEADER + Status(h) && lines[1..] == LineList(ps) + ["", ""];
      ReadsLines(HeaderSet(h.code, h.description, []), ps);
      ValuesThere(h);
      assert [] + h.fields == h.fields;
      FieldsAgain([], h.fields);
    }
  }

  lemma ValuesThere(h: HeaderSet)
    requires WellMade(h)
    ensures forall i :: 0 <= i < |h.fields| ==> h.fields[i].values != []
  {
    forall i | 0 <= i < |h.fields|
      ensures h.fields[i].values != []
    {
      assert Clean(h.fields[i]);
    }
  }

  lemma NothingReadsBack()
    ensures Decoded("") == Ok(HeaderSet(0, "", []))
  {
    TrimBlank("");
    assert Lines("") == [""] && [""][1..] == [];
    assert Remove("", HEADER) == "";
  }

  lemma StatusReadBack(h: HeaderSet)
    requires WellMade(h)
    ensures Decoded(Printed(h)) == Ok(h) ==> PrintsWell(h)
  {
    if h.code != 0 && Decoded(Printed(h)) == Ok(h) {
      hide ReadStatus, Lines, Status;
      var lines := Lines(Printed(h));
      ReadLinesKeepStatus(h, lines);
      assert ReadStatus(lines[0]) == (h.code, h.description);
      if h.code > 0 {
        var rest := PrintedTail(h);
        var x := FirstLineOfStatus(h, rest);
        ReadsStatus(h.code, x);
        TrimmedDescription(x);
      } else {
        NegativeStatus(h);
      }
    }
  }

  lemma PrintedTail(h: HeaderSet) returns (rest: string)
    requires h.code != 0
    ensures Printed(h) == (HEADER + Status(h)) + ("\r\n" + rest)
  {
    var ps := Pairs(h.fields);
    if ps == [] {
      rest := "\r\n";
      assert LinesOf(ps) + "\r\n\r\n" == "\r\n" + rest;
    } else {
      rest := Line(ps[0]) + LinesOf(ps[1..]) + "\r\n\r\n";
      assert LinesOf(ps) + "\r\n\r\n" == "\r\n" + rest;
    }
  }

  lemma NegativeStatus(h: HeaderSet)
    requires h.code < 0
    ensures ReadStatus(Lines(Printed(h))[0]) == (0, "")
  {
    var rest := PrintedTail(h);
    assert HEADER + Status(h) == HEADER;
    assert NoBreak(HEADER);
    FirstLine(HEADER, rest);
  }

  lemma ReadLinesKeepStatus(h: HeaderSet, lines: seq<string>)
    requires lines != [] && (var (c, d) := ReadStatus(lines[0]); ReadLines(HeaderSet(c, d, []), lines[1..]) == Ok(h))
    ensures ReadStatus(lines[0]) == (h.code, h.description)
  {
    var (c, d) := ReadStatus(lines[0]);
    LinesKeepStatus(HeaderSet(c, d, []), lines[1..]);
  }

  lemma {:induction false} LinesKeepStatus(h: HeaderSet, lines: seq<string>)
    ensures var r := ReadLines(h, lines);
            r.Ok? ==> r.value.code == h.code && r.value.description == h.description
    decreases |lines|
  {
    if lines != [] && ReadLine(h, lines[0]).Ok? {
      LinesKeepStatus(ReadLine(h, lines[0]).value, lines[1..]);
    }
  }

  /** Printing headers and reading the text gives them back, status, keys and values in
      their order, exactly when the status is one that can be printed: a code that is not
      negative, with a description that is trimmed and does not end a line. */
  lemma RoundTripIff(h: HeaderSet)
    requires WellMade(h)
    ensures Decoded(Printed(h)) == Ok(h) <==> PrintsWell(h)
  {
    if PrintsWell(h) {
      PrintsWellReadsBack(h);
    } else {
      StatusReadBack(h);
    }
  }

  /** A description with a blank in front, one with a line end and a negative code are
      each read back as something else. */
  lemma NotReadBackExamples()
    ensures NotReadBack(HeaderSet(503, " x", []))
    ensures NotReadBack(HeaderSet(503, "a\r\nb", []))
    ensures NotReadBack(HeaderSet(-1, "", []))
  {
    assert !PrintsWell(HeaderSet(503, " x", [])) by { assert " x"[0] == ' '; }
    assert !PrintsWell(HeaderSet(503, "a\r\nb", [])) by {
      assert "a\r\nb"[1] == '\r' && "a\r\nb"[1 + 1] == '\n';
      assert !NoBreak("a\r\nb");
    }
    hide Decoded, Printed;
    RoundTripIff(HeaderSet(503, " x", []));
    RoundTripIff(HeaderSet(503, "a\r\nb", []));
    RoundTripIff(HeaderSet(-1, "", []));
  }

  ghost predicate NotReadBack(h: HeaderSet) {
    WellMade(h) && Decoded(Printed(h)) != Ok(h)
  }

  // ------------------------------------------------------------ what is kept

  /** The value goes to the first key that matches, or to a new one; the keys stay in
      their order, and the values of each in theirs. */
  function ValuesOf(fields: seq<Field>, k: string): seq<string> {
    if fields == [] then [] else if fields[0].key == k then fields[0].values else ValuesOf(fields[1..], k)
  }

  lemma {:induction false} WithAdds(fields: seq<Field>, k: string, v: string, other: string)
    ensures ValuesOf(With(fields, k, v), k) == ValuesOf(fields, k) + [v]
    ensures other != k ==> ValuesOf(With(fields, k, v), other) == ValuesOf(fields, other)
    ensures Keys(With(fields, k, v)) == Keys(fields) + if k in Keys(fields) then [] else [k]
  {
    if fields == [] {
      assert With(fields, k, v)[1..] == [];
    } else {
      assert With(fields, k, v)[0].key == fields[0].key;
      if fields[0].key == k {
        assert With(fields, k, v)[1..] == fields[1..];
        assert Keys(fields) + [] == Keys(fields);
      } else {
        WithAdds(fields[1..], k, v, other);
        assert With(fields, k, v)[1..] == With(fields[1..], k, v);
      }
    }
  }

  predicate NoneMatches(keys: seq<string>, k: string, how: Match) {
    forall i :: 0 <= i < |keys| ==> !Matches(keys[i], k, how)
  }

  predicate FirstMatch(keys: seq<string>, k: string, how: Match, t: string) {
    exists i :: 0 <= i < |keys| && keys[i] == t && Matches(keys[i], k, how) && NoneMatches(keys[..i], k, how)
  }

  lemma {:induction false} FirstFiltered(keys: seq<string>, k: string, how: Match)
    ensures var f := Filtered(keys, k, how);
            if f == [] then NoneMatches(keys, k, how) else FirstMatch(keys, k, how, f[0])
  {
    if keys != [] {
      FirstFiltered(keys[1..], k, how);
      var f := Filtered(keys, k, how);
      if Matches(keys[0], k, how) {
        assert NoneMatches(keys[..0], k, how) && keys[0] == f[0];
      } else {
        FirstLater(keys, k, how, f);
      }
    }
  }

  lemma FirstLater(keys: seq<string>, k: string, how: Match, f: seq<string>)
    requires keys != [] && !Matches(keys[0], k, how)
    requires if f == [] then NoneMatches(keys[1..], k, how) else FirstMatch(keys[1..], k, how, f[0])
    ensures if f == [] then NoneMatches(keys, k, how) else FirstMatch(keys, k, how, f[0])
  {
    hide Matches;
    if f == [] {
      assert forall i :: 1 <= i < |keys| ==> keys[i] == keys[1..][i - 1];
    } else {
      var i :| 0 <= i < |keys[1..]| && keys[1..][i] == f[0] && Matches(keys[1..][i], k, how)
               && NoneMatches(keys[1..][..i], k, how);
      assert keys[i + 1] == f[0];
      var before := keys[..i + 1];
      forall j | 0 <= j < |before|
        ensures !Matches(before[j], k, how)
      {
        assert j > 0 ==> before[j] == keys[1..][..i][j - 1];
      }
      assert NoneMatches(before, k, how);
    }
  }

  /** Appending: an error for a bad key or value; else one more value, trimmed. */
  lemma AppendedIs(h: HeaderSet, k: string, v: string, how: Match, other: string)
    ensures Appended(h, k, v, how).Err? <==> !ValidKey(k) || !OneLine(v)
    ensures Appended(h, k, v, how).Ok? ==>
      var t, h' := Target(h, k, how), Appended(h, k, v, how).value;
      && ValuesOf(h'.fields, t) == ValuesOf(h.fields, t) + [Trim(v)]
      && (other != t ==> ValuesOf(h'.fields, other) == ValuesOf(h.fields, other))
      && Keys(h'.fields) == Keys(h.fields) + (if t in Keys(h.fields) then [] else [t])
      && h'.code == h.code && h'.description == h.description
  {
    WithAdds(h.fields, Target(h, k, how), Trim(v), other);
  }

  /** The target of a value: the first key that matches, if there is one, or the key
      itself, in canonical form if that is asked for. */
  lemma TargetIs(h: HeaderSet, k: string, how: Match)
    ensures var key := if how == CanonicalMIME then CanonicalOf(k) else k;
            var t, keys := Target(h, k, how), Keys(h.fields);
            FirstMatch(keys, key, how, t) || (NoneMatches(keys, key, how) && t == key)
  {
    hide Filtered, FirstMatch, NoneMatches, CanonicalOf;
    FirstFiltered(Keys(h.fields), if how == CanonicalMIME then CanonicalOf(k) else k, how);
  }

  /** Deleting takes the keys that match, with all their values, and leaves the others as
      they are and in their order. */
  lemma {:induction false} WithoutKeeps(fields: seq<Field>, keys: seq<string>) returns (at: seq<nat>)
    ensures var rest := Without(fields, keys);
            && |at| == |rest| && (forall i :: 0 <= i < |at| ==> at[i] < |fields| && rest[i] == fields[at[i]])
            && (forall i, j :: 0 <= i < j < |at| ==> at[i] < at[j])
            && forall k :: 0 <= k < |fields| ==> (k in at <==> fields[k].key !in keys)
  {
    if fields == [] {
      at := [];
    } else {
      var n := |fields| - 1;
      var init, last := fields[..n], fields[n];
      WithoutLast(init, last, keys);
      assert fields == init + [last];
      at := WithoutKeeps(init, keys);
      hide Without;
      if last.key !in keys {
        at := at + [n];
      }
    }
  }

  lemma {:induction false} WithoutLast(init: seq<Field>, last: Field, keys: seq<string>)
    ensures Without(init + [last], keys) == Without(init, keys) + if last.key in keys then [] else [last]
  {
    if init == [] {
      assert [] + [last] == [last] && [last][1..] == [];
    } else {
      assert (init + [last])[0] == init[0] && (init + [last])[1..] == init[1..] + [last];
      WithoutLast(init[1..], last, keys);
    }
  }

  /** What is cut off by trimming is white space, and none is left at the ends. */
  lemma TrimIs(s: string) returns (before: string, after: string)
    ensures s == before + Trim(s) + after && Trimmed(Trim(s))
    ensures (forall i :: 0 <= i < |before| ==> Space(before[i])) && forall i :: 0 <= i < |after| ==> Space(after[i])
  {
    before := StartIs(s);
    after := EndIs(TrimStart(s));
    assert before + (Trim(s) + after) == before + Trim(s) + after;
    StartStays(TrimStart(s));
  }

  lemma {:induction false} StartIs(s: string) returns (before: string)
    ensures s == before + TrimStart(s) && forall i :: 0 <= i < |before| ==> Space(before[i])
  {
    hide Space;
    before := "";
    if s != "" && Space(s[0]) {
      before := StartIs(s[1..]);
      before := [s[0]] + before;
    }
  }

  lemma {:induction false} EndIs(s: string) returns (after: string)
    ensures s == TrimEnd(s) + after && forall i :: 0 <= i < |after| ==> Space(after[i])
  {
    hide Space;
    after := "";
    if s != "" && Space(s[|s| - 1]) {
      after := EndIs(s[..|s| - 1]);
      after := after + [s[|s| - 1]];
    }
  }

  lemma {:induction false} StartStays(s: string)
    requires s == "" || !Space(s[0])
    ensures TrimEnd(s) == "" || !Space(TrimEnd(s)[0])
    decreases |s|
  {
    hide Space;
    if s != "" && Space(s[|s| - 1]) {
      StartStays(s[..|s| - 1]);
    }
  }

  /** What goes over the wire, letter by letter. */
  lemma PrintedExample()
    ensures Printed(HeaderSet(503, "", [Field("A", ["x"])])) == "NATS/1.0\r\nA: x\r\n\r\n"
    ensures Status(HeaderSet(503, "Busy", [])) == " 503 Busy"
    ensures Printed(HeaderSet(0, "", [])) == ""
  {
    var f := [Field("A", ["x"])];
    assert Pairs(f) == [("A", "x")] by {
      assert f[1..] == [] && ["x"][1..] == [];
      assert PairsOf("A", ["x"]) == [("A", "x")];
    }
    LinesHead([("A", "x")]);
    TextOf503();
    hide Pairs, LinesOf, Text;
    assert [("A", "x")][1..] == [];
    assert LinesOf(Pairs(f)) == "\r\nA: x";
  }

  lemma TextOf503()
    ensures Text(503) == "503"
  {
    assert Text(5) == "5";
    assert Text(50) == "5" + ['0'];
  }

  /** Each value of a key is a line of its own. */
  lemma LinesHead(ps: seq<(string, string)>)
    requires ps != []
    ensures LinesOf(ps) == "\r\n" + (ps[0].0 + (": " + ps[0].1) + LinesOf(ps[1..])) && LinesOf([]) == ""
  {
    assert ":" + (" " + ps[0].1) == ": " + ps[0].1;
  }
}
