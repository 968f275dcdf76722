/** Headers as an object that is changed in place, printed and read back. */
module MsgHdrs {
  import opened Bytes
  import opened HeaderText
  import opened Headers

  class Hdrs {
    var code: int
    var description: string
    var fields: seq<Field>            // in the order their keys were first set

    ghost function State(): HeaderSet
      reads this
    {
      HeaderSet(code, description, fields)
    }

    ghost predicate Valid()
      reads this
    {
      WellMade(State())
    }

    constructor (code: int, description: string)
      ensures State() == HeaderSet(code, description, [])
    {
      this.code, this.description, this.fields := code, description, [];
    }

    method FindKeys(k: string, how: Match) returns (r: Result<seq<string>>)
      ensures r == Headers.FindKeys(State(), k, how)
    {
      var key := k;
      if how == CanonicalMIME {
        var ck := CanonicalMIMEHeaderKey(k);
        if ck.Err? {
          return Err(ck.error);
        }
        key := ck.value;
      }
      var keys: seq<string> := [];
      ghost var all := Keys(fields);
      KeysAre(fields);
      assert all[..0] == [];
      for i := 0 to |fields|
        invariant keys == Filtered(all[..i], k, how)
      {
        FilteredAppend(all[..i], fields[i].key, k, how);
        assert all[..i + 1] == all[..i] + [fields[i].key];
        if (if how == IgnoreCase then Lower(key) == Lower(fields[i].key) else fields[i].key == key) {
          keys := keys + [fields[i].key];
        }
      }
      assert all[..|fields|] == all;
      r := Ok(keys);
    }

    /** Adds one value to a key. */
    method Append(k: string, v: string, how: Match) returns (e: Option<HeaderError>)
      modifies this`fields
      ensures match Appended(old(State()), k, v, how)
              case Ok(h) => e == None && State() == h
              case Err(x) => e == Some(x) && State() == old(State())
      ensures old(Valid()) ==> Valid()
    {
      ghost var before := State();
      var ck := CanonicalMIMEHeaderKey(k);
      if ck.Err? {
        return Some(BadKey);
      }
      var key := if how == CanonicalMIME then ck.value else k;
      CanonicalTwice(k);
      var keys := FindKeys(key, how);
      if keys.value != [] {
        key := keys.value[0];
      }
      if !OneLine(v) {
        return Some(BadValue);
      }
      if WellMade(before) {
        AppendedWellMade(before, k, v, how);
      }
      WithIs(fields, key, Trim(v));
      var at := Find(fields, key);
      if at.None? {
        fields := fields + [Field(key, [Trim(v)])];
      } else {
        fields := fields[at.value := Field(key, fields[at.value].values + [Trim(v)])];
      }
      e := None;
    }

    method Delete(k: string, how: Match) returns (e: Option<HeaderError>)
      modifies this`fields
      ensures match Deleted(old(State()), k, how)
              case Ok(h) => e == None && State() == h
              case Err(x) => e == Some(x) && State() == old(State())
      ensures old(Valid()) ==> Valid()
    {
      ghost var before := State();
      var keys := FindKeys(k, how);
      if keys.Err? {
        return Some(keys.error);
      }
      if WellMade(before) {
        DeletedWellMade(before, k, how);
      }
      WithoutNothing(fields);
      for i := 0 to |keys.value|
        modifies this`fields
        invariant fields == Without(before.fields, keys.value[..i])
      {
        WithoutMore(before.fields, keys.value[..i], keys.value[i]);
        assert keys.value[..i + 1] == keys.value[..i] + [keys.value[i]];
        fields := Without(fields, [keys.value[i]]);
      }
      assert keys.value[..|keys.value|] == keys.value;
      e := None;
    }

    /** In place of all values of the key; a bad value is noticed after they are gone. */
    method Set(k: string, v: string, how: Match) returns (e: Option<HeaderError>)
      modifies this`fields
      ensures match Deleted(old(State()), k, how)
              case Err(x) => e == Some(x) && State() == old(State())
              case Ok(h) =>
                match Appended(h, k, v, how)
                case Ok(h') => e == None && State() == h'
                case Err(x) => e == Some(x) && State() == h
      ensures old(Valid()) ==> Valid()
    {
      e := Delete(k, how);
      if e.None? {
        e := Append(k, v, how);
      }
    }

    method ToString() returns (s: string)
      ensures s == Printed(State())
    {
      hide LinesOf, Pairs, Text;
      if fields == [] && code == 0 {
        return "";
      }
      s := HEADER;
      if code > 0 && description != "" {
        s := s + (" " + (Text(code) + (" " + description)));
      }
      assert s == HEADER + Status(State());
      s := PrintFields(s, fields);
      assert s + "\r\n\r\n" == (HEADER + Status(State())) + (LinesOf(Pairs(fields)) + "\r\n\r\n");
      s := s + "\r\n\r\n";
    }
  }

  method PrintFields(start: string, fields: seq<Field>) returns (s: string)
    ensures s == start + LinesOf(Pairs(fields))
  {
    hide LinesOf, Pairs, PairsOf;
    s := start;
    NoPairs();
    assert start + "" == start && fields[..0] == [];
    for i := 0 to |fields|
      invariant s == start + LinesOf(Pairs(fields[..i]))
    {
      var k, v := fields[i].key, fields[i].values;
      var before := s;
      s := PrintValues(s, k, v);
      assert fields[..i + 1] == fields[..i] + [fields[i]];
      PairsAppend(fields[..i], fields[i]);
      LinesOfAppend(Pairs(fields[..i]), PairsOf(k, v));
      assert before + LinesOf(PairsOf(k, v)) == start + (LinesOf(Pairs(fields[..i])) + LinesOf(PairsOf(k, v)));
    }
    assert fields[..|fields|] == fields;
  }

  lemma NoPairs()
    ensures LinesOf(Pairs([])) == ""
  {
  }

  method PrintValues(start: string, k: string, v: seq<string>) returns (s: string)
    ensures s == start + LinesOf(PairsOf(k, v))
  {
    s := start;
    assert start + "" == start && v[..0] == [];
    for i := 0 to |v|
      invariant s == start + LinesOf(PairsOf(k, v[..i]))
    {
      assert v[..i + 1] == v[..i] + [v[i]];
      PairsOfAppend(k, v[..i], v[i]);
      LinesOfAppend(PairsOf(k, v[..i]), [(k, v[i])]);
      OneLineOf(k, v[i]);
      var more := "\r\n" + (k + (": " + v[i]));
      assert start + (LinesOf(PairsOf(k, v[..i])) + more) == start + LinesOf(PairsOf(k, v[..i])) + more;
      s := s + more;
    }
    assert v[..|v|] == v;
  }

  /** New headers; a status needs both of its parts. */
  method MakeHeaders(code: int, description: string) returns (r: Result<Hdrs>)
    ensures r.Ok? <==> (code == 0 ==> description == "") && (code > 0 ==> description != "")
    ensures r.Ok? ==> fresh(r.value) && r.value.Valid()
                      && r.value.State() == HeaderSet(code, description, [])
  {
    if (code == 0 && description != "") || (code > 0 && description == "") {
      return Err(StatusNeedsBoth);
    }
    var h := new Hdrs(code, description);
    r := Ok(h);
  }

  method Decode(s: string) returns (r: Result<Hdrs>)
    ensures match Decoded(s)
            case Ok(h) => r.Ok? && fresh(r.value) && r.value.State() == h
            case Err(e) => r == Err(e)
  {
    var lines := Lines(s);
    var status := ReadStatus(lines[0]);
    var mh := new Hdrs(status.0, status.1);
    for i := 1 to |lines|
      modifies mh
      invariant ReadLines(mh.State(), lines[i..]) == Decoded(s)
    {
      var line := lines[i];
      assert lines[i..][0] == line && lines[i..][1..] == lines[i + 1..];
      if line != "" {
        var idx := IndexOf(line, ":");
        if idx.Some? {
          var e := mh.Append(line[..idx.value], Trim(line[idx.value + 1..]), Exact);
          if e.Some? {
            return Err(e.value);
          }
        }
      }
    }
    r := Ok(mh);
  }

  /** What is printed is read back as it was. */
  method Copy(h: Hdrs) returns (r: Result<Hdrs>)
    requires h.Valid() && PrintsWell(h.State())
    ensures r.Ok? && fresh(r.value) && r.value.State() == h.State()
  {
    var s := h.ToString();
    RoundTripIff(h.State());
    r := Decode(s);
  }

  // ---------------------------------------------------------- lists, from the end

  lemma {:induction false} FilteredAppend(keys: seq<string>, x: string, k: string, how: Match)
    ensures Filtered(keys + [x], k, how) == Filtered(keys, k, how) + if Matches(x, k, how) then [x] else []
  {
    if keys == [] {
      assert keys + [x] == [x] && [x][1..] == [];
    } else {
      assert (keys + [x])[0] == keys[0] && (keys + [x])[1..] == keys[1..] + [x];
      FilteredAppend(keys[1..], x, k, how);
    }
  }

  lemma {:induction false} WithoutNothing(fields: seq<Field>)
    ensures Without(fields, []) == fields
  {
    if fields != [] {
      WithoutNothing(fields[1..]);
    }
  }

  lemma {:induction false} WithoutMore(fields: seq<Field>, keys: seq<string>, k: string)
    ensures Without(Without(fields, keys), [k]) == Without(fields, keys + [k])
  {
    if fields != [] {
      WithoutMore(fields[1..], keys, k);
    }
  }

  lemma {:induction false} PairsOfAppend(k: string, v: seq<string>, x: string)
    ensures PairsOf(k, v + [x]) == PairsOf(k, v) + [(k, x)]
  {
    if v == [] {
      assert v + [x] == [x] && [x][1..] == [];
    } else {
      assert (v + [x])[0] == v[0] && (v + [x])[1..] == v[1..] + [x];
      PairsOfAppend(k, v[1..], x);
    }
  }

  lemma {:induction false} PairsAppend(fields: seq<Field>, f: Field)
    ensures Pairs(fields + [f]) == Pairs(fields) + PairsOf(f.key, f.values)
  {
    if fields == [] {
      assert fields + [f] == [f] && [f][1..] == [];
    } else {
      assert (fields + [f])[0] == fields[0] && (fields + [f])[1..] == fields[1..] + [f];
      PairsAppend(fields[1..], f);
    }
  }

  lemma {:induction false} LinesOfAppend(a: seq<(string, string)>, b: seq<(string, string)>)
    ensures LinesOf(a + b) == LinesOf(a) + LinesOf(b)
  {
    if a == [] {
      assert a + b == b;
    } else {
      assert (a + b)[0] == a[0] && (a + b)[1..] == a[1..] + b;
      LinesOfAppend(a[1..], b);
    }
  }

  lemma OneLineOf(k: string, v: string)
    ensures LinesOf([(k, v)]) == "\r\n" + (k + (": " + v))
  {
    assert [(k, v)][1..] == [];
    assert Line((k, v)) == k + (": " + v);
  }
}
