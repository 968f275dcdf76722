/** The servers a client may connect to: a list that is rotated as servers are tried,
    shortened as they fail, and kept up to date with what the cluster reports. */
module Servers {

  class ServerImpl {
    const listen: string
    const gossiped: bool
    var reconnects: int
    var lastConnect: nat

    constructor (listen: string, gossiped: bool)
      ensures this.listen == listen && this.gossiped == gossiped && reconnects == 0 && lastConnect == 0
    {
      this.listen, this.gossiped := listen, gossiped;
      reconnects, lastConnect := 0, 0;
    }
  }

  function Addresses(ss: seq<ServerImpl>): seq<string> {
    if ss == [] then [] else [ss[0].listen] + Addresses(ss[1..])
  }

  predicate Distinct<T(==)>(s: seq<T>) {
    forall i, j :: 0 <= i < j < |s| ==> s[i] != s[j]
  }

  /** A list without the element at `i`. */
  function Without<T>(s: seq<T>, i: nat): seq<T>
    requires i < |s|
  {
    s[..i] + s[i + 1..]
  }

  /** What `splice(i, 1)` leaves of a list, for an index found or -1. */
  function Splice<T>(s: seq<T>, i: int): seq<T>
    requires -1 <= i < |s|
  {
    if i >= 0 then Without(s, i) else if s == [] then [] else s[..|s| - 1]
  }

  // --------------------------------------------------- gossip, as functions

  /** Each once, in the order of first appearance. */
  function Once(s: seq<string>): seq<string> {
    if s == [] then []
    else
      var rest := Once(s[..|s| - 1]);
      if s[|s| - 1] in rest then rest else rest + [s[|s| - 1]]
  }

  function Minus(s: seq<string>, t: seq<string>): seq<string> {
    if s == [] then []
    else if s[0] in t then Minus(s[1..], t)
    else [s[0]] + Minus(s[1..], t)
  }

  /** A server the cluster has told of and does not tell of any more. */
  predicate Gone(s: ServerImpl, current: string, reported: seq<string>) {
    s.gossiped && s.listen != current && s.listen !in reported
  }

  function Kept(ss: seq<ServerImpl>, current: string, reported: seq<string>): seq<ServerImpl> {
    if ss == [] then []
    else if Gone(ss[0], current, reported) then Kept(ss[1..], current, reported)
    else [ss[0]] + Kept(ss[1..], current, reported)
  }

  function Dropped(ss: seq<ServerImpl>, current: string, reported: seq<string>): seq<ServerImpl> {
    if ss == [] then []
    else if Gone(ss[0], current, reported) then [ss[0]] + Dropped(ss[1..], current, reported)
    else Dropped(ss[1..], current, reported)
  }

  /** What is reported and not known. */
  function News(reported: seq<string>, known: seq<string>): seq<string> {
    Minus(Once(reported), known)
  }

  function Reverse(s: seq<string>): seq<string> {
    if s == [] then [] else Reverse(s[1..]) + [s[0]]
  }

  /** Where the servers to be deleted are, among the first `n`. */
  function GoneAt(ss: seq<ServerImpl>, n: nat, current: string, reported: seq<string>): seq<nat>
    requires n <= |ss|
  {
    if n == 0 then []
    else GoneAt(ss, n - 1, current, reported) + if Gone(ss[n - 1], current, reported) then [n - 1] else []
  }

  lemma {:induction false} AddressesAppend(a: seq<ServerImpl>, b: seq<ServerImpl>)
    ensures Addresses(a + b) == Addresses(a) + Addresses(b)
  {
    if a == [] {
      assert a + b == b;
    } else {
      assert (a + b)[0] == a[0] && (a + b)[1..] == a[1..] + b;
      AddressesAppend(a[1..], b);
    }
  }

  lemma {:induction false} AddressesAt(ss: seq<ServerImpl>)
    ensures |Addresses(ss)| == |ss| && forall i :: 0 <= i < |ss| ==> Addresses(ss)[i] == ss[i].listen
  {
    if ss != [] {
      AddressesAt(ss[1..]);
    }
  }

  lemma {:induction false} MinusMembers(s: seq<string>, t: seq<string>)
    ensures forall x :: x in Minus(s, t) <==> x in s && x !in t
  {
    if s != [] {
      MinusMembers(s[1..], t);
    }
  }

  lemma {:induction false} MinusMore(s: seq<string>, t: seq<string>, x: string)
    ensures Minus(Minus(s, t), [x]) == Minus(s, t + [x])
  {
    if s != [] {
      MinusMore(s[1..], t, x);
    }
  }

  lemma {:induction false} MinusNothing(s: seq<string>)
    ensures Minus(s, []) == s
  {
    if s != [] {
      MinusNothing(s[1..]);
    }
  }

  lemma {:induction false} MinusDistinct(s: seq<string>, t: seq<string>)
    requires Distinct(s)
    ensures Distinct(Minus(s, t))
  {
    if s != [] {
      MinusDistinct(s[1..], t);
      MinusMembers(s[1..], t);
      assert s[0] !in s[1..];
    }
  }

  lemma {:induction false} MinusAll(s: seq<string>, t: seq<string>)
    requires forall x :: x in s ==> x in t
    ensures Minus(s, t) == []
  {
    if s != [] {
      MinusAll(s[1..], t);
    }
  }

  lemma {:induction false} OnceIsSet(s: seq<string>)
    ensures Distinct(Once(s)) && forall x :: x in Once(s) <==> x in s
  {
    if s != [] {
      OnceIsSet(s[..|s| - 1]);
      assert s == s[..|s| - 1] + [s[|s| - 1]];
    }
  }

  lemma {:induction false} KeptAppend(a: seq<ServerImpl>, b: seq<ServerImpl>, c: string, r: seq<string>)
    ensures Kept(a + b, c, r) == Kept(a, c, r) + Kept(b, c, r)
    ensures Dropped(a + b, c, r) == Dropped(a, c, r) + Dropped(b, c, r)
  {
    if a == [] {
      assert a + b == b;
    } else {
      assert (a + b)[0] == a[0] && (a + b)[1..] == a[1..] + b;
      KeptAppend(a[1..], b, c, r);
    }
  }

  lemma {:induction false} AllKept(ss: seq<ServerImpl>, c: string, r: seq<string>)
    requires forall i :: 0 <= i < |ss| ==> !Gone(ss[i], c, r)
    ensures Kept(ss, c, r) == ss && Dropped(ss, c, r) == []
  {
    if ss != [] {
      AllKept(ss[1..], c, r);
    }
  }

  lemma {:induction false} KeptStay(ss: seq<ServerImpl>, c: string, r: seq<string>)
    ensures Kept(Kept(ss, c, r), c, r) == Kept(ss, c, r) && Dropped(Kept(ss, c, r), c, r) == []
  {
    if ss != [] {
      KeptStay(ss[1..], c, r);
    }
  }

  lemma {:induction false} KeptDistinct(ss: seq<ServerImpl>, c: string, r: seq<string>)
    requires Distinct(Addresses(ss))
    ensures Distinct(Addresses(Kept(ss, c, r)))
    ensures forall x :: x in Addresses(Kept(ss, c, r)) ==> x in Addresses(ss)
  {
    if ss != [] {
      assert Addresses(ss)[1..] == Addresses(ss[1..]);
      KeptDistinct(ss[1..], c, r);
      assert ss[0].listen == Addresses(ss)[0] && ss[0].listen !in Addresses(ss)[1..];
    }
  }

  /** Between the last server to be deleted and `n` there is none. */
  lemma {:induction false} LastGone(ss: seq<ServerImpl>, n: nat, c: string, r: seq<string>)
    requires n <= |ss|
    ensures var at := GoneAt(ss, n, c, r);
            if at == [] then Kept(ss[..n], c, r) == ss[..n] && Dropped(ss[..n], c, r) == []
            else
              var i := at[|at| - 1];
              && i < n && Gone(ss[i], c, r) && at[..|at| - 1] == GoneAt(ss, i, c, r)
              && Kept(ss[i + 1..n], c, r) == ss[i + 1..n] && Dropped(ss[i + 1..n], c, r) == []
  {
    hide Kept, Dropped;
    KeptNothing(c, r);
    if n > 0 {
      LastGone(ss, n - 1, c, r);
      var at := GoneAt(ss, n - 1, c, r);
      if Gone(ss[n - 1], c, r) {
        assert ss[n..n] == [];
        assert (at + [n - 1])[..|at|] == at;
      } else {
        KeptOneMore(ss, if at == [] then 0 else at[|at| - 1] + 1, n, c, r);
      }
    }
  }

  lemma KeptNothing(c: string, r: seq<string>)
    ensures Kept([], c, r) == [] && Dropped([], c, r) == []
  {
  }

  lemma KeptOneMore(ss: seq<ServerImpl>, from: nat, n: nat, c: string, r: seq<string>)
    requires from < n <= |ss| && !Gone(ss[n - 1], c, r)
    requires Kept(ss[from..n - 1], c, r) == ss[from..n - 1] && Dropped(ss[from..n - 1], c, r) == []
    ensures Kept(ss[from..n], c, r) == ss[from..n] && Dropped(ss[from..n], c, r) == []
  {
    hide Kept, Dropped;
    assert ss[from..n] == ss[from..n - 1] + [ss[n - 1]];
    KeptAppend(ss[from..n - 1], [ss[n - 1]], c, r);
    AllKept([ss[n - 1]], c, r);
  }

  lemma {:induction false} ReverseAppend(a: seq<string>, b: seq<string>)
    ensures Reverse(a + b) == Reverse(b) + Reverse(a)
  {
    if a == [] {
      assert a + b == b;
    } else {
      assert (a + b)[0] == a[0] && (a + b)[1..] == a[1..] + b;
      ReverseAppend(a[1..], b);
    }
  }

  /** What has not been met among the first addresses is what is left to be discovered. */
  lemma CompareOne(reported: seq<string>, all: seq<string>, i: nat)
    requires Distinct(all) && i < |all|
    ensures var before := Minus(Once(reported), all[..i]);
            && (all[i] in before <==> all[i] in reported)
            && Minus(before, [all[i]]) == Minus(Once(reported), all[..i + 1])
  {
    hide Once, Minus;
    OnceIsSet(reported);
    MinusMembers(Once(reported), all[..i]);
    MinusMore(Once(reported), all[..i], all[i]);
    assert all[..i + 1] == all[..i] + [all[i]];
  }

  /** Those that stay are, in their order, all but those the cluster once told of and now
      does not, other than the present one. */
  lemma {:induction false} KeptAre(ss: seq<ServerImpl>, c: string, r: seq<string>) returns (at: seq<nat>)
    ensures |at| == |Kept(ss, c, r)| && forall i :: 0 <= i < |at| ==> at[i] < |ss| && Kept(ss, c, r)[i] == ss[at[i]]
    ensures forall i, j :: 0 <= i < j < |at| ==> at[i] < at[j]
    ensures forall k :: 0 <= k < |ss| ==>
      (k in at <==> !(ss[k].gossiped && ss[k].listen != c && ss[k].listen !in r))
  {
    if ss == [] {
      at := [];
    } else {
      hide Kept, Dropped;
      var n := |ss| - 1;
      var init, last := ss[..n], ss[n];
      assert ss == init + [last];
      KeptAppend(init, [last], c, r);
      OneKept(last, c, r);
      at := KeptAre(init, c, r);
      if !Gone(last, c, r) {
        at := at + [n];
      } else {
        assert Kept(init, c, r) + [] == Kept(init, c, r);
      }
    }
  }

  /** And those that go are these. */
  lemma {:induction false} DroppedAre(ss: seq<ServerImpl>, c: string, r: seq<string>, x: ServerImpl)
    ensures x in Dropped(ss, c, r) <==> x in ss && x.gossiped && x.listen != c && x.listen !in r
  {
    if ss != [] {
      DroppedAre(ss[1..], c, r, x);
      assert x in ss <==> x == ss[0] || x in ss[1..];
    }
  }

  lemma OneKept(s: ServerImpl, c: string, r: seq<string>)
    ensures Kept([s], c, r) == (if Gone(s, c, r) then [] else [s])
    ensures Dropped([s], c, r) == if Gone(s, c, r) then [s] else []
  {
    assert [s][1..] == [];
  }

  /** The news are the addresses reported and not known, each once, in the order in which
      they are first reported. */
  lemma NewsAre(reported: seq<string>, known: seq<string>)
    ensures var news := News(reported, known);
            && Distinct(news) && (forall x :: x in news <==> x in reported && x !in known)
            && forall i, j :: 0 <= i < j < |news| ==> Before(reported, news[i], news[j])
  {
    OnceIsSet(reported);
    MinusMembers(Once(reported), known);
    MinusDistinct(Once(reported), known);
    OnceInOrder(reported);
    MinusInOrder(reported, Once(reported), known);
  }

  /** `x` is reported somewhere with no `y` before it. */
  ghost predicate Before(reported: seq<string>, x: string, y: string) {
    exists k :: 0 <= k < |reported| && reported[k] == x && y !in reported[..k]
  }

  lemma {:induction false} OnceInOrder(s: seq<string>)
    ensures forall i, j :: 0 <= i < j < |Once(s)| ==> Before(s, Once(s)[i], Once(s)[j])
  {
    if s != [] {
      var init, last := s[..|s| - 1], s[|s| - 1];
      OnceInOrder(init);
      OnceIsSet(init);
      forall i, j | 0 <= i < j < |Once(s)|
        ensures Before(s, Once(s)[i], Once(s)[j])
      {
        if j < |Once(init)| {
          assert Before(init, Once(s)[i], Once(s)[j]);
          BeforeMore(init, last, Once(s)[i], Once(s)[j]);
        } else {
          assert Once(s)[i] == Once(init)[i] && Once(init)[i] in init && last !in init;
          BeforeLast(init, last, Once(s)[i]);
        }
      }
    }
  }

  lemma BeforeMore(init: seq<string>, last: string, x: string, y: string)
    requires Before(init, x, y)
    ensures forall s :: s != [] && s[..|s| - 1] == init && s[|s| - 1] == last ==> Before(s, x, y)
  {
    var k :| 0 <= k < |init| && init[k] == x && y !in init[..k];
    forall s: seq<string> | s != [] && s[..|s| - 1] == init && s[|s| - 1] == last
      ensures Before(s, x, y)
    {
      assert s[k] == init[k] && s[..k] == init[..k];
    }
  }

  lemma BeforeLast(init: seq<string>, last: string, x: string)
    requires x in init && last !in init
    ensures forall s :: s != [] && s[..|s| - 1] == init && s[|s| - 1] == last ==> Before(s, x, last)
  {
    var k :| 0 <= k < |init| && init[k] == x;
    forall s: seq<string> | s != [] && s[..|s| - 1] == init && s[|s| - 1] == last
      ensures Before(s, x, last)
    {
      assert s[k] == init[k] && s[..k] == init[..k];
      assert forall y :: y in init[..k] ==> y in init;
    }
  }

  lemma {:induction false} MinusInOrder(reported: seq<string>, s: seq<string>, t: seq<string>)
    requires forall i, j :: 0 <= i < j < |s| ==> Before(reported, s[i], s[j])
    ensures forall i, j :: 0 <= i < j < |Minus(s, t)| ==> Before(reported, Minus(s, t)[i], Minus(s, t)[j])
  {
    if s != [] {
      var rest := s[1..];
      MinusInOrder(reported, rest, t);
      MinusMembers(rest, t);
      if s[0] !in t {
        forall j | 1 <= j < |Minus(s, t)|
          ensures Before(reported, s[0], Minus(s, t)[j])
        {
          assert Minus(s, t)[j] == Minus(rest, t)[j - 1];
          assert Minus(rest, t)[j - 1] in rest;
          var k :| 0 <= k < |rest| && rest[k] == Minus(rest, t)[j - 1];
          assert s[k + 1] == rest[k];
        }
      }
    }
  }

  /** Addresses stay distinct. */
  lemma UpdateKeepsDistinct(ss: seq<ServerImpl>, news: seq<ServerImpl>, current: string, reported: seq<string>)
    requires Distinct(Addresses(ss)) && Addresses(news) == News(reported, Addresses(ss))
    ensures Distinct(Addresses(Kept(ss, current, reported) + news))
  {
    var kept := Kept(ss, current, reported);
    AddressesAppend(kept, news);
    KeptDistinct(ss, current, reported);
    OnceIsSet(reported);
    MinusDistinct(Once(reported), Addresses(ss));
    MinusMembers(Once(reported), Addresses(ss));
    DistinctAppend(Addresses(kept), Addresses(news));
  }

  lemma DistinctAppend<T>(a: seq<T>, b: seq<T>)
    requires Distinct(a) && Distinct(b) && forall x :: x in a ==> x !in b
    ensures Distinct(a + b)
  {
    forall i, j | 0 <= i < j < |a + b|
      ensures (a + b)[i] != (a + b)[j]
    {
      if i < |a| <= j {
        assert a[i] in a && b[j - |a|] in b;
      }
    }
  }

  /** What was added and deleted is the difference: an address is in the list afterwards
      exactly when it was there and is not deleted, or is added. */
  lemma UpdateIsTheDifference(ss: seq<ServerImpl>, news: seq<ServerImpl>, current: string, reported: seq<string>)
    requires Distinct(Addresses(ss)) && Addresses(news) == News(reported, Addresses(ss))
    ensures var after := Addresses(Kept(ss, current, reported) + news);
            var deleted := Addresses(Dropped(ss, current, reported));
            forall x :: x in after <==> (x in Addresses(ss) && x !in deleted) || x in Addresses(news)
  {
    AddressesAppend(Kept(ss, current, reported), news);
    KeptAndDropped(ss, current, reported);
  }

  lemma {:induction false} KeptAndDropped(ss: seq<ServerImpl>, c: string, r: seq<string>)
    requires Distinct(Addresses(ss))
    ensures forall x :: x in Addresses(Kept(ss, c, r)) <==> x in Addresses(ss) && x !in Addresses(Dropped(ss, c, r))
    ensures forall x :: x in Addresses(Dropped(ss, c, r)) ==> x in Addresses(ss)
  {
    if ss != [] {
      assert Addresses(ss)[1..] == Addresses(ss[1..]);
      KeptAndDropped(ss[1..], c, r);
      assert ss[0].listen == Addresses(ss)[0] && ss[0].listen !in Addresses(ss)[1..];
    }
  }

  /** The same report again changes nothing. */
  lemma UpdateTwice(ss: seq<ServerImpl>, news: seq<ServerImpl>, current: string, reported: seq<string>)
    requires Distinct(Addresses(ss)) && Addresses(news) == News(reported, Addresses(ss))
    ensures var after := Kept(ss, current, reported) + news;
            && Kept(after, current, reported) == after && Dropped(after, current, reported) == []
            && News(reported, Addresses(after)) == []
  {
    var kept := Kept(ss, current, reported);
    OnceIsSet(reported);
    MinusMembers(Once(reported), Addresses(ss));
    AddressesAt(news);
    assert forall i :: 0 <= i < |news| ==> news[i].listen in Addresses(news);
    KeptStay(ss, current, reported);
    AllKept(news, current, reported);
    KeptAppend(kept, news, current, reported);
    AddressesAppend(kept, news);
    KeptAndDropped(ss, current, reported);
    DroppedUnreported(ss, current, reported);
    MinusAll(Once(reported), Addresses(kept + news));
  }

  lemma {:induction false} DroppedUnreported(ss: seq<ServerImpl>, c: string, r: seq<string>)
    ensures forall x :: x in Addresses(Dropped(ss, c, r)) ==> x !in r
  {
    if ss != [] {
      DroppedUnreported(ss[1..], c, r);
    }
  }

  class Servers {
    var firstSelect: bool
    var servers: seq<ServerImpl>
    var currentServer: ServerImpl

    ghost predicate Valid()
      reads this
    {
      Distinct(servers) && (firstSelect ==> servers != [] && currentServer == servers[0])
    }

    /** `listens` in the order given, or shuffled; the default server when there are none. */
    constructor (listens: seq<string>, standard: string)
      ensures Valid() && firstSelect
      ensures Addresses(servers) == if listens == [] then [standard] else listens
      ensures forall s :: s in servers ==> fresh(s) && !s.gossiped && s.reconnects == 0 && s.lastConnect == 0
    {
      firstSelect := true;
      var ss: seq<ServerImpl> := [];
      for i := 0 to |listens|
        invariant Distinct(ss) && |ss| == i && Addresses(ss) == listens[..i]
        invariant forall s :: s in ss ==> fresh(s) && !s.gossiped && s.reconnects == 0 && s.lastConnect == 0
      {
        var s := new ServerImpl(listens[i], false);
        AddressesAppend(ss, [s]);
        ss := ss + [s];
        assert listens[..i + 1] == listens[..i] + [listens[i]];
      }
      if ss == [] {
        var s := new ServerImpl(standard, false);
        ss := [s];
      }
      assert listens[..|listens|] == listens;
      servers := ss;
      currentServer := ss[0];
    }

    /** The first call gives the first server; every later one brings the first to the
        back and gives that. */
    method SelectServer() returns (s: ServerImpl?)
      requires Valid()
      modifies this
      ensures Valid() && !firstSelect
      ensures s == (if old(servers) == [] then null else old(servers[0]))
      ensures s != null ==> currentServer == s
      ensures s == null ==> currentServer == old(currentServer)
      ensures servers == if old(firstSelect) || old(servers) == [] then old(servers)
                         else old(servers[1..]) + [old(servers[0])]
    {
      if firstSelect {
        firstSelect := false;
        return currentServer;
      }
      if servers == [] {
        return null;
      }
      var t := servers[0];
      servers := servers[1..] + [t];
      currentServer := t;
      return t;
    }

    method IndexOf(s: ServerImpl) returns (i: int)
      ensures -1 <= i < |servers|
      ensures i >= 0 ==> servers[i] == s && s !in servers[..i]
      ensures i == -1 ==> s !in servers
    {
      for k := 0 to |servers|
        invariant s !in servers[..k]
      {
        if servers[k] == s {
          return k;
        }
      }
      return -1;
    }

    /** Removes the server; when it is not in the list, the last one goes instead. */
    method RemoveServer(s: ServerImpl)
      modifies this`servers
      ensures s in old(servers) ==>
        exists i :: 0 <= i < |old(servers)| && old(servers[i]) == s && servers == Without(old(servers), i)
      ensures s !in old(servers) ==>
        servers == if old(servers) == [] then [] else old(servers[..|servers| - 1])
    {
      var index := IndexOf(s);
      servers := Splice(servers, index);
    }

    method RemoveCurrentServer()
      modifies this`servers
      ensures currentServer in old(servers) ==>
        exists i :: 0 <= i < |old(servers)| && old(servers[i]) == currentServer && servers == Without(old(servers), i)
      ensures currentServer !in old(servers) ==>
        servers == if old(servers) == [] then [] else old(servers[..|servers| - 1])
    {
      RemoveServer(currentServer);
    }

    // -------------------------------------------------------------- gossip

    /** Takes over what the cluster reports: the list without the servers that are gone,
        in its old order, and then the new ones. */
    method Update(reported: seq<string>) returns (added: seq<string>, deleted: seq<string>)
      requires Distinct(Addresses(servers))
      modifies this`servers
      ensures |servers| >= |Kept(old(servers), currentServer.listen, reported)|
      ensures var kept := Kept(old(servers), currentServer.listen, reported);
              && servers[..|kept|] == kept && Addresses(servers[|kept|..]) == added
              && forall i :: |kept| <= i < |servers| ==> fresh(servers[i]) && servers[i].gossiped
      ensures added == News(reported, Addresses(old(servers)))
      ensures deleted == Reverse(Addresses(Dropped(old(servers), currentServer.listen, reported)))
    {
      var toDelete;
      added, toDelete := Compare(reported);
      deleted := DeleteAt(toDelete, reported);
      AddAll(added);
    }

    /** Behind those kept. */
    method AddAll(added: seq<string>)
      modifies this`servers
      ensures var kept := old(servers);
              && |servers| >= |kept| && servers[..|kept|] == kept && Addresses(servers[|kept|..]) == added
              && forall i :: |kept| <= i < |servers| ==> fresh(servers[i]) && servers[i].gossiped
    {
      ghost var kept := servers;
      for i := 0 to |added|
        modifies this`servers
        invariant |servers| == |kept| + i && servers[..|kept|] == kept
        invariant Addresses(servers[|kept|..]) == added[..i]
        invariant forall k :: |kept| <= k < |servers| ==> fresh(servers[k]) && servers[k].gossiped
      {
        var s := new ServerImpl(added[i], true);
        AddressesAppend(servers[|kept|..], [s]);
        assert (servers + [s])[|kept|..] == servers[|kept|..] + [s];
        assert added[..i + 1] == added[..i] + [added[i]];
        servers := servers + [s];
      }
      assert added[..|added|] == added;
    }

    /** What is new, and where the servers are that are gone. */
    method Compare(reported: seq<string>) returns (discovered: seq<string>, toDelete: seq<nat>)
      requires Distinct(Addresses(servers))
      ensures discovered == News(reported, Addresses(servers))
      ensures toDelete == GoneAt(servers, |servers|, currentServer.listen, reported)
    {
      hide Once, Minus, Distinct, Addresses;
      discovered := Discover(reported);
      toDelete := [];
      ghost var all := Addresses(servers);
      AddressesAt(servers);
      MinusNothing(discovered);
      for index := 0 to |servers|
        invariant toDelete == GoneAt(servers, index, currentServer.listen, reported)
        invariant discovered == Minus(Once(reported), all[..index])
      {
        var s := servers[index];
        CompareOne(reported, all, index);
        if s.gossiped && currentServer.listen != s.listen && s.listen !in discovered {
          toDelete := toDelete + [index];
        }
        discovered := Minus(discovered, [s.listen]);
      }
      assert all[..|servers|] == all;
    }

    /** The keys of a map in the order they were first set. */
    method Discover(reported: seq<string>) returns (discovered: seq<string>)
      ensures discovered == Once(reported)
    {
      discovered := [];
      for i := 0 to |reported|
        invariant discovered == Once(reported[..i])
      {
        assert reported[..i + 1][..i] == reported[..i];
        if reported[i] !in discovered {
          discovered := discovered + [reported[i]];
        }
      }
      assert reported[..|reported|] == reported;
    }

    /** From the last to the first, so that the places found stay right. */
    method DeleteAt(toDelete: seq<nat>, ghost reported: seq<string>) returns (deleted: seq<string>)
      requires toDelete == GoneAt(servers, |servers|, currentServer.listen, reported)
      modifies this`servers
      ensures servers == Kept(old(servers), currentServer.listen, reported)
      ensures deleted == Reverse(Addresses(Dropped(old(servers), currentServer.listen, reported)))
    {
      hide Kept, Dropped, Reverse, Addresses, Gone;
      ghost var ss, c := servers, currentServer.listen;
      ghost var end := |ss|;
      NoneYet(c, reported);
      deleted := [];
      var k := |toDelete|;
      assert ss[..end] == ss && ss[end..] == [];
      while k > 0
        modifies this`servers
        invariant 0 <= k <= |toDelete| && end <= |ss| && toDelete[..k] == GoneAt(ss, end, c, reported)
        invariant servers == ss[..end] + Kept(ss[end..], c, reported)
        invariant deleted == Reverse(Addresses(Dropped(ss[end..], c, reported)))
      {
        k := k - 1;
        var index := toDelete[k];
        LastGone(ss, end, c, reported);
        assert toDelete[..k + 1][k] == index && toDelete[..k + 1][..k] == toDelete[..k];
        DropOne(ss, index, end, c, reported);
        assert servers[index] == ss[index];
        deleted := deleted + [servers[index].listen];
        servers := Without(servers, index);
        end := index;
      }
      LastGone(ss, end, c, reported);
      KeptAppend(ss[..end], ss[end..], c, reported);
      assert ss[..end] + ss[end..] == ss;
      assert [] + Dropped(ss[end..], c, reported) == Dropped(ss[end..], c, reported);
    }
  }

  lemma NoneYet(c: string, r: seq<string>)
    ensures Kept([], c, r) == [] && Reverse(Addresses(Dropped([], c, r))) == []
  {
  }

  lemma DropOne(ss: seq<ServerImpl>, i: nat, end: nat, c: string, r: seq<string>)
    requires i < end <= |ss| && Gone(ss[i], c, r)
    requires Kept(ss[i + 1..end], c, r) == ss[i + 1..end] && Dropped(ss[i + 1..end], c, r) == []
    ensures ss[..i] + Kept(ss[i..], c, r) == Without(ss[..end] + Kept(ss[end..], c, r), i)
    ensures Reverse(Addresses(Dropped(ss[i..], c, r)))
         == Reverse(Addresses(Dropped(ss[end..], c, r))) + [ss[i].listen]
  {
    hide Kept, Dropped, Reverse, Addresses;
    var mid, rest := ss[i + 1..end], ss[end..];
    assert ss[i..][0] == ss[i] && ss[i..][1..] == mid + rest;
    FirstGone(ss[i..], c, r);
    KeptAppend(mid, rest, c, r);
    ReverseFirst(ss[i], Dropped(rest, c, r));
    assert [] + Dropped(rest, c, r) == Dropped(rest, c, r);
    WithoutMiddle(ss, i, end, Kept(rest, c, r));
  }

  lemma WithoutMiddle<T>(s: seq<T>, i: nat, end: nat, more: seq<T>)
    requires i < end <= |s|
    ensures s[..i] + (s[i + 1..end] + more) == Without(s[..end] + more, i)
  {
    assert s[..end] + more == s[..i] + [s[i]] + (s[i + 1..end] + more);
  }

  lemma FirstGone(ss: seq<ServerImpl>, c: string, r: seq<string>)
    requires ss != [] && Gone(ss[0], c, r)
    ensures Kept(ss, c, r) == Kept(ss[1..], c, r) && Dropped(ss, c, r) == [ss[0]] + Dropped(ss[1..], c, r)
  {
  }

  lemma ReverseFirst(s: ServerImpl, ss: seq<ServerImpl>)
    ensures Reverse(Addresses([s] + ss)) == Reverse(Addresses(ss)) + [s.listen]
  {
    assert ([s] + ss)[1..] == ss;
    assert ([s.listen] + Addresses(ss))[1..] == Addresses(ss);
  }
}
