/** The loop that dials one server after the other until one answers or none is left. */
module DialLoop {
  import opened Servers

  /** What a dial, the k-th of a run, comes to, and how long it takes. */
  datatype Network = Network(answers: nat -> bool, lasts: nat -> nat)

  /** Dials a server has left before it is given up: at least one. */
  function Share(s: ServerImpl, attempts: int): (n: nat)
    reads s`reconnects
    ensures n >= 1
  {
    if attempts - s.reconnects > 1 then attempts - s.reconnects else 1
  }

  function Budget(ss: seq<ServerImpl>, attempts: int): nat
    reads ss`reconnects
  {
    if ss == [] then 0 else Share(ss[0], attempts) + Budget(ss[1..], attempts)
  }

  predicate Due(s: ServerImpl, wait: nat, now: nat)
    reads s`lastConnect
  {
    s.lastConnect == 0 || s.lastConnect + wait <= now
  }

  /** How many servers must not be dialed yet. */
  function Resting(ss: seq<ServerImpl>, wait: nat, now: nat): nat
    reads ss`lastConnect
  {
    if ss == [] then 0 else (if Due(ss[0], wait, now) then 0 else 1) + Resting(ss[1..], wait, now)
  }

  lemma BudgetBounds(ss: seq<ServerImpl>, attempts: int)
    ensures ss == [] <==> Budget(ss, attempts) == 0
  {
  }

  lemma {:induction false} BudgetAppend(a: seq<ServerImpl>, b: seq<ServerImpl>, attempts: int)
    ensures Budget(a + b, attempts) == Budget(a, attempts) + Budget(b, attempts)
  {
    if a == [] {
      assert a + b == b;
    } else {
      assert (a + b)[0] == a[0] && (a + b)[1..] == a[1..] + b;
      BudgetAppend(a[1..], b, attempts);
    }
  }

  lemma BudgetWithout(ss: seq<ServerImpl>, i: nat, attempts: int)
    requires i < |ss|
    ensures Budget(ss, attempts) == Budget(Without(ss, i), attempts) + Share(ss[i], attempts)
  {
    assert ss == ss[..i] + ([ss[i]] + ss[i + 1..]);
    BudgetAppend(ss[..i], [ss[i]] + ss[i + 1..], attempts);
    BudgetAppend(ss[..i], ss[i + 1..], attempts);
    assert ([ss[i]] + ss[i + 1..])[1..] == ss[i + 1..];
  }

  lemma {:induction false} RestingAppend(a: seq<ServerImpl>, b: seq<ServerImpl>, wait: nat, now: nat)
    ensures Resting(a + b, wait, now) == Resting(a, wait, now) + Resting(b, wait, now)
  {
    if a == [] {
      assert a + b == b;
    } else {
      assert (a + b)[0] == a[0] && (a + b)[1..] == a[1..] + b;
      RestingAppend(a[1..], b, wait, now);
    }
  }

  /** Time passes, and rested servers stay rested. */
  lemma {:induction false} RestingLater(ss: seq<ServerImpl>, wait: nat, now: nat, later: nat, i: nat)
    requires now <= later && i < |ss| && !Due(ss[i], wait, now) && Due(ss[i], wait, later)
    ensures Resting(ss, wait, later) < Resting(ss, wait, now)
  {
    if i > 0 {
      RestingLater(ss[1..], wait, now, later, i - 1);
    } else {
      RestingNoMore(ss[1..], wait, now, later);
    }
  }

  lemma {:induction false} RestingNoMore(ss: seq<ServerImpl>, wait: nat, now: nat, later: nat)
    requires now <= later
    ensures Resting(ss, wait, later) <= Resting(ss, wait, now)
  {
    if ss != [] {
      RestingNoMore(ss[1..], wait, now, later);
    }
  }

  /** What is left of the list after the i-th of it has failed; `tired`: it has had its
      attempts. */
  function Remaining<T>(ss: seq<T>, i: nat, connectedOnce: bool, tired: bool): seq<T>
    requires i < |ss|
  {
    var others := Without(ss, i);
    if connectedOnce && !tired then ss
    else if !connectedOnce && tired && others != [] then others[..|others| - 1]
    else others
  }

  /** All others stay, unless it was the first attempt ever, on a first connect that
      allows no second one, and there are others. */
  lemma OnlyTheFailedGoesIff<T>(ss: seq<T>, i: nat, connectedOnce: bool, tired: bool)
    requires i < |ss| && forall j, k :: 0 <= j < k < |ss| ==> ss[j] != ss[k]
    ensures (forall k :: 0 <= k < |ss| && k != i ==> ss[k] in Remaining(ss, i, connectedOnce, tired))
            <==> connectedOnce || !tired || |ss| == 1
  {
    var others, last := Without(ss, i), if i == |ss| - 1 then |ss| - 2 else |ss| - 1;
    forall k | 0 <= k < |ss| && k != i
      ensures ss[k] in others
    {
      assert others[if k < i then k else k - 1] == ss[k];
    }
    if |ss| > 1 {
      assert others[|others| - 1] == ss[last];
      assert ss[last] !in others[..|others| - 1];
    }
  }

  /** A failed dial takes the server that failed out of the list when it has had its
      attempts, or at once if the client was never connected. Both can be: then one
      more server goes, the last, though it has not failed. */
  method AfterFailure(sv: Servers, srv: ServerImpl, ghost i: nat, connectedOnce: bool, attempts: int)
    requires attempts != -1 && srv == sv.currentServer && i < |sv.servers| && sv.servers[i] == srv
    requires Distinct(sv.servers)
    modifies sv`servers, srv`reconnects
    ensures srv.reconnects == old(srv.reconnects) + 1
    ensures sv.servers == Remaining(old(sv.servers), i, connectedOnce, srv.reconnects >= attempts)
  {
    var before := sv.servers;
    if !connectedOnce {
      sv.RemoveCurrentServer();
      RemovedAt(before, sv.servers, srv, i);
    }
    srv.reconnects := srv.reconnects + 1;
    if attempts != -1 && srv.reconnects >= attempts {
      sv.RemoveCurrentServer();
      if connectedOnce {
        RemovedAt(before, sv.servers, srv, i);
      }
    }
  }

  lemma RemovedAt(before: seq<ServerImpl>, after: seq<ServerImpl>, srv: ServerImpl, i: nat)
    requires Distinct(before) && i < |before| && before[i] == srv
    requires exists k :: 0 <= k < |before| && before[k] == srv && after == Without(before, k)
    ensures after == Without(before, i) && srv !in after
  {
  }

  /** The list as a selection leaves it, and where in it the selected server is. */
  function Turned<T>(ss: seq<T>, first: bool): seq<T>
    requires ss != []
  {
    if first then ss else ss[1..] + [ss[0]]
  }

  function Place<T>(ss: seq<T>, first: bool): (i: nat)
    requires ss != []
    ensures i < |Turned(ss, first)| && Turned(ss, first)[i] == ss[0]
  {
    if first then 0 else |ss| - 1
  }

  lemma TurnedKeeps(ss: seq<ServerImpl>, first: bool, attempts: int, wait: nat, now: nat)
    requires ss != []
    ensures Budget(Turned(ss, first), attempts) == Budget(ss, attempts)
    ensures Resting(Turned(ss, first), wait, now) == Resting(ss, wait, now)
  {
    BudgetAppend(ss[1..], [ss[0]], attempts);
    RestingAppend(ss[1..], [ss[0]], wait, now);
    assert [ss[0]][1..] == [];
  }

  lemma TurnedDistinct<T>(ss: seq<T>, first: bool)
    requires ss != [] && Distinct(ss)
    ensures Distinct(Turned(ss, first))
    ensures forall i :: 0 <= i < |Turned(ss, first)| ==> Turned(ss, first)[i] in ss
    ensures Place(ss, first) < |Turned(ss, first)|
    ensures Turned(ss, first)[Place(ss, first)] !in Without(Turned(ss, first), Place(ss, first))
  {
  }

  /** A failed dial, and what it costs. */
  method Fail(sv: Servers, srv: ServerImpl, ghost i: nat, connectedOnce: bool, attempts: int)
    requires attempts != -1 && srv == sv.currentServer && i < |sv.servers| && sv.servers[i] == srv
    requires Distinct(sv.servers) && srv !in Without(sv.servers, i)
    modifies sv`servers, srv`reconnects
    ensures sv.servers == Remaining(old(sv.servers), i, connectedOnce, old(srv.reconnects) + 1 >= attempts)
    ensures Distinct(sv.servers) && forall k :: 0 <= k < |sv.servers| ==> sv.servers[k] in old(sv.servers)
    ensures Budget(sv.servers, attempts) < old(Budget(sv.servers, attempts))
    ensures connectedOnce ==> Budget(sv.servers, attempts) == old(Budget(sv.servers, attempts)) - 1
  {
    hide Budget;
    ghost var ss, others := sv.servers, Without(sv.servers, i);
    BudgetWithout(ss, i, attempts);
    AfterFailure(sv, srv, i, connectedOnce, attempts);
    assert Budget(others, attempts) == old(Budget(Without(sv.servers, i), attempts));
    if sv.servers == ss {
      BudgetWithout(ss, i, attempts);
    } else if sv.servers != others {
      BudgetWithout(others, |others| - 1, attempts);
      assert Without(others, |others| - 1) == others[..|others| - 1];
    }
  }

  /** The clock has not gone back since the servers were dialed. */
  ghost predicate InThePast(ss: seq<ServerImpl>, now: nat)
    reads ss`lastConnect
  {
    forall i :: 0 <= i < |ss| ==> ss[i].lastConnect <= now
  }

  /** Never dialed before. */
  ghost predicate Unused(ss: seq<ServerImpl>)
    reads ss
  {
    forall i :: 0 <= i < |ss| ==> ss[i].reconnects == 0 && ss[i].lastConnect == 0
  }

  /** A dial, at the earliest when the wait after the last one is over. */
  method DialOne(sv: Servers, srv: ServerImpl, ghost i: nat, connectedOnce: bool, attempts: int,
                 answers: bool, ghost wait: nat, now: nat)
    requires srv.lastConnect == 0 || srv.lastConnect + wait <= now
    requires attempts != -1 && srv == sv.currentServer && i < |sv.servers| && sv.servers[i] == srv
    requires Distinct(sv.servers) && srv !in Without(sv.servers, i)
    requires InThePast(sv.servers, now)
    modifies sv`servers, srv
    ensures InThePast(sv.servers, now) && srv.lastConnect == now
    ensures answers ==>
      && sv.servers == old(sv.servers)
      && Budget(sv.servers, attempts) == old(Budget(sv.servers, attempts))
    ensures !answers ==>
      && sv.servers == Remaining(old(sv.servers), i, connectedOnce, old(srv.reconnects) + 1 >= attempts)
      && Budget(sv.servers, attempts) < old(Budget(sv.servers, attempts))
      && (connectedOnce ==> Budget(sv.servers, attempts) == old(Budget(sv.servers, attempts)) - 1)
      && (old(Unused(sv.servers)) && !connectedOnce ==> Unused(sv.servers))
    ensures Distinct(sv.servers) && forall k :: 0 <= k < |sv.servers| ==> sv.servers[k] in old(sv.servers)
  {
    srv.lastConnect := now;
    if !answers {
      Fail(sv, srv, i, connectedOnce, attempts);
    }
  }

  /** The servers dialed on a first connect that fails, `tired` if no second attempt is
      allowed. */
  function FirstTries<T>(ss: seq<T>, tired: bool): seq<T>
    decreases |ss|
  {
    if ss == [] then [] else [ss[0]] + FirstTries(Remaining(ss, 0, false, tired), tired)
  }

  /** Every server is dialed once, in order; but if no second attempt is allowed, each
      failure also takes the last of the others with it, and half of the list is never
      dialed. */
  lemma {:induction false} FirstTriesAre<T>(ss: seq<T>, tired: bool)
    ensures FirstTries(ss, tired) == if tired then ss[..(|ss| + 1) / 2] else ss
    decreases |ss|
  {
    if ss != [] {
      FirstTriesAre(Remaining(ss, 0, false, tired), tired);
    }
  }

  /** Of two servers the second is gone before it was tried. */
  lemma UntriedExample<T>(a: T, b: T)
    ensures FirstTries([a, b], true) == [a] && Remaining([a, b], 0, false, true) == []
  {
    FirstTriesAre([a, b], true);
  }

  lemma AfterFirstFailure<T>(ss: seq<T>, first: bool, tired: bool)
    requires ss != []
    ensures Remaining(Turned(ss, first), Place(ss, first), false, tired) == Remaining(ss, 0, false, tired)
  {
  }

  lemma FirstTriesNext<T>(ss: seq<T>, tired: bool)
    requires ss != []
    ensures FirstTries(ss, tired) == [ss[0]] + FirstTries(Remaining(ss, 0, false, tired), tired)
  {
  }

  lemma UnusedAreDue(ss: seq<ServerImpl>, wait: nat, now: nat)
    ensures Unused(ss) && ss != [] ==> Due(ss[0], wait, now) && ss[0].reconnects == 0
  {
  }

  /** One turn: a dial of the next server, or a wait until it may be dialed. */
  method Turn(sv: Servers, connectedOnce: bool, attempts: int, wait: nat, network: Network, now: nat, k: nat)
    returns (srv: ServerImpl?, dialed: bool, later: nat)
    requires sv.Valid() && attempts != -1 && now > 0 && InThePast(sv.servers, now)
    modifies sv, sv.servers
    ensures sv.Valid() && !sv.firstSelect && later >= now && InThePast(sv.servers, later)
    ensures srv == (if old(sv.servers) == [] then null else old(sv.servers[0]))
    ensures srv == null ==> sv.servers == [] && !dialed
    ensures forall i :: 0 <= i < |sv.servers| ==> sv.servers[i] in old(sv.servers)
    ensures dialed && !network.answers(k) ==>
      && Budget(sv.servers, attempts) < old(Budget(sv.servers, attempts))
      && (connectedOnce ==> Budget(sv.servers, attempts) == old(Budget(sv.servers, attempts)) - 1)
      && (old(Unused(sv.servers)) && !connectedOnce ==>
        && Unused(sv.servers)
        && FirstTries(old(sv.servers), attempts < 2) == [srv] + FirstTries(sv.servers, attempts < 2))
    ensures old(Unused(sv.servers)) && srv != null ==> dialed
    ensures srv != null && !dialed ==>
      && Budget(sv.servers, attempts) == old(Budget(sv.servers, attempts))
      && Resting(sv.servers, wait, later) < old(Resting(sv.servers, wait, now))
  {
    hide Budget, Resting, Remaining, Turned, FirstTries, Place, Distinct, Without;
    ghost var ss, first := sv.servers, sv.firstSelect;
    later, dialed := now, false;
    srv := sv.SelectServer();
    if srv == null {
      return;
    }
    ghost var at := Place(ss, first);
    TurnedKeeps(ss, first, attempts, wait, now);
    TurnedDistinct(ss, first);
    UnusedAreDue(ss, wait, now);
    AfterFirstFailure(ss, first, attempts < 2);
    FirstTriesNext(ss, attempts < 2);
    assert sv.servers == Turned(ss, first) by { TurnedIs(ss, first); }
    if Due(srv, wait, now) {
      dialed := true;
      later := now + network.lasts(k);
      DialOne(sv, srv, at, connectedOnce, attempts, network.answers(k), wait, now);
    } else {
      later := Wait(srv, wait, now);
      RestingLater(sv.servers, wait, now, later, at);
    }
  }

  /** Not longer than needed, and long enough. */
  method Wait(srv: ServerImpl, wait: nat, now: nat) returns (later: nat)
    requires !Due(srv, wait, now) && srv.lastConnect <= now
    ensures now <= later <= now + wait && Due(srv, wait, later)
  {
    var left := srv.lastConnect + wait - now;
    later := now + if left < wait then left else wait;
  }

  lemma TurnedIs<T>(ss: seq<T>, first: bool)
    requires ss != []
    ensures Turned(ss, first) == if first then ss else ss[1..] + [ss[0]]
  {
  }

  /** Dials until an answer, or until there are no servers. Every dial that fails costs
      an attempt; when all fail, none is left unused once the client was connected. */
  method DodialLoop(sv: Servers, connectedOnce: bool, attempts: int, wait: nat, network: Network, start: nat)
    returns (connected: bool, tried: seq<ServerImpl>)
    requires sv.Valid() && attempts != -1 && start > 0 && InThePast(sv.servers, start)
    modifies sv, sv.servers
    ensures !connected ==> sv.servers == []
    ensures |tried| <= old(Budget(sv.servers, attempts))
    ensures connectedOnce && !connected ==> |tried| == old(Budget(sv.servers, attempts))
    ensures !connectedOnce && !connected && old(Unused(sv.servers)) ==>
      tried == if attempts < 2 then old(sv.servers)[..(|old(sv.servers)| + 1) / 2] else old(sv.servers)
    ensures connected <==> tried != [] && network.answers(|tried| - 1)
    ensures forall k :: 0 <= k < |tried| - 1 ==> !network.answers(k)
  {
    hide Budget, Resting, FirstTries, Unused, Due, InThePast, Distinct;
    var now := start;
    connected, tried := false, [];
    ghost var all, before, tired := sv.servers, Budget(sv.servers, attempts), attempts < 2;
    ghost var untried := !connectedOnce && Unused(sv.servers);
    FirstTriesAre(all, tired);
    while true
      modifies sv, all
      invariant sv.Valid() && !connected && now > 0 && InThePast(sv.servers, now)
      invariant forall i :: 0 <= i < |sv.servers| ==> sv.servers[i] in all
      invariant |tried| + Budget(sv.servers, attempts) <= before
      invariant connectedOnce ==> |tried| + Budget(sv.servers, attempts) == before
      invariant untried ==> Unused(sv.servers) && tried + FirstTries(sv.servers, tired) == FirstTries(all, tired)
      invariant forall k :: 0 <= k < |tried| ==> !network.answers(k)
      decreases Budget(sv.servers, attempts), Resting(sv.servers, wait, now)
    {
      BudgetBounds(sv.servers, attempts);
      var srv, dialed, later := Turn(sv, connectedOnce, attempts, wait, network, now, |tried|);
      now := later;
      if srv == null {
        FirstTriesAre(sv.servers, tired);
        return;
      }
      if dialed {
        tried := tried + [srv];
        if network.answers(|tried| - 1) {
          connected := true;
          return;
        }
      }
    }
  }
}
