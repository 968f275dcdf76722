/** The growable byte buffer: a view of the first `len` bytes of a store, read from
    `off`. What it holds is a plain sequence of bytes. */
module DenoBuffer {
  import opened Bytes

  const MIN_READ: nat := 32 * 1024
  const MAX_SIZE: nat := 0x1_0000_0000 - 2

  datatype BufferError = TooLarge | OutOfRange | Negative | BadView

  /** Copies as much of `src` as fits into `dst[off..end]`. The source is taken as it
      was, also when it is a view of `dst`. */
  method Copy(src: seq<byte>, dst: array<byte>, end: nat, off: nat) returns (n: nat)
    requires off <= end <= dst.Length
    modifies dst
    ensures n == if |src| > end - off then end - off else |src|
    ensures dst[..] == old(dst[..off]) + src[..n] + old(dst[off + n..])
  {
    n := if |src| > end - off then end - off else |src|;
    for k := 0 to n
      invariant forall j :: 0 <= j < dst.Length ==>
        dst[j] == if off <= j < off + k then src[j - off] else old(dst[j])
    {
      dst[off + k] := src[k];
    }
    assert dst[off..off + n] == src[..n];
    assert dst[..] == dst[..off] + dst[off..off + n] + dst[off + n..];
  }

  /** What one read of at most `room` bytes takes from the front of a script, and
      what it leaves. */
  function Taken(script: seq<seq<byte>>, room: nat): seq<byte>
    requires script != []
  {
    if |script[0]| <= room then script[0] else script[0][..room]
  }

  function Left(script: seq<seq<byte>>, room: nat): seq<seq<byte>>
    requires script != []
  {
    if |script[0]| <= room then script[1..] else [script[0][room..]] + script[1..]
  }

  lemma ReadSplits(script: seq<seq<byte>>, room: nat)
    requires script != [] && room > 0
    ensures Flatten(script) == Taken(script, room) + Flatten(Left(script, room))
    ensures |Taken(script, room)| <= room
    ensures Cost(Left(script, room)) < Cost(script)
  {
    hide Flatten;
    FlattenHead(script);
    if |script[0]| > room {
      FlattenHead(Left(script, room));
      var a, b, rest := script[0][..room], script[0][room..], Flatten(script[1..]);
      assert script[0] == a + b;
      assert Left(script, room)[0] == b && Left(script, room)[1..] == script[1..];
      assert Flatten(Left(script, room)) == b + rest;
      assert a + b + rest == a + (b + rest);
    }
  }

  function Cost(script: seq<seq<byte>>): nat {
    |script| + |Flatten(script)|
  }

  /** A source of bytes: what its successive reads will produce, before it reports
      its end. */
  class Reader {
    var script: seq<seq<byte>>

    constructor (script: seq<seq<byte>>)
      ensures this.script == script
    {
      this.script := script;
    }

    /** Reads into `p[at..]`; null at the end. */
    method Read(p: array<byte>, at: nat) returns (n: Option<nat>)
      requires at <= p.Length
      modifies this, p
      ensures old(script) == [] ==> n == None && script == [] && p[..] == old(p[..])
      ensures old(script) != [] ==>
        && n == Some(|Taken(old(script), p.Length - at)|) && script == Left(old(script), p.Length - at)
        && p[..] == old(p[..at]) + Taken(old(script), p.Length - at) + old(p[at + n.value..])
    {
      if script == [] {
        return None;
      }
      var piece := script[0];
      var k := Copy(piece, p, p.Length, at);
      script := if k == |piece| then script[1..] else [piece[k..]] + script[1..];
      n := Some(k);
    }
  }

  // ------------------------------------------------------------- its shape

  /** What decides where bytes go: those held, the size of the store and the offset
      from which they are read. */
  datatype State = State(held: seq<byte>, cap: nat, off: nat)

  predicate Sound(s: State) {
    s.off + |s.held| <= s.cap <= MAX_SIZE
  }

  /** An empty buffer is read from the front again. */
  function Settled(s: State): State {
    if s.held == [] then s.(off := 0) else s
  }

  /** `n` more bytes neither fit behind those held nor into half of the store, and the
      store is too large to be doubled. */
  predicate Refuses(s: State, n: nat) {
    && n > s.cap - Settled(s).off - |s.held|
    && n > s.cap / 2 - |s.held|
    && s.cap + n > MAX_SIZE
  }

  /** The buffer with room for `n` more bytes. */
  function Room(s: State, n: nat): (r: State)
    requires Sound(s) && !Refuses(s, n)
    ensures Sound(r) && r.held == s.held && r.off + |r.held| + n <= r.cap
    ensures r.off == 0 || (r.off == s.off && r.cap == s.cap)
  {
    if n <= s.cap - Settled(s).off - |s.held| then Settled(s)
    else if n <= s.cap / 2 - |s.held| then s.(off := 0)
    else State(s.held, if 2 * s.cap + n <= MAX_SIZE then 2 * s.cap + n else MAX_SIZE, 0)
  }

  /** Where `n` more bytes do not fit behind those held. */
  lemma Crowded(s: State, n: nat)
    requires Sound(s) && Settled(s) == s && n > s.cap - s.off - |s.held|
    ensures Refuses(s, n) <==> n > s.cap / 2 - |s.held| && s.cap + n > MAX_SIZE
    ensures n <= s.cap / 2 - |s.held| ==> Room(s, n) == s.(off := 0)
    ensures n > s.cap / 2 - |s.held| && s.cap + n <= MAX_SIZE ==>
      Room(s, n) == State(s.held, if 2 * s.cap + n <= MAX_SIZE then 2 * s.cap + n else MAX_SIZE, 0)
  {
  }

  function Drained(s: State, room: nat): State
    requires Sound(s)
  {
    var k := if |s.held| <= room then |s.held| else room;
    if s.held == [] then Settled(s) else State(s.held[k..], s.cap, s.off + k)
  }

  function Truncated(s: State, n: int): State {
    if n == 0 then s.(held := [], off := 0)
    else if 0 < n <= |s.held| then s.(held := s.held[..n])
    else s
  }

  /** What would exceed the largest size is refused, and nothing up to a third of it. */
  lemma RefusalBounds(s: State, n: nat)
    requires Sound(s)
    ensures |s.held| + n > MAX_SIZE ==> Refuses(s, n)
    ensures Refuses(s, n) ==> 3 * (|s.held| + n) > MAX_SIZE
  {
  }

  // ------------------------------------------------------------- what readFrom does

  /** With less than this much of the store free, bytes are read into a buffer of
      their own and then written. */
  predicate Short(s: State) {
    s.cap - |s.held| < MIN_READ
  }

  /** A read straight into the store puts bytes behind the first |held| of the store,
      whatever the offset. It leaves those from the offset on, if there are any. */
  function InPlace(s: State, taken: seq<byte>): Option<State> {
    if s.off <= |s.held| then Some(s.(held := s.held[..|s.held| - s.off] + taken))
    else if s.off <= |s.held| + |taken| then Some(s.(held := taken[s.off - |s.held|..]))
    else None
  }

  /** Everything was read, or the buffer became too large, or it holds a negative
      number of bytes and the next view of the store fails. */
  datatype Reading = All(s: State, n: nat) | Full(s: State) | Broken

  /** How much is read at once. */
  function Window(s: State): (room: nat)
    requires Sound(s)
    ensures room > 0
  {
    if Short(s) then MIN_READ else s.cap - |s.held|
  }

  /** What one read that produces `taken` makes of the buffer. */
  function Arrived(s: State, taken: seq<byte>): (r: Reading)
    requires Sound(s) && |taken| <= Window(s)
    ensures !r.Broken? ==> Sound(r.s)
  {
    if Short(s) then
      if Refuses(s, |taken|) then Full(Settled(s))
      else All(Room(s, |taken|).(held := s.held + taken), |taken|)
    else
      match InPlace(s, taken)
      case None => Broken
      case Some(s') => All(s', |taken|)
  }

  function Received(s: State, script: seq<seq<byte>>, n: nat): Reading
    requires Sound(s)
    decreases Cost(script)
  {
    if script == [] then All(s, n)
    else
      ReadSplits(script, Window(s));
      match Arrived(s, Taken(script, Window(s)))
      case All(s', k) => Received(s', Left(script, Window(s)), n + k)
      case other => other
  }

  /** Where reading is right: nothing has been read from the buffer before, or what
      is read will not go straight into the store. */
  predicate ReadsWell(s: State) {
    s.off == 0 || Short(s)
  }

  lemma WellArrived(s: State, taken: seq<byte>)
    requires Sound(s) && ReadsWell(s) && |taken| <= Window(s)
    ensures match Arrived(s, taken)
            case All(s', k) => s'.held == s.held + taken && k == |taken| && ReadsWell(s')
            case Full(s') => s'.held == s.held && 3 * (|s.held| + |taken|) > MAX_SIZE
            case Broken => false
  {
    RefusalBounds(s, |taken|);
  }

  lemma {:induction false} WellReceived(s: State, script: seq<seq<byte>>, n: nat)
    requires Sound(s) && ReadsWell(s)
    ensures match Received(s, script, n)
            case All(s', n') => s'.held == s.held + Flatten(script) && n' == n + |Flatten(script)|
            case Full(s') => s.held <= s'.held <= s.held + Flatten(script)
                             && 3 * (|s.held| + |Flatten(script)|) > MAX_SIZE
            case Broken => false
    decreases Cost(script)
  {
    hide Arrived, Window, Taken, Left, ReadsWell, Sound;
    if script != [] {
      var room := Window(s);
      ReadSplits(script, room);
      var taken, rest := Taken(script, room), Left(script, room);
      WellArrived(s, taken);
      match Arrived(s, taken)
      case All(s', k) =>
        WellReceived(s', rest, n + k);
        assert s.held + taken + Flatten(rest) == s.held + (taken + Flatten(rest));
      case _ =>
    }
  }

  lemma Shortened(s: State, taken: seq<byte>)
    requires Sound(s) && |taken| <= Window(s)
    ensures var o := Arrived(s, taken);
            o.All? ==> |o.s.held| + (if ReadsWell(s) then 0 else s.off) == |s.held| + |taken|
  {
  }

  /** What is missing stays missing. */
  lemma {:induction false} NeverMore(s: State, script: seq<seq<byte>>, n: nat)
    requires Sound(s)
    ensures var o := Received(s, script, n);
            o.All? ==> |o.s.held| + (if ReadsWell(s) || script == [] then 0 else s.off) <= |s.held| + |Flatten(script)|
    decreases Cost(script)
  {
    hide Arrived, Window, Taken, Left, ReadsWell, Sound;
    if script != [] {
      var room := Window(s);
      ReadSplits(script, room);
      var taken, rest := Taken(script, room), Left(script, room);
      Shortened(s, taken);
      match Arrived(s, taken)
      case All(s', k) => NeverMore(s', rest, n + k);
      case _ =>
    }
  }

  /** The whole of what a reader produces is appended exactly when the first read is
      right, or there is nothing to read, and the buffer does not become too large. */
  lemma ReadFromIff(s: State, script: seq<seq<byte>>)
    requires Sound(s)
    ensures var o := Received(s, script, 0);
            o.All? && o.s.held == s.held + Flatten(script) <==> (ReadsWell(s) && !o.Full?) || script == []
  {
    hide Received, Short;
    if ReadsWell(s) {
      WellReceived(s, script, 0);
    }
    NeverMore(s, script, 0);
    if script == [] {
      assert Received(s, script, 0) == All(s, 0) by { ReceivedNothing(s, 0); }
    }
  }

  lemma ReceivedNothing(s: State, n: nat)
    requires Sound(s)
    ensures Received(s, [], n) == All(s, n)
  {
  }

  lemma Behind(before: seq<byte>, after: seq<byte>, off: nat, at: nat, p: seq<byte>)
    requires off <= at && at + |p| <= |before| && after == before[..at] + p + before[at + |p|..]
    ensures after[off..at + |p|] == before[off..at] + p
  {
  }

  lemma PutBehind(s: State, before: seq<byte>, after: seq<byte>, taken: seq<byte>)
    requires s.off + |s.held| <= |before| && s.held == before[s.off..s.off + |s.held|]
    requires |s.held| + |taken| <= |before|
    requires after == before[..|s.held|] + taken + before[|s.held| + |taken|..]
    ensures var end := |s.held| + |taken|;
            InPlace(s, taken) == if s.off <= end then Some(s.(held := after[s.off..end])) else None
    ensures s.off == 0 ==> after[..|s.held| + |taken|] == s.held + taken
  {
    var end := |s.held| + |taken|;
    if s.off <= |s.held| {
      assert after[s.off..end] == before[s.off..|s.held|] + taken;
      assert s.held[..|s.held| - s.off] == before[s.off..|s.held|];
    } else if s.off <= end {
      assert after[s.off..end] == taken[s.off - |s.held|..];
    }
  }

  class Buffer {
    var store: array<byte>   // _buf.buffer
    var len: nat             // _buf.byteLength
    var off: nat

    ghost predicate Valid()
      reads this
    {
      off <= len <= store.Length <= MAX_SIZE
    }

    ghost function Contents(): seq<byte>
      requires Valid()
      reads this, store
    {
      store[off..len]
    }

    ghost function View(): (s: State)
      requires Valid()
      reads this, store
      ensures Sound(s)
    {
      State(Contents(), store.Length, off)
    }

    constructor ()
      ensures Valid() && View() == State([], 0, 0) && fresh(store)
    {
      store := new byte[0];
      len, off := 0, 0;
    }

    /** Made from bytes the caller keeps: they are copied. */
    constructor From(bytes: seq<byte>)
      requires |bytes| <= MAX_SIZE
      ensures Valid() && View() == State(bytes, |bytes|, 0) && fresh(store)
    {
      store := new byte[|bytes|](i requires 0 <= i < |bytes| => bytes[i]);
      len, off := |bytes|, 0;
    }

    method Bytes() returns (b: seq<byte>)
      requires Valid()
      ensures b == Contents()
    {
      b := store[off..len];
    }

    predicate Empty()
      reads this
    {
      len <= off
    }

    function Length(): int
      reads this
    {
      len - off
    }

    function Capacity(): nat
      reads this
    {
      store.Length
    }

    method Reslice(n: nat)
      requires n <= store.Length
      modifies this`len
      ensures len == n
    {
      len := n;
    }

    method Reset()
      requires Valid()
      modifies this`len, this`off
      ensures Valid() && View() == State([], store.Length, 0)
    {
      Reslice(0);
      off := 0;
    }

    method Truncate(n: int) returns (e: Option<BufferError>)
      requires Valid()
      modifies this`len, this`off
      ensures Valid() && View() == Truncated(old(View()), n)
      ensures 0 <= n <= |old(Contents())| ==> e == None && Contents() == old(Contents())[..n]
      ensures !(0 <= n <= |old(Contents())|) ==> e == Some(OutOfRange) && Contents() == old(Contents())
    {
      if n == 0 {
        Reset();
        return None;
      }
      if n < 0 || n > Length() {
        return Some(OutOfRange);
      }
      Reslice(off + n);
      e := None;
    }

    /** The length before growing, or -1. */
    method TryGrowByReslice(n: nat) returns (l: int)
      requires Valid()
      modifies this`len
      ensures Valid() && off == old(off)
      ensures if n <= store.Length - old(len) then l == old(len) && len == l + n else l == -1 && len == old(len)
    {
      var before := len;
      if n <= Capacity() - before {
        Reslice(before + n);
        return before;
      }
      return -1;
    }

    /** Makes room for `n` more bytes and says where they go; what the buffer holds
        stays in front of that place. */
    method GrowBy(n: nat) returns (at: nat, e: Option<BufferError>)
      requires Valid()
      modifies this, store
      ensures Valid() && (store == old(store) || fresh(store))
      ensures e == if Refuses(old(View()), n) then Some(TooLarge) else None
      ensures e.Some? ==> View() == Settled(old(View()))
      ensures e.None? ==> off <= at && at + n == len
                          && State(store[off..at], store.Length, off) == Room(old(View()), n)
    {
      var m := Length();
      if m == 0 && off != 0 {
        Reset();
      }
      var i := TryGrowByReslice(n);
      if i >= 0 {
        return i, None;
      }
      at, e := GrowSlowly(n);
    }

    /** Slides what is held down, or moves it to a larger store. */
    method GrowSlowly(n: nat) returns (at: nat, e: Option<BufferError>)
      requires Valid() && n > store.Length - len && (len == off ==> off == 0)
      modifies this, store
      ensures Valid() && (store == old(store) || fresh(store))
      ensures e == if Refuses(old(View()), n) then Some(TooLarge) else None
      ensures e.Some? ==> View() == old(View())
      ensures e.None? ==> off <= at && at + n == len
                          && State(store[off..at], store.Length, off) == Room(old(View()), n)
    {
      hide Refuses, Room;
      var m, c := Length(), Capacity();
      Crowded(View(), n);
      if n <= c / 2 - m {
        MoveInto(store);
      } else if c + n > MAX_SIZE {
        return 0, Some(TooLarge);
      } else {
        var buf := new byte[if 2 * c + n <= MAX_SIZE then 2 * c + n else MAX_SIZE];
        MoveInto(buf);
      }
      Reslice(if m + n <= MAX_SIZE then m + n else MAX_SIZE);
      at, e := m, None;
    }

    /** Copies what is held to the front of `buf`, which becomes the store. */
    method MoveInto(buf: array<byte>)
      requires Valid() && |Contents()| <= buf.Length <= MAX_SIZE
      modifies this`store, this`off, this`len, buf
      ensures Valid() && store == buf && View() == State(old(Contents()), buf.Length, 0)
    {
      ghost var held := Contents();
      var m := Length();
      var _ := Copy(store[off..len], buf, buf.Length, 0);
      assert buf[..m] == buf[..][..m] == held;
      store := buf;
      off, len := 0, m;
    }

    method Write(p: seq<byte>) returns (n: nat, e: Option<BufferError>)
      requires Valid()
      modifies this, store
      ensures Valid() && (store == old(store) || fresh(store))
      ensures e == if Refuses(old(View()), |p|) then Some(TooLarge) else None
      ensures e.Some? ==> View() == Settled(old(View()))
      ensures e.None? ==> n == |p| && View() == Room(old(View()), |p|).(held := old(Contents()) + p)
    {
      hide Refuses, Room, Settled;
      var at;
      at, e := GrowBy(|p|);
      if e.Some? {
        return 0, e;
      }
      n := PutAt(p, at);
    }

    method PutAt(p: seq<byte>, at: nat) returns (n: nat)
      requires Valid() && off <= at && at + |p| == len
      modifies store
      ensures n == |p| && Contents() == old(store[off..at]) + p
    {
      ghost var before := store[..];
      assert before[off..at] == store[off..at];
      n := Copy(p, store, len, at);
      Behind(before, store[..], off, at, p);
      assert store[off..len] == store[..][off..len];
    }

    /** Room for `n` more bytes; the contents stay. */
    method Grow(n: int) returns (e: Option<BufferError>)
      requires Valid()
      modifies this, store
      ensures Valid() && (store == old(store) || fresh(store))
      ensures n < 0 ==> e == Some(Negative) && View() == old(View())
      ensures n >= 0 ==> e == if Refuses(old(View()), n) then Some(TooLarge) else None
      ensures n >= 0 && e.Some? ==> View() == Settled(old(View()))
      ensures n >= 0 && e.None? ==> View() == Room(old(View()), n) && store.Length - len >= n
    {
      if n < 0 {
        return Some(Negative);
      }
      var at;
      at, e := GrowBy(n);
      if e.None? {
        Reslice(at);
      }
    }

    /** Moves up to `p.Length` bytes into `p`; null only when there is nothing to read
        and room to read it. */
    method Read(p: array<byte>) returns (n: Option<nat>)
      requires Valid() && p != store
      modifies this`len, this`off, p
      ensures Valid() && store == old(store) && View() == Drained(old(View()), p.Length)
      ensures old(Contents()) == [] ==> n == (if p.Length == 0 then Some(0) else None) && p[..] == old(p[..])
      ensures old(Contents()) != [] ==>
        && n == Some(if |old(Contents())| <= p.Length then |old(Contents())| else p.Length)
        && p[..n.value] == old(Contents())[..n.value] && p[n.value..] == old(p[n.value..])
        && Contents() == old(Contents())[n.value..]
    {
      if Empty() {
        Reset();
        if p.Length == 0 {
          return Some(0);
        }
        return None;
      }
      var nread := Copy(store[off..len], p, p.Length, 0);
      off := off + nread;
      n := Some(nread);
    }

    // ------------------------------------------------------------- readFrom

    predicate ShouldGrow()
      reads this
    {
      store.Length - (len - off) < MIN_READ
    }

    /** One read straight into the store, behind the first `length` bytes. What it
        leaves is right exactly when nothing had been read from the buffer before. */
    method ReadInPlace(r: Reader) returns (nread: Option<nat>)
      requires Valid() && !ShouldGrow()
      modifies this`len, store, r
      ensures old(r.script) == [] ==> nread == None && r.script == [] && Valid() && View() == old(View())
      ensures old(r.script) != [] ==>
        var room := store.Length - |old(Contents())|;
        var taken := Taken(old(r.script), room);
        && nread == Some(|taken|) && r.script == Left(old(r.script), room) && len <= store.Length
        && (if Valid() then InPlace(old(View()), taken) == Some(View()) else InPlace(old(View()), taken) == None)
        && ((Valid() && Contents() == old(Contents()) + taken) <==> off == 0)
    {
      hide Taken, Left;
      ghost var view, before := View(), store[..];
      var length := len - off;
      nread := r.Read(store, length);
      if nread.Some? {
        Reslice(length + nread.value);
        assert len < off || store[..][off..len] == store[off..len];
        hide InPlace;
        PutBehind(view, before, store[..], Taken(old(r.script), store.Length - length));
      }
    }

    /** Appends what the reader produces, as far as `Received` says. */
    method ReadFrom(r: Reader) returns (n: nat, e: Option<BufferError>)
      requires Valid()
      modifies this, store, r
      ensures store == old(store) || fresh(store)
      ensures match Received(old(View()), old(r.script), 0)
              case All(s, k) => e == None && Valid() && View() == s && n == k && r.script == []
              case Full(s) => e == Some(TooLarge) && Valid() && View() == s
              case Broken => e == Some(BadView)
    {
      hide Received, Refuses;
      n := 0;
      var tmp := new byte[MIN_READ];
      ghost var outcome := Received(View(), r.script, 0);
      while true
        invariant store == old(store) || fresh(store)
        invariant store != tmp && len <= store.Length <= MAX_SIZE
        invariant if Valid() then Received(View(), r.script, n) == outcome else outcome == Broken && !ShouldGrow()
        decreases Cost(r.script)
      {
        if !ShouldGrow() && len < off {
          return n, Some(BadView);
        }
        var nread;
        nread, e := ReadTurn(r, tmp, n);
        if e.Some? {
          return;
        }
        if nread.None? {
          ReceivedNothing(View(), n);
          return;
        }
        n := n + nread.value;
      }
    }

    /** One turn of `readFrom`. */
    method ReadTurn(r: Reader, tmp: array<byte>, ghost n: nat) returns (nread: Option<nat>, e: Option<BufferError>)
      requires Valid() && tmp != store && tmp.Length == MIN_READ
      modifies this, store, r, tmp
      ensures (store == old(store) || fresh(store)) && len <= store.Length <= MAX_SIZE
      ensures old(r.script) == [] ==>
        nread.None? && e.None? && r.script == [] && Valid() && View() == old(View())
      ensures old(r.script) != [] && e.None? ==>
        var outcome := Received(old(View()), old(r.script), n);
        && nread.Some? && Cost(r.script) < old(Cost(r.script))
        && if Valid() then Received(View(), r.script, n + nread.value) == outcome
           else outcome == Broken && !ShouldGrow()
      ensures e.Some? ==>
        e.value == TooLarge && Valid() && Received(old(View()), old(r.script), n) == Full(View())
    {
      hide Flatten, Cost, Taken, Left, Refuses, Room;
      ghost var script := r.script;
      ghost var room := if ShouldGrow() then MIN_READ else store.Length - (len - off);
      if script != [] {
        ReadSplits(script, room);
      }
      if ShouldGrow() {
        nread, e := ReadThenWrite(r, tmp);
      } else {
        nread := ReadInPlace(r);
        e := None;
      }
    }

    method ReadThenWrite(r: Reader, tmp: array<byte>) returns (nread: Option<nat>, e: Option<BufferError>)
      requires Valid() && tmp != store && tmp.Length == MIN_READ
      modifies this, store, r, tmp
      ensures Valid() && (store == old(store) || fresh(store))
      ensures old(r.script) == [] ==> nread.None? && e.None? && r.script == [] && View() == old(View())
      ensures old(r.script) != [] ==>
        var taken := Taken(old(r.script), MIN_READ);
        && nread == Some(|taken|) && r.script == Left(old(r.script), MIN_READ)
        && (e == if Refuses(old(View()), |taken|) then Some(TooLarge) else None)
        && (e.None? ==> View() == Room(old(View()), |taken|).(held := old(Contents()) + taken))
        && (e.Some? ==> View() == Settled(old(View())))
    {
      hide Taken, Left, Refuses, Room;
      nread := r.Read(tmp, 0);
      e := None;
      if nread.Some? {
        var piece := tmp[..nread.value];
        assert piece == tmp[..][..nread.value] == Taken(old(r.script), MIN_READ);
        var written;
        written, e := Write(piece);
      }
    }
  }

  /** Exactly what the reader produced, or a refusal. */
  method ReadAll(r: Reader) returns (bytes: seq<byte>, e: Option<BufferError>)
    modifies r
    ensures e == if Received(State([], 0, 0), old(r.script), 0).Full? then Some(TooLarge) else None
    ensures e.None? ==> bytes == Flatten(old(r.script)) && r.script == []
    ensures e.Some? ==> 3 * |Flatten(old(r.script))| > MAX_SIZE
  {
    hide Received;
    WellReceived(State([], 0, 0), r.script, 0);
    var buf := new Buffer();
    var n;
    n, e := buf.ReadFrom(r);
    if e.Some? {
      return [], e;
    }
    bytes := buf.Bytes();
  }

  // ------------------------------------------- every sequence of operations

  datatype BufferOp = WriteOp(bytes: seq<byte>) | ReadOp(room: nat) | GrowOp(n: int) | TruncateOp(n: int) | ResetOp

  datatype Answer = Count(n: nat) | Bytes(bytes: seq<byte>) | EndOfData | Done | Refused(error: BufferError)

  /** The buffer as a plain sequence: what it holds after an operation, and what the
      caller gets. */
  function Model(held: seq<byte>, op: BufferOp): (seq<byte>, Answer) {
    match op
    case WriteOp(b) => (held + b, Count(|b|))
    case ReadOp(room) =>
      if held == [] then (held, if room == 0 then Bytes([]) else EndOfData)
      else var k := if |held| <= room then |held| else room; (held[k..], Bytes(held[..k]))
    case GrowOp(n) => (held, if n < 0 then Refused(Negative) else Done)
    case TruncateOp(n) => if 0 <= n <= |held| then (held[..n], Done) else (held, Refused(OutOfRange))
    case ResetOp => ([], Done)
  }

  function ModelRun(held: seq<byte>, ops: seq<BufferOp>): (seq<byte>, seq<Answer>) {
    if ops == [] then (held, [])
    else
      var (h, a) := ModelRun(held, ops[..|ops| - 1]);
      var (h', a') := Model(h, ops[|ops| - 1]);
      (h', a + [a'])
  }

  /** How many bytes an operation needs room for. */
  function Demand(op: BufferOp): nat {
    match op
    case WriteOp(b) => |b|
    case GrowOp(n) => if n < 0 then 0 else n
    case _ => 0
  }

  predicate TooMuch(s: State, op: BufferOp) {
    (op.WriteOp? || (op.GrowOp? && op.n >= 0)) && Refuses(s, Demand(op))
  }

  /** The shape after an operation. */
  function Shaped(s: State, op: BufferOp): (r: State)
    requires Sound(s)
    ensures Sound(r)
    ensures r.held == if TooMuch(s, op) then s.held else Model(s.held, op).0
  {
    if TooMuch(s, op) then Settled(s)
    else
      match op
      case WriteOp(b) => Room(s, |b|).(held := s.held + b)
      case ReadOp(room) => Drained(s, room)
      case GrowOp(n) => if n < 0 then s else Room(s, n)
      case TruncateOp(n) => Truncated(s, n)
      case ResetOp => s.(held := [], off := 0)
  }

  function Answered(s: State, op: BufferOp): Answer {
    if TooMuch(s, op) then Refused(TooLarge) else Model(s.held, op).1
  }

  function ShapeRun(s: State, ops: seq<BufferOp>): (r: State)
    requires Sound(s)
    ensures Sound(r)
  {
    if ops == [] then s else Shaped(ShapeRun(s, ops[..|ops| - 1]), ops[|ops| - 1])
  }

  /** No operation asks for more than there can be. */
  predicate Fits(s: State, ops: seq<BufferOp>)
    requires Sound(s)
  {
    ops == []
    || (Fits(s, ops[..|ops| - 1]) && !TooMuch(ShapeRun(s, ops[..|ops| - 1]), ops[|ops| - 1]))
  }

  method Apply(b: Buffer, op: BufferOp) returns (a: Answer)
    requires b.Valid()
    modifies b, b.store
    ensures b.Valid() && (b.store == old(b.store) || fresh(b.store))
    ensures b.View() == Shaped(old(b.View()), op) && a == Answered(old(b.View()), op)
  {
    match op {
      case WriteOp(bytes) =>
        var n, e := b.Write(bytes);
        a := if e.Some? then Refused(e.value) else Count(n);
      case ReadOp(room) =>
        var p := new byte[room];
        var n := b.Read(p);
        a := if n.None? then EndOfData else Bytes(p[..n.value]);
      case GrowOp(n) =>
        var e := b.Grow(n);
        a := if e.Some? then Refused(e.value) else Done;
      case TruncateOp(n) =>
        var e := b.Truncate(n);
        a := if e.Some? then Refused(e.value) else Done;
      case ResetOp =>
        b.Reset();
        a := Done;
    }
  }

  /** Any sequence of operations, refused ones among them: each is answered as by the
      plain sequence, and refused exactly when `TooMuch` says; one that is refused
      leaves what is held. */
  method Replay(b: Buffer, ops: seq<BufferOp>) returns (answers: seq<Answer>)
    requires b.Valid()
    modifies b, b.store
    ensures b.Valid() && b.View() == ShapeRun(old(b.View()), ops)
    ensures |answers| == |ops|
    ensures forall k :: 0 <= k < |ops| ==> answers[k] == Answered(ShapeRun(old(b.View()), ops[..k]), ops[k])
    ensures Refused(TooLarge) !in answers <==> Fits(old(b.View()), ops)
    ensures Fits(old(b.View()), ops) ==> (b.Contents(), answers) == ModelRun(old(b.Contents()), ops)
  {
    hide Shaped, Answered, TooMuch, Model, ShapeRun, Fits, ModelRun;
    answers := [];
    ghost var s := b.View();
    RunNothing(s);
    for k := 0 to |ops|
      invariant b.Valid() && (b.store == old(b.store) || fresh(b.store))
      invariant |answers| == k && b.View() == ShapeRun(s, ops[..k])
      invariant forall j :: 0 <= j < k ==> answers[j] == Answered(ShapeRun(s, ops[..j]), ops[j])
      invariant Refused(TooLarge) !in answers <==> Fits(s, ops[..k])
      invariant Fits(s, ops[..k]) ==> (b.Contents(), answers) == ModelRun(s.held, ops[..k])
    {
      var a := Apply(b, ops[k]);
      RunOneMore(s, ops, k);
      answers := answers + [a];
    }
    assert ops[..|ops|] == ops;
  }

  lemma RunNothing(s: State)
    requires Sound(s)
    ensures ShapeRun(s, []) == s && Fits(s, []) && ModelRun(s.held, []) == (s.held, [])
  {
  }

  lemma RunOneMore(s: State, ops: seq<BufferOp>, k: nat)
    requires Sound(s) && k < |ops|
    ensures var before := ShapeRun(s, ops[..k]);
            var (h, a) := ModelRun(s.held, ops[..k]);
            && ShapeRun(s, ops[..k + 1]) == Shaped(before, ops[k])
            && (Fits(s, ops[..k + 1]) <==> Fits(s, ops[..k]) && Answered(before, ops[k]) != Refused(TooLarge))
            && (Fits(s, ops[..k + 1]) && h == before.held
                ==> ModelRun(s.held, ops[..k + 1]) == (Shaped(before, ops[k]).held, a + [Answered(before, ops[k])]))
  {
    hide Shaped, Answered, TooMuch, Model;
    assert ops[..k + 1][..k] == ops[..k];
    AnsweredIs(ShapeRun(s, ops[..k]), ops[k]);
  }

  lemma AnsweredIs(s: State, op: BufferOp)
    requires Sound(s)
    ensures Answered(s, op) == Refused(TooLarge) <==> TooMuch(s, op)
    ensures !TooMuch(s, op) ==> (Shaped(s, op).held, Answered(s, op)) == Model(s.held, op)
  {
  }

  /** So the buffer is a plain sequence of bytes as long as a third of the largest
      size is enough. */
  predicate Modest(held: seq<byte>, ops: seq<BufferOp>) {
    forall k :: 0 <= k < |ops| ==> 3 * (|ModelRun(held, ops[..k]).0| + Demand(ops[k])) <= MAX_SIZE
  }

  lemma {:induction false} ModestFits(s: State, ops: seq<BufferOp>)
    requires Sound(s) && Modest(s.held, ops)
    ensures Fits(s, ops) && ShapeRun(s, ops).held == ModelRun(s.held, ops).0
  {
    if ops != [] {
      var n := |ops| - 1;
      forall k | 0 <= k < n
        ensures ops[..n][..k] == ops[..k]
      {
      }
      ModestFits(s, ops[..n]);
      RefusalBounds(ShapeRun(s, ops[..n]), Demand(ops[n]));
      AnsweredIs(ShapeRun(s, ops[..n]), ops[n]);
    }
  }

  /** But not up to the largest size: 3 * 10^9 bytes are written to an empty buffer and
      10^9 are read from it; then 1.3 * 10^9 more are refused, with which it would hold
      3.3 * 10^9. */
  lemma RefusedExample(a: seq<byte>, b: seq<byte>)
    requires |a| == 3_000_000_000 && |b| == 1_300_000_000
    ensures var s, ops := State([], 0, 0), [WriteOp(a), ReadOp(1_000_000_000)];
            && Fits(s, ops) && TooMuch(ShapeRun(s, ops), WriteOp(b))
            && |ModelRun([], ops + [WriteOp(b)]).0| < MAX_SIZE
  {
    var s, ops := State([], 0, 0), [WriteOp(a), ReadOp(1_000_000_000)];
    assert ops[..1] == [WriteOp(a)] && [WriteOp(a)][..0] == [] && (ops + [WriteOp(b)])[..2] == ops;
    assert ShapeRun(s, [WriteOp(a)]) == State(a, |a|, 0);
    assert ModelRun([], [WriteOp(a)]).0 == a;
    assert ShapeRun(s, ops) == State(a[1_000_000_000..], |a|, 1_000_000_000);
    assert ModelRun([], ops).0 == a[1_000_000_000..];
  }

  // ------------------------------------------------ nothing is lost or invented

  function WrittenBytes(ops: seq<BufferOp>): seq<byte> {
    if ops == [] then []
    else WrittenBytes(ops[..|ops| - 1]) + if ops[|ops| - 1].WriteOp? then ops[|ops| - 1].bytes else []
  }

  function ReadBytes(answers: seq<Answer>): seq<byte> {
    if answers == [] then []
    else
      var last := answers[|answers| - 1];
      ReadBytes(answers[..|answers| - 1]) + if last.Bytes? then last.bytes else []
  }

  /** Without truncation, what was read and what is held is what was there and what was
      written, in that order; and a read takes as much as there is and there is room for. */
  lemma {:induction false} FirstInFirstOut(held: seq<byte>, ops: seq<BufferOp>)
    requires forall k :: 0 <= k < |ops| ==> !ops[k].TruncateOp? && !ops[k].ResetOp?
    ensures var (h, a) := ModelRun(held, ops);
            && ReadBytes(a) + h == held + WrittenBytes(ops) && |a| == |ops|
            && forall k :: 0 <= k < |ops| && ops[k].ReadOp? && a[k].Bytes? ==>
                 |a[k].bytes| <= ops[k].room
  {
    if ops == [] {
      assert [] + held == held + [];
    } else {
      var n := |ops| - 1;
      FirstInFirstOut(held, ops[..n]);
      var (h, a) := ModelRun(held, ops[..n]);
      var (h', a') := Model(h, ops[n]);
      hide ModelRun, Model, ReadBytes, WrittenBytes;
      ModelRunLast(held, ops);
      OneMore(ops, a, a');
      InAndOut(h, ops[n]);
      Joined(ReadBytes(a), h, held, WrittenBytes(ops[..n]), if ops[n].WriteOp? then ops[n].bytes else []);
      Regroup(ReadBytes(a), if a'.Bytes? then a'.bytes else [], h');
    }
  }

  lemma OneMore(ops: seq<BufferOp>, a: seq<Answer>, last: Answer)
    requires ops != []
    ensures var op := ops[|ops| - 1];
            && WrittenBytes(ops) == WrittenBytes(ops[..|ops| - 1]) + (if op.WriteOp? then op.bytes else [])
            && ReadBytes(a + [last]) == ReadBytes(a) + if last.Bytes? then last.bytes else []
  {
    assert (a + [last])[..|a|] == a;
  }

  /** What one operation puts in and takes out. */
  lemma InAndOut(held: seq<byte>, op: BufferOp)
    requires !op.TruncateOp? && !op.ResetOp?
    ensures var (h, a) := Model(held, op);
            && (if a.Bytes? then a.bytes else []) + h == held + (if op.WriteOp? then op.bytes else [])
            && (op.ReadOp? && a.Bytes? ==> |a.bytes| <= op.room)
  {
    assert [] + held == held == held + [];
  }

  lemma ModelRunLast(held: seq<byte>, ops: seq<BufferOp>)
    requires ops != []
    ensures var (h, a) := ModelRun(held, ops[..|ops| - 1]);
            var (h', a') := Model(h, ops[|ops| - 1]);
            ModelRun(held, ops) == (h', a + [a'])
  {
  }

  lemma Joined(a: seq<byte>, b: seq<byte>, c: seq<byte>, d: seq<byte>, e: seq<byte>)
    requires a + b == c + d
    ensures a + (b + e) == c + (d + e)
  {
    Regroup(a, b, e);
    Regroup(c, d, e);
  }

  // ------------------------------------------------ where readFrom goes wrong

  /** A buffer made from 64 KiB, of which one byte is read and all but a thousand are
      then cut off: what is read from elsewhere overwrites the last byte. */
  method Overwritten(bytes: seq<byte>, x: byte) returns (held: seq<byte>)
    requires |bytes| == 65536
    ensures held == bytes[1..1000] + [x] && held != bytes[1..1001] + [x]
  {
    var b := new Buffer.From(bytes);
    var p := new byte[1];
    var _ := b.Read(p);
    var _ := b.Truncate(1000);
    var r := new Reader([[x]]);
    ghost var s := b.View();
    assert s == State(bytes[1..1001], 65536, 1);
    assert Left([[x]], 64536) == [] && Taken([[x]], 64536) == [x];
    assert bytes[1..1001][..999] == bytes[1..1000];
    assert InPlace(s, [x]) == Some(s.(held := bytes[1..1000] + [x]));
    assert Received(s.(held := bytes[1..1000] + [x]), [], 1).All?;
    var _, e := b.ReadFrom(r);
    held := b.Bytes();
  }

  /** With more read away than is left the length becomes negative, and the next view
      of the store is out of range. */
  lemma BrokenExample(held: seq<byte>, x: byte)
    requires |held| == 24576
    ensures Received(State(held, 65536, 40960), [[x]], 0) == Broken
  {
    var s := State(held, 65536, 40960);
    assert Taken([[x]], 40960) == [x] && InPlace(s, [x]) == None;
  }
}
