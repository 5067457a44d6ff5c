/**
 The reorder buffer for RTP packets (src/sandroid/adapters/mrcp/rtp.py).

 Sequence numbers wrap at 65536 (section 5.1 of RFC 3550). The class works on wrapped numbers only;
 it is proved against a buffer over unbounded indices, where "before" is simply `<`.
 */
module Jitter {
  import opened Bytes

  type u16 = x: int | 0 <= x < 65536

  datatype Packet = Packet(sequence: u16, payload: bytes)

  /** A payload under its unwrapped index. */
  datatype Indexed = Indexed(index: int, payload: bytes)

  function Mask(x: int): u16 {
    x % 65536
  }

  /** The serial-number comparison of section 3.2 of RFC 1982, as the source writes it. */
  predicate SeqLess(a: u16, b: u16) {
    Mask(a - b) > 0x8000
  }

  function SeqDistance(base: u16, s: u16): (d: u16)
    ensures d == if s >= base then s - base else s - base + 65536
  {
    Mask(s - base)
  }

  lemma WrappedDistance(a: int, i: int)
    requires a <= i < a + 65536
    ensures SeqDistance(Mask(a), Mask(i)) == i - a
  {
  }

  lemma MaskNext(i: int)
    ensures Mask(Mask(i) + 1) == Mask(i + 1)
  {
  }

  // ---------- The unbounded buffer ----------

  datatype Buffer = Buffer(next: int, store: map<int, bytes>)

  /** The index meant by `s` when `next` is awaited: the one nearest to `next`, ties going forward. */
  function Unwrap(next: int, s: u16): (i: int)
    ensures Mask(i) == s && next - 0x8000 < i <= next + 0x8000
  {
    var d := SeqDistance(Mask(next), s);
    if d <= 0x8000 then next + d else next + d - 65536
  }

  lemma UnwrapInverts(next: int, i: int)
    requires next - 0x8000 < i <= next + 0x8000
    ensures Unwrap(next, Mask(i)) == i
  {
  }

  lemma LessMeansBehind(next: int, s: u16)
    ensures SeqLess(s, Mask(next)) <==> Unwrap(next, s) < next
  {
  }

  /** Hands out the run of stored payloads that starts at `next`. */
  function Drain(b: Buffer): (r: (Buffer, seq<Indexed>))
    ensures r.0.next !in r.0.store && r.0.next == b.next + |r.1| && r.0.store.Keys <= b.store.Keys
    decreases |b.store|
  {
    if b.next in b.store then
      var (b', out) := Drain(Buffer(b.next + 1, b.store - {b.next}));
      (b', [Indexed(b.next, b.store[b.next])] + out)
    else
      (b, [])
  }

  ghost predicate IsLeast(k: int, keys: set<int>) {
    k in keys && forall j | j in keys :: k <= j
  }

  lemma {:induction false} LeastExists(keys: set<int>) returns (k: int)
    requires keys != {}
    ensures IsLeast(k, keys)
    decreases |keys|
  {
    assert (forall i: int :: i !in keys) ==> keys == {};
    var x: int :| x in keys;
    k := x;
    if j :| j in keys && j < x {
      assert j in keys - {x};
      k := LeastExists(keys - {x});
      assert forall i | i in keys :: i == x || i in keys - {x};
    }
  }

  ghost function Least(keys: set<int>): (k: int)
    requires keys != {}
    ensures IsLeast(k, keys)
  {
    assert exists k :: IsLeast(k, keys) by { var k := LeastExists(keys); assert IsLeast(k, keys); }
    var k :| IsLeast(k, keys);
    k
  }

  /** One packet with index `i`. A buffer that stays over capacity gives up on its gap. */
  ghost function PushIndexed(capacity: nat, b: Buffer, i: int, payload: bytes): (Buffer, seq<Indexed>) {
    if i < b.next then (b, [])
    else
      var (b1, out1) := Drain(Buffer(b.next, b.store[i := payload]));
      if |b1.store| > capacity then
        var (b2, out2) := Drain(Buffer(Least(b1.store.Keys), b1.store));
        (b2, out1 + out2)
      else
        (b1, out1)
  }

  /** Everything stored, by increasing index. */
  ghost function Ascending(store: map<int, bytes>): seq<Indexed>
    decreases |store|
  {
    if store == map[] then []
    else
      assert store.Keys != {};
      var k := Least(store.Keys);
      [Indexed(k, store[k])] + Ascending(store - {k})
  }

  function Payloads(s: seq<Indexed>): seq<bytes> {
    seq(|s|, i requires 0 <= i < |s| => s[i].payload)
  }

  lemma PayloadsAppend(a: seq<Indexed>, b: seq<Indexed>)
    ensures Payloads(a + b) == Payloads(a) + Payloads(b)
  {
  }

  lemma DrainUnfolds(b: Buffer)
    ensures b.next in b.store ==>
      var (b', out) := Drain(Buffer(b.next + 1, b.store - {b.next}));
      Drain(b) == (b', [Indexed(b.next, b.store[b.next])] + out)
    ensures b.next !in b.store ==> Drain(b) == (b, [])
  {
  }

  /** Draining `b0` has produced `done` so far and `b` is what is left of it. */
  ghost predicate HasDrained(b0: Buffer, done: seq<Indexed>, b: Buffer) {
    Drain(b0).0 == Drain(b).0 && Drain(b0).1 == done + Drain(b).1
  }

  lemma HasDrainedNothing(b: Buffer)
    ensures HasDrained(b, [], b) && Payloads([]) == []
  {
    assert [] + Drain(b).1 == Drain(b).1;
  }

  lemma HasDrainedOneMore(b0: Buffer, done: seq<Indexed>, b: Buffer)
    requires HasDrained(b0, done, b) && b.next in b.store
    ensures var first := Indexed(b.next, b.store[b.next]);
      HasDrained(b0, done + [first], Buffer(b.next + 1, b.store - {b.next})) &&
      Payloads(done + [first]) == Payloads(done) + [first.payload]
  {
    var first := Indexed(b.next, b.store[b.next]);
    DrainUnfolds(b);
    var rest := Drain(Buffer(b.next + 1, b.store - {b.next})).1;
    assert done + ([first] + rest) == (done + [first]) + rest;
    assert Payloads([first]) == [first.payload];
    PayloadsAppend(done, [first]);
  }

  lemma HasDrainedAll(b0: Buffer, done: seq<Indexed>, b: Buffer)
    requires HasDrained(b0, done, b) && b.next !in b.store
    ensures Drain(b0) == (b, done)
  {
    DrainUnfolds(b);
    assert done + [] == done;
  }

  lemma Shrinks(m: map<u16, bytes>, k: u16)
    requires k in m
    ensures |m - {k}| < |m|
  {
    assert (m - {k}).Keys == m.Keys - {k};
  }

  // ---------- The class ----------

  /** `wrapped` is `b.store` with every index reduced to 16 bits, all of them at most 0x8000 ahead. */
  ghost predicate Mirrors(wrapped: map<u16, bytes>, b: Buffer) {
    |wrapped| == |b.store| &&
    (forall i | i in b.store :: b.next <= i <= b.next + 0x8000) &&
    (forall i | i in b.store :: Mask(i) in wrapped && wrapped[Mask(i)] == b.store[i]) &&
    (forall s {:trigger Unwrap(b.next, s)} | s in wrapped :: Unwrap(b.next, s) in b.store)
  }

  predicate IsNearest(k: u16, base: u16, keys: set<u16>) {
    k in keys && forall j | j in keys :: SeqDistance(base, k) <= SeqDistance(base, j)
  }

  lemma {:induction false} NearestExists(base: u16, keys: set<u16>)
    requires keys != {}
    ensures exists k :: IsNearest(k, base, keys)
    decreases |keys|
  {
    var x :| x in keys;
    if keys == {x} {
      assert IsNearest(x, base, keys);
    } else {
      NearestExists(base, keys - {x});
      var k :| IsNearest(k, base, keys - {x});
      assert IsNearest(if SeqDistance(base, x) < SeqDistance(base, k) then x else k, base, keys);
    }
  }

  /** `min(keys, key=distance from base)`. */
  function Nearest(base: u16, keys: set<u16>): (k: u16)
    requires keys != {}
    ensures IsNearest(k, base, keys)
  {
    NearestExists(base, keys);
    var k :| k in keys && IsNearest(k, base, keys);
    k
  }

  /** `sorted(keys, key=distance from base)`. */
  function SortedByDistance(base: u16, keys: set<u16>): (r: seq<u16>)
    ensures forall k :: k in r <==> k in keys
    decreases |keys|
  {
    if keys == {} then []
    else
      var k := Nearest(base, keys);
      [k] + SortedByDistance(base, keys - {k})
  }

  lemma NothingMirrors(epoch: int, s: u16)
    ensures Mask(epoch * 65536 + s) == s && Mirrors(map[], Buffer(epoch * 65536 + s, map[]))
  {
  }

  lemma EmptyAscends()
    ensures Ascending(map[]) == []
  {
  }

  lemma SameSize(wrapped: map<u16, bytes>, b: Buffer)
    requires Mirrors(wrapped, b)
    ensures |wrapped| == |b.store| && (|wrapped| > 0 ==> b.store != map[])
  {
  }

  lemma SizeAfter<K, V>(m: map<K, V>, k: K, v: V)
    ensures |m[k := v]| == if k in m then |m| else |m| + 1
  {
    assert m[k := v].Keys == m.Keys + {k};
  }

  lemma StoreSizes(wrapped: map<u16, bytes>, b: Buffer, s: u16, payload: bytes)
    requires Mirrors(wrapped, b) && Unwrap(b.next, s) >= b.next
    ensures |wrapped[s := payload]| == |b.store[Unwrap(b.next, s) := payload]|
  {
    hide Mask, SeqDistance;
    SizeAfter(wrapped, s, payload);
    SizeAfter(b.store, Unwrap(b.next, s), payload);
    assert Unwrap(b.next, s) in b.store ==> Mask(Unwrap(b.next, s)) in wrapped;
  }

  lemma StoreMirrors(wrapped: map<u16, bytes>, b: Buffer, s: u16, payload: bytes)
    requires Mirrors(wrapped, b) && Unwrap(b.next, s) >= b.next
    ensures Mirrors(wrapped[s := payload], Buffer(b.next, b.store[Unwrap(b.next, s) := payload]))
  {
    hide Mask, Unwrap, SeqDistance;
    StoreSizes(wrapped, b, s, payload);
    var i := Unwrap(b.next, s);
    var store' := b.store[i := payload];
    forall j | j in store' && j != i
      ensures Mask(j) != s
    {
      UnwrapInverts(b.next, j);
    }
  }

  lemma TakeMirrors(wrapped: map<u16, bytes>, b: Buffer)
    requires Mirrors(wrapped, b)
    ensures Mask(b.next) in wrapped <==> b.next in b.store
    ensures b.next in b.store ==>
      wrapped[Mask(b.next)] == b.store[b.next] &&
      Mirrors(wrapped - {Mask(b.next)}, Buffer(b.next + 1, b.store - {b.next}))
  {
    hide Mask, Unwrap, SeqDistance;
    UnwrapInverts(b.next, b.next);
    if b.next in b.store {
      var n := Mask(b.next);
      assert (wrapped - {n}).Keys == wrapped.Keys - {n};
      assert (b.store - {b.next}).Keys == b.store.Keys - {b.next};
      forall j | j in b.store && j != b.next
        ensures Mask(j) != n && b.next + 1 <= j
      {
        UnwrapInverts(b.next, j);
      }
      forall s | s in wrapped && s != n
        ensures Unwrap(b.next + 1, s) in b.store - {b.next}
      {
        UnwrapInverts(b.next + 1, Unwrap(b.next, s));
      }
    }
  }

  lemma JumpMirrors(wrapped: map<u16, bytes>, b: Buffer)
    requires Mirrors(wrapped, b) && b.store != map[]
    ensures wrapped.Keys != {} && b.store.Keys != {}
    ensures var k := Least(b.store.Keys);
      Nearest(Mask(b.next), wrapped.Keys) == Mask(k) && Mirrors(wrapped, Buffer(k, b.store))
  {
    hide Mask, SeqDistance;
    assert b.store.Keys != {} && wrapped != map[];
    var k, base := Least(b.store.Keys), Mask(b.next);
    var s := Nearest(base, wrapped.Keys);
    assert Mask(k) in wrapped && k in b.store;
    var j := Unwrap(b.next, s);
    assert j in b.store && k <= j;
    WrappedDistance(b.next, k);
    WrappedDistance(b.next, j);
    forall t | t in wrapped
      ensures Unwrap(k, t) in b.store
    {
      UnwrapInverts(k, Unwrap(b.next, t));
    }
  }

  class JitterBuffer {
    const capacity: nat
    var buffered: map<u16, bytes>
    var nextSeq: Option<u16>

    /** Chosen once: the first packet gets the index `epoch * 65536 + sequence`. The code never looks at it. */
    ghost const epoch: int
    ghost var view: Option<Buffer>

    ghost predicate Valid()
      reads this
    {
      match view
      case None => nextSeq == None && buffered == map[]
      case Some(b) => nextSeq == Some(Mask(b.next)) && Mirrors(buffered, b)
    }

    constructor (capacity: nat, ghost epoch: int)
      ensures Valid() && view == None && this.capacity == capacity && this.epoch == epoch
    {
      this.capacity := capacity;
      this.epoch := epoch;
      buffered, nextSeq, view := map[], None, None;
    }

    method Push(packet: Packet) returns (emitted: seq<bytes>)
      requires Valid()
      modifies this
      ensures Valid() && view.Some?
      ensures var (b, out) := PushPacket(capacity, epoch, old(view), packet);
        view == Some(b) && emitted == Payloads(out)
    {
      hide Mask, SeqDistance, Drain, Mirrors;
      if nextSeq == None {
        nextSeq := Some(packet.sequence);
        view := Some(Opened(epoch, view, packet.sequence));
        NothingMirrors(epoch, packet.sequence);
      }
      ghost var b := view.value;
      ghost var i := Unwrap(b.next, packet.sequence);
      LessMeansBehind(b.next, packet.sequence);
      if SeqLess(packet.sequence, nextSeq.value) {
        assert PushIndexed(capacity, b, i, packet.payload) == (b, []);
        return [];
      }
      StoreMirrors(buffered, b, packet.sequence, packet.payload);
      buffered := buffered[packet.sequence := packet.payload];
      view := Some(Buffer(b.next, b.store[i := packet.payload]));
      emitted := DrainRun();
      ghost var b1 := view.value;
      SameSize(buffered, b1);
      if |buffered| > capacity {
        JumpMirrors(buffered, b1);
        var nearest := Nearest(nextSeq.value, buffered.Keys);
        nextSeq := Some(nearest);
        view := Some(Buffer(Least(b1.store.Keys), b1.store));
        var more := DrainRun();
        emitted := emitted + more;
        PayloadsAppend(Drain(Buffer(b.next, b.store[i := packet.payload])).1,
                       Drain(Buffer(Least(b1.store.Keys), b1.store)).1);
      }
    }

    /** The two drain loops of `Push`. */
    method DrainRun() returns (emitted: seq<bytes>)
      requires Valid() && view.Some?
      modifies this
      ensures Valid()
      ensures var (b, out) := Drain(old(view.value)); view == Some(b) && emitted == Payloads(out)
    {
      hide Mask, SeqDistance, Unwrap, Mirrors, Drain, Payloads, HasDrained;
      emitted := [];
      ghost var b0, b, done := view.value, view.value, [];
      HasDrainedNothing(b0);
      while nextSeq.value in buffered
        invariant Valid() && view == Some(b) && emitted == Payloads(done) && HasDrained(b0, done, b)
        decreases |buffered|
      {
        TakeMirrors(buffered, b);
        MaskNext(b.next);
        HasDrainedOneMore(b0, done, b);
        done := done + [Indexed(b.next, b.store[b.next])];
        b := Buffer(b.next + 1, b.store - {b.next});
        emitted := emitted + [buffered[nextSeq.value]];
        Shrinks(buffered, nextSeq.value);
        buffered := buffered - {nextSeq.value};
        nextSeq := Some(Mask(nextSeq.value + 1));
        view := Some(b);
      }
      TakeMirrors(buffered, b);
      HasDrainedAll(b0, done, b);
    }

    method Flush() returns (emitted: seq<bytes>)
      requires Valid()
      modifies this
      ensures Valid()
      ensures match old(view)
        case None => view == None && emitted == []
        case Some(b) => view == Some(Buffer(b.next, map[])) && emitted == Payloads(Ascending(b.store))
    {
      hide Mask, SeqDistance, Unwrap, Ascending, SortedByDistance;
      if buffered == map[] {
        EmptyAscends();
        if view.Some? {
          assert view.value.store == map[];
        }
        return [];
      }
      var base := if nextSeq == None then 0 else nextSeq.value;
      var orderedKeys := SortedByDistance(base, buffered.Keys);
      SortedIsAscending(buffered, view.value);
      var held := buffered;
      emitted := seq(|orderedKeys|, i requires 0 <= i < |orderedKeys| && orderedKeys[i] in held => held[orderedKeys[i]]);
      buffered := map[];
      view := Some(Buffer(view.value.next, map[]));
    }
  }

  function Opened(epoch: int, view: Option<Buffer>, s: u16): Buffer {
    match view
    case None => Buffer(epoch * 65536 + s, map[])
    case Some(b) => b
  }

  /** What one call of `push` does, in unbounded indices. */
  ghost function PushPacket(capacity: nat, epoch: int, view: Option<Buffer>, packet: Packet): (Buffer, seq<Indexed>) {
    var b := Opened(epoch, view, packet.sequence);
    PushIndexed(capacity, b, Unwrap(b.next, packet.sequence), packet.payload)
  }

  lemma RemoveMirrors(wrapped: map<u16, bytes>, b: Buffer, k: int)
    requires Mirrors(wrapped, b) && k in b.store
    ensures Mirrors(wrapped - {Mask(k)}, Buffer(b.next, b.store - {k}))
    ensures (wrapped - {Mask(k)}).Keys == wrapped.Keys - {Mask(k)} && (b.store - {k}).Keys == b.store.Keys - {k}
  {
    hide Mask, Unwrap, SeqDistance;
    UnwrapInverts(b.next, k);
    assert (wrapped - {Mask(k)}).Keys == wrapped.Keys - {Mask(k)};
    assert (b.store - {k}).Keys == b.store.Keys - {k};
    forall j | j in b.store && j != k
      ensures Mask(j) != Mask(k)
    {
      UnwrapInverts(b.next, j);
    }
  }

  lemma SortedUnfolds(base: u16, wrapped: map<u16, bytes>)
    requires wrapped.Keys != {}
    ensures var k := Nearest(base, wrapped.Keys);
      SortedByDistance(base, wrapped.Keys) == [k] + SortedByDistance(base, (wrapped - {k}).Keys)
  {
    var k := Nearest(base, wrapped.Keys);
    assert (wrapped - {k}).Keys == wrapped.Keys - {k};
  }

  lemma AscendingUnfolds(store: map<int, bytes>)
    requires store.Keys != {}
    ensures var k := Least(store.Keys); Ascending(store) == [Indexed(k, store[k])] + Ascending(store - {k})
  {
  }

  /** Looking the keys up in the order of their distance lists the store by index. */
  lemma {:induction false} SortedIsAscending(wrapped: map<u16, bytes>, b: Buffer)
    requires Mirrors(wrapped, b)
    ensures var keys := SortedByDistance(Mask(b.next), wrapped.Keys); var all := Ascending(b.store);
      |keys| == |all| && forall i | 0 <= i < |keys| :: keys[i] in wrapped && wrapped[keys[i]] == all[i].payload
    decreases |wrapped|
  {
    SameSize(wrapped, b);
    if b.store == map[] {
      assert wrapped == map[];
    } else {
      hide Mask, SeqDistance, Unwrap, Mirrors, SortedByDistance, Ascending, Nearest, Least, IsNearest, IsLeast;
      JumpMirrors(wrapped, b);
      var k := Least(b.store.Keys);
      RemoveMirrors(wrapped, b, k);
      SortedUnfolds(Mask(b.next), wrapped);
      AscendingUnfolds(b.store);
      KeyIsMirrored(wrapped, b, k);
      SortedIsAscending(wrapped - {Mask(k)}, Buffer(b.next, b.store - {k}));
      var keys, restKeys := SortedByDistance(Mask(b.next), wrapped.Keys), SortedByDistance(Mask(b.next), (wrapped - {Mask(k)}).Keys);
      var all, rest := Ascending(b.store), Ascending(b.store - {k});
      forall i | 0 <= i < |keys|
        ensures keys[i] in wrapped && wrapped[keys[i]] == all[i].payload
      {
        assert i > 0 ==> keys[i] == restKeys[i - 1] && all[i] == rest[i - 1];
      }
    }
  }

  lemma KeyIsMirrored(wrapped: map<u16, bytes>, b: Buffer, k: int)
    requires Mirrors(wrapped, b) && k in b.store
    ensures Mask(k) in wrapped && wrapped[Mask(k)] == b.store[k]
  {
  }
}
