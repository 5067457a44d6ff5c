/**
 Whole runs of the reorder buffer: what is emitted over any sequence of pushes closed by a flush,
 across any number of wraps of the 16-bit sequence number.
 */
module JitterRuns {
  import opened Bytes
  import opened Jitter

  /** The packets kept so far, in order of arrival, and everything emitted so far. */
  datatype Trace = Trace(view: Option<Buffer>, accepted: seq<Indexed>, emitted: seq<Indexed>)

  ghost function Run(capacity: nat, epoch: int, packets: seq<Packet>): Trace {
    if packets == [] then Trace(None, [], [])
    else Pushed(capacity, epoch, Run(capacity, epoch, packets[..|packets| - 1]), packets[|packets| - 1])
  }

  ghost function Pushed(capacity: nat, epoch: int, t: Trace, p: Packet): Trace {
    var b := Opened(epoch, t.view, p.sequence);
    var i := Unwrap(b.next, p.sequence);
    var (b', out) := PushPacket(capacity, epoch, t.view, p);
    Trace(Some(b'), if i < b.next then t.accepted else t.accepted + [Indexed(i, p.payload)], t.emitted + out)
  }

  /** The payload stored last under each index. */
  function LastPayloads(s: seq<Indexed>): map<int, bytes> {
    if s == [] then map[] else LastPayloads(s[..|s| - 1])[s[|s| - 1].index := s[|s| - 1].payload]
  }

  /** Strictly increasing indices, the last one below `limit`. */
  predicate Rising(s: seq<Indexed>, limit: int) {
    s != [] ==> s[|s| - 1].index < limit && Rising(s[..|s| - 1], s[|s| - 1].index)
  }

  predicate Increasing(s: seq<Indexed>) {
    s != [] ==> Rising(s, s[|s| - 1].index + 1)
  }

  /**
   What a run keeps: emitted indices only rise; whatever is stored lies ahead of them, at most 0x8000
   beyond the awaited index; emitted and stored payloads together are exactly the last payload of
   each accepted index, so nothing accepted is lost, repeated or altered.
   */
  ghost predicate Conserves(b: Buffer, accepted: seq<Indexed>, emitted: seq<Indexed>) {
    Rising(emitted, b.next) &&
    (forall i | i in b.store :: b.next <= i <= b.next + 0x8000) &&
    LastPayloads(accepted) == LastPayloads(emitted) + b.store
  }

  lemma OneMore(s: seq<Indexed>, x: Indexed)
    ensures LastPayloads(s + [x]) == LastPayloads(s)[x.index := x.payload]
    ensures forall limit :: Rising(s, x.index) && x.index < limit ==> Rising(s + [x], limit)
  {
    assert (s + [x])[..|s|] == s;
  }

  lemma {:induction false} RisingBounds(s: seq<Indexed>, limit: int, more: int)
    requires Rising(s, limit) && limit <= more
    ensures Rising(s, more) && forall i | i in LastPayloads(s) :: i < limit
  {
    if s != [] {
      var n := |s| - 1;
      RisingBounds(s[..n], s[n].index, s[n].index);
    }
  }

  lemma {:induction false} RisingMeans(s: seq<Indexed>, limit: int, i: nat, j: nat)
    requires Rising(s, limit) && i < j < |s|
    ensures s[i].index < s[j].index < limit
  {
    var n := |s| - 1;
    if j < n {
      RisingMeans(s[..n], s[n].index, i, j);
    } else if i + 1 < n {
      RisingMeans(s[..n], s[n].index, i, n - 1);
    }
  }

  /** Emitting the awaited payload moves it from the store to the output. */
  lemma EmitKeeps(b: Buffer, accepted: seq<Indexed>, emitted: seq<Indexed>)
    requires Conserves(b, accepted, emitted) && b.next in b.store
    ensures Conserves(Buffer(b.next + 1, b.store - {b.next}), accepted,
                      emitted + [Indexed(b.next, b.store[b.next])])
  {
    OneMore(emitted, Indexed(b.next, b.store[b.next]));
    RisingBounds(emitted, b.next, b.next);
    Moves(LastPayloads(emitted), b.store, b.next);
  }

  lemma {:induction false} DrainKeeps(b: Buffer, accepted: seq<Indexed>, emitted: seq<Indexed>)
    requires Conserves(b, accepted, emitted)
    ensures var (b', out) := Drain(b); Conserves(b', accepted, emitted + out)
    decreases |b.store|
  {
    hide Conserves;
    DrainUnfolds(b);
    if b.next in b.store {
      var first, rest := Indexed(b.next, b.store[b.next]), Buffer(b.next + 1, b.store - {b.next});
      EmitKeeps(b, accepted, emitted);
      DrainKeeps(rest, accepted, emitted + [first]);
      assert emitted + ([first] + Drain(rest).1) == emitted + [first] + Drain(rest).1;
    } else {
      assert emitted + [] == emitted;
    }
  }

  lemma StoreKeeps(b: Buffer, i: int, payload: bytes, accepted: seq<Indexed>, emitted: seq<Indexed>)
    requires Conserves(b, accepted, emitted) && b.next <= i <= b.next + 0x8000
    ensures Conserves(Buffer(b.next, b.store[i := payload]), accepted + [Indexed(i, payload)], emitted)
  {
    OneMore(accepted, Indexed(i, payload));
    assert (LastPayloads(emitted) + b.store)[i := payload] == LastPayloads(emitted) + b.store[i := payload];
  }

  lemma JumpKeeps(b: Buffer, accepted: seq<Indexed>, emitted: seq<Indexed>)
    requires Conserves(b, accepted, emitted) && b.store.Keys != {}
    ensures Conserves(Buffer(Least(b.store.Keys), b.store), accepted, emitted)
  {
    RisingBounds(emitted, b.next, Least(b.store.Keys));
  }

  lemma DrainShrinks(b: Buffer)
    ensures |Drain(b).0.store| + |Drain(b).1| == |b.store|
    decreases |b.store|
  {
    DrainUnfolds(b);
    if b.next in b.store {
      assert (b.store - {b.next}).Keys == b.store.Keys - {b.next};
      DrainShrinks(Buffer(b.next + 1, b.store - {b.next}));
    }
  }

  /** Capacity bounds the buffer after every push, whatever arrives. */
  lemma PushBounds(capacity: nat, b: Buffer, i: int, payload: bytes)
    requires |b.store| <= capacity
    ensures |PushIndexed(capacity, b, i, payload).0.store| <= capacity
  {
    if i >= b.next {
      var b0 := Buffer(b.next, b.store[i := payload]);
      assert b0.store.Keys == b.store.Keys + {i};
      DrainShrinks(b0);
      var b1 := Drain(b0).0;
      if |b1.store| > capacity {
        DrainShrinks(Buffer(Least(b1.store.Keys), b1.store));
        DrainUnfolds(Buffer(Least(b1.store.Keys), b1.store));
      }
    }
  }

  lemma PushKeeps(capacity: nat, b: Buffer, i: int, payload: bytes, accepted: seq<Indexed>, emitted: seq<Indexed>)
    requires Conserves(b, accepted, emitted) && i <= b.next + 0x8000
    ensures var (b', out) := PushIndexed(capacity, b, i, payload);
      Conserves(b', if i < b.next then accepted else accepted + [Indexed(i, payload)], emitted + out)
  {
    hide Conserves, Drain;
    if i < b.next {
      assert emitted + [] == emitted;
    } else {
      var kept := accepted + [Indexed(i, payload)];
      var b0 := Buffer(b.next, b.store[i := payload]);
      StoreKeeps(b, i, payload, accepted, emitted);
      DrainKeeps(b0, kept, emitted);
      var (b1, out1) := Drain(b0);
      if |b1.store| > capacity {
        var b2 := Buffer(Least(b1.store.Keys), b1.store);
        JumpKeeps(b1, kept, emitted + out1);
        DrainKeeps(b2, kept, emitted + out1);
        assert emitted + out1 + Drain(b2).1 == emitted + (out1 + Drain(b2).1);
      }
    }
  }

  /** The invariant of every run of pushes. */
  lemma {:induction false} EveryRunConserves(capacity: nat, epoch: int, packets: seq<Packet>)
    ensures var t := Run(capacity, epoch, packets);
      match t.view
      case None => packets == [] && t.accepted == [] && t.emitted == []
      case Some(b) => Conserves(b, t.accepted, t.emitted) && |b.store| <= capacity && b.next !in b.store
  {
    hide Conserves;
    if packets != [] {
      var n := |packets| - 1;
      var p, t := packets[n], Run(capacity, epoch, packets[..n]);
      EveryRunConserves(capacity, epoch, packets[..n]);
      var b := Opened(epoch, t.view, p.sequence);
      NothingConserves(b.next);
      PushBounds(capacity, b, Unwrap(b.next, p.sequence), p.payload);
      PushKeeps(capacity, b, Unwrap(b.next, p.sequence), p.payload, t.accepted, t.emitted);
      PushLeavesGap(capacity, b, Unwrap(b.next, p.sequence), p.payload);
    }
  }

  lemma NothingConserves(next: int)
    ensures Conserves(Buffer(next, map[]), [], [])
  {
  }

  lemma PushLeavesGap(capacity: nat, b: Buffer, i: int, payload: bytes)
    requires b.next !in b.store
    ensures var b' := PushIndexed(capacity, b, i, payload).0; b'.next !in b'.store
  {
  }

  lemma {:induction false} AscendingRises(store: map<int, bytes>, next: int, emitted: seq<Indexed>)
    requires Rising(emitted, next) && forall i | i in store :: next <= i
    ensures var out := Ascending(store);
      Increasing(emitted + out) &&
      LastPayloads(emitted + out) == LastPayloads(emitted) + store
    decreases |store|
  {
    if store == map[] {
      assert emitted + [] == emitted && LastPayloads(emitted) + store == LastPayloads(emitted);
    } else {
      hide Rising, LastPayloads, Ascending, Increasing;
      assert store.Keys != {};
      var k := Least(store.Keys);
      var x, rest := Indexed(k, store[k]), store - {k};
      assert rest.Keys == store.Keys - {k};
      AscendingUnfolds(store);
      RisingBounds(emitted, next, k);
      OneMore(emitted, x);
      assert Rising(emitted + [x], k + 1);
      AscendingRises(rest, k + 1, emitted + [x]);
      Associate(emitted, [x], Ascending(rest));
      Moves(LastPayloads(emitted), store, k);
    }
  }

  lemma Associate(a: seq<Indexed>, b: seq<Indexed>, c: seq<Indexed>)
    ensures a + (b + c) == a + b + c
  {
  }

  lemma Moves(m: map<int, bytes>, store: map<int, bytes>, k: int)
    requires k in store
    ensures m[k := store[k]] + (store - {k}) == m + store
  {
  }

  /** Everything handed out by the pushes and the flush at the end of stream. */
  ghost function Everything(capacity: nat, epoch: int, packets: seq<Packet>): seq<Indexed> {
    var t := Run(capacity, epoch, packets);
    t.emitted + (if t.view.Some? then Ascending(t.view.value.store) else [])
  }

  /**
   A run closed by a flush hands out each accepted index exactly once, by increasing unwrapped
   index, with the payload stored last under it.
   */
  lemma FlushCompletes(capacity: nat, epoch: int, packets: seq<Packet>)
    ensures var all := Everything(capacity, epoch, packets);
      Increasing(all) &&
      LastPayloads(all) == LastPayloads(Run(capacity, epoch, packets).accepted)
  {
    EveryRunConserves(capacity, epoch, packets);
    var t := Run(capacity, epoch, packets);
    match t.view
    case None =>
      assert t.emitted + [] == [];
    case Some(b) =>
      AscendingRises(b.store, b.next, t.emitted);
  }

  /** Of any two payloads handed out, the earlier has the lower index. */
  lemma EverythingRises(capacity: nat, epoch: int, packets: seq<Packet>, i: nat, j: nat)
    requires i < j < |Everything(capacity, epoch, packets)|
    ensures var all := Everything(capacity, epoch, packets); all[i].index < all[j].index
  {
    FlushCompletes(capacity, epoch, packets);
    var all := Everything(capacity, epoch, packets);
    RisingMeans(all, all[|all| - 1].index + 1, i, j);
  }

  /** The receive loop of src/sandroid/adapters/mrcp/server.py: push every packet, then flush. */
  method Collect(capacity: nat, packets: seq<Packet>, ghost epoch: int) returns (out: seq<bytes>)
    ensures out == Payloads(Everything(capacity, epoch, packets))
  {
    var jitter := new JitterBuffer(capacity, epoch);
    out := [];
    ghost var t := Run(capacity, epoch, []);
    for i := 0 to |packets|
      invariant jitter.Valid() && fresh(jitter) && jitter.capacity == capacity && jitter.epoch == epoch
      invariant t == Run(capacity, epoch, packets[..i]) && jitter.view == t.view && out == Payloads(t.emitted)
    {
      assert packets[..i + 1][..i] == packets[..i];
      var emitted := jitter.Push(packets[i]);
      PayloadsAppend(t.emitted, PushPacket(capacity, epoch, t.view, packets[i]).1);
      out := out + emitted;
      t := Pushed(capacity, epoch, t, packets[i]);
    }
    assert packets[..|packets|] == packets;
    var rest := jitter.Flush();
    PayloadsAppend(t.emitted, if t.view.Some? then Ascending(t.view.value.store) else []);
    out := out + rest;
  }

  // ---------- Bounded reordering ----------

  function Indices(s: seq<Indexed>): set<int> {
    set x | x in s :: x.index
  }

  /** `m` is the first index from `first` on that has not arrived. */
  ghost predicate FirstMissing(first: int, s: seq<Indexed>, m: int) {
    first <= m && m !in Indices(s) && forall i | first <= i < m :: i in Indices(s)
  }

  /** The packets that wait beyond the gap at `m`. */
  function Beyond(s: seq<Indexed>, m: int): set<int> {
    set i | i in Indices(s) && m < i
  }

  /**
   The lowest index arrives first, none arrives twice or more than 0x8000 ahead of the first
   missing one, and at most `capacity` ever wait beyond the gap.
   */
  ghost predicate Tame(capacity: nat, s: seq<Indexed>) {
    s != [] &&
    (forall k | 0 <= k < |s| :: s[0].index <= s[k].index) &&
    (forall j, k | 0 <= j < k < |s| :: s[j].index != s[k].index) &&
    (forall k, m | 0 <= k < |s| && FirstMissing(s[0].index, s[..k], m) :: s[k].index <= m + 0x8000) &&
    (forall k, m | 0 < k <= |s| && FirstMissing(s[0].index, s[..k], m) :: |Beyond(s[..k], m)| <= capacity)
  }

  function Wire(s: seq<Indexed>): seq<Packet> {
    seq(|s|, i requires 0 <= i < |s| => Packet(Mask(s[i].index), s[i].payload))
  }

  /** Consecutive indices from `first` up to `next`. */
  predicate Consecutive(s: seq<Indexed>, first: int, next: int) {
    |s| == next - first && forall j | 0 <= j < |s| :: s[j].index == first + j
  }

  lemma {:induction false} DrainIsConsecutive(b: Buffer)
    ensures var (b', out) := Drain(b); Consecutive(out, b.next, b'.next)
    decreases |b.store|
  {
    DrainUnfolds(b);
    if b.next in b.store {
      var rest := Buffer(b.next + 1, b.store - {b.next});
      DrainIsConsecutive(rest);
      var out, more := Drain(b).1, Drain(rest).1;
      assert forall j | 0 < j < |out| :: out[j] == more[j - 1];
    }
  }

  lemma {:induction false} KeysAreIndices(s: seq<Indexed>)
    ensures LastPayloads(s).Keys == Indices(s)
  {
    if s != [] {
      var n := |s| - 1;
      KeysAreIndices(s[..n]);
      assert Indices(s) == Indices(s[..n]) + {s[n].index} by {
        assert s == s[..n] + [s[n]];
      }
    }
  }

  lemma ConsecutiveIndices(s: seq<Indexed>, first: int, next: int)
    requires Consecutive(s, first, next)
    ensures forall i :: i in Indices(s) <==> first <= i < next
  {
    forall i | first <= i < next
      ensures i in Indices(s)
    {
      assert s[i - first] in s;
    }
  }

  /** After some tame arrivals the awaited index is the first missing one and the rest is waiting. */
  ghost predicate OnTrack(first: int, s: seq<Indexed>, t: Trace) {
    t.view.Some? && t.accepted == s &&
    var b := t.view.value;
    Conserves(b, s, t.emitted) && Consecutive(t.emitted, first, b.next) && first <= b.next && b.next !in b.store
  }

  /** On track, the awaited index is the first missing one and the store holds exactly what waits beyond it. */
  lemma OnTrackMeans(first: int, s: seq<Indexed>, b: Buffer, emitted: seq<Indexed>)
    requires Conserves(b, s, emitted) && Consecutive(emitted, first, b.next) && first <= b.next
    ensures forall i :: i in Indices(s) <==> first <= i < b.next || i in b.store
    ensures b.next !in b.store ==> FirstMissing(first, s, b.next) && Beyond(s, b.next) == b.store.Keys
  {
    KeysAreIndices(s);
    KeysAreIndices(emitted);
    ConsecutiveIndices(emitted, first, b.next);
    assert (LastPayloads(emitted) + b.store).Keys == Indices(emitted) + b.store.Keys;
  }

  lemma OnTrackStep(capacity: nat, first: int, s: seq<Indexed>, x: Indexed, b: Buffer, emitted: seq<Indexed>)
    requires Conserves(b, s, emitted) && Consecutive(emitted, first, b.next) && first <= b.next
    requires b.next <= x.index <= b.next + 0x8000
    requires forall m | FirstMissing(first, s + [x], m) :: |Beyond(s + [x], m)| <= capacity
    ensures var (b', out) := PushIndexed(capacity, b, x.index, x.payload);
      Conserves(b', s + [x], emitted + out) && Consecutive(emitted + out, first, b'.next) &&
      first <= b'.next && b'.next !in b'.store
  {
    hide Conserves, Drain, FirstMissing, Beyond;
    var b0 := Buffer(b.next, b.store[x.index := x.payload]);
    StoreKeeps(b, x.index, x.payload, s, emitted);
    DrainKeeps(b0, s + [x], emitted);
    DrainIsConsecutive(b0);
    var (b1, out) := Drain(b0);
    OnTrackMeans(first, s + [x], b1, emitted + out);
    assert |b1.store| == |b1.store.Keys|;
  }

  lemma UnwrapsExactly(next: int, i: int)
    requires next <= i <= next + 0x8000
    ensures Unwrap(next, Mask(i)) == i
  {
    UnwrapInverts(next, i);
  }

  lemma {:induction false} TameStaysOnTrack(capacity: nat, s: seq<Indexed>, k: nat)
    requires Tame(capacity, s) && 0 < k <= |s|
    ensures OnTrack(s[0].index, s[..k], Run(capacity, s[0].index / 65536, Wire(s)[..k]))
  {
    var first, epoch := s[0].index, s[0].index / 65536;
    WirePrefix(s, k);
    if k == 1 {
      FirstArrival(capacity, s, Wire(s)[..1]);
    } else {
      TameStaysOnTrack(capacity, s, k - 1);
      NextArrival(capacity, s, k - 1, Run(capacity, epoch, Wire(s)[..k - 1]));
    }
  }

  lemma WirePrefix(s: seq<Indexed>, k: nat)
    requires 0 < k <= |s|
    ensures Wire(s)[..k][..k - 1] == Wire(s)[..k - 1] && Wire(s)[..k][k - 1] == Packet(Mask(s[k - 1].index), s[k - 1].payload)
    ensures s[..k] == s[..k - 1] + [s[k - 1]]
  {
  }

  lemma FirstArrival(capacity: nat, s: seq<Indexed>, packets: seq<Packet>)
    requires Tame(capacity, s) && packets == [Packet(Mask(s[0].index), s[0].payload)]
    ensures OnTrack(s[0].index, s[..1], Run(capacity, s[0].index / 65536, packets))
  {
    var first, epoch, x := s[0].index, s[0].index / 65536, s[0];
    assert packets[..0] == [];
    assert Opened(epoch, None, packets[0].sequence) == Buffer(first, map[]);
    NothingConserves(first);
    assert s[..1] == [x] == [] + [x];
    UnwrapsExactly(first, first);
    OnTrackStep(capacity, first, [], x, Buffer(first, map[]), []);
    assert [] + PushIndexed(capacity, Buffer(first, map[]), first, x.payload).1
        == PushIndexed(capacity, Buffer(first, map[]), first, x.payload).1;
  }

  lemma NextArrival(capacity: nat, s: seq<Indexed>, k: nat, t: Trace)
    requires Tame(capacity, s) && 0 < k < |s| && OnTrack(s[0].index, s[..k], t)
    ensures OnTrack(s[0].index, s[..k] + [s[k]],
                    Pushed(capacity, s[0].index / 65536, t, Packet(Mask(s[k].index), s[k].payload)))
  {
    hide Conserves, PushIndexed, Unwrap, Mask, Consecutive;
    var first, x, b := s[0].index, s[k], t.view.value;
    assert s[..k + 1] == s[..k] + [x];
    OnTrackMeans(first, s[..k], b, t.emitted);
    assert x.index !in Indices(s[..k]);
    UnwrapsExactly(b.next, x.index);
    OnTrackStep(capacity, first, s[..k], x, b, t.emitted);
  }

  /** The indices of `s` are exactly a range starting at the first arrival. */
  ghost predicate FillsRange(s: seq<Indexed>) {
    s != [] && forall i :: i in Indices(s) <==> s[0].index <= i < s[0].index + |s|
  }

  /**
   Tame arrivals that fill a range leave in index order, every one of them and nothing else, from
   the pushes alone: nothing is dropped and nothing waits for the flush.
   */
  lemma TameArrivalsAllLeaveInOrder(capacity: nat, s: seq<Indexed>)
    requires Tame(capacity, s) && FillsRange(s)
    ensures var t := Run(capacity, s[0].index / 65536, Wire(s));
      t.view.Some? && t.view.value.store == map[] &&
      Consecutive(t.emitted, s[0].index, s[0].index + |s|) &&
      LastPayloads(t.emitted) == LastPayloads(s)
  {
    hide LastPayloads, Run, Beyond, FirstMissing, Rising, FillsRange;
    TameStaysOnTrack(capacity, s, |s|);
    assert s[..|s|] == s && Wire(s)[..|s|] == Wire(s);
    var t := Run(capacity, s[0].index / 65536, Wire(s));
    NothingIsLeft(s, t.view.value, t.emitted);
    assert LastPayloads(t.emitted) + map[] == LastPayloads(t.emitted);
  }

  lemma NothingIsLeft(s: seq<Indexed>, b: Buffer, emitted: seq<Indexed>)
    requires FillsRange(s) && Conserves(b, s, emitted) && Consecutive(emitted, s[0].index, b.next)
    requires s[0].index <= b.next && b.next !in b.store
    ensures b.next == s[0].index + |s| && b.store == map[]
  {
    hide LastPayloads, Beyond, FirstMissing, Rising;
    OnTrackMeans(s[0].index, s, b, emitted);
    assert b.next !in Indices(s) && s[0].index + |s| !in Indices(s);
    assert forall i :: i in b.store ==> i in Indices(s) && i > b.next;
    assert b.store.Keys == {};
  }
}
