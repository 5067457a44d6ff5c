/**
 The walks of a search: the lists used in `Scope` contain every walk, each once, in depth-first
 order; and a a walk is taken exactly as far as the modes of its nodes allow.
 */
module ScopeWalks {
  import opened Bytes
  import opened Scene
  import opened Scope

  // ---------- Completeness ----------

  lemma InPrefixed(s: Step, walks: seq<Walk>, p: Walk)
    ensures p in Prefixed(s, walks) <==> p != [] && p[0] == s && p[1..] in walks
  {
    if p != [] && p[0] == s && p[1..] in walks {
      var i :| 0 <= i < |walks| && walks[i] == p[1..];
      assert Prefixed(s, walks)[i] == p;
    }
    if p in Prefixed(s, walks) {
      var i :| 0 <= i < |walks| && Prefixed(s, walks)[i] == p;
      assert p[1..] == walks[i];
    }
  }

  lemma {:induction false} WalksAreComplete(t: Tree, rank: Ranking, id: Id, b: Budget, limit: nat, p: Walk)
    requires Ready(t, rank, id, b, limit)
    ensures p in Walks(t, rank, id, b, limit) <==> Follows(t, id, b, p)
    decreases limit, Height(t, id), 1, 0
  {
    hide Accepted, Ranked, Confined, Height, KidsReady, KidWalks;
    var c := t.categories[id];
    if p != [] && Live(b) {
      ReadyBelow(t, rank, id, b, limit);
      if c.Bits().allowPenetration {
        KidWalksAreComplete(t, rank, id, Spent(b), limit, |c.childIds|, p);
      }
      if Drags(c) {
        var e := c.extendsEnum.value;
        InPrefixed(Jump, Walks(t, rank, e, None, rank[e]), p);
        WalksAreComplete(t, rank, e, None, rank[e], p[1..]);
      }
    }
  }

  lemma {:induction false} KidWalksAreComplete(
    t: Tree, rank: Ranking, id: Id, b: Budget, limit: nat, n: nat, p: Walk)
    requires id in t.categories && KidsReady(t, rank, id, b, limit) && n <= |t.categories[id].childIds|
    ensures p in KidWalks(t, rank, id, b, limit, n) <==>
      p != [] && p[0].Down? && p[0].index < n && Follows(t, t.categories[id].childIds[p[0].index], b, p[1..])
    decreases limit, Height(t, id), 0, n
  {
    hide Accepted, Ranked, Confined, Height, Walks, Follows, Ready, KidsReady;
    if n > 0 {
      KidReady(t, rank, id, b, limit, n - 1);
      var kid := t.categories[id].childIds[n - 1];
      KidWalksAreComplete(t, rank, id, b, limit, n - 1, p);
      InPrefixed(Down(n - 1), Walks(t, rank, kid, b, limit), p);
      if p != [] {
        WalksAreComplete(t, rank, kid, b, limit, p[1..]);
      }
    }
  }

  /** The list behind a scene's pool contains exactly the walks a search takes. */
  lemma SceneWalksAreComplete(t: Tree, rank: Ranking, top: nat, scene: Id, p: Walk)
    requires Accepted(t) && SceneRanked(t, rank, top, scene)
    ensures p in SceneWalks(t, rank, top, scene) <==> SceneFollows(t, scene, p)
  {
    hide Accepted, Confined, KidsReady, Walks, Follows, KidWalks;
    var c := t.categories[scene];
    if p != [] {
      if c.Bits().searchesDown {
        KidWalksAreComplete(t, rank, scene, InitialDepth(c.Bits().searchDepth), top, |c.childIds|, p);
      }
      if c.extendsEnum.Some? {
        var e := c.extendsEnum.value;
        InPrefixed(Jump, Walks(t, rank, e, None, rank[e]), p);
        WalksAreComplete(t, rank, e, None, rank[e], p[1..]);
      }
    }
  }

  // ---------- Order ----------

  lemma PrefixedInOrder(s: Step, walks: seq<Walk>)
    requires InDepthFirstOrder(walks)
    ensures InDepthFirstOrder(Prefixed(s, walks))
  {
    var all := Prefixed(s, walks);
    forall i, j | 0 <= i < j < |all|
      ensures Before(all[i], all[j])
    {
      assert all[i][1..] == walks[i] && all[j][1..] == walks[j];
    }
  }

  lemma AppendInOrder(a: seq<Walk>, b: seq<Walk>)
    requires InDepthFirstOrder(a) && InDepthFirstOrder(b)
    requires forall p, q | p in a && q in b :: Before(p, q)
    ensures InDepthFirstOrder(a + b)
  {
    forall i, j | 0 <= i < j < |a + b|
      ensures Before((a + b)[i], (a + b)[j])
    {
      if i < |a| <= j {
        assert a[i] in a && b[j - |a|] in b;
      }
    }
  }

  /** Every walk in the list starts by going down to one of the first `n` children. */
  ghost predicate StartsBelow(walks: seq<Walk>, n: nat) {
    forall p: Walk | p in walks :: p != [] && p[0].Down? && p[0].index < n
  }

  lemma AppendKid(walks: seq<Walk>, kid: seq<Walk>, n: nat)
    requires InDepthFirstOrder(walks) && StartsBelow(walks, n) && InDepthFirstOrder(kid)
    ensures InDepthFirstOrder(walks + Prefixed(Down(n), kid)) && StartsBelow(walks + Prefixed(Down(n), kid), n + 1)
  {
    PrefixedInOrder(Down(n), kid);
    forall q | q in Prefixed(Down(n), kid)
      ensures q != [] && q[0] == Down(n)
    {
      InPrefixed(Down(n), kid, q);
    }
    AppendInOrder(walks, Prefixed(Down(n), kid));
  }

  /** A node, then its children, then its ENUM. */
  lemma AssembleInOrder(kids: seq<Walk>, n: nat, across: seq<Walk>)
    requires InDepthFirstOrder(kids) && StartsBelow(kids, n) && InDepthFirstOrder(across)
    ensures InDepthFirstOrder([[]] + kids + Prefixed(Jump, across)) && InDepthFirstOrder([[]] + kids)
  {
    var self: seq<Walk> := [[]];
    assert InDepthFirstOrder(self);
    AppendInOrder(self, kids);
    PrefixedInOrder(Jump, across);
    forall p, q | p in self + kids && q in Prefixed(Jump, across)
      ensures Before(p, q)
    {
      InPrefixed(Jump, across, q);
    }
    AppendInOrder(self + kids, Prefixed(Jump, across));
  }

  lemma {:induction false} WalksAreOrdered(t: Tree, rank: Ranking, id: Id, b: Budget, limit: nat)
    requires Ready(t, rank, id, b, limit)
    ensures InDepthFirstOrder(Walks(t, rank, id, b, limit))
    decreases limit, Height(t, id), 1, 0
  {
    hide Accepted, Ranked, Confined, Height, KidsReady, KidWalks, InDepthFirstOrder, StartsBelow;
    NothingInOrder();
    var c := t.categories[id];
    if Live(b) {
      ReadyBelow(t, rank, id, b, limit);
      var kids: seq<Walk> := [];
      if c.Bits().allowPenetration {
        KidWalksAreOrdered(t, rank, id, Spent(b), limit, |c.childIds|);
        kids := KidWalks(t, rank, id, Spent(b), limit, |c.childIds|);
      }
      var across: seq<Walk> := [];
      if Drags(c) {
        var e := c.extendsEnum.value;
        WalksAreOrdered(t, rank, e, None, rank[e]);
        across := Walks(t, rank, e, None, rank[e]);
      }
      AssembleInOrder(kids, |c.childIds|, across);
      assert [[]] + kids + [] == [[]] + kids;
    }
  }

  lemma NothingInOrder()
    ensures InDepthFirstOrder([]) && forall n: nat :: StartsBelow([], n)
  {
  }

  lemma {:induction false} KidWalksAreOrdered(t: Tree, rank: Ranking, id: Id, b: Budget, limit: nat, n: nat)
    requires id in t.categories && KidsReady(t, rank, id, b, limit) && n <= |t.categories[id].childIds|
    ensures InDepthFirstOrder(KidWalks(t, rank, id, b, limit, n))
    ensures StartsBelow(KidWalks(t, rank, id, b, limit, n), n)
    decreases limit, Height(t, id), 0, n
  {
    hide Accepted, Ranked, Confined, Height, Walks, Ready, KidsReady, InDepthFirstOrder, StartsBelow;
    NothingInOrder();
    if n > 0 {
      KidReady(t, rank, id, b, limit, n - 1);
      var kid := t.categories[id].childIds[n - 1];
      KidWalksAreOrdered(t, rank, id, b, limit, n - 1);
      WalksAreOrdered(t, rank, kid, b, limit);
      AppendKid(KidWalks(t, rank, id, b, limit, n - 1), Walks(t, rank, kid, b, limit), n - 1);
    }
  }

  /** The walks behind a scene's pool come in depth-first order, and none comes twice. */
  lemma SceneWalksAreOrdered(t: Tree, rank: Ranking, top: nat, scene: Id)
    requires Accepted(t) && SceneRanked(t, rank, top, scene)
    ensures InDepthFirstOrder(SceneWalks(t, rank, top, scene)) && NoDuplicates(SceneWalks(t, rank, top, scene))
  {
    hide Accepted, Confined, KidsReady, Walks, KidWalks, InDepthFirstOrder, StartsBelow, NoDuplicates;
    NothingInOrder();
    var c := t.categories[scene];
    var kids: seq<Walk> := [];
    if c.Bits().searchesDown {
      var b := InitialDepth(c.Bits().searchDepth);
      KidWalksAreOrdered(t, rank, scene, b, top, |c.childIds|);
      kids := KidWalks(t, rank, scene, b, top, |c.childIds|);
    }
    var across: seq<Walk> := [];
    if c.extendsEnum.Some? {
      var e := c.extendsEnum.value;
      WalksAreOrdered(t, rank, e, None, rank[e]);
      across := Walks(t, rank, e, None, rank[e]);
    }
    AssembleInOrder(kids, |c.childIds|, across);
    assert [[]] + kids + [] == [[]] + kids;
    OrderedOnce(SceneWalks(t, rank, top, scene));
  }

  lemma {:induction false} BeforeIsStrict(p: Walk)
    ensures !Before(p, p)
    decreases p
  {
    if p != [] {
      BeforeIsStrict(p[1..]);
    }
  }

  lemma OrderedOnce(walks: seq<Walk>)
    requires InDepthFirstOrder(walks)
    ensures NoDuplicates(walks)
  {
    hide Before;
    forall i, j | 0 <= i < j < |walks|
      ensures walks[i] != walks[j]
    {
      BeforeIsStrict(walks[i]);
    }
  }

  // ---------- Which walks a search takes, mode by mode ----------

  /** Whether a search takes the step from a node of this mode; it starts at the scene, its `first` node. */
  predicate Takes(mode: Mode, s: Step, first: bool) {
    match (s, mode)
    case (Jump, Memory) => first
    case (Jump, _) => true
    case (Down(_), Standard) => true
    case (Down(_), Drilldown) => true
    case (Down(_), Branching) => first
    case (Down(_), Enum) => !first
    case (Down(_), _) => false
  }

  predicate TakesAt(t: Tree, id: Id, p: Walk, j: nat, first: bool)
    requires j < |p|
  {
    var n := Reach(t, id, p[..j]);
    n.Some? && n.value in t.categories && Takes(t.categories[n.value].mode, p[j], first)
  }

  /** The walk leads along real child lists and extends pointers. */
  predicate Exists(t: Tree, id: Id, p: Walk) {
    var n := Reach(t, id, p);
    n.Some? && n.value in t.categories
  }

  predicate AllTaken(t: Tree, id: Id, p: Walk, first: bool) {
    (p != [] ==> TakesAt(t, id, p, 0, first)) && forall j | 0 < j < |p| :: TakesAt(t, id, p, j, false)
  }

  /**
   Every step is one that its node's mode allows, and below a BRANCHING scene nothing deeper than its
   children is visited, except in an ENUM that one of them extends.
   */
  predicate Walked(t: Tree, scene: Id, p: Walk) {
    Exists(t, scene, p) && AllTaken(t, scene, p, true) &&
    (scene in t.categories && t.categories[scene].mode == Branching && |p| >= 2 && p[0].Down? ==> p[1].Jump?)
  }

  /** The levels that a walk goes down before it enters an ENUM. */
  function Levels(p: Walk): nat {
    if p == [] || p[0].Jump? then 0 else 1 + Levels(p[1..])
  }

  predicate Enough(b: Budget, levels: nat) {
    b == None || levels < b.value
  }

  lemma TakesAfter(t: Tree, id: Id, p: Walk, j: nat, first: bool)
    requires p != [] && Target(t, id, p[0]).Some? && 0 < j < |p|
    ensures TakesAt(t, id, p, j, first) <==> TakesAt(t, Target(t, id, p[0]).value, p[1..], j - 1, first)
  {
    hide Target, Takes;
    assert p[..j][1..] == p[1..][..j - 1] && p[..j][0] == p[0];
  }

  /** The first step, and then the others. */
  lemma AllTakenUnfolds(t: Tree, id: Id, p: Walk, first: bool)
    requires p != [] && Target(t, id, p[0]).Some?
    ensures AllTaken(t, id, p, first) <==>
      Takes(t.categories[id].mode, p[0], first) && AllTaken(t, Target(t, id, p[0]).value, p[1..], false)
  {
    hide Takes;
    var next := Target(t, id, p[0]).value;
    assert TakesAt(t, id, p, 0, first) <==> Takes(t.categories[id].mode, p[0], first);
    forall j | 0 < j < |p|
      ensures TakesAt(t, id, p, j, false) <==> TakesAt(t, next, p[1..], j - 1, false)
    {
      TakesAfter(t, id, p, j, false);
    }
    hide TakesAt;
    assert AllTaken(t, next, p[1..], false) <==> forall k | 0 <= k < |p[1..]| :: TakesAt(t, next, p[1..], k, false);
    assert forall k | 0 <= k < |p[1..]| :: TakesAt(t, next, p[1..], k, false) <==> TakesAt(t, id, p, k + 1, false);
  }

  lemma NoneTaken(t: Tree, id: Id, first: bool)
    ensures AllTaken(t, id, [], first)
  {
  }

  lemma {:induction false} FollowsIff(t: Tree, id: Id, b: Budget, p: Walk)
    ensures Follows(t, id, b, p) <==>
      Exists(t, id, p) && Enough(b, Levels(p)) && AllTaken(t, id, p, false)
    decreases p
  {
    hide AllTaken;
    NoneTaken(t, id, false);
    if p != [] && Target(t, id, p[0]).Some? {
      AllTakenUnfolds(t, id, p, false);
      FollowsIff(t, Target(t, id, p[0]).value, if p[0].Jump? then None else Spent(b), p[1..]);
    }
  }

  /**
   A search takes exactly the walks that the modes of their nodes allow: down from a STANDARD,
   DRILLDOWN or BRANCHING scene, further down through STANDARD, DRILLDOWN and ENUM nodes, and across
   from the scene and from every node but a MEMORY.
   */
  lemma SceneFollowsIff(t: Tree, scene: Id, p: Walk)
    ensures SceneFollows(t, scene, p) <==> Walked(t, scene, p)
  {
    hide AllTaken, Follows;
    NoneTaken(t, scene, true);
    if p != [] && Target(t, scene, p[0]).Some? {
      AllTakenUnfolds(t, scene, p, true);
      var b := if p[0].Jump? then None else InitialDepth(t.categories[scene].Bits().searchDepth);
      FollowsIff(t, Target(t, scene, p[0]).value, b, p[1..]);
    }
  }
}
