/**
 When a search ends. A ranking of the ENUMs that a search enters exists exactly when no walk of the
 search goes on forever; and there is a tree the loader accepts on which a search does not end.
 */
module ScopeEnds {
  import opened Bytes
  import opened Scene
  import opened Scope
  import opened ScopeWalks

  /** No walk of the view of `id` is longer than `limit`. */
  ghost predicate Within(t: Tree, id: Id, b: Budget, limit: nat) {
    forall p: Walk | Follows(t, id, b, p) :: |p| <= limit
  }

  /** The view of `id` ends. */
  ghost predicate Ends(t: Tree, id: Id) {
    exists n: nat :: Within(t, id, None, n)
  }

  predicate OnlyDown(p: Walk) {
    forall s | s in p :: s.Down?
  }

  /** No walk of a search from the scene is longer than `n`: the recursion is never deeper. */
  ghost predicate SceneEnds(t: Tree, scene: Id, n: nat) {
    forall p: Walk | SceneFollows(t, scene, p) :: |p| <= n
  }

  // ---------- A ranking bounds the walks ----------

  ghost predicate TallerThanAll(t: Tree, k: nat)
    requires Rooted(t)
  {
    forall id | id in t.categories :: Height(t, id) < k
  }

  /** Each jump costs a rank and buys at most one tree height. */
  function Bound(k: nat, height: nat, limit: nat): nat {
    height + limit * k
  }

  lemma BoundJumps(k: nat, high: nat, height: nat, low: nat, limit: nat)
    requires low < limit && high < k
    ensures Bound(k, high, low) < Bound(k, height, limit)
  {
    assert (low + 1) * k == low * k + k;
    assert (low + 1) * k <= limit * k;
  }

  lemma BoundSteps(k: nat, low: nat, high: nat, limit: nat)
    requires low < high
    ensures Bound(k, low, limit) < Bound(k, high, limit)
  {
  }

  lemma {:induction false} RankBoundsWalks(t: Tree, k: nat, rank: Ranking, id: Id, b: Budget, limit: nat, p: Walk)
    requires Rooted(t) && TallerThanAll(t, k) && Ready(t, rank, id, b, limit) && Follows(t, id, b, p)
    ensures |p| <= Bound(k, Height(t, id), limit)
    decreases p
  {
    hide Accepted, Rooted, Ranked, Confined, Height, KidsReady, Bound;
    if p != [] {
      ReadyBelow(t, rank, id, b, limit);
      var c := t.categories[id];
      match p[0] {
        case Down(i) =>
          KidReady(t, rank, id, Spent(b), limit, i);
          RankBoundsWalks(t, k, rank, c.childIds[i], Spent(b), limit, p[1..]);
          BoundSteps(k, Height(t, c.childIds[i]), Height(t, id), limit);
        case Jump =>
          var e := c.extendsEnum.value;
          RankBoundsWalks(t, k, rank, e, None, rank[e], p[1..]);
          BoundJumps(k, Height(t, e), Height(t, id), rank[e], limit);
      }
    }
  }

  /** A bound that does for every node at once. */
  lemma RankEndsView(t: Tree, k: nat, rank: Ranking, id: Id, b: Budget, limit: nat)
    requires Rooted(t) && TallerThanAll(t, k) && Ready(t, rank, id, b, limit)
    ensures Within(t, id, b, Bound(k, k, limit))
  {
    hide Accepted, Rooted, Ready, Height, Bound, Follows;
    forall p: Walk | Follows(t, id, b, p)
      ensures |p| <= Bound(k, k, limit)
    {
      RankBoundsWalks(t, k, rank, id, b, limit, p);
      ReadyIsKnown(t, rank, id, b, limit);
      BoundSteps(k, Height(t, id), k, limit);
    }
  }

  lemma ReadyIsKnown(t: Tree, rank: Ranking, id: Id, b: Budget, limit: nat)
    requires Ready(t, rank, id, b, limit)
    ensures id in t.categories
  {
  }

  lemma SomeHeight(t: Tree) returns (k: nat)
    requires Rooted(t)
    ensures TallerThanAll(t, k)
  {
    k := Deepest(t, t.categories.Keys) + 1;
  }

  // ---------- Walks that end give a ranking ----------

  /** The length of the longest walk of the view of `e`. */
  ghost function LongestUpTo(t: Tree, e: Id, n: nat): (len: nat)
    requires e in t.categories && Within(t, e, None, n)
    ensures Within(t, e, None, len) && exists p: Walk :: Follows(t, e, None, p) && |p| == len
    decreases n
  {
    if exists p: Walk :: Follows(t, e, None, p) && |p| == n then n
    else
      assert Follows(t, e, None, []);
      LongestUpTo(t, e, n - 1)
  }

  ghost function Longest(t: Tree, e: Id): (len: nat)
    requires e in t.categories && Ends(t, e)
    ensures Within(t, e, None, len) && exists p: Walk :: Follows(t, e, None, p) && |p| == len
  {
    var n: nat :| Within(t, e, None, n);
    LongestUpTo(t, e, n)
  }

  /** Every ENUM whose view ends, ranked by its longest walk. */
  ghost function RankByLongest(t: Tree): Ranking {
    map e | e in t.categories && t.categories[e].mode == Enum && Ends(t, e) :: Longest(t, e)
  }

  lemma StepFollowed(t: Tree, id: Id, b: Budget, s: Step, p: Walk)
    requires id in t.categories && Live(b)
    requires match s
      case Down(i) =>
        t.categories[id].Bits().allowPenetration && i < |t.categories[id].childIds| &&
        Follows(t, t.categories[id].childIds[i], Spent(b), p)
      case Jump => Drags(t.categories[id]) && Follows(t, t.categories[id].extendsEnum.value, None, p)
    ensures Follows(t, id, b, [s] + p)
  {
    assert ([s] + p)[1..] == p;
  }

  lemma WithinKid(t: Tree, id: Id, b: Budget, i: nat, limit: nat)
    requires id in t.categories && Live(b) && Within(t, id, b, limit)
    requires t.categories[id].Bits().allowPenetration && i < |t.categories[id].childIds|
    ensures Within(t, t.categories[id].childIds[i], Spent(b), limit)
  {
    hide Follows;
    forall p: Walk | Follows(t, t.categories[id].childIds[i], Spent(b), p)
      ensures |p| <= limit
    {
      StepFollowed(t, id, b, Down(i), p);
    }
  }

  lemma ExtendsEnum(t: Tree, id: Id)
    requires Accepted(t) && id in t.categories && t.categories[id].extendsEnum.Some?
    ensures var e := t.categories[id].extendsEnum.value;
      e in t.categories && t.categories[e].mode == Enum
  {
    hide Rooted, StructureOk, SiblingNamesDiffer;
    assert ExtendsOk(t.categories, t.categories[id]);
  }

  lemma EndingEnumIsRanked(t: Tree, e: Id, limit: nat)
    requires e in t.categories && t.categories[e].mode == Enum
    requires forall p: Walk | Follows(t, e, None, p) :: |p| < limit
    ensures e in RankByLongest(t) && RankByLongest(t)[e] < limit
  {
    assert Follows(t, e, None, []);
    hide Follows;
    assert Within(t, e, None, limit);
    var longest := Longest(t, e);
    var p: Walk :| Follows(t, e, None, p) && |p| == longest;
  }

  lemma DraggedRanksLower(t: Tree, id: Id, b: Budget, limit: nat)
    requires Accepted(t) && id in t.categories && Live(b) && Within(t, id, b, limit) && Drags(t.categories[id])
    ensures var e := t.categories[id].extendsEnum.value;
      e in RankByLongest(t) && RankByLongest(t)[e] < limit
  {
    hide Accepted, Follows, RankByLongest;
    ExtendsEnum(t, id);
    var e := t.categories[id].extendsEnum.value;
    forall p: Walk | Follows(t, e, None, p)
      ensures |p| < limit
    {
      StepFollowed(t, id, b, Jump, p);
    }
    EndingEnumIsRanked(t, e, limit);
  }

  lemma {:induction false} LongestConfines(t: Tree, id: Id, b: Budget, limit: nat)
    requires Rooted(t) && Accepted(t) && id in t.categories && Within(t, id, b, limit)
    ensures Confined(t, RankByLongest(t), id, b, limit)
    decreases Height(t, id)
  {
    hide Accepted, Rooted, Height, Within, RankByLongest;
    var c, rank := t.categories[id], RankByLongest(t);
    if Live(b) {
      if Drags(c) {
        DraggedRanksLower(t, id, b, limit);
      }
      if c.Bits().allowPenetration {
        forall i | 0 <= i < |c.childIds|
          ensures c.childIds[i] in t.categories && Confined(t, rank, c.childIds[i], Spent(b), limit)
        {
          ChildIsLower(t, id, c.childIds[i]);
          WithinKid(t, id, b, i, limit);
          LongestConfines(t, c.childIds[i], Spent(b), limit);
        }
      }
    }
  }

  lemma LongestRanks(t: Tree)
    requires Accepted(t)
    ensures Ranked(t, RankByLongest(t))
  {
    hide Confined, Follows, Within, StructureOk, SiblingNamesDiffer, ExtendsOk, Rooted;
    var rank := RankByLongest(t);
    forall e | e in rank
      ensures Confined(t, rank, e, None, rank[e])
    {
      LongestConfines(t, e, None, rank[e]);
    }
  }

  // ---------- The two directions together ----------

  /** An ENUM can be ranked exactly when its view ends. */
  lemma ViewRankingIffEnds(t: Tree, e: Id)
    requires Accepted(t) && e in t.categories && t.categories[e].mode == Enum
    ensures (exists rank: Ranking :: Ranked(t, rank) && e in rank) <==> Ends(t, e)
  {
    hide Accepted, Confined, Follows, Within, Bound, Height;
    if rank: Ranking :| Ranked(t, rank) && e in rank {
      AcceptedIsRooted(t);
      var k := SomeHeight(t);
      RankedIsReady(t, rank, e);
      RankEndsView(t, k, rank, e, None, rank[e]);
    }
    if Ends(t, e) {
      LongestRanks(t);
      assert e in RankByLongest(t);
    }
  }

  lemma AcceptedIsRooted(t: Tree)
    requires Accepted(t)
    ensures Rooted(t)
  {
  }

  lemma RankedIsReady(t: Tree, rank: Ranking, e: Id)
    requires Accepted(t) && Ranked(t, rank) && e in rank
    ensures Ready(t, rank, e, None, rank[e])
  {
    hide Accepted, Confined;
  }

  lemma RankedSceneEnds(t: Tree, rank: Ranking, top: nat, scene: Id)
    requires Accepted(t) && SceneRanked(t, rank, top, scene)
    ensures exists n: nat :: SceneEnds(t, scene, n)
  {
    hide Accepted, Confined, Follows, Height, Bound, KidsReady, Ranked;
    AcceptedIsRooted(t);
    var k := SomeHeight(t);
    var c: Category := t.categories[scene];
    var n: nat := Bound(k, k, top) + 1;
    if c.extendsEnum.Some? {
      var e := c.extendsEnum.value;
      RankedIsReady(t, rank, e);
      RankEndsView(t, k, rank, e, None, rank[e]);
      n := n + Bound(k, k, rank[e]);
    }
    forall p: Walk | SceneFollows(t, scene, p)
      ensures |p| <= n
    {
      if p != [] && p[0].Down? {
        var b := InitialDepth(c.Bits().searchDepth);
        KidReady(t, rank, scene, b, top, p[0].index);
        RankEndsView(t, k, rank, c.childIds[p[0].index], b, top);
      }
    }
    assert SceneEnds(t, scene, n);
  }

  lemma EndingSceneRanks(t: Tree, scene: Id, n: nat)
    requires Accepted(t) && scene in t.categories && SceneEnds(t, scene, n)
    ensures SceneRanked(t, RankByLongest(t), n, scene)
  {
    hide Accepted, Confined, Follows, RankByLongest, Ranked, Height, Within;
    LongestRanks(t);
    AcceptedIsRooted(t);
    var c, rank := t.categories[scene], RankByLongest(t);
    if c.Bits().searchesDown {
      var b := InitialDepth(c.Bits().searchDepth);
      forall kid | kid in c.childIds
        ensures kid in t.categories && Confined(t, rank, kid, b, n)
      {
        var i :| 0 <= i < |c.childIds| && c.childIds[i] == kid;
        ChildIsLower(t, scene, kid);
        KidWithin(t, scene, i, n);
        LongestConfines(t, kid, b, n);
      }
    }
    if c.extendsEnum.Some? {
      ExtendsEnum(t, scene);
      AcrossWithin(t, scene, n);
      EndingEnumIsRanked(t, c.extendsEnum.value, n);
    }
  }

  lemma KidWithin(t: Tree, scene: Id, i: nat, n: nat)
    requires scene in t.categories && SceneEnds(t, scene, n)
    requires t.categories[scene].Bits().searchesDown && i < |t.categories[scene].childIds|
    ensures Within(t, t.categories[scene].childIds[i], InitialDepth(t.categories[scene].Bits().searchDepth), n)
  {
    hide Follows;
    var c := t.categories[scene];
    forall p: Walk | Follows(t, c.childIds[i], InitialDepth(c.Bits().searchDepth), p)
      ensures |p| <= n
    {
      assert ([Down(i)] + p)[1..] == p;
      assert SceneFollows(t, scene, [Down(i)] + p);
    }
  }

  lemma AcrossWithin(t: Tree, scene: Id, n: nat)
    requires scene in t.categories && SceneEnds(t, scene, n) && t.categories[scene].extendsEnum.Some?
    ensures forall p: Walk | Follows(t, t.categories[scene].extendsEnum.value, None, p) :: |p| < n
  {
    hide Follows;
    forall p: Walk | Follows(t, t.categories[scene].extendsEnum.value, None, p)
      ensures |p| < n
    {
      assert ([Jump] + p)[1..] == p;
      assert SceneFollows(t, scene, [Jump] + p);
    }
  }

  /**
   On a tree the loader accepts, the ranking that `FindScope` asks for exists exactly when the walks
   of the search are bounded, that is when the recursion ends. ENUMs the search does not enter do
   not matter.
   */
  lemma SceneRankingIffEnds(t: Tree, scene: Id)
    requires Accepted(t) && scene in t.categories
    ensures (exists rank: Ranking, top: nat :: SceneRanked(t, rank, top, scene)) <==> (exists n: nat :: SceneEnds(t, scene, n))
  {
    hide Accepted, SceneRanked, SceneEnds;
    if rank: Ranking, top: nat :| SceneRanked(t, rank, top, scene) {
      RankedSceneEnds(t, rank, top, scene);
    }
    if n: nat :| SceneEnds(t, scene, n) {
      EndingSceneRanks(t, scene, n);
    }
  }

  // ---------- Nothing extends below an ENUM ----------

  /** No node that the child paths of a view lead to drags an ENUM in. */
  ghost predicate Plain(t: Tree, id: Id) {
    forall p: Walk | OnlyDown(p) && Follows(t, id, None, p) ::
      var n := Reach(t, id, p);
      n.Some? && n.value in t.categories ==> !Drags(t.categories[n.value])
  }

  lemma PlainKid(t: Tree, id: Id, i: nat)
    requires id in t.categories && Plain(t, id)
    requires t.categories[id].Bits().allowPenetration && i < |t.categories[id].childIds|
    ensures Plain(t, t.categories[id].childIds[i])
  {
    hide Follows;
    var kid := t.categories[id].childIds[i];
    forall p: Walk | OnlyDown(p) && Follows(t, kid, None, p)
      ensures var n := Reach(t, kid, p); n.Some? && n.value in t.categories ==> !Drags(t.categories[n.value])
    {
      StepFollowed(t, id, None, Down(i), p);
      assert ([Down(i)] + p)[1..] == p;
      assert OnlyDown([Down(i)] + p);
      assert Reach(t, id, [Down(i)] + p) == Reach(t, kid, p);
    }
  }

  lemma {:induction false} PlainConfines(t: Tree, rank: Ranking, id: Id, limit: nat)
    requires Rooted(t) && id in t.categories && Plain(t, id)
    ensures Confined(t, rank, id, None, limit)
    decreases Height(t, id)
  {
    hide Rooted, Height, Plain;
    var c := t.categories[id];
    PlainHere(t, id);
    if c.Bits().allowPenetration {
      forall i | 0 <= i < |c.childIds|
        ensures c.childIds[i] in t.categories && Confined(t, rank, c.childIds[i], None, limit)
      {
        ChildIsLower(t, id, c.childIds[i]);
        PlainKid(t, id, i);
        PlainConfines(t, rank, c.childIds[i], limit);
      }
    }
  }

  lemma PlainHere(t: Tree, id: Id)
    requires id in t.categories && Plain(t, id)
    ensures !Drags(t.categories[id])
  {
    assert OnlyDown([]) && Follows(t, id, None, []);
  }

  lemma {:induction false} ZeroConfines(t: Tree, rank: Ranking, id: Id, b: Budget)
    requires Rooted(t) && Accepted(t) && id in t.categories
    requires forall e | e in t.categories && t.categories[e].mode == Enum :: e in rank && rank[e] == 0
    ensures Confined(t, rank, id, b, 1)
    decreases Height(t, id)
  {
    hide Accepted, Rooted, Height;
    var c := t.categories[id];
    if Drags(c) {
      ExtendsEnum(t, id);
    }
    forall kid | kid in c.childIds
      ensures kid in t.categories && Confined(t, rank, kid, Spent(b), 1)
    {
      ChildIsLower(t, id, kid);
      ZeroConfines(t, rank, kid, Spent(b));
    }
  }

  /** The special case of trees in which nothing below an ENUM extends anything: every search ends. */
  lemma PlainEnumsRank(t: Tree, scene: Id)
    requires Accepted(t) && scene in t.categories
    requires forall e | e in t.categories && t.categories[e].mode == Enum :: Plain(t, e)
    ensures exists rank: Ranking, top: nat :: SceneRanked(t, rank, top, scene)
  {
    hide Accepted, Height, Plain, Confined;
    AcceptedIsRooted(t);
    var rank: Ranking := map e | e in t.categories && t.categories[e].mode == Enum :: 0;
    forall e | e in rank
      ensures Confined(t, rank, e, None, rank[e])
    {
      PlainConfines(t, rank, e, 0);
    }
    var c := t.categories[scene];
    forall kid | kid in c.childIds
      ensures kid in t.categories && Confined(t, rank, kid, InitialDepth(c.Bits().searchDepth), 1)
    {
      ChildIsLower(t, scene, kid);
      ZeroConfines(t, rank, kid, InitialDepth(c.Bits().searchDepth));
    }
    if c.extendsEnum.Some? {
      ExtendsEnum(t, scene);
    }
    assert SceneRanked(t, rank, 1, scene);
  }

  // ---------- A tree the loader accepts on which the search does not end ----------

  /** Below an ENUM, a STANDARD category that extends that same ENUM. */
  const ENDLESS := Tree("r", map[
    "r" := Category("r", "r", None, Standard, None, [], ["e"]),
    "e" := Category("e", "e", Some("r"), Enum, None, [], ["s"]),
    "s" := Category("s", "s", Some("e"), Standard, Some("e"), [], [])])

  function RoundAndRound(n: nat): (p: Walk)
    ensures |p| == 2 * n
  {
    if n == 0 then [] else [Down(0), Jump] + RoundAndRound(n - 1)
  }

  lemma {:induction false} RoundAndRoundIsFollowed(n: nat)
    ensures Follows(ENDLESS, "e", None, RoundAndRound(n))
    decreases n
  {
    if n > 0 {
      RoundAndRoundIsFollowed(n - 1);
      var p := RoundAndRound(n);
      assert p[1..][1..] == RoundAndRound(n - 1);
      assert p[1..][0] == Jump;
      assert Follows(ENDLESS, "s", None, p[1..]);
    }
  }

  lemma EndlessIsRooted()
    ensures Rooted(ENDLESS)
  {
    hide NoDuplicates;
    var cats := ENDLESS.categories;
    assert ParentsKnown(cats, "r");
    EndlessChildren();
    hide ChildrenInvertParents;
    assert ClimbsIn(cats, "r", "r", 0) && ClimbsIn(cats, "r", "e", 1) && ClimbsIn(cats, "r", "s", 2);
  }

  lemma EndlessChildren()
    ensures ChildrenInvertParents(ENDLESS.categories, "r")
  {
    hide NoDuplicates;
    OneIsDistinct("e");
    OneIsDistinct("s");
  }

  lemma OneIsDistinct(x: string)
    ensures NoDuplicates([x]) && NoDuplicates<string>([])
  {
  }

  lemma EndlessNamesDiffer()
    ensures forall id | id in ENDLESS.categories :: SiblingNamesDiffer(ENDLESS.categories, ENDLESS.categories[id])
  {
    hide NoDuplicates;
    var cats := ENDLESS.categories;
    OneIsDistinct("e");
    OneIsDistinct("s");
    assert NamesOf(cats, []) == [] && NamesOf(cats, ["e"]) == ["e"] && NamesOf(cats, ["s"]) == ["s"];
  }

  lemma EmptyIsOk(c: Category)
    requires c.intents == [] && (c.mode == Standard || c.mode == Enum)
    ensures StructureOk(c)
  {
  }

  lemma EndlessIsAccepted()
    ensures Accepted(ENDLESS)
  {
    hide Rooted, SiblingNamesDiffer, StructureOk;
    EndlessIsRooted();
    EndlessNamesDiffer();
    forall id | id in ENDLESS.categories
      ensures StructureOk(ENDLESS.categories[id])
    {
      EmptyIsOk(ENDLESS.categories[id]);
    }
  }

  lemma RootFollows(n: nat)
    ensures !SceneEnds(ENDLESS, "r", n)
  {
    RoundAndRoundIsFollowed(n);
    var p := [Down(0)] + RoundAndRound(n);
    assert p[1..] == RoundAndRound(n);
    assert SceneFollows(ENDLESS, "r", p);
  }

  /**
   The loader accepts this tree, yet a search from its root walks on forever: its walks have no
   bound, and no ranking exists.
   */
  lemma AcceptedYetEndless()
    ensures Accepted(ENDLESS) && ENDLESS.categories["r"].mode == Standard
    ensures !exists n: nat :: SceneEnds(ENDLESS, "r", n)
    ensures !exists rank: Ranking, top: nat :: SceneRanked(ENDLESS, rank, top, "r")
  {
    hide Accepted, SceneRanked, SceneEnds;
    EndlessIsAccepted();
    forall n: nat
      ensures !SceneEnds(ENDLESS, "r", n)
    {
      RootFollows(n);
    }
    SceneRankingIffEnds(ENDLESS, "r");
  }
}
