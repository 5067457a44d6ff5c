/**
 The candidate pool of a scene (src/sandroid/core/scope.py).

 The reference lists the ways to walk from the scene: down to a child, or across to the ENUM that a
 node extends. The pool is what the walks reach, in the order of the walks.
 */
module Scope {
  import opened Bytes
  import opened Scene

  datatype Step = Down(index: nat) | Jump

  type Walk = seq<Step>

  datatype ScopeError = UnknownScene(id: Id) | EnumScene(id: Id) | NotEnum(id: Id)

  /** How many levels may still be visited; `None` is no limit. */
  type Budget = Option<int>

  function InitialDepth(depth: SearchDepth): Budget {
    match depth
    case Immediate => Some(1)
    case Unbounded => None
    case NoDepth => Some(0)
  }

  predicate Live(b: Budget) {
    b == None || b.value > 0
  }

  function Spent(b: Budget): Budget {
    if b == None then None else Some(b.value - 1)
  }

  /** A node that shows anything to its ancestors also drags its ENUM along. */
  predicate Drags(c: Category) {
    c.extendsEnum.Some? && (c.Bits().exposeOrdinary || c.Bits().exposeSpecial)
  }

  /** What an ancestor sees at the node itself. */
  function Shown(c: Category): seq<Intent> {
    (if c.Bits().exposeOrdinary then c.Ordinary() else []) + (if c.Bits().exposeSpecial then c.Special() else [])
  }

  // ---------- Walks ----------

  function Target(t: Tree, id: Id, s: Step): Option<Id> {
    if id !in t.categories then None
    else
      var c := t.categories[id];
      match s
      case Down(i) => if i < |c.childIds| then Some(c.childIds[i]) else None
      case Jump => c.extendsEnum
  }

  /** Where a walk from `id` ends. */
  function Reach(t: Tree, id: Id, p: Walk): Option<Id>
    decreases p
  {
    if p == [] then Some(id)
    else
      var next := Target(t, id, p[0]);
      if next == None then None else Reach(t, next.value, p[1..])
  }

  /** The walks an ancestor's view takes from `id`. The budget ends where an ENUM is entered. */
  predicate Follows(t: Tree, id: Id, b: Budget, p: Walk)
    decreases p
  {
    id in t.categories && Live(b) &&
    (p != [] ==>
       var c := t.categories[id];
       match p[0]
       case Down(i) =>
         c.Bits().allowPenetration && i < |c.childIds| && Follows(t, c.childIds[i], Spent(b), p[1..])
       case Jump => Drags(c) && Follows(t, c.extendsEnum.value, None, p[1..]))
  }

  /** The walks a search from the scene itself takes. */
  predicate SceneFollows(t: Tree, scene: Id, p: Walk) {
    scene in t.categories &&
    (p != [] ==>
       var c := t.categories[scene];
       match p[0]
       case Down(i) =>
         c.Bits().searchesDown && i < |c.childIds| &&
         Follows(t, c.childIds[i], InitialDepth(c.Bits().searchDepth), p[1..])
       case Jump => c.extendsEnum.Some? && Follows(t, c.extendsEnum.value, None, p[1..]))
  }

  predicate StepBefore(a: Step, b: Step) {
    match (a, b)
    case (Down(i), Down(j)) => i < j
    case (Down(_), Jump) => true
    case _ => false
  }

  /** Depth-first order: a walk before its extensions, children by position, the ENUM last. */
  predicate Before(p: Walk, q: Walk)
    decreases p
  {
    q != [] && (p == [] || StepBefore(p[0], q[0]) || (p[0] == q[0] && Before(p[1..], q[1..])))
  }

  ghost predicate InDepthFirstOrder(walks: seq<Walk>) {
    forall i, j | 0 <= i < j < |walks| :: Before(walks[i], walks[j])
  }

  // ---------- Termination ----------

  ghost function Deepest(t: Tree, ids: set<Id>): (d: nat)
    requires Rooted(t) && ids <= t.categories.Keys
    ensures forall id | id in ids :: Depth(t, id) <= d
  {
    if ids == {} then 0
    else
      var id :| id in ids;
      var d := Deepest(t, ids - {id});
      if d < Depth(t, id) then Depth(t, id) else d
  }

  /** No child path from `id` is longer than this. */
  ghost function Height(t: Tree, id: Id): nat
    requires Rooted(t) && id in t.categories
  {
    Deepest(t, t.categories.Keys) - Depth(t, id)
  }

  lemma ChildIsLower(t: Tree, id: Id, child: Id)
    requires Rooted(t) && id in t.categories && child in t.categories[id].childIds
    ensures child in t.categories && Height(t, child) < Height(t, id)
  {
    ChildIsBelow(t, id, child);
  }

  type Ranking = map<Id, nat>

  /** Every ENUM dragged in while walking down from `id` within the budget is ranked, below `limit`. */
  ghost predicate Confined(t: Tree, rank: Ranking, id: Id, b: Budget, limit: nat)
    requires Rooted(t) && id in t.categories
    decreases Height(t, id)
  {
    var c := t.categories[id];
    Live(b) ==>
      (Drags(c) ==> c.extendsEnum.value in rank && rank[c.extendsEnum.value] < limit) &&
      (c.Bits().allowPenetration ==>
         forall kid | kid in c.childIds ::
           ChildIsLower(t, id, kid);
           Confined(t, rank, kid, Spent(b), limit))
  }

  /** Some ENUMs are ranked so that whatever the view of one drags in is ranked too, and lower. */
  ghost predicate Ranked(t: Tree, rank: Ranking)
    requires Accepted(t)
  {
    (forall e | e in rank :: e in t.categories && t.categories[e].mode == Enum) &&
    forall e {:trigger Confined(t, rank, e, None, rank[e])} | e in rank :: Confined(t, rank, e, None, rank[e])
  }

  /** The walks through the children of `id` only enter ENUMs ranked below `limit`. */
  ghost predicate KidsReady(t: Tree, rank: Ranking, id: Id, b: Budget, limit: nat) {
    Accepted(t) && Ranked(t, rank) && id in t.categories &&
    forall kid | kid in t.categories[id].childIds :: kid in t.categories && Confined(t, rank, kid, b, limit)
  }

  /** The ENUMs that a search from the scene enters are ranked; no others need to be. */
  ghost predicate SceneRanked(t: Tree, rank: Ranking, top: nat, scene: Id)
    requires Accepted(t)
  {
    scene in t.categories && Ranked(t, rank) &&
    var c := t.categories[scene];
    (c.Bits().searchesDown ==> KidsReady(t, rank, scene, InitialDepth(c.Bits().searchDepth), top)) &&
    (c.extendsEnum.Some? ==> c.extendsEnum.value in rank)
  }

  // ---------- The list of all walks ----------

  function Prefixed(s: Step, walks: seq<Walk>): seq<Walk> {
    seq(|walks|, i requires 0 <= i < |walks| => [s] + walks[i])
  }

  ghost predicate Ready(t: Tree, rank: Ranking, id: Id, b: Budget, limit: nat) {
    Accepted(t) && Ranked(t, rank) && id in t.categories && Confined(t, rank, id, b, limit)
  }

  lemma ReadyBelow(t: Tree, rank: Ranking, id: Id, b: Budget, limit: nat)
    requires Ready(t, rank, id, b, limit) && Live(b)
    ensures var c := t.categories[id];
      (c.Bits().allowPenetration ==> KidsReady(t, rank, id, Spent(b), limit)) &&
      (Drags(c) ==>
         var e := c.extendsEnum.value;
         e in rank && rank[e] < limit && Ready(t, rank, e, None, rank[e]) && t.categories[e].mode == Enum)
  {
    var c := t.categories[id];
    forall kid | kid in c.childIds
      ensures kid in t.categories && (c.Bits().allowPenetration ==> Confined(t, rank, kid, Spent(b), limit))
    {
      ChildIsLower(t, id, kid);
    }
  }

  lemma KidReady(t: Tree, rank: Ranking, id: Id, b: Budget, limit: nat, i: nat)
    requires KidsReady(t, rank, id, b, limit) && i < |t.categories[id].childIds|
    ensures var kid := t.categories[id].childIds[i];
      kid in t.categories && Height(t, kid) < Height(t, id) && Ready(t, rank, kid, b, limit)
  {
    hide StructureOk, SiblingNamesDiffer, ExtendsOk, Confined, Height;
    ChildIsLower(t, id, t.categories[id].childIds[i]);
  }

  /** All walks of a view, in depth-first order. */
  ghost function Walks(t: Tree, rank: Ranking, id: Id, b: Budget, limit: nat): seq<Walk>
    requires Ready(t, rank, id, b, limit)
    decreases limit, Height(t, id), 1, 0
  {
    var c := t.categories[id];
    if !Live(b) then []
    else
      ReadyBelow(t, rank, id, b, limit);
      [[]] +
      (if c.Bits().allowPenetration then KidWalks(t, rank, id, Spent(b), limit, |c.childIds|) else []) +
      (if Drags(c) then
         Prefixed(Jump, Walks(t, rank, c.extendsEnum.value, None, rank[c.extendsEnum.value]))
       else [])
  }

  /** The walks through the first `n` children. */
  ghost function KidWalks(t: Tree, rank: Ranking, id: Id, b: Budget, limit: nat, n: nat): seq<Walk>
    requires KidsReady(t, rank, id, b, limit) && n <= |t.categories[id].childIds|
    decreases limit, Height(t, id), 0, n
  {
    if n == 0 then []
    else
      KidReady(t, rank, id, b, limit, n - 1);
      KidWalks(t, rank, id, b, limit, n - 1) +
      Prefixed(Down(n - 1), Walks(t, rank, t.categories[id].childIds[n - 1], b, limit))
  }

  /** The intents shown at the ends of the walks, one walk after the other. */
  function Gathered(t: Tree, id: Id, walks: seq<Walk>): seq<Intent> {
    if walks == [] then []
    else
      var n := |walks| - 1;
      Gathered(t, id, walks[..n]) + ShownAt(t, id, walks[n])
  }

  function ShownAt(t: Tree, id: Id, p: Walk): seq<Intent> {
    var end := Reach(t, id, p);
    if end.Some? && end.value in t.categories then Shown(t.categories[end.value]) else []
  }

  lemma {:induction false} GatheredAppends(t: Tree, id: Id, a: seq<Walk>, b: seq<Walk>)
    ensures Gathered(t, id, a + b) == Gathered(t, id, a) + Gathered(t, id, b)
  {
    hide ShownAt;
    if b == [] {
      assert a + b == a;
    } else {
      var n := |b| - 1;
      assert (a + b)[..|a + b| - 1] == a + b[..n] && (a + b)[|a + b| - 1] == b[n];
      GatheredAppends(t, id, a, b[..n]);
      var x, y, z := Gathered(t, id, a), Gathered(t, id, b[..n]), ShownAt(t, id, b[n]);
      assert (x + y) + z == x + (y + z);
    }
  }

  lemma ShownAfter(t: Tree, id: Id, s: Step, p: Walk)
    requires Target(t, id, s).Some?
    ensures ShownAt(t, id, [s] + p) == ShownAt(t, Target(t, id, s).value, p)
  {
    assert ([s] + p)[1..] == p;
  }

  lemma {:induction false} GatheredPrefixed(t: Tree, id: Id, s: Step, walks: seq<Walk>)
    requires Target(t, id, s).Some?
    ensures Gathered(t, id, Prefixed(s, walks)) == Gathered(t, Target(t, id, s).value, walks)
  {
    hide ShownAt, Target;
    if walks != [] {
      var n := |walks| - 1;
      assert Prefixed(s, walks)[..n] == Prefixed(s, walks[..n]);
      ShownAfter(t, id, s, walks[n]);
      GatheredPrefixed(t, id, s, walks[..n]);
    }
  }

  lemma {:induction false} DeadBudget(t: Tree, rank: Ranking, id: Id, b: Budget, limit: nat, n: nat)
    requires KidsReady(t, rank, id, b, limit) && n <= |t.categories[id].childIds| && !Live(b)
    ensures KidWalks(t, rank, id, b, limit, n) == []
  {
    hide Accepted, Ranked, Confined, Height, Ready, KidsReady;
    if n > 0 {
      DeadBudget(t, rank, id, b, limit, n - 1);
      KidReady(t, rank, id, b, limit, n - 1);
    }
  }

  // ---------- The search ----------

  method CollectViaAncestorView(t: Tree, id: Id, remaining: Budget, ghost rank: Ranking, ghost limit: nat)
    returns (out: seq<Intent>)
    requires Ready(t, rank, id, remaining, limit)
    ensures out == Gathered(t, id, Walks(t, rank, id, remaining, limit))
    decreases limit, Height(t, id), 1
  {
    hide Walks, KidWalks, Gathered, Accepted, Ranked, Confined, Height, KidsReady;
    ViewUnfolds(t, rank, id, remaining, limit);
    NothingGathered(t, id);
    if remaining != None && remaining.value <= 0 {
      return [];
    }
    ReadyBelow(t, rank, id, remaining, limit);
    var category := t.categories[id];
    out := [];
    if category.Bits().exposeOrdinary {
      out := out + category.Ordinary();
    }
    if category.Bits().exposeSpecial {
      out := out + category.Special();
    }
    assert out == Shown(category) == Shown(category) + [];
    if category.Bits().allowPenetration {
      var next := Spent(remaining);
      if next == None || next.value > 0 {
        var kids := CollectKids(t, id, next, rank, limit);
        out := out + kids;
      } else {
        DeadBudget(t, rank, id, next, limit, |category.childIds|);
      }
    }
    if category.extendsEnum != None && (category.Bits().exposeOrdinary || category.Bits().exposeSpecial) {
      var dragged := CollectEnumSubtree(t, category.extendsEnum.value, rank);
      out := out + dragged.value;
    }
    assert out + [] == out;
  }

  /** The loop over the children, the same in `scope` and in a view. */
  method CollectKids(t: Tree, id: Id, next: Budget, ghost rank: Ranking, ghost limit: nat)
    returns (out: seq<Intent>)
    requires KidsReady(t, rank, id, next, limit)
    ensures out == Gathered(t, id, KidWalks(t, rank, id, next, limit, |t.categories[id].childIds|))
    decreases limit, Height(t, id), 0
  {
    hide Walks, Gathered, Accepted, Ranked, Confined, Height, Ready;
    var kids := t.categories[id].childIds;
    out := [];
    NothingGathered(t, id);
    for i := 0 to |kids|
      invariant out == Gathered(t, id, KidWalks(t, rank, id, next, limit, i))
    {
      KidReady(t, rank, id, next, limit, i);
      var child := CollectViaAncestorView(t, kids[i], next, rank, limit);
      KidGathered(t, rank, id, next, limit, i);
      out := out + child;
    }
  }

  /** One more child. */
  lemma KidGathered(t: Tree, rank: Ranking, id: Id, b: Budget, limit: nat, i: nat)
    requires KidsReady(t, rank, id, b, limit) && i < |t.categories[id].childIds|
    requires Ready(t, rank, t.categories[id].childIds[i], b, limit)
    ensures var kid := t.categories[id].childIds[i];
      Gathered(t, id, KidWalks(t, rank, id, b, limit, i + 1)) ==
      Gathered(t, id, KidWalks(t, rank, id, b, limit, i)) + Gathered(t, kid, Walks(t, rank, kid, b, limit))
  {
    hide Walks, Gathered, Accepted, Ranked, Confined, Height, Ready, Prefixed;
    var kid := t.categories[id].childIds[i];
    var walks := Walks(t, rank, kid, b, limit);
    GatheredPrefixed(t, id, Down(i), walks);
    GatheredAppends(t, id, KidWalks(t, rank, id, b, limit, i), Prefixed(Down(i), walks));
  }

  method CollectEnumSubtree(t: Tree, id: Id, ghost rank: Ranking)
    returns (r: Result<seq<Intent>, ScopeError>)
    requires id in t.categories && id in rank
    requires t.categories[id].mode == Enum ==> Ready(t, rank, id, None, rank[id])
    ensures t.categories[id].mode != Enum ==> r == Err(NotEnum(id))
    ensures t.categories[id].mode == Enum ==> r == Ok(Gathered(t, id, Walks(t, rank, id, None, rank[id])))
    decreases rank[id], if Rooted(t) then Height(t, id) else 0, 2
  {
    if t.categories[id].mode != Enum {
      return Err(NotEnum(id));
    }
    var out := CollectViaAncestorView(t, id, None, rank, rank[id]);
    r := Ok(out);
  }

  lemma SelfGathered(t: Tree, id: Id)
    requires id in t.categories
    ensures Gathered(t, id, [[]]) == Shown(t.categories[id])
  {
    var self: seq<Walk> := [[]];
    assert self[..0] == [];
  }

  lemma NothingGathered(t: Tree, id: Id)
    ensures Gathered(t, id, []) == []
  {
  }

  /** The node itself, its children, its ENUM. */
  lemma ThreeGathered(t: Tree, id: Id, kids: seq<Walk>, across: seq<Walk>)
    ensures Gathered(t, id, [[]] + kids + across) ==
      Gathered(t, id, [[]]) + Gathered(t, id, kids) + Gathered(t, id, across)
  {
    hide Gathered;
    GatheredAppends(t, id, [[]] + kids, across);
    GatheredAppends(t, id, [[]], kids);
  }

  /** A view in three parts. */
  lemma ViewUnfolds(t: Tree, rank: Ranking, id: Id, b: Budget, limit: nat)
    requires Ready(t, rank, id, b, limit)
    ensures !Live(b) ==> Gathered(t, id, Walks(t, rank, id, b, limit)) == []
    ensures Live(b) ==>
      (ReadyBelow(t, rank, id, b, limit);
       var c := t.categories[id];
       Gathered(t, id, Walks(t, rank, id, b, limit)) ==
       Shown(c) +
       (if c.Bits().allowPenetration then
          Gathered(t, id, KidWalks(t, rank, id, Spent(b), limit, |c.childIds|)) else []) +
       (if Drags(c) then
          var e := c.extendsEnum.value;
          Gathered(t, e, Walks(t, rank, e, None, rank[e])) else []))
  {
    hide Accepted, Ranked, Confined, Height, Gathered, KidWalks, KidsReady, Prefixed, Shown;
    NothingGathered(t, id);
    if Live(b) {
      var c := t.categories[id];
      ReadyBelow(t, rank, id, b, limit);
      var kids := if c.Bits().allowPenetration then KidWalks(t, rank, id, Spent(b), limit, |c.childIds|) else [];
      var across := if Drags(c) then
          Prefixed(Jump, Walks(t, rank, c.extendsEnum.value, None, rank[c.extendsEnum.value])) else [];
      ThreeGathered(t, id, kids, across);
      SelfGathered(t, id);
      if Drags(c) {
        GatheredPrefixed(t, id, Jump, Walks(t, rank, c.extendsEnum.value, None, rank[c.extendsEnum.value]));
      }
    }
  }

  /** All walks of a search from the scene. */
  ghost function SceneWalks(t: Tree, rank: Ranking, top: nat, scene: Id): seq<Walk>
    requires Accepted(t) && SceneRanked(t, rank, top, scene)
  {
    [[]] + SceneKidWalks(t, rank, top, scene) + SceneAcross(t, rank, top, scene)
  }

  /** Those that go down first. */
  ghost function SceneKidWalks(t: Tree, rank: Ranking, top: nat, scene: Id): seq<Walk>
    requires Accepted(t) && SceneRanked(t, rank, top, scene)
  {
    var c := t.categories[scene];
    if c.Bits().searchesDown then
      KidWalks(t, rank, scene, InitialDepth(c.Bits().searchDepth), top, |c.childIds|)
    else []
  }

  /** Those that go across first. */
  ghost function SceneAcross(t: Tree, rank: Ranking, top: nat, scene: Id): seq<Walk>
    requires Accepted(t) && SceneRanked(t, rank, top, scene)
  {
    var c := t.categories[scene];
    if c.extendsEnum.Some? then
      Prefixed(Jump, Walks(t, rank, c.extendsEnum.value, None, rank[c.extendsEnum.value]))
    else []
  }

  /** What a search from the scene hands out along `walks`: the scene's own special intents stay home. */
  function ScenePool(t: Tree, scene: Id, walks: seq<Walk>): seq<Intent>
    requires scene in t.categories
  {
    if walks == [] then []
    else
      t.categories[scene].Ordinary() + Gathered(t, scene, walks[1..])
  }

  /**
   The pool of a scene: what all walks from it reach, each walk once, in depth-first order (see
   `SceneWalksAreComplete` and `SceneWalksAreOrdered`). A ranking of the ENUMs that the search
   enters exists exactly when the search ends (see `SceneRankingIffEnds`).
   */
  method FindScope(t: Tree, scene: Id, ghost rank: Ranking, ghost top: nat)
    returns (r: Result<seq<Intent>, ScopeError>)
    requires Accepted(t)
    requires scene in t.categories && t.categories[scene].mode != Enum ==> SceneRanked(t, rank, top, scene)
    ensures scene !in t.categories ==> r == Err(UnknownScene(scene))
    ensures scene in t.categories && t.categories[scene].mode == Enum ==> r == Err(EnumScene(scene))
    ensures scene in t.categories && t.categories[scene].mode != Enum ==>
      r == Ok(ScenePool(t, scene, SceneWalks(t, rank, top, scene)))
  {
    hide Walks, KidWalks, Gathered, Accepted, Ranked, Confined, Height, KidsReady, ScenePool, SceneWalks;
    if scene !in t.categories {
      return Err(UnknownScene(scene));
    }
    var c := t.categories[scene];
    if c.mode == Enum {
      return Err(EnumScene(scene));
    }
    PoolInParts(t, rank, top, scene);
    NothingGathered(t, scene);
    var candidates := c.Ordinary();
    assert candidates + [] == candidates;
    if c.Bits().searchesDown {
      var found := CollectKids(t, scene, InitialDepth(c.Bits().searchDepth), rank, top);
      candidates := candidates + found;
    }
    if c.extendsEnum != None {
      AcrossGathered(t, rank, top, scene);
      var dragged := CollectEnumSubtree(t, c.extendsEnum.value, rank);
      candidates := candidates + dragged.value;
    }
    assert candidates + [] == candidates;
    r := Ok(candidates);
  }

  lemma AcrossGathered(t: Tree, rank: Ranking, top: nat, scene: Id)
    requires Accepted(t) && SceneRanked(t, rank, top, scene) && t.categories[scene].extendsEnum.Some?
    ensures var e := t.categories[scene].extendsEnum.value;
      e in t.categories && t.categories[e].mode == Enum && Ready(t, rank, e, None, rank[e]) &&
      Gathered(t, scene, SceneAcross(t, rank, top, scene)) == Gathered(t, e, Walks(t, rank, e, None, rank[e]))
  {
    hide Walks, Accepted, Confined, Height, KidsReady, Gathered, Prefixed;
    var e := t.categories[scene].extendsEnum.value;
    GatheredPrefixed(t, scene, Jump, Walks(t, rank, e, None, rank[e]));
  }

  lemma PoolInParts(t: Tree, rank: Ranking, top: nat, scene: Id)
    requires Accepted(t) && SceneRanked(t, rank, top, scene)
    ensures ScenePool(t, scene, SceneWalks(t, rank, top, scene)) ==
      t.categories[scene].Ordinary() + Gathered(t, scene, SceneKidWalks(t, rank, top, scene)) +
      Gathered(t, scene, SceneAcross(t, rank, top, scene))
  {
    hide Accepted, Ranked, KidsReady, SceneKidWalks, SceneAcross, Gathered;
    var kids, across := SceneKidWalks(t, rank, top, scene), SceneAcross(t, rank, top, scene);
    assert ([[]] + kids + across)[1..] == kids + across;
    GatheredAppends(t, scene, kids, across);
    Associates(t.categories[scene].Ordinary(), Gathered(t, scene, kids), Gathered(t, scene, across));
  }

  lemma Associates(a: seq<Intent>, b: seq<Intent>, c: seq<Intent>)
    ensures a + (b + c) == a + b + c
  {
  }
}
