/**
 The pool of a scene, intent by intent: which intents of which categories are in it, how often and in
 which order, in terms of the modes and of the categories' own lists.
 */
module ScopePool {
  import opened Bytes
  import opened Scene
  import opened Scope
  import opened ScopeWalks

  /** Which intents of a category its ancestors see. */
  predicate Exposes(mode: Mode, special: bool) {
    match mode
    case Standard => !special
    case Enum => !special
    case Sequential => special
    case Branching => special
    case Drilldown => true
    case Memory => false
  }

  /** Where an intent of the pool comes from: the end of a walk, and a place in the list of that category. */
  datatype Origin = Origin(walk: Walk, index: nat)

  /** The intent a search finds there, if it does: of the scene itself, only an ordinary one. */
  function Found(t: Tree, scene: Id, o: Origin): Option<Intent> {
    var end := Reach(t, scene, o.walk);
    if Walked(t, scene, o.walk) && end.Some? && end.value in t.categories &&
       o.index < |t.categories[end.value].intents|
    then
      var c := t.categories[end.value];
      var found := c.intents[o.index];
      if if o.walk == [] then !found.isSpecial else Exposes(c.mode, found.isSpecial) then Some(found) else None
    else None
  }

  /** Walks in depth-first order; of one category, ordinary intents first, each kind as listed. */
  predicate Earlier(a: Origin, x: Intent, b: Origin, y: Intent) {
    Before(a.walk, b.walk) ||
    (a.walk == b.walk && if x.isSpecial == y.isSpecial then a.index < b.index else !x.isSpecial)
  }

  ghost predicate Rises(origins: seq<Origin>, pool: seq<Intent>)
    requires |origins| == |pool|
  {
    forall j, k | 0 <= j < k < |pool| :: Earlier(origins[j], pool[j], origins[k], pool[k])
  }

  /** The list is all that a search finds, each find once and in order. */
  ghost predicate IsPool(t: Tree, scene: Id, pool: seq<Intent>) {
    exists origins: seq<Origin> :: Spells(t, scene, origins, pool)
  }

  /** The list is what a search finds at these origins, and there are no others. */
  ghost predicate Spells(t: Tree, scene: Id, origins: seq<Origin>, pool: seq<Intent>) {
    |origins| == |pool| &&
    (forall k | 0 <= k < |pool| :: Found(t, scene, origins[k]) == Some(pool[k])) &&
    (forall o: Origin :: Found(t, scene, o).Some? ==> o in origins) &&
    Rises(origins, pool)
  }

  // ---------- One category ----------

  /** The places of the intents with the flag. */
  function Places(intents: seq<Intent>, special: bool): seq<nat> {
    if intents == [] then []
    else
      var n := |intents| - 1;
      Places(intents[..n], special) + if intents[n].isSpecial == special then [n] else []
  }

  lemma {:induction false} SelectPicks(intents: seq<Intent>, special: bool)
    ensures var at, out := Places(intents, special), Select(intents, special);
      |at| == |out| &&
      (forall k | 0 <= k < |at| :: at[k] < |intents| && intents[at[k]] == out[k] && out[k].isSpecial == special) &&
      (forall j, k | 0 <= j < k < |at| :: at[j] < at[k]) &&
      (forall i: nat | i < |intents| && intents[i].isSpecial == special :: i in at)
  {
    if intents != [] {
      var n := |intents| - 1;
      SelectPicks(intents[..n], special);
      forall i: nat | i < n && intents[i].isSpecial == special
        ensures i in Places(intents[..n], special)
      {
        assert intents[..n][i] == intents[i];
      }
    }
  }

  /** The places of the intents an ancestor sees, in the order it sees them. */
  function Visible(c: Category): seq<nat> {
    (if Exposes(c.mode, false) then Places(c.intents, false) else []) +
    (if Exposes(c.mode, true) then Places(c.intents, true) else [])
  }

  /** The places hold the intents, ordinary ones first, each kind as listed. */
  ghost predicate Picks(c: Category, at: seq<nat>, out: seq<Intent>) {
    |at| == |out| &&
    (forall k | 0 <= k < |at| :: at[k] < |c.intents| && c.intents[at[k]] == out[k]) &&
    forall j, k | 0 <= j < k < |at| ::
      if out[j].isSpecial == out[k].isSpecial then at[j] < at[k] else !out[j].isSpecial
  }

  lemma ShownPicks(c: Category)
    ensures Picks(c, Visible(c), Shown(c))
    ensures forall i: nat | i < |c.intents| :: Exposes(c.mode, c.intents[i].isSpecial) <==> i in Visible(c)
  {
    hide Places, Select;
    SelectPicks(c.intents, false);
    SelectPicks(c.intents, true);
  }

  lemma OrdinaryPicks(c: Category)
    ensures Picks(c, Places(c.intents, false), c.Ordinary())
    ensures forall i: nat | i < |c.intents| :: !c.intents[i].isSpecial <==> i in Places(c.intents, false)
  {
    hide Places, Select;
    SelectPicks(c.intents, false);
  }

  // ---------- Along the walks ----------

  function From(p: Walk, at: seq<nat>): seq<Origin> {
    seq(|at|, k requires 0 <= k < |at| => Origin(p, at[k]))
  }

  function OriginsAt(t: Tree, scene: Id, p: Walk): seq<Origin> {
    var end := Reach(t, scene, p);
    if end.Some? && end.value in t.categories then From(p, Visible(t.categories[end.value])) else []
  }

  function Origins(t: Tree, scene: Id, walks: seq<Walk>): seq<Origin> {
    if walks == [] then []
    else
      var n := |walks| - 1;
      Origins(t, scene, walks[..n]) + OriginsAt(t, scene, walks[n])
  }

  /** These origins give these intents in order, and all that can be found by walks of the list. */
  ghost predicate SpellsAlong(t: Tree, scene: Id, walks: seq<Walk>, origins: seq<Origin>, pool: seq<Intent>) {
    |origins| == |pool| &&
    (forall k | 0 <= k < |pool| :: origins[k].walk in walks && Found(t, scene, origins[k]) == Some(pool[k])) &&
    (forall o: Origin | o.walk in walks :: Found(t, scene, o).Some? ==> o in origins) &&
    Rises(origins, pool)
  }

  /** One walk. */
  lemma SpellsOne(t: Tree, scene: Id, p: Walk, at: seq<nat>, out: seq<Intent>)
    requires Walked(t, scene, p)
    requires var c := t.categories[Reach(t, scene, p).value];
      Picks(c, at, out) &&
      forall i: nat | i < |c.intents| ::
        (if p == [] then !c.intents[i].isSpecial else Exposes(c.mode, c.intents[i].isSpecial)) <==> i in at
    ensures SpellsAlong(t, scene, [p], From(p, at), out)
  {
    hide AllTaken, Exposes;
    var origins := From(p, at);
    forall k | 0 <= k < |out|
      ensures Found(t, scene, origins[k]) == Some(out[k])
    {
      assert at[k] in at;
    }
    forall o: Origin | o.walk in [p] && Found(t, scene, o).Some?
      ensures o in origins
    {
      assert o.index in at;
      var k :| 0 <= k < |at| && at[k] == o.index;
      assert origins[k] == o;
    }
  }

  lemma SpellsMore(t: Tree, scene: Id, a: seq<Walk>, x: seq<Origin>, u: seq<Intent>,
                   b: seq<Walk>, y: seq<Origin>, v: seq<Intent>)
    requires SpellsAlong(t, scene, a, x, u) && SpellsAlong(t, scene, b, y, v)
    requires forall p, q | p in a && q in b :: Before(p, q)
    ensures SpellsAlong(t, scene, a + b, x + y, u + v)
  {
    hide Found, Before;
    var all, pool := x + y, u + v;
    forall j, k | 0 <= j < k < |pool|
      ensures Earlier(all[j], pool[j], all[k], pool[k])
    {
      if k < |u| {
        assert Earlier(x[j], u[j], x[k], u[k]);
      } else if j >= |u| {
        assert Earlier(y[j - |u|], v[j - |u|], y[k - |u|], v[k - |u|]);
      } else {
        assert Before(x[j].walk, y[k - |u|].walk);
      }
    }
  }

  lemma {:induction false} GatheredSpells(t: Tree, scene: Id, walks: seq<Walk>)
    requires InDepthFirstOrder(walks)
    requires forall p | p in walks :: p != [] && Walked(t, scene, p)
    ensures SpellsAlong(t, scene, walks, Origins(t, scene, walks), Gathered(t, scene, walks))
  {
    hide Walked, Found, Before, InDepthFirstOrder, SpellsAlong, Picks, Visible, Shown;
    if walks == [] {
      NothingSpelled(t, scene);
    } else {
      var n := |walks| - 1;
      var p := walks[n];
      assert p in walks;
      WithoutLast(walks);
      GatheredSpells(t, scene, walks[..n]);
      WalkSpells(t, scene, p);
      SpellsMore(t, scene, walks[..n], Origins(t, scene, walks[..n]), Gathered(t, scene, walks[..n]),
                 [p], OriginsAt(t, scene, p), ShownAt(t, scene, p));
      assert walks[..n] + [p] == walks;
    }
  }

  lemma WithoutLast(walks: seq<Walk>)
    requires walks != [] && InDepthFirstOrder(walks)
    ensures var n := |walks| - 1;
      InDepthFirstOrder(walks[..n]) && forall q | q in walks[..n] :: q in walks && Before(q, walks[n])
  {
    hide Before;
    var n := |walks| - 1;
    forall q | q in walks[..n]
      ensures q in walks && Before(q, walks[n])
    {
      var i :| 0 <= i < n && walks[..n][i] == q;
      assert walks[i] == q;
    }
    forall i, j | 0 <= i < j < n
      ensures Before(walks[..n][i], walks[..n][j])
    {
      assert Before(walks[i], walks[j]);
    }
  }

  lemma NothingSpelled(t: Tree, scene: Id)
    ensures SpellsAlong(t, scene, [], [], [])
  {
  }

  lemma WalkSpells(t: Tree, scene: Id, p: Walk)
    requires p != [] && Walked(t, scene, p)
    ensures SpellsAlong(t, scene, [p], OriginsAt(t, scene, p), ShownAt(t, scene, p))
  {
    hide Picks, Visible, Shown, SpellsAlong, AllTaken;
    var c := t.categories[Reach(t, scene, p).value];
    ShownPicks(c);
    SpellsOne(t, scene, p, Visible(c), Shown(c));
  }

  lemma OwnSpells(t: Tree, scene: Id)
    requires scene in t.categories
    ensures var c := t.categories[scene];
      SpellsAlong(t, scene, [[]], From([], Places(c.intents, false)), c.Ordinary())
  {
    hide Picks, Places, SpellsAlong;
    OrdinaryPicks(t.categories[scene]);
    SpellsOne(t, scene, [], Places(t.categories[scene].intents, false), t.categories[scene].Ordinary());
  }

  // ---------- The pool ----------

  /** What is on the list of walks is what a search takes, and the scene itself comes first. */
  lemma ListedWalks(t: Tree, rank: Ranking, top: nat, scene: Id)
    requires Accepted(t) && SceneRanked(t, rank, top, scene)
    ensures var walks := SceneWalks(t, rank, top, scene);
      walks != [] && walks[0] == [] && InDepthFirstOrder(walks) &&
      (forall p: Walk :: p in walks <==> Walked(t, scene, p)) &&
      forall p: Walk | p in walks[1..] :: p != []
  {
    hide Accepted, SceneRanked, SceneFollows, Walked, SceneKidWalks, SceneAcross, InDepthFirstOrder;
    var walks := SceneWalks(t, rank, top, scene);
    SceneWalksAreOrdered(t, rank, top, scene);
    forall p: Walk
      ensures p in walks <==> Walked(t, scene, p)
    {
      SceneWalksAreComplete(t, rank, top, scene, p);
      SceneFollowsIff(t, scene, p);
    }
    forall p: Walk | p in walks[1..]
      ensures p != []
    {
      var i :| 0 <= i < |walks[1..]| && walks[1..][i] == p;
      assert walks[0] != walks[i + 1];
    }
  }

  /**
   The pool of a scene, exactly: the ordinary intents in the scene's own list, and at the end of every
   other walk the intents that the mode there exposes; in the order of the walks, ordinary intents of
   a category before special ones, each kind in the order of the category's list.
   */
  lemma PoolIsWhatIsFound(t: Tree, rank: Ranking, top: nat, scene: Id)
    requires Accepted(t) && SceneRanked(t, rank, top, scene)
    ensures IsPool(t, scene, ScenePool(t, scene, SceneWalks(t, rank, top, scene)))
  {
    hide Accepted, Ranked, KidsReady, Walked, SceneWalks, IsPool, ScenePool, InDepthFirstOrder;
    ListedWalks(t, rank, top, scene);
    PoolSpells(t, scene, SceneWalks(t, rank, top, scene));
  }

  lemma PoolSpells(t: Tree, scene: Id, walks: seq<Walk>)
    requires scene in t.categories && walks != [] && walks[0] == [] && InDepthFirstOrder(walks)
    requires forall p: Walk :: p in walks <==> Walked(t, scene, p)
    requires forall p: Walk | p in walks[1..] :: p != []
    ensures IsPool(t, scene, ScenePool(t, scene, walks))
  {
    hide Walked, SpellsAlong, Spells, Places, Before;
    var c, rest := t.categories[scene], walks[1..];
    var self: seq<Walk> := [[]];
    OwnSpells(t, scene);
    RestInOrder(walks);
    GatheredSpells(t, scene, rest);
    var own, others := From([], Places(c.intents, false)), Origins(t, scene, rest);
    AfterNothing(rest);
    SpellsMore(t, scene, self, own, c.Ordinary(), rest, others, Gathered(t, scene, rest));
    assert self + rest == walks;
    SpellsAll(t, scene, walks, own + others, c.Ordinary() + Gathered(t, scene, rest));
  }

  lemma RestInOrder(walks: seq<Walk>)
    requires walks != [] && InDepthFirstOrder(walks)
    ensures InDepthFirstOrder(walks[1..]) && forall p: Walk | p in walks[1..] :: p in walks
  {
    hide Before;
    forall i, j | 0 <= i < j < |walks| - 1
      ensures Before(walks[1..][i], walks[1..][j])
    {
      assert Before(walks[i + 1], walks[j + 1]);
    }
  }

  lemma AfterNothing(walks: seq<Walk>)
    requires forall p: Walk | p in walks :: p != []
    ensures forall p: Walk, q: Walk | p == [] && q in walks :: Before(p, q)
  {
  }

  lemma SpellsAll(t: Tree, scene: Id, walks: seq<Walk>, origins: seq<Origin>, pool: seq<Intent>)
    requires SpellsAlong(t, scene, walks, origins, pool)
    requires forall p: Walk :: p in walks <==> Walked(t, scene, p)
    ensures Spells(t, scene, origins, pool)
  {
    hide Walked, Rises;
  }

  /**
   An intent is in the pool exactly when the scene lists it as an ordinary one, or some other walk of the
   search ends at a category that lists it and whose mode exposes its kind.
   */
  lemma InPoolIff(t: Tree, rank: Ranking, top: nat, scene: Id, x: Intent)
    requires Accepted(t) && SceneRanked(t, rank, top, scene)
    ensures x in ScenePool(t, scene, SceneWalks(t, rank, top, scene)) <==>
      (x in t.categories[scene].intents && !x.isSpecial) ||
      exists p: Walk :: p != [] && SceneFollows(t, scene, p) && EndsAt(t, scene, p, x)
  {
    hide Accepted, Ranked, KidsReady, SceneWalks, SceneFollows, Spells, ScenePool;
    PoolIsWhatIsFound(t, rank, top, scene);
    var pool := ScenePool(t, scene, SceneWalks(t, rank, top, scene));
    var origins: seq<Origin> :| Spells(t, scene, origins, pool);
    InSpelled(t, scene, origins, pool, x);
  }

  lemma InSpelled(t: Tree, scene: Id, origins: seq<Origin>, pool: seq<Intent>, x: Intent)
    requires scene in t.categories && Spells(t, scene, origins, pool)
    ensures x in pool <==>
      (x in t.categories[scene].intents && !x.isSpecial) ||
      exists p: Walk :: p != [] && SceneFollows(t, scene, p) && EndsAt(t, scene, p, x)
  {
    hide Walked, SceneFollows, Exposes, Rises, EndsAt, Found;
    if x in pool {
      var k :| 0 <= k < |pool| && pool[k] == x;
      FoundEnds(t, scene, origins[k]);
      SceneFollowsIff(t, scene, origins[k].walk);
    }
    if x in t.categories[scene].intents && !x.isSpecial {
      FoundAt(t, scene, [], x);
    }
    if p: Walk :| p != [] && SceneFollows(t, scene, p) && EndsAt(t, scene, p, x) {
      SceneFollowsIff(t, scene, p);
      FoundAt(t, scene, p, x);
    }
  }

  lemma FoundEnds(t: Tree, scene: Id, o: Origin)
    requires scene in t.categories && Found(t, scene, o).Some?
    ensures var x := Found(t, scene, o).value;
      Walked(t, scene, o.walk) &&
      if o.walk == [] then x in t.categories[scene].intents && !x.isSpecial else EndsAt(t, scene, o.walk, x)
  {
    hide Exposes, Walked;
  }

  /** The walk ends at a category that lists the intent and shows its kind to ancestors. */
  predicate EndsAt(t: Tree, scene: Id, p: Walk, x: Intent) {
    var end := Reach(t, scene, p);
    end.Some? && end.value in t.categories && x in t.categories[end.value].intents &&
    Exposes(t.categories[end.value].mode, x.isSpecial)
  }

  lemma FoundAt(t: Tree, scene: Id, p: Walk, x: Intent)
    requires if p == [] then scene in t.categories && x in t.categories[scene].intents && !x.isSpecial
      else Walked(t, scene, p) && EndsAt(t, scene, p, x)
    ensures exists i: nat :: Found(t, scene, Origin(p, i)) == Some(x)
  {
    hide Exposes, AllTaken;
    var c := t.categories[Reach(t, scene, p).value];
    var i :| 0 <= i < |c.intents| && c.intents[i] == x;
    NoneTaken(t, scene, true);
    assert Found(t, scene, Origin(p, i)) == Some(x);
  }

  // ---------- No other list fits ----------

  lemma {:induction false} BeforeOneWay(p: Walk, q: Walk)
    ensures !(Before(p, q) && Before(q, p))
    decreases p
  {
    if p != [] && q != [] && p[0] == q[0] {
      BeforeOneWay(p[1..], q[1..]);
    }
  }

  lemma EarlierOneWay(a: Origin, x: Intent, b: Origin, y: Intent)
    ensures !(Earlier(a, x, b, y) && Earlier(b, y, a, x))
  {
    BeforeOneWay(a.walk, b.walk);
    BeforeOneWay(a.walk, a.walk);
  }

  /** The first `k` finds of one list are those of the other, and so is the next, if there is one. */
  lemma SameNext(t: Tree, scene: Id, a: seq<Origin>, x: seq<Intent>, b: seq<Origin>, y: seq<Intent>, k: nat)
    requires Spells(t, scene, a, x) && Spells(t, scene, b, y)
    requires k < |a| && k <= |b| && a[..k] == b[..k]
    ensures k < |b| && a[k] == b[k]
  {
    hide Found, Earlier;
    assert Found(t, scene, a[k]).Some?;
    var j :| 0 <= j < |b| && b[j] == a[k];
    if j < k {
      assert a[..k][j] == b[..k][j] && Earlier(a[j], x[j], a[k], x[k]);
      EarlierOneWay(a[j], x[j], a[k], x[k]);
    } else if j > k {
      assert Found(t, scene, b[k]).Some?;
      var i :| 0 <= i < |a| && a[i] == b[k];
      assert i < k ==> a[..k][i] == b[..k][i] && Earlier(b[i], y[i], b[k], y[k]);
      EarlierOneWay(b[k], y[k], b[k], y[k]);
      EarlierOneWay(a[k], x[k], b[k], y[k]);
    }
  }

  lemma {:induction false} SameFinds(t: Tree, scene: Id, a: seq<Origin>, x: seq<Intent>,
                                     b: seq<Origin>, y: seq<Intent>, k: nat)
    requires Spells(t, scene, a, x) && Spells(t, scene, b, y) && k <= |a|
    ensures k <= |b| && a[..k] == b[..k]
  {
    hide Spells;
    if k > 0 {
      SameFinds(t, scene, a, x, b, y, k - 1);
      SameNext(t, scene, a, x, b, y, k - 1);
      assert a[..k] == a[..k - 1] + [a[k - 1]] && b[..k] == b[..k - 1] + [b[k - 1]];
    }
  }

  /** This says all there is to say about a pool: no two lists fit. */
  lemma PoolIsUnique(t: Tree, scene: Id, x: seq<Intent>, y: seq<Intent>)
    requires IsPool(t, scene, x) && IsPool(t, scene, y)
    ensures x == y
  {
    hide Found, Rises;
    var a: seq<Origin> :| Spells(t, scene, a, x);
    var b: seq<Origin> :| Spells(t, scene, b, y);
    SameFinds(t, scene, a, x, b, y, |a|);
    SameFinds(t, scene, b, y, a, x, |b|);
    assert a == a[..|a|] == b[..|b|] == b;
    forall k | 0 <= k < |x|
      ensures x[k] == y[k]
    {
      assert Found(t, scene, a[k]) == Some(x[k]);
      assert Found(t, scene, b[k]) == Some(y[k]);
    }
  }
}
