/** The scene loader (src/sandroid/core/scene_loader.py), from already parsed entries to a tree. */
module Loader {
  import opened Bytes
  import opened Scene

  /** One entry of the flat list; child lists do not exist yet. */
  datatype Entry = Entry(
    id: Id, name: string, parentId: Option<Id>, mode: Mode, extendsEnum: Option<Id>, intents: seq<Intent>)

  datatype Error =
    | DuplicateId(id: Id)
    | RootMissing
    | RootHasParent(id: Id)
    | MissingParent(id: Id)
    | UnknownParent(id: Id)
    | CycleDetected(id: Id)
    | Orphans(ids: set<Id>)
    | BadStructure(id: Id)
    | DuplicateName(id: Id)
    | BadExtends(id: Id)

  function Parsed(e: Entry): Category {
    Category(e.id, e.name, e.parentId, e.mode, e.extendsEnum, e.intents, [])
  }

  function IdsOf(entries: seq<Entry>): (ids: seq<Id>)
    ensures |ids| == |entries|
  {
    seq(|entries|, i requires 0 <= i < |entries| => entries[i].id)
  }

  /** The dictionary of the entries, in which a later entry would replace an earlier one. */
  function ById(entries: seq<Entry>): Categories {
    if entries == [] then map[]
    else ById(entries[..|entries| - 1])[entries[|entries| - 1].id := Parsed(entries[|entries| - 1])]
  }

  lemma {:induction false} ByIdHolds(entries: seq<Entry>)
    ensures forall id :: id in ById(entries) <==> id in IdsOf(entries)
    ensures forall id | id in ById(entries) :: ById(entries)[id].id == id && ById(entries)[id].childIds == []
  {
    if entries != [] {
      var n := |entries| - 1;
      ByIdHolds(entries[..n]);
      assert IdsOf(entries) == IdsOf(entries[..n]) + [entries[n].id];
    }
  }

  // ---------- Wiring ----------

  /** The children of `p` among `order`, in that order. */
  function ChildrenIn(cats: Categories, root: Id, order: seq<Id>, p: Id): seq<Id> {
    if order == [] then []
    else
      var n := |order| - 1;
      ChildrenIn(cats, root, order[..n], p) + (if IsChild(cats, root, order[n], p) then [order[n]] else [])
  }

  lemma {:induction false} ChildrenInMeans(cats: Categories, root: Id, order: seq<Id>, p: Id)
    requires NoDuplicates(order)
    ensures NoDuplicates(ChildrenIn(cats, root, order, p))
    ensures forall c :: c in ChildrenIn(cats, root, order, p) <==> c in order && IsChild(cats, root, c, p)
  {
    if order != [] {
      var n := |order| - 1;
      ChildrenInMeans(cats, root, order[..n], p);
      assert order == order[..n] + [order[n]];
      assert order[n] !in order[..n];
    }
  }

  /** `cats` with the child lists that `order` gives. */
  function Wired(cats: Categories, root: Id, order: seq<Id>): Categories {
    map id | id in cats :: cats[id].(childIds := ChildrenIn(cats, root, order, id))
  }

  lemma WiringInverts(cats: Categories, root: Id, order: seq<Id>)
    requires ParentsKnown(cats, root) && NoDuplicates(order) && forall id :: id in order <==> id in cats
    ensures ParentsKnown(Wired(cats, root, order), root) && ChildrenInvertParents(Wired(cats, root, order), root)
  {
    var wired := Wired(cats, root, order);
    forall p | p in wired
      ensures NoDuplicates(wired[p].childIds) && forall c :: c in wired[p].childIds <==> IsChild(wired, root, c, p)
    {
      ChildrenInMeans(cats, root, order, p);
    }
  }

  lemma {:induction false} WiringKeepsClimbs(cats: Categories, root: Id, order: seq<Id>, id: Id, steps: nat)
    ensures ClimbsIn(Wired(cats, root, order), root, id, steps) <==> ClimbsIn(cats, root, id, steps)
    decreases steps
  {
    if steps > 0 && id in cats && cats[id].parentId.Some? {
      WiringKeepsClimbs(cats, root, order, cats[id].parentId.value, steps - 1);
    }
  }

  /** Why the wiring loop stops at `id`. */
  predicate Blames(cats: Categories, root: Id, e: Error) {
    match e
    case RootHasParent(id) => id in cats && id == root && cats[id].parentId.Some?
    case MissingParent(id) => id in cats && id != root && cats[id].parentId == None
    case UnknownParent(id) =>
      id in cats && id != root && cats[id].parentId.Some? && cats[id].parentId.value !in cats
    case _ => false
  }

  function Blamed(e: Error): Option<Id> {
    match e
    case RootHasParent(id) => Some(id)
    case MissingParent(id) => Some(id)
    case UnknownParent(id) => Some(id)
    case _ => None
  }

  /** The blame falls on the first entry, in declaration order, whose parent pointer is out of place. */
  predicate BlamesFirst(cats: Categories, root: Id, order: seq<Id>, e: Error) {
    Blames(cats, root, e) &&
    exists i :: 0 <= i < |order| && Blamed(e) == Some(order[i]) &&
      forall j | 0 <= j < i :: ParentKnown(cats, root, order[j])
  }

  ghost predicate AllClimb(cats: Categories, root: Id) {
    forall id | id in cats :: Climbs(cats, root, id)
  }

  /** The categories that do not climb to the root. */
  ghost function Stray(cats: Categories, root: Id): (ids: set<Id>)
    ensures ids == {} <==> AllClimb(cats, root)
  {
    var ids := set id | id in cats && !Climbs(cats, root, id);
    assert AllClimb(cats, root) || exists id :: id in cats && !Climbs(cats, root, id) && id in ids;
    ids
  }

  lemma StrayAgrees(cats: Categories, root: Id, order: seq<Id>)
    ensures Stray(Wired(cats, root, order), root) == Stray(cats, root)
  {
    ClimbsAgree(cats, root, order);
  }

  predicate Closed(cats: Categories) {
    forall id | id in cats :: forall c | c in cats[id].childIds :: c in cats
  }

  /**
   Succeeds exactly when the parent pointers form a tree rooted at `root`; the child lists are then
   their inverse, in declaration order. A cycle is never reported as such: it shows as orphans.
   */
  method WireChildren(byId0: Categories, order: seq<Id>, root: Id) returns (r: Result<Categories, Error>)
    requires root in byId0 && NoDuplicates(order) && forall id :: id in order <==> id in byId0
    requires forall id | id in byId0 :: byId0[id].id == id && byId0[id].childIds == []
    ensures r.Ok? <==> ParentsKnown(byId0, root) && AllClimb(byId0, root)
    ensures r.Ok? ==> r.value == Wired(byId0, root, order) && Rooted(Tree(root, r.value))
    ensures r.Err? && !ParentsKnown(byId0, root) ==> BlamesFirst(byId0, root, order, r.error)
    ensures r.Err? ==> !r.error.CycleDetected?
    ensures r.Err? && ParentsKnown(byId0, root) ==>
      r.error == Orphans(Stray(byId0, root)) && Stray(byId0, root) != {}
  {
    hide ClimbsIn, ChildrenIn, Climbs, NoDuplicates, Stray;
    r := AppendChildren(byId0, order, root);
    if r.Ok? {
      WiringInverts(byId0, root, order);
      ClimbsAgree(byId0, root, order);
      StrayAgrees(byId0, root, order);
      var e := AssertAcyclic(r.value, root);
      if e != None {
        r := Err(e.value);
      }
    }
  }

  predicate ParentKnown(cats: Categories, root: Id, id: Id) {
    id in cats && cats[id].id == id &&
    if id == root then cats[id].parentId == None
    else cats[id].parentId.Some? && cats[id].parentId.value in cats
  }

  lemma EveryParentKnown(cats: Categories, root: Id, order: seq<Id>)
    requires root in cats && forall id :: id in order <==> id in cats
    requires forall j | 0 <= j < |order| :: ParentKnown(cats, root, order[j])
    ensures ParentsKnown(cats, root)
  {
  }

  /** The wiring loop. */
  method AppendChildren(byId0: Categories, order: seq<Id>, root: Id) returns (r: Result<Categories, Error>)
    requires root in byId0 && forall id :: id in order <==> id in byId0
    requires forall id | id in byId0 :: byId0[id].id == id && byId0[id].childIds == []
    ensures r.Ok? <==> ParentsKnown(byId0, root)
    ensures r.Ok? ==> r.value == Wired(byId0, root, order)
    ensures r.Err? ==> BlamesFirst(byId0, root, order, r.error)
  {
    hide ChildrenIn, IsChild, ParentsKnown, BlamesFirst;
    var byId := byId0;
    NothingWired(byId0, root);
    r := Ok(byId);
    for i := 0 to |order|
      invariant byId == Wired(byId0, root, order[..i])
      invariant forall j | 0 <= j < i :: ParentKnown(byId0, root, order[j])
    {
      assert order[i] in order;
      var category := byId[order[i]];
      WireOne(byId0, root, order, i);
      if category.id == root {
        if category.parentId != None {
          r := Err(RootHasParent(category.id));
          BlameIsDeserved(byId0, root, order, i, r.error);
          return;
        }
      } else {
        if category.parentId == None {
          r := Err(MissingParent(category.id));
          BlameIsDeserved(byId0, root, order, i, r.error);
          return;
        }
        var parentId := category.parentId.value;
        if parentId !in byId {
          r := Err(UnknownParent(category.id));
          BlameIsDeserved(byId0, root, order, i, r.error);
          return;
        }
        byId := byId[parentId := byId[parentId].(childIds := byId[parentId].childIds + [category.id])];
      }
    }
    assert order[..|order|] == order;
    EveryParentKnown(byId0, root, order);
    r := Ok(byId);
  }

  /** One turn of the wiring loop. */
  lemma WireOne(cats: Categories, root: Id, order: seq<Id>, i: nat)
    requires i < |order| && order[i] in cats
    ensures var before, after := Wired(cats, root, order[..i]), Wired(cats, root, order[..i + 1]);
      var c := order[i];
      after == if c != root && cats[c].parentId.Some? && cats[c].parentId.value in cats then
                 var p := cats[c].parentId.value;
                 before[p := before[p].(childIds := before[p].childIds + [c])]
               else before
  {
    assert order[..i + 1][..i] == order[..i];
    forall p | p in cats
      ensures ChildrenIn(cats, root, order[..i + 1], p) ==
        ChildrenIn(cats, root, order[..i], p) + (if IsChild(cats, root, order[i], p) then [order[i]] else [])
    {
    }
    var before, after, c := Wired(cats, root, order[..i]), Wired(cats, root, order[..i + 1]), order[i];
    if c != root && cats[c].parentId.Some? && cats[c].parentId.value in cats {
      var p := cats[c].parentId.value;
      var updated := before[p := before[p].(childIds := before[p].childIds + [c])];
      assert updated.Keys == after.Keys;
      forall q | q in cats
        ensures after[q] == updated[q]
      {
        assert IsChild(cats, root, c, q) <==> q == p;
      }
    } else {
      assert before.Keys == after.Keys;
      forall q | q in cats
        ensures after[q] == before[q]
      {
        assert !IsChild(cats, root, c, q);
      }
    }
  }

  lemma NothingWired(cats: Categories, root: Id)
    requires forall id | id in cats :: cats[id].childIds == []
    ensures Wired(cats, root, []) == cats
  {
  }

  lemma BlameIsDeserved(cats: Categories, root: Id, order: seq<Id>, i: nat, e: Error)
    requires i < |order| && Blames(cats, root, e) && Blamed(e) == Some(order[i])
    requires forall j | 0 <= j < i :: ParentKnown(cats, root, order[j])
    ensures !ParentsKnown(cats, root) && BlamesFirst(cats, root, order, e)
  {
    hide ParentKnown;
  }

  lemma ClimbAgrees(cats: Categories, root: Id, order: seq<Id>, id: Id)
    ensures Climbs(Wired(cats, root, order), root, id) <==> Climbs(cats, root, id)
  {
    hide Wired, ClimbsIn;
    if Climbs(cats, root, id) {
      var k: nat :| ClimbsIn(cats, root, id, k);
      WiringKeepsClimbs(cats, root, order, id, k);
      assert ClimbsIn(Wired(cats, root, order), root, id, k);
    }
    if Climbs(Wired(cats, root, order), root, id) {
      var k: nat :| ClimbsIn(Wired(cats, root, order), root, id, k);
      WiringKeepsClimbs(cats, root, order, id, k);
      assert ClimbsIn(cats, root, id, k);
    }
  }

  lemma ClimbsAgree(cats: Categories, root: Id, order: seq<Id>)
    ensures forall id :: Climbs(Wired(cats, root, order), root, id) <==> Climbs(cats, root, id)
  {
    forall id
      ensures Climbs(Wired(cats, root, order), root, id) <==> Climbs(cats, root, id)
    {
      ClimbAgrees(cats, root, order, id);
    }
  }

  // ---------- The depth-first search ----------

  /** What the search keeps on wired categories: each pending or seen node hangs below a seen one. */
  ghost predicate Frontier(cats: Categories, root: Id, stack: seq<Id>, seen: set<Id>) {
    NoDuplicates(stack) && seen <= cats.Keys &&
    (seen == {} ==> stack == [root]) && (seen != {} ==> root in seen) &&
    (forall x | x in stack :: x in cats && x !in seen && Climbs(cats, root, x)) &&
    (forall x | x in seen :: Climbs(cats, root, x)) &&
    (forall x | (x in stack || x in seen) && x != root :: cats[x].parentId.Some? && cats[x].parentId.value in seen) &&
    (forall x, c | x in seen && IsChild(cats, root, c, x) :: c in seen || c in stack)
  }

  lemma ChildClimbs(cats: Categories, root: Id, c: Id, p: Id)
    requires IsChild(cats, root, c, p) && Climbs(cats, root, p)
    ensures Climbs(cats, root, c)
  {
    var k: nat :| ClimbsIn(cats, root, p, k);
    assert ClimbsIn(cats, root, c, k + 1);
  }

  lemma JoinDistinct(a: seq<Id>, b: seq<Id>)
    requires NoDuplicates(a) && NoDuplicates(b) && forall x | x in b :: x !in a
    ensures NoDuplicates(a + b)
  {
    forall i, j | 0 <= i < j < |a + b|
      ensures (a + b)[i] != (a + b)[j]
    {
      if i < |a| <= j {
        assert a[i] in a && b[j - |a|] in b;
      }
    }
  }

  lemma FrontierAdvances(cats: Categories, root: Id, stack: seq<Id>, seen: set<Id>)
    requires ParentsKnown(cats, root) && ChildrenInvertParents(cats, root)
    requires Frontier(cats, root, stack, seen) && stack != []
    ensures var n := |stack| - 1;
      Frontier(cats, root, stack[..n] + cats[stack[n]].childIds, seen + {stack[n]})
  {
    var n := |stack| - 1;
    var cur := stack[n];
    var kids := cats[cur].childIds;
    var stack' := stack[..n] + kids;
    assert cur in stack;
    forall x | x in kids
      ensures x in cats && x !in seen && x != cur && x !in stack[..n] && Climbs(cats, root, x)
    {
      ChildClimbs(cats, root, x, cur);
    }
    JoinDistinct(stack[..n], kids);
    assert forall x :: x in stack' <==> x in stack[..n] || x in kids;
    assert stack == stack[..n] + [cur];
    assert forall x | x in stack[..n] :: x in stack && x != cur;
    forall x, c | (x in seen || x == cur) && IsChild(cats, root, c, x)
      ensures c in seen || c == cur || c in stack'
    {
      if x == cur {
        assert c in kids;
      } else if c in stack {
        assert c == cur || c in stack[..n];
      }
    }
  }

  lemma {:induction false} ClimbersAreSeen(cats: Categories, root: Id, seen: set<Id>, id: Id, steps: nat)
    requires ParentsKnown(cats, root) && Frontier(cats, root, [], seen) && ClimbsIn(cats, root, id, steps)
    ensures id in seen
    decreases steps
  {
    if steps > 0 {
      var p := cats[id].parentId.value;
      ClimbersAreSeen(cats, root, seen, p, steps - 1);
      assert IsChild(cats, root, id, p);
    }
  }

  /**
   Ends on every closed input. On wired categories the cycle branch is dead and what is left over
   are exactly the categories that do not climb to the root.
   */
  method AssertAcyclic(byId: Categories, root: Id) returns (e: Option<Error>)
    requires root in byId && Closed(byId)
    ensures ParentsKnown(byId, root) && ChildrenInvertParents(byId, root) ==>
      e == if AllClimb(byId, root) then None
           else Some(Orphans(Stray(byId, root)))
  {
    ghost var wired := ParentsKnown(byId, root) && ChildrenInvertParents(byId, root);
    var seen: set<Id> := {};
    var stack := [root];
    assert ClimbsIn(byId, root, root, 0);
    while stack != []
      invariant seen <= byId.Keys && forall x | x in stack :: x in byId
      invariant wired ==> Frontier(byId, root, stack, seen)
      decreases byId.Keys - seen
    {
      var n := |stack| - 1;
      var cur := stack[n];
      assert cur in stack;
      if cur in seen {
        assert !wired;
        return Some(CycleDetected(cur));
      }
      if wired {
        FrontierAdvances(byId, root, stack, seen);
      }
      stack := stack[..n];
      seen := seen + {cur};
      stack := stack + byId[cur].childIds;
    }
    var orphans := byId.Keys - seen;
    if wired {
      forall id | id in byId
        ensures id in seen <==> Climbs(byId, root, id)
      {
        if Climbs(byId, root, id) {
          var k: nat :| ClimbsIn(byId, root, id, k);
          ClimbersAreSeen(byId, root, seen, id, k);
        }
      }
      assert orphans == Stray(byId, root);
    }
    e := if orphans != {} then Some(Orphans(orphans)) else None;
  }

  // ---------- Validation ----------

  method AssertUnique(names: seq<string>) returns (unique: bool)
    ensures unique <==> NoDuplicates(names)
  {
    var seen: set<string> := {};
    for i := 0 to |names|
      invariant forall x :: x in seen <==> x in names[..i]
      invariant NoDuplicates(names[..i])
    {
      if names[i] in seen {
        assert names[i] in names[..i];
        return false;
      }
      assert names[..i + 1] == names[..i] + [names[i]];
      seen := seen + {names[i]};
    }
    assert names[..|names|] == names;
    unique := true;
  }

  method ValidateStructuralRules(byId: Categories, order: seq<Id>) returns (e: Option<Error>)
    requires forall id :: id in order <==> id in byId
    ensures e == None <==> forall id | id in byId :: StructureOk(byId[id])
    ensures e != None ==> e.value.BadStructure? && e.value.id in byId && !StructureOk(byId[e.value.id])
  {
    for i := 0 to |order|
      invariant forall j | 0 <= j < i :: order[j] in byId && StructureOk(byId[order[j]])
    {
      assert order[i] in order;
      if !StructureOk(byId[order[i]]) {
        return Some(BadStructure(order[i]));
      }
    }
    e := None;
  }

  method ValidateUniqueNames(byId: Categories, order: seq<Id>) returns (e: Option<Error>)
    requires Closed(byId) && forall id :: id in order <==> id in byId
    ensures e == None <==> forall id | id in byId :: SiblingNamesDiffer(byId, byId[id])
    ensures e != None ==> e.value.DuplicateName? && e.value.id in byId && !SiblingNamesDiffer(byId, byId[e.value.id])
  {
    for i := 0 to |order|
      invariant forall j | 0 <= j < i :: order[j] in byId && SiblingNamesDiffer(byId, byId[order[j]])
    {
      assert order[i] in order;
      var unique := AssertUnique(NamesOf(byId, byId[order[i]].childIds));
      if !unique {
        return Some(DuplicateName(order[i]));
      }
    }
    e := None;
  }

  method ValidateExtendsEnum(byId: Categories, order: seq<Id>) returns (e: Option<Error>)
    requires forall id :: id in order <==> id in byId
    ensures e == None <==> forall id | id in byId :: ExtendsOk(byId, byId[id])
    ensures e != None ==> e.value.BadExtends? && e.value.id in byId && !ExtendsOk(byId, byId[e.value.id])
  {
    for i := 0 to |order|
      invariant forall j | 0 <= j < i :: order[j] in byId && ExtendsOk(byId, byId[order[j]])
    {
      assert order[i] in order;
      var category := byId[order[i]];
      if category.extendsEnum == None {
        continue;
      }
      var target := category.extendsEnum.value;
      if target !in byId || byId[target].mode != Enum || category.mode == Enum {
        return Some(BadExtends(order[i]));
      }
    }
    e := None;
  }

  /** The tree that `entries` describe, whether or not it is a good one. */
  function Assembled(entries: seq<Entry>, root: Id): Tree {
    Tree(root, Wired(ById(entries), root, IdsOf(entries)))
  }

  lemma {:induction false} EntryIsHeld(entries: seq<Entry>, i: nat)
    requires NoDuplicates(IdsOf(entries)) && i < |entries|
    ensures entries[i].id in ById(entries) && ById(entries)[entries[i].id] == Parsed(entries[i])
  {
    var n := |entries| - 1;
    if i < n {
      assert IdsOf(entries)[i] != IdsOf(entries)[n];
      assert IdsOf(entries[..n]) == IdsOf(entries)[..n];
      EntryIsHeld(entries[..n], i);
    }
  }

  /** The entries from which a list of children stems, in the order of declaration. */
  function Sources(entries: seq<Entry>, p: Id): seq<nat> {
    if entries == [] then []
    else
      var n := |entries| - 1;
      Sources(entries[..n], p) + if entries[n].parentId == Some(p) then [n] else []
  }

  lemma {:induction false} SourcesMean(entries: seq<Entry>, p: Id)
    ensures var from := Sources(entries, p);
      (forall k | 0 <= k < |from| :: from[k] < |entries|) &&
      (forall i: nat | i < |entries| :: i in from <==> entries[i].parentId == Some(p)) &&
      forall j, k | 0 <= j < k < |from| :: from[j] < from[k]
  {
    if entries != [] {
      var n := |entries| - 1;
      SourcesMean(entries[..n], p);
      var from := Sources(entries[..n], p);
      assert forall i: nat | i < n :: i in from <==> entries[..n][i].parentId == Some(p);
      assert forall k | 0 <= k < |from| :: from[k] < n;
    }
  }

  lemma {:induction false} ChildrenAreSources(cats: Categories, root: Id, entries: seq<Entry>, p: Id)
    requires root in cats && cats[root].parentId == None
    requires forall i | 0 <= i < |entries| ::
      entries[i].id in cats && cats[entries[i].id].parentId == entries[i].parentId
    ensures var kids, from := ChildrenIn(cats, root, IdsOf(entries), p), Sources(entries, p);
      |kids| == |from| && forall k | 0 <= k < |kids| :: from[k] < |entries| && kids[k] == entries[from[k]].id
  {
    if entries != [] {
      var n := |entries| - 1;
      assert IdsOf(entries)[..n] == IdsOf(entries[..n]);
      ChildrenAreSources(cats, root, entries[..n], p);
      assert IsChild(cats, root, entries[n].id, p) <==> entries[n].parentId == Some(p);
    }
  }

  /** The category is what the entry says, and its children are the entries that point at it, as declared. */
  ghost predicate Stems(c: Category, e: Entry, entries: seq<Entry>) {
    c.id == e.id && c.name == e.name && c.parentId == e.parentId && c.mode == e.mode &&
    c.extendsEnum == e.extendsEnum && c.intents == e.intents &&
    exists from: seq<nat> ::
      |from| == |c.childIds| &&
      (forall k | 0 <= k < |from| :: from[k] < |entries| && c.childIds[k] == entries[from[k]].id) &&
      (forall i: nat | i < |entries| :: i in from <==> entries[i].parentId == Some(e.id)) &&
      forall j, k | 0 <= j < k < |from| :: from[j] < from[k]
  }

  lemma EntryStems(cats: Categories, root: Id, entries: seq<Entry>, e: Entry)
    requires root in cats && cats[root].parentId == None
    requires forall i | 0 <= i < |entries| ::
      entries[i].id in cats && cats[entries[i].id].parentId == entries[i].parentId
    ensures Stems(Parsed(e).(childIds := ChildrenIn(cats, root, IdsOf(entries), e.id)), e, entries)
  {
    hide ChildrenIn, Sources, IdsOf;
    ChildrenAreSources(cats, root, entries, e.id);
    SourcesMean(entries, e.id);
    var from := Sources(entries, e.id);
  }

  /** What the loader returns holds each entry once, unchanged, and nothing else. */
  lemma TreeHoldsEntries(entries: seq<Entry>, root: Id)
    requires NoDuplicates(IdsOf(entries)) && Accepted(Assembled(entries, root))
    ensures var cats := Assembled(entries, root).categories;
      (forall id :: id in cats <==> exists i :: 0 <= i < |entries| && entries[i].id == id) &&
      forall i | 0 <= i < |entries| :: entries[i].id in cats && Stems(cats[entries[i].id], entries[i], entries)
  {
    hide Accepted, NoDuplicates, ById, ChildrenIn, Stems;
    var byId := ById(entries);
    ByIdHolds(entries);
    RootStands(entries, root);
    forall i | 0 <= i < |entries|
      ensures entries[i].id in byId && byId[entries[i].id] == Parsed(entries[i])
    {
      EntryIsHeld(entries, i);
    }
    forall i | 0 <= i < |entries|
      ensures Stems(Assembled(entries, root).categories[entries[i].id], entries[i], entries)
    {
      EntryStems(byId, root, entries, entries[i]);
    }
    assert forall i | 0 <= i < |entries| :: entries[i].id == IdsOf(entries)[i];
  }

  lemma RootStands(entries: seq<Entry>, root: Id)
    requires Accepted(Assembled(entries, root))
    ensures root in ById(entries) && ById(entries)[root].parentId == None
  {
    hide ById, IdsOf, ChildrenInvertParents, Climbs, StructureOk, SiblingNamesDiffer, ExtendsOk;
    assert Assembled(entries, root).categories[root].parentId == None;
  }

  lemma WiredKeys(cats: Categories, root: Id, order: seq<Id>)
    ensures Wired(cats, root, order).Keys == cats.Keys
  {
  }

  lemma RootedIsClosed(t: Tree)
    requires Rooted(t)
    ensures Closed(t.categories)
  {
    forall id, c | id in t.categories && c in t.categories[id].childIds
      ensures c in t.categories
    {
      assert IsChild(t.categories, t.rootId, c, id);
    }
  }

  /** The id of the first entry that repeats an earlier one. */
  predicate RepeatsFirst(entries: seq<Entry>, e: Error) {
    exists i :: 0 <= i < |entries| && e == DuplicateId(entries[i].id) &&
      entries[i].id in IdsOf(entries[..i]) && NoDuplicates(IdsOf(entries[..i]))
  }

  /** The first loop: index the entries, refusing a repeated id. */
  method IndexEntries(entries: seq<Entry>) returns (r: Result<Categories, Error>)
    ensures r.Ok? <==> NoDuplicates(IdsOf(entries))
    ensures r.Ok? ==> r.value == ById(entries)
    ensures r.Err? ==> RepeatsFirst(entries, r.error)
  {
    var byId: Categories := map[];
    for i := 0 to |entries|
      invariant byId == ById(entries[..i]) && NoDuplicates(IdsOf(entries[..i]))
    {
      var category := Parsed(entries[i]);
      ByIdHolds(entries[..i]);
      assert entries[..i + 1][..i] == entries[..i];
      assert IdsOf(entries[..i + 1]) == IdsOf(entries[..i]) + [entries[i].id];
      if category.id in byId {
        RepeatedId(entries, i);
        return Err(DuplicateId(category.id));
      }
      byId := byId[category.id := category];
    }
    assert entries[..|entries|] == entries;
    r := Ok(byId);
  }

  /** The rule that a rejected category breaks. */
  ghost predicate Faulty(cats: Categories, e: Error) {
    match e
    case BadStructure(id) => id in cats && !StructureOk(cats[id])
    case DuplicateName(id) => id in cats && !SiblingNamesDiffer(cats, cats[id])
    case BadExtends(id) => id in cats && !ExtendsOk(cats, cats[id])
    case _ => false
  }

  /** Every error of the loader is a true statement about the entries. */
  ghost predicate Explains(entries: seq<Entry>, root: Id, e: Error) {
    match e
    case DuplicateId(_) => RepeatsFirst(entries, e)
    case RootMissing => root !in ById(entries)
    case Orphans(ids) =>
      ids != {} && ids == Stray(ById(entries), root)
    case CycleDetected(_) => false
    case _ => Blames(ById(entries), root, e) || Faulty(Assembled(entries, root).categories, e)
  }

  method Validate(byId: Categories, order: seq<Id>) returns (e: Option<Error>)
    requires Closed(byId) && forall id :: id in order <==> id in byId
    ensures e == None <==>
      (forall id | id in byId :: StructureOk(byId[id])) &&
      (forall id | id in byId :: SiblingNamesDiffer(byId, byId[id])) &&
      (forall id | id in byId :: ExtendsOk(byId, byId[id]))
    ensures e != None ==> Faulty(byId, e.value)
  {
    hide StructureOk, SiblingNamesDiffer, ExtendsOk;
    e := ValidateStructuralRules(byId, order);
    if e != None {
      return;
    }
    e := ValidateUniqueNames(byId, order);
    if e != None {
      return;
    }
    e := ValidateExtendsEnum(byId, order);
  }

  /** The loader lets `entries` through exactly when their tree is acceptable and no id repeats. */
  method BuildTree(entries: seq<Entry>, root: Id) returns (r: Result<Tree, Error>)
    ensures r.Ok? <==> NoDuplicates(IdsOf(entries)) && Accepted(Assembled(entries, root))
    ensures r.Ok? ==> r.value == Assembled(entries, root)
    ensures r.Err? ==> Explains(entries, root, r.error)
  {
    hide Wired, Rooted, Climbs, AllClimb, ParentsKnown, StructureOk, SiblingNamesDiffer, ExtendsOk, NoDuplicates,
      ById, IdsOf, Closed;
    var indexed := IndexEntries(entries);
    if indexed.Err? {
      return Err(indexed.error);
    }
    ByIdHolds(entries);
    var byId, order := indexed.value, IdsOf(entries);
    RootedWiring(byId, root, order);
    if root !in byId {
      return Err(RootMissing);
    }
    var wired := WireChildren(byId, order, root);
    if wired.Err? {
      return Err(wired.error);
    }
    WiredKeys(byId, root, order);
    RootedIsClosed(Tree(root, wired.value));
    var e := Validate(wired.value, order);
    r := if e != None then Err(e.value) else Ok(Tree(root, wired.value));
  }

  lemma RepeatedId(entries: seq<Entry>, i: nat)
    requires i < |entries| && entries[i].id in IdsOf(entries[..i])
    ensures !NoDuplicates(IdsOf(entries))
  {
    var j :| 0 <= j < i && IdsOf(entries[..i])[j] == entries[i].id;
    assert IdsOf(entries)[j] == IdsOf(entries)[i];
  }

  lemma RootedWiring(cats: Categories, root: Id, order: seq<Id>)
    ensures Rooted(Tree(root, Wired(cats, root, order))) ==>
      root in cats && ParentsKnown(cats, root) && AllClimb(cats, root)
  {
    ClimbsAgree(cats, root, order);
    var wired := Wired(cats, root, order);
    if Rooted(Tree(root, wired)) {
      forall id | id in cats
        ensures cats[id].id == id
        ensures if id == root then cats[id].parentId == None
                else cats[id].parentId.Some? && cats[id].parentId.value in cats
      {
        assert id in wired;
      }
      assert forall id | id in cats :: id in wired;
    }
  }
}
