/** The category tree and its mode table (src/sandroid/core/domain.py). */
module Scene {
  import opened Bytes

  type Id = string

  datatype SearchDepth = NoDepth | Immediate | Unbounded

  datatype Mode = Standard | Enum | Sequential | Branching | Drilldown | Memory

  datatype Props = Props(
    mayHoldOrdinary: bool, mayHoldSpecial: bool, requiresSpecial: bool,
    searchesDown: bool, searchDepth: SearchDepth,
    exposeOrdinary: bool, exposeSpecial: bool, allowPenetration: bool,
    singleChildChain: bool, forbidsChildren: bool)

  function PropsOf(mode: Mode): Props {
    match mode
    case Standard   => Props(true,  false, false, true,  Unbounded, true,  false, true,  false, false)
    case Enum       => Props(true,  false, false, false, NoDepth,   true,  false, true,  false, false)
    case Sequential => Props(true,  true,  true,  false, NoDepth,   false, true,  false, true,  false)
    case Branching  => Props(false, true,  true,  true,  Immediate, false, true,  false, false, false)
    case Drilldown  => Props(true,  true,  true,  true,  Unbounded, true,  true,  true,  false, false)
    case Memory     => Props(true,  false, false, false, NoDepth,   false, false, false, false, true)
  }

  /** Only what the loader and the search look at. */
  datatype Intent = Intent(id: string, isSpecial: bool)

  datatype Category = Category(
    id: Id, name: string, parentId: Option<Id>, mode: Mode, extendsEnum: Option<Id>,
    intents: seq<Intent>, childIds: seq<Id>)
  {
    function Ordinary(): seq<Intent> {
      Select(intents, false)
    }

    function Special(): seq<Intent> {
      Select(intents, true)
    }

    function Bits(): Props {
      PropsOf(mode)
    }
  }

  /** The intents with the given flag, in order. */
  function Select(intents: seq<Intent>, special: bool): seq<Intent> {
    if intents == [] then []
    else
      var n := |intents| - 1;
      Select(intents[..n], special) + if intents[n].isSpecial == special then [intents[n]] else []
  }

  type Categories = map<Id, Category>

  datatype Tree = Tree(rootId: Id, categories: Categories)

  predicate NoDuplicates<T(==)>(s: seq<T>) {
    forall i, j | 0 <= i < j < |s| :: s[i] != s[j]
  }

  /** `id` is `steps` parent pointers below the root. */
  predicate ClimbsIn(cats: Categories, root: Id, id: Id, steps: nat)
    decreases steps
  {
    id in cats &&
    if steps == 0 then id == root
    else id != root && cats[id].parentId.Some? && ClimbsIn(cats, root, cats[id].parentId.value, steps - 1)
  }

  ghost predicate Climbs(cats: Categories, root: Id, id: Id) {
    exists steps: nat :: ClimbsIn(cats, root, id, steps)
  }

  lemma {:induction false} ClimbIsUnique(cats: Categories, root: Id, id: Id, j: nat, k: nat)
    requires ClimbsIn(cats, root, id, j) && ClimbsIn(cats, root, id, k)
    ensures j == k
    decreases j
  {
    if j > 0 {
      ClimbIsUnique(cats, root, cats[id].parentId.value, j - 1, k - 1);
    }
  }

  /** Every parent pointer is in place: none at the root, a known category everywhere else. */
  predicate ParentsKnown(cats: Categories, root: Id) {
    root in cats &&
    forall id {:trigger cats[id].parentId} {:trigger cats[id].id} | id in cats ::
      cats[id].id == id &&
      if id == root then cats[id].parentId == None
      else cats[id].parentId.Some? && cats[id].parentId.value in cats
  }

  predicate IsChild(cats: Categories, root: Id, child: Id, parent: Id) {
    child in cats && child != root && cats[child].parentId == Some(parent)
  }

  /** The child lists are exactly the inverse of the parent pointers, without repeats. */
  ghost predicate ChildrenInvertParents(cats: Categories, root: Id) {
    forall p | p in cats ::
      NoDuplicates(cats[p].childIds) && forall c :: c in cats[p].childIds <==> IsChild(cats, root, c, p)
  }

  /** The parent pointers form a tree rooted at the root, and the child lists say the same. */
  ghost predicate Rooted(t: Tree) {
    ParentsKnown(t.categories, t.rootId) && ChildrenInvertParents(t.categories, t.rootId) &&
    forall id | id in t.categories :: Climbs(t.categories, t.rootId, id)
  }

  ghost function Depth(t: Tree, id: Id): (d: nat)
    requires Rooted(t) && id in t.categories
    ensures ClimbsIn(t.categories, t.rootId, id, d)
  {
    var d: nat :| ClimbsIn(t.categories, t.rootId, id, d);
    d
  }

  lemma ParentIsAbove(t: Tree, id: Id)
    requires Rooted(t) && id in t.categories && id != t.rootId
    ensures Depth(t, id) == Depth(t, t.categories[id].parentId.value) + 1
  {
    var d, parent := Depth(t, id), t.categories[id].parentId.value;
    ClimbIsUnique(t.categories, t.rootId, parent, d - 1, Depth(t, parent));
  }

  lemma ChildIsBelow(t: Tree, id: Id, child: Id)
    requires Rooted(t) && id in t.categories && child in t.categories[id].childIds
    ensures child in t.categories && child != t.rootId && t.categories[child].parentId == Some(id)
    ensures Depth(t, child) == Depth(t, id) + 1
  {
    ParentIsAbove(t, child);
  }

  // ---------- What the loader validates ----------

  predicate StructureOk(c: Category) {
    var props := c.Bits();
    (c.Ordinary() != [] ==> props.mayHoldOrdinary) &&
    (c.Special() != [] ==> props.mayHoldSpecial) &&
    (props.requiresSpecial ==> c.Special() != []) &&
    (props.forbidsChildren ==> c.childIds == []) &&
    (props.singleChildChain ==> |c.childIds| <= 1)
  }

  predicate Holds(c: Category, special: bool) {
    exists i :: 0 <= i < |c.intents| && c.intents[i].isSpecial == special
  }

  lemma {:induction false} SelectsIff(intents: seq<Intent>, special: bool)
    ensures Select(intents, special) != [] <==> exists i :: 0 <= i < |intents| && intents[i].isSpecial == special
  {
    if intents != [] {
      var n := |intents| - 1;
      SelectsIff(intents[..n], special);
      if i :| 0 <= i < n && intents[i].isSpecial == special {
        assert intents[..n][i].isSpecial == special;
      }
    }
  }

  /** What each mode lets a category hold. */
  lemma StructureOkIff(c: Category)
    ensures StructureOk(c) <==>
      match c.mode
      case Standard => !Holds(c, true)
      case Enum => !Holds(c, true)
      case Sequential => Holds(c, true) && |c.childIds| <= 1
      case Branching => Holds(c, true) && !Holds(c, false)
      case Drilldown => Holds(c, true)
      case Memory => !Holds(c, true) && c.childIds == []
  {
    SelectsIff(c.intents, true);
    SelectsIff(c.intents, false);
  }

  function NamesOf(cats: Categories, ids: seq<Id>): (names: seq<string>)
    requires forall id | id in ids :: id in cats
    ensures |names| == |ids|
  {
    seq(|ids|, i requires 0 <= i < |ids| => assert ids[i] in ids; cats[ids[i]].name)
  }

  predicate SiblingNamesDiffer(cats: Categories, c: Category) {
    (forall id | id in c.childIds :: id in cats) && NoDuplicates(NamesOf(cats, c.childIds))
  }

  predicate ExtendsOk(cats: Categories, c: Category) {
    c.extendsEnum.Some? ==>
      c.extendsEnum.value in cats && cats[c.extendsEnum.value].mode == Enum && c.mode != Enum
  }

  /** The trees the loader lets through. */
  ghost predicate Accepted(t: Tree) {
    Rooted(t) &&
    (forall id {:trigger StructureOk(t.categories[id])} | id in t.categories :: StructureOk(t.categories[id])) &&
    (forall id {:trigger SiblingNamesDiffer(t.categories, t.categories[id])} | id in t.categories ::
       SiblingNamesDiffer(t.categories, t.categories[id])) &&
    (forall id {:trigger ExtendsOk(t.categories, t.categories[id])} | id in t.categories ::
       ExtendsOk(t.categories, t.categories[id]))
  }
}
