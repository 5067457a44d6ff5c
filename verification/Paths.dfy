/** Category paths: printed by climbing, parsed by descending (src/sandroid/core/domain.py). */
module Paths {
  import opened Bytes
  import opened Scene
  import S = Splitting

  datatype PathError =
    | UnknownCategory(id: Id)
    | EmptyPath
    | NotAtRoot
    | NoChild(name: string)
    | NameCollision(name: string)

  /** The names from the root down to `id`. */
  ghost function Names(t: Tree, id: Id): (names: seq<string>)
    requires Rooted(t) && id in t.categories
    ensures |names| == Depth(t, id) + 1
    decreases Depth(t, id)
  {
    var c := t.categories[id];
    if id == t.rootId then
      ClimbIsUnique(t.categories, t.rootId, id, 0, Depth(t, id));
      [c.name]
    else
      ParentIsAbove(t, id);
      Names(t, c.parentId.value) + [c.name]
  }

  function Reverse(s: seq<string>): seq<string> {
    if s == [] then [] else [s[|s| - 1]] + Reverse(s[..|s| - 1])
  }

  lemma ReverseGrows(s: seq<string>, x: string)
    ensures Reverse(s + [x]) == [x] + Reverse(s)
  {
    assert (s + [x])[..|s|] == s;
  }

  function Printed(names: seq<string>): string {
    S.Join(names, '-', '>')
  }

  /** The names still to come above the part already collected. */
  ghost function NamesAbove(t: Tree, cur: Option<Id>): seq<string>
    requires Rooted(t) && (cur.Some? ==> cur.value in t.categories)
  {
    if cur == None then [] else Names(t, cur.value)
  }

  ghost function Above(t: Tree, cur: Option<Id>): nat
    requires Rooted(t)
  {
    if cur.Some? && cur.value in t.categories then Depth(t, cur.value) + 1 else 0
  }

  lemma ClimbOne(t: Tree, id: Id, parts: seq<string>)
    requires Rooted(t) && id in t.categories
    ensures var c := t.categories[id];
      (c.parentId.Some? ==> c.parentId.value in t.categories) &&
      Above(t, c.parentId) < Above(t, Some(id)) &&
      NamesAbove(t, Some(id)) + Reverse(parts) == NamesAbove(t, c.parentId) + Reverse(parts + [c.name])
  {
    ReverseGrows(parts, t.categories[id].name);
    if id != t.rootId {
      ParentIsAbove(t, id);
    }
  }

  method PathOf(t: Tree, id: Id) returns (r: Result<string, PathError>)
    requires Rooted(t)
    ensures r == if id in t.categories then Ok(Printed(Names(t, id))) else Err(UnknownCategory(id))
  {
    hide Names, Reverse, Depth, Rooted;
    var parts: seq<string> := [];
    var cur := Some(id);
    NothingCollected(t, id);
    while cur != None
      invariant cur == Some(id) || (id in t.categories && (cur.Some? ==> cur.value in t.categories))
      invariant id in t.categories ==> Names(t, id) == NamesAbove(t, cur) + Reverse(parts)
      decreases Above(t, cur)
    {
      if cur.value !in t.categories {
        return Err(UnknownCategory(cur.value));
      }
      var node := t.categories[cur.value];
      ClimbOne(t, cur.value, parts);
      parts := parts + [node.name];
      cur := node.parentId;
    }
    assert [] + Reverse(parts) == Reverse(parts);
    r := Ok(Printed(Reverse(parts)));
  }

  lemma NothingCollected(t: Tree, id: Id)
    requires Rooted(t)
    ensures id in t.categories ==> Names(t, id) == NamesAbove(t, Some(id)) + Reverse([])
  {
  }

  /** The ids in `ids` whose category has the given name. */
  function Matching(t: Tree, ids: seq<Id>, name: string): seq<Id>
    requires forall id | id in ids :: id in t.categories
  {
    if ids == [] then []
    else (if t.categories[ids[0]].name == name then [ids[0]] else []) + Matching(t, ids[1..], name)
  }

  predicate ChildrenKnown(t: Tree) {
    t.rootId in t.categories &&
    forall id | id in t.categories :: forall c | c in t.categories[id].childIds :: c in t.categories
  }

  lemma {:induction false} MatchingMeans(t: Tree, ids: seq<Id>, name: string)
    requires forall id | id in ids :: id in t.categories
    ensures forall id :: id in Matching(t, ids, name) <==> id in ids && t.categories[id].name == name
  {
    if ids != [] {
      MatchingMeans(t, ids[1..], name);
      assert ids == [ids[0]] + ids[1..];
    }
  }

  function StepDown(t: Tree, cur: Id, name: string): (r: Result<Id, PathError>)
    requires ChildrenKnown(t) && cur in t.categories
    ensures r.Ok? ==> r.value in t.categories[cur].childIds && t.categories[r.value].name == name
  {
    var matches := Matching(t, t.categories[cur].childIds, name);
    MatchingMeans(t, t.categories[cur].childIds, name);
    if matches == [] then Err(NoChild(name))
    else if |matches| > 1 then Err(NameCollision(name))
    else assert matches[0] in matches; Ok(matches[0])
  }

  /** Where the names lead from the root. */
  function Descend(t: Tree, names: seq<string>): (r: Result<Id, PathError>)
    requires ChildrenKnown(t)
    ensures r.Ok? ==> r.value in t.categories
  {
    if names == [] then Ok(t.rootId)
    else
      var n := |names| - 1;
      var above := Descend(t, names[..n]);
      if above.Err? then above else StepDown(t, above.value, names[n])
  }

  function NonEmpty(parts: seq<string>): seq<string> {
    if parts == [] then []
    else NonEmpty(parts[..|parts| - 1]) + (if parts[|parts| - 1] != "" then [parts[|parts| - 1]] else [])
  }

  /** The parts of a path: what lies between the arrows, empty parts dropped. */
  function Parsed(path: string): seq<string> {
    NonEmpty(S.Split(path, '-', '>'))
  }

  /** What `resolve_path` answers. */
  function Resolved(t: Tree, path: string): Result<Id, PathError>
    requires ChildrenKnown(t)
  {
    var parts := Parsed(path);
    if parts == [] then Err(EmptyPath)
    else if parts[0] != t.categories[t.rootId].name then Err(NotAtRoot)
    else Descend(t, parts[1..])
  }

  method ResolvePath(t: Tree, path: string) returns (r: Result<Id, PathError>)
    requires ChildrenKnown(t)
    ensures r == Resolved(t, path)
  {
    var parts := Parsed(path);
    if parts == [] {
      return Err(EmptyPath);
    }
    if parts[0] != t.categories[t.rootId].name {
      return Err(NotAtRoot);
    }
    var cur := t.rootId;
    var names := parts[1..];
    for i := 0 to |names|
      invariant cur in t.categories && Descend(t, names[..i]) == Ok(cur)
    {
      assert names[..i + 1][..i] == names[..i];
      var matches := Matching(t, t.categories[cur].childIds, names[i]);
      if matches == [] || |matches| > 1 {
        DescendFails(t, names, i + 1);
        return StepDown(t, cur, names[i]);
      }
      cur := StepDown(t, cur, names[i]).value;
    }
    assert names[..|names|] == names;
    r := Ok(cur);
  }

  lemma {:induction false} DescendFails(t: Tree, names: seq<string>, k: nat)
    requires ChildrenKnown(t) && k <= |names| && Descend(t, names[..k]).Err?
    ensures Descend(t, names) == Descend(t, names[..k])
    decreases |names|
  {
    if k < |names| {
      assert names[..|names| - 1][..k] == names[..k];
      DescendFails(t, names[..|names| - 1], k);
    } else {
      assert names[..k] == names;
    }
  }

  // ---------- The round trip ----------

  predicate CleanName(name: string) {
    name != "" && S.Free(name, '-', '>')
  }

  predicate AllClean(names: seq<string>) {
    forall n | n in names :: CleanName(n)
  }

  lemma {:induction false} NonEmptyMeans(parts: seq<string>)
    ensures forall p :: p in NonEmpty(parts) <==> p in parts && p != ""
    ensures (forall p | p in parts :: p != "") ==> NonEmpty(parts) == parts
  {
    if parts != [] {
      var n := |parts| - 1;
      assert parts == parts[..n] + [parts[n]];
      assert parts[n] in parts && forall p | p in parts[..n] :: p in parts;
      NonEmptyMeans(parts[..n]);
    }
  }

  lemma ParsedInvertsPrinted(names: seq<string>)
    requires names != [] && AllClean(names)
    ensures Parsed(Printed(names)) == names
  {
    S.SplitJoin(names, '-', '>');
    NonEmptyMeans(names);
  }

  lemma ParsedIsClean(path: string)
    ensures AllClean(Parsed(path))
  {
    S.SplitIsFree(path, '-', '>');
    NonEmptyMeans(S.Split(path, '-', '>'));
  }

  lemma AcceptedChildrenKnown(t: Tree)
    requires Accepted(t)
    ensures ChildrenKnown(t)
  {
    forall id, c | id in t.categories && c in t.categories[id].childIds
      ensures c in t.categories
    {
      assert IsChild(t.categories, t.rootId, c, id);
    }
  }

  /** Siblings have different names, so the child's own name finds that child. */
  lemma StepFinds(t: Tree, parent: Id, child: Id)
    requires ChildrenKnown(t) && parent in t.categories && child in t.categories[parent].childIds
    requires SiblingNamesDiffer(t.categories, t.categories[parent])
    ensures StepDown(t, parent, t.categories[child].name) == Ok(child)
  {
    var kids, name := t.categories[parent].childIds, t.categories[child].name;
    MatchingMeans(t, kids, name);
    OnlyMatch(t, kids, name);
    assert child in Matching(t, kids, name);
  }

  lemma {:induction false} OnlyMatch(t: Tree, ids: seq<Id>, name: string)
    requires forall id | id in ids :: id in t.categories
    requires NoDuplicates(NamesOf(t.categories, ids))
    ensures |Matching(t, ids, name)| <= 1
  {
    if ids != [] {
      assert forall i | 0 <= i < |ids| - 1 :: NamesOf(t.categories, ids[1..])[i] == NamesOf(t.categories, ids)[i + 1];
      OnlyMatch(t, ids[1..], name);
      if t.categories[ids[0]].name == name {
        forall i | 0 <= i < |ids| - 1
          ensures t.categories[ids[1..][i]].name != name
        {
          assert NamesOf(t.categories, ids)[0] != NamesOf(t.categories, ids)[i + 1];
        }
        NoMatch(t, ids[1..], name);
      }
    }
  }

  lemma {:induction false} NoMatch(t: Tree, ids: seq<Id>, name: string)
    requires forall id | id in ids :: id in t.categories
    requires forall i | 0 <= i < |ids| :: t.categories[ids[i]].name != name
    ensures Matching(t, ids, name) == []
  {
    if ids != [] {
      NoMatch(t, ids[1..], name);
    }
  }

  /** Descending along a category's own names arrives at it. */
  lemma {:induction false} DescendFollowsNames(t: Tree, id: Id)
    requires Accepted(t) && ChildrenKnown(t) && id in t.categories
    ensures Names(t, id) != [] && Names(t, id)[0] == t.categories[t.rootId].name
    ensures Descend(t, Names(t, id)[1..]) == Ok(id)
    decreases Depth(t, id)
  {
    hide StepDown, SiblingNamesDiffer, StructureOk, ExtendsOk, ClimbsIn;
    if id == t.rootId {
      ClimbIsUnique(t.categories, t.rootId, id, 0, Depth(t, id));
    } else {
      ParentIsAbove(t, id);
      var parent := t.categories[id].parentId.value;
      DescendFollowsNames(t, parent);
      var names := Names(t, id)[1..];
      assert names[..|names| - 1] == Names(t, parent)[1..];
      assert IsChild(t.categories, t.rootId, id, parent);
      StepFinds(t, parent, id);
    }
  }

  /** Wherever the names lead, they are the names of the place. */
  lemma {:induction false} DescendReadsNames(t: Tree, names: seq<string>)
    requires Rooted(t) && ChildrenKnown(t) && Descend(t, names).Ok?
    ensures Names(t, Descend(t, names).value) == [t.categories[t.rootId].name] + names
  {
    hide ClimbsIn, ParentsKnown;
    if names == [] {
      ClimbIsUnique(t.categories, t.rootId, t.rootId, 0, Depth(t, t.rootId));
    } else {
      var n := |names| - 1;
      DescendReadsNames(t, names[..n]);
      var above, d := Descend(t, names[..n]).value, Descend(t, names).value;
      ChildIsBelow(t, above, d);
      assert names == names[..n] + [names[n]];
    }
  }

  /**
   On every accepted tree a path resolves to a category exactly when its parts are the names from the
   root down to it.
   */
  lemma ResolvesIff(t: Tree, path: string, id: Id)
    requires Accepted(t) && id in t.categories
    ensures ChildrenKnown(t)
    ensures Resolved(t, path) == Ok(id) <==> Parsed(path) == Names(t, id)
  {
    AcceptedChildrenKnown(t);
    hide ClimbsIn, Parsed, Descend, Names;
    DescendFollowsNames(t, id);
    if Resolved(t, path) == Ok(id) {
      var parts := Parsed(path);
      DescendReadsNames(t, parts[1..]);
      assert parts == [parts[0]] + parts[1..];
    }
  }

  lemma {:induction false} DescendStops(t: Tree, names: seq<string>) returns (k: nat)
    requires ChildrenKnown(t) && Descend(t, names).Err?
    ensures k < |names| && Descend(t, names[..k]).Ok?
    ensures Descend(t, names) == StepDown(t, Descend(t, names[..k]).value, names[k])
  {
    var n := |names| - 1;
    if Descend(t, names[..n]).Ok? {
      k := n;
    } else {
      k := DescendStops(t, names[..n]);
      assert names[..n][..k] == names[..k];
    }
  }

  /** The parts begin with the names of a category that has no child of the next name. */
  ghost predicate StopsAt(t: Tree, parts: seq<string>, name: string)
    requires Rooted(t) && ChildrenKnown(t)
  {
    exists k: nat, id | k < |parts| && id in t.categories ::
      parts[..k] == Names(t, id) && parts[k] == name &&
      forall c | c in t.categories[id].childIds :: t.categories[c].name != name
  }

  lemma StepFails(t: Tree, id: Id, name: string)
    requires ChildrenKnown(t) && id in t.categories && SiblingNamesDiffer(t.categories, t.categories[id])
    ensures StepDown(t, id, name).Err? ==>
      StepDown(t, id, name) == Err(NoChild(name)) &&
      forall c | c in t.categories[id].childIds :: t.categories[c].name != name
  {
    var kids := t.categories[id].childIds;
    MatchingMeans(t, kids, name);
    OnlyMatch(t, kids, name);
    forall c | c in kids && t.categories[c].name == name
      ensures c in Matching(t, kids, name)
    {
    }
  }

  /**
   On every accepted tree a path fails because it has no parts, because its first part is not the root's
   name, or at the first part that names no child; never because two children share a name.
   */
  lemma WhyUnresolved(t: Tree, path: string)
    requires Accepted(t)
    ensures ChildrenKnown(t)
    ensures var r, parts := Resolved(t, path), Parsed(path);
      r.Err? ==>
        match r.error
        case EmptyPath => parts == []
        case NotAtRoot => parts != [] && parts[0] != t.categories[t.rootId].name
        case NoChild(name) => StopsAt(t, parts, name)
        case _ => false
  {
    AcceptedChildrenKnown(t);
    hide Rooted, Parsed, Descend, StopsAt, StructureOk, SiblingNamesDiffer, ExtendsOk;
    var parts := Parsed(path);
    if Resolved(t, path).Err? && parts != [] && parts[0] == t.categories[t.rootId].name {
      DescentStops(t, parts);
    }
  }

  lemma DescentStops(t: Tree, parts: seq<string>)
    requires Accepted(t) && ChildrenKnown(t)
    requires parts != [] && parts[0] == t.categories[t.rootId].name && Descend(t, parts[1..]).Err?
    ensures var e := Descend(t, parts[1..]).error; e.NoChild? && StopsAt(t, parts, e.name)
  {
    hide Rooted, Descend, Names, StepDown, StructureOk, SiblingNamesDiffer, ExtendsOk;
    var names := parts[1..];
    var k := DescendStops(t, names);
    var id := Descend(t, names[..k]).value;
    DescendReadsNames(t, names[..k]);
    StepFails(t, id, names[k]);
    assert parts[..k + 1] == [parts[0]] + names[..k];
  }

  /**
   On every accepted tree, a category's printed path resolves back to it exactly when no name on
   the way from the root is empty or contains the arrow.
   */
  lemma PathRoundTripIff(t: Tree, id: Id)
    requires Accepted(t) && id in t.categories
    ensures ChildrenKnown(t)
    ensures Resolved(t, Printed(Names(t, id))) == Ok(id) <==> AllClean(Names(t, id))
  {
    hide ClimbsIn, Printed, Parsed, Descend, Resolved;
    var names := Names(t, id);
    ResolvesIff(t, Printed(names), id);
    if AllClean(names) {
      ParsedInvertsPrinted(names);
    }
    ParsedIsClean(Printed(names));
  }

  /** With clean names, different categories have different paths. */
  lemma PathsDiffer(t: Tree, a: Id, b: Id)
    requires Accepted(t) && a in t.categories && b in t.categories
    requires AllClean(Names(t, a)) && AllClean(Names(t, b))
    requires Printed(Names(t, a)) == Printed(Names(t, b))
    ensures a == b
  {
    PathRoundTripIff(t, a);
    PathRoundTripIff(t, b);
  }
}
