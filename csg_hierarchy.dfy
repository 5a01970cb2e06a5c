/**
 * The hierarchy queries of RealtimeCSG's SceneQueryUtility
 * (Assets/Plugins/RealtimeCSG/Editor/Scripts/Data/SceneQuery/SceneQueryUtility.cs): the group
 * operation a node belongs to, the top-most group of a node, the object that stands for a
 * selected object's group, and the unique hidden object of a scene with a given name.
 *
 * The transform hierarchy is a parent map over numbered objects with a depth that strictly
 * decreases towards the root (Unity's transforms form a tree); each object carries at most one
 * CSG component.
 */
module CSGHierarchy {
  import opened Wrappers

  type ObjectId = nat

  /** The CSG component of an object, if any. */
  datatype CSGComponent = NoCSG | CSGModel | CSGOperation(handleAsOne: bool, passThrough: bool) | CSGBrush

  /** The transform hierarchy: each object's parent (None at a root), its depth and its CSG component. */
  datatype Hierarchy = Hierarchy(parent: ObjectId -> Option<ObjectId>, depth: ObjectId -> nat,
                                 component: ObjectId -> CSGComponent)

  /** Parents are strictly shallower than their children. */
  ghost predicate WellFormed(h: Hierarchy) {
    forall o :: h.parent(o).Some? ==> h.depth(h.parent(o).value) < h.depth(o)
  }

  /** The measure of a walk up from an optional object. */
  function Height(h: Hierarchy, p: Option<ObjectId>): nat {
    if p.Some? then h.depth(p.value) + 1 else 0
  }

  predicate IsModel(h: Hierarchy, o: ObjectId) {
    h.component(o).CSGModel?
  }

  /** An operation handled as one: what GetGroupOperationForNode looks for. */
  predicate IsGroup(h: Hierarchy, o: ObjectId) {
    h.component(o).CSGOperation? && h.component(o).handleAsOne
  }

  /** A group that is not pass-through: what GetTopMostGroupForNode looks for. */
  predicate IsSolidGroup(h: Hierarchy, o: ObjectId) {
    IsGroup(h, o) && !h.component(o).passThrough
  }

  /** y lies on the parent chain from p (p included), below the first model on that chain. */
  predicate OnChain(h: Hierarchy, p: Option<ObjectId>, y: ObjectId)
    requires WellFormed(h)
    decreases Height(h, p)
  {
    p.Some? && !IsModel(h, p.value) && (p.value == y || OnChain(h, h.parent(p.value), y))
  }

  /** The nearest group on the chain from p, or None when a model or the root comes first. */
  function GroupFrom(h: Hierarchy, p: Option<ObjectId>): Option<ObjectId>
    requires WellFormed(h)
    decreases Height(h, p)
  {
    if p.None? || IsModel(h, p.value) then None
    else if IsGroup(h, p.value) then p
    else GroupFrom(h, h.parent(p.value))
  }

  /** The outermost solid group on the chain from p, or `top` when there is none. */
  function TopMostFrom(h: Hierarchy, p: Option<ObjectId>, top: ObjectId): ObjectId
    requires WellFormed(h)
    decreases Height(h, p)
  {
    if p.None? || IsModel(h, p.value) then top
    else TopMostFrom(h, h.parent(p.value), if IsSolidGroup(h, p.value) then p.value else top)
  }

  /**
   * The group of a chain: None exactly when no group lies on the chain below its first model;
   * otherwise the nearest group on that chain, the deepest one, met first on the way up.
   */
  lemma {:induction false} GroupFromIsOnChain(h: Hierarchy, p: Option<ObjectId>)
    requires WellFormed(h)
    ensures GroupFrom(h, p).Some? ==> OnChain(h, p, GroupFrom(h, p).value) && IsGroup(h, GroupFrom(h, p).value)
    ensures GroupFrom(h, p).Some? ==>
              forall y :: OnChain(h, p, y) && IsGroup(h, y) ==> h.depth(y) <= h.depth(GroupFrom(h, p).value)
    ensures GroupFrom(h, p).None? ==> forall y :: OnChain(h, p, y) ==> !IsGroup(h, y)
    decreases Height(h, p)
  {
    if p.Some? && !IsModel(h, p.value) {
      if IsGroup(h, p.value) {
        ChainBelowStart(h, p);
      } else {
        GroupFromIsOnChain(h, h.parent(p.value));
      }
    }
  }

  /**
   * The top-most group: `top` when no solid group lies on the chain below its first model;
   * otherwise a solid group on the chain with none further up.
   */
  lemma {:induction false} TopMostIsOutermost(h: Hierarchy, p: Option<ObjectId>, top: ObjectId)
    requires WellFormed(h)
    ensures var r := TopMostFrom(h, p, top);
            || (r == top && forall y :: OnChain(h, p, y) ==> !IsSolidGroup(h, y))
            || (OnChain(h, p, r) && IsSolidGroup(h, r)
                && forall y :: OnChain(h, p, y) && IsSolidGroup(h, y) ==> h.depth(y) >= h.depth(r))
    decreases Height(h, p)
  {
    if p.Some? && !IsModel(h, p.value) {
      var next := if IsSolidGroup(h, p.value) then p.value else top;
      TopMostIsOutermost(h, h.parent(p.value), next);
      ChainBelowStart(h, h.parent(p.value));
    }
  }

  /** Every object on the chain from p is at most as deep as p. */
  lemma {:induction false} ChainBelowStart(h: Hierarchy, p: Option<ObjectId>)
    requires WellFormed(h)
    ensures forall y :: OnChain(h, p, y) ==> h.depth(y) <= h.depth(p.value)
    decreases Height(h, p)
  {
    if p.Some? && !IsModel(h, p.value) {
      ChainBelowStart(h, h.parent(p.value));
    }
  }

  /**
   * GetGroupOperationForNode: walking up from the node's parent, None at the first model,
   * the first operation handled as one, or None at the root. None for a missing node.
   */
  method GetGroupOperationForNode(h: Hierarchy, node: Option<ObjectId>) returns (op: Option<ObjectId>)
    requires WellFormed(h)
    ensures op == if node.None? then None else GroupFrom(h, h.parent(node.value))
  {
    if node.None? {
      return None;
    }
    var parent := h.parent(node.value);
    while parent.Some?
      invariant GroupFrom(h, parent) == GroupFrom(h, h.parent(node.value))
      decreases Height(h, parent)
    {
      if IsModel(h, parent.value) {
        return None;
      }
      if h.component(parent.value).CSGOperation? && h.component(parent.value).handleAsOne {
        return parent;
      }
      parent := h.parent(parent.value);
    }
    return None;
  }

  /**
   * GetTopMostGroupForNode: walking up from the node's parent to the first model, the last
   * (outermost) operation handled as one and not pass-through; the node itself when there is
   * none. None for a missing node.
   */
  method GetTopMostGroupForNode(h: Hierarchy, node: Option<ObjectId>) returns (top: Option<ObjectId>)
    requires WellFormed(h)
    ensures top == if node.None? then None else Some(TopMostFrom(h, h.parent(node.value), node.value))
  {
    if node.None? {
      return None;
    }
    var topSelected := node.value;
    var parent := h.parent(node.value);
    while parent.Some?
      invariant TopMostFrom(h, parent, topSelected) == TopMostFrom(h, h.parent(node.value), node.value)
      decreases Height(h, parent)
    {
      if IsModel(h, parent.value) {
        break;
      }
      var op := h.component(parent.value);
      if op.CSGOperation? && op.handleAsOne && !op.passThrough {
        topSelected := parent.value;
      }
      parent := h.parent(parent.value);
    }
    return Some(topSelected);
  }

  /**
   * GetGroupGameObjectIfObjectIsPartOfGroup: None for None; an object without a CSG node in
   * itself or its children stands for itself; otherwise its node's group operation does, or
   * the object when that node is in no group. `nodeInChildren` is GetComponentInChildren<CSGNode>.
   */
  method GetGroupGameObjectIfObjectIsPartOfGroup(h: Hierarchy, gameObject: Option<ObjectId>,
                                                 nodeInChildren: ObjectId -> Option<ObjectId>)
    returns (group: Option<ObjectId>)
    requires WellFormed(h)
    ensures gameObject.None? ==> group.None?
    ensures gameObject.Some? && nodeInChildren(gameObject.value).None? ==> group == gameObject
    ensures gameObject.Some? && nodeInChildren(gameObject.value).Some? ==>
              var op := GroupFrom(h, h.parent(nodeInChildren(gameObject.value).value));
              group == if op.None? then gameObject else op
  {
    if gameObject.None? {
      return None;
    }
    var node := nodeInChildren(gameObject.value);
    if node.None? {
      return gameObject;
    }
    var operation := GetGroupOperationForNode(h, node);
    group := if operation.None? then gameObject else operation;
  }

  /** A scene object as the hidden-object search sees it. */
  datatype SceneObject = SceneObject(id: ObjectId, hidden: bool, name: string)

  /**
   * A root of the scene with the objects below it in GetComponentsInChildren order (the root
   * itself left out; None for a destroyed one), or a destroyed root.
   */
  datatype RootEntry = MissingRoot | Root(obj: SceneObject, descendants: seq<Option<SceneObject>>)

  /** An object the search matches: hidden, with the name. */
  predicate Matches(o: SceneObject, name: string) {
    o.hidden && o.name == name
  }

  /** The search's state: the object found so far and the objects destroyed, in order. */
  datatype Search = Search(found: Option<ObjectId>, destroyed: seq<ObjectId>)

  /** A match: kept as the found object if it is the first, destroyed otherwise. */
  function Visit(s: Search, o: SceneObject): Search {
    if s.found.Some? then Search(s.found, s.destroyed + [o.id]) else Search(Some(o.id), s.destroyed)
  }

  /** The search over some descendants of a root. */
  function SearchDescendants(s: Search, ds: seq<Option<SceneObject>>, name: string): Search {
    if ds == [] then s
    else
      var before := SearchDescendants(s, ds[..|ds| - 1], name);
      var d := ds[|ds| - 1];
      if d.Some? && Matches(d.value, name) then Visit(before, d.value) else before
  }

  /** The search over some roots: a matching root found after another match is destroyed and its descendants skipped. */
  function SearchRoots(roots: seq<RootEntry>, name: string): Search {
    if roots == [] then Search(None, [])
    else
      var before := SearchRoots(roots[..|roots| - 1], name);
      var r := roots[|roots| - 1];
      if r.MissingRoot? then before
      else if Matches(r.obj, name) && before.found.Some? then Visit(before, r.obj)
      else
        var s := if Matches(r.obj, name) then Visit(before, r.obj) else before;
        SearchDescendants(s, r.descendants, name)
  }

  /** The objects of the roots in search order: each present root, then its present descendants. */
  function Flatten(roots: seq<RootEntry>): seq<SceneObject> {
    if roots == [] then []
    else
      var r := roots[|roots| - 1];
      Flatten(roots[..|roots| - 1]) + (if r.MissingRoot? then [] else [r.obj] + Present(r.descendants))
  }

  function Present(ds: seq<Option<SceneObject>>): seq<SceneObject> {
    if ds == [] then [] else Present(ds[..|ds| - 1]) + (if ds[|ds| - 1].Some? then [ds[|ds| - 1].value] else [])
  }

  /** The first matching object of a sequence. */
  function FirstMatch(os: seq<SceneObject>, name: string): Option<ObjectId> {
    if os == [] then None
    else if Matches(os[0], name) then Some(os[0].id)
    else FirstMatch(os[1..], name)
  }

  lemma {:induction false} FirstMatchAppend(a: seq<SceneObject>, b: seq<SceneObject>, name: string)
    ensures FirstMatch(a + b, name) == if FirstMatch(a, name).Some? then FirstMatch(a, name) else FirstMatch(b, name)
  {
    if a != [] {
      assert (a + b)[0] == a[0];
      assert (a + b)[1..] == a[1..] + b;
      FirstMatchAppend(a[1..], b, name);
    } else {
      assert a + b == b;
    }
  }

  /** Once something is found, searching descendants keeps it. */
  lemma {:induction false} DescendantsKeepFound(s: Search, ds: seq<Option<SceneObject>>, name: string)
    requires s.found.Some?
    ensures SearchDescendants(s, ds, name).found == s.found
  {
    if ds != [] {
      DescendantsKeepFound(s, ds[..|ds| - 1], name);
    }
  }

  /** Searching descendants from nothing found finds their first match. */
  lemma {:induction false} DescendantsFindFirst(s: Search, ds: seq<Option<SceneObject>>, name: string)
    requires s.found.None?
    ensures SearchDescendants(s, ds, name).found == FirstMatch(Present(ds), name)
  {
    if ds != [] {
      var prefix := ds[..|ds| - 1];
      var d := ds[|ds| - 1];
      DescendantsFindFirst(s, prefix, name);
      var tail := if d.Some? then [d.value] else [];
      FirstMatchAppend(Present(prefix), tail, name);
      var before := SearchDescendants(s, prefix, name);
      if before.found.None? && d.Some? && !Matches(d.value, name) {
        assert FirstMatch(tail, name) == FirstMatch(tail[1..], name);
      }
    }
  }

  /** The search keeps the first matching object in root-then-descendant order. */
  lemma {:induction false} SearchFindsFirstMatch(roots: seq<RootEntry>, name: string)
    ensures SearchRoots(roots, name).found == FirstMatch(Flatten(roots), name)
  {
    if roots != [] {
      var prefix := roots[..|roots| - 1];
      var r := roots[|roots| - 1];
      SearchFindsFirstMatch(prefix, name);
      var before := SearchRoots(prefix, name);
      if r.MissingRoot? {
        assert Flatten(roots) == Flatten(prefix) + [];
        assert Flatten(prefix) + [] == Flatten(prefix);
      } else {
        assert Flatten(roots) == Flatten(prefix) + ([r.obj] + Present(r.descendants));
        FirstMatchAppend(Flatten(prefix), [r.obj] + Present(r.descendants), name);
        FirstMatchAppend([r.obj], Present(r.descendants), name);
        assert [r.obj][1..] == [];
        assert FirstMatch([r.obj], name) == if Matches(r.obj, name) then Some(r.obj.id) else None;
        if before.found.Some? {
          if !Matches(r.obj, name) {
            DescendantsKeepFound(before, r.descendants, name);
          }
        } else if Matches(r.obj, name) {
          DescendantsKeepFound(Visit(before, r.obj), r.descendants, name);
        } else {
          DescendantsFindFirst(before, r.descendants, name);
        }
      }
    }
  }

  /**
   * GetUniqueHiddenGameObjectInSceneWithName: None for an invalid or unloaded scene;
   * otherwise the first hidden object with the name, roots before their descendants, with
   * every later match destroyed (a destroyed root's descendants are not visited).
   */
  method GetUniqueHiddenGameObjectInSceneWithName(sceneValid: bool, sceneLoaded: bool, roots: seq<RootEntry>, name: string)
    returns (foundRoot: Option<ObjectId>, destroyed: seq<ObjectId>)
    ensures !sceneValid || !sceneLoaded ==> foundRoot.None? && destroyed == []
    ensures sceneValid && sceneLoaded ==> Search(foundRoot, destroyed) == SearchRoots(roots, name)
  {
    if !sceneValid || !sceneLoaded {
      return None, [];
    }
    foundRoot, destroyed := None, [];
    var i := 0;
    while i < |roots|
      invariant 0 <= i <= |roots|
      invariant Search(foundRoot, destroyed) == SearchRoots(roots[..i], name)
    {
      assert roots[..i + 1][..i] == roots[..i];
      var root := roots[i];
      if root.MissingRoot? {
        i := i + 1;
        continue;
      }
      if root.obj.hidden && root.obj.name == name {
        if foundRoot.Some? {
          destroyed := destroyed + [root.obj.id];
          i := i + 1;
          continue;
        }
        foundRoot := Some(root.obj.id);
      }
      var rootChildren := root.descendants;
      var j := 0;
      ghost var start := Search(foundRoot, destroyed);
      while j < |rootChildren|
        invariant 0 <= j <= |rootChildren|
        invariant Search(foundRoot, destroyed) == SearchDescendants(start, rootChildren[..j], name)
      {
        assert rootChildren[..j + 1][..j] == rootChildren[..j];
        var child := rootChildren[j];
        if child.None? || !child.value.hidden || child.value.name != name {
          j := j + 1;
          continue;
        }
        if foundRoot.Some? {
          destroyed := destroyed + [child.value.id];
          j := j + 1;
          continue;
        }
        foundRoot := Some(child.value.id);
        j := j + 1;
      }
      assert rootChildren[..j] == rootChildren;
      i := i + 1;
    }
    assert roots[..i] == roots;
  }
}
