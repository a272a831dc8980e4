/**
 * The live game object: identity, a mutable owner reference and a mutable record of
 * child collections, with the operations that change them in place (setChildren,
 * addChild, removeChild) and the searches over the direct children.
 */
module GameObjects {
  import opened Wrappers
  import opened Collections
  import opened GameObjectKeys

  class GameObject {
    /** The blueprint name, e.g. `wagon.small`; its key (`wagon`) names the collection it lives in. */
    const name: string
    /** The unique identifier (a fresh UUID when none is given, supplied by the caller here). */
    const id: string
    /** The object that owns this one, or null. */
    var owner: GameObject?
    /** The `children` record: collection keys in insertion order, each with its list of objects. */
    var children: seq<Collection<GameObject>>

    /**
     * The constructor: an absent owner is null and an absent record is empty. The given
     * children are stored as they are; their `owner` is not touched.
     */
    constructor (name: string, id: string, owner: GameObject?, children: seq<Collection<GameObject>>)
      ensures this.name == name && this.id == id
      ensures this.owner == owner && this.children == children
    {
      this.name := name;
      this.id := id;
      this.owner := owner;
      this.children := children;
    }

    /** getOwner. */
    function GetOwner(): GameObject?
      reads this
    {
      owner
    }

    /** getChildren: the list stored under `k`, or an empty list when `k` is not declared. */
    function GetChildren(k: string): (r: seq<GameObject>)
      reads this
      ensures !Declared(children, k) ==> r == []
      ensures Declared(children, k) ==> r == children[IndexOf(Keys(children), k)].members
    {
      Get(children, k)
    }

    /**
     * setChildren: the collection is the key of the FIRST object's name. An empty list
     * fails on reading that object (nothing changes); a key the record does not declare
     * is refused (nothing changes). Otherwise every object in the list is given this
     * object as owner and the list replaces the stored one, in place in the record.
     */
    method SetChildren(list: seq<GameObject>) returns (failure: Option<Error>)
      modifies this, list
      ensures list == [] ==> failure == Some(NoFirstChild) && children == old(children) && owner == old(owner)
      ensures list != [] && !Declared(old(children), GameObjectKey(list[0].name)) ==>
        failure == Some(UnknownCollection(GameObjectKey(list[0].name))) && children == old(children) &&
        owner == old(owner) && forall c :: c in list ==> c.owner == old(c.owner)
      ensures list != [] && Declared(old(children), GameObjectKey(list[0].name)) ==>
        failure == None &&
        children == Put(old(children), GameObjectKey(list[0].name), list) &&
        GetChildren(GameObjectKey(list[0].name)) == list &&
        (forall c :: c in list ==> c.owner == this) &&
        (this !in list ==> owner == old(owner))
      ensures forall c :: c in list && c != this ==> c.children == old(c.children)
    {
      if list == [] {
        return Some(NoFirstChild);
      }
      var k := GetGameObjectKey(list[0].name);
      if !Declared(children, k) {
        return Some(UnknownCollection(k));
      }
      for i := 0 to |list|
        invariant children == old(children)
        invariant forall j :: 0 <= j < i ==> list[j].owner == this
        invariant this !in list[..i] ==> owner == old(owner)
        invariant forall c :: c in list && c != this ==> c.children == old(c.children)
      {
        list[i].owner := this;
      }
      GetAfterPut(children, k, list);
      children := Put(children, k, list);
      return None;
    }

    /**
     * addChild: the child joins the list of its name's key, at the end, and gets this
     * object as owner; the list is returned. When the key is not declared the child is
     * pushed onto a fresh empty list that is not stored: the record does not change,
     * yet the child's owner is set.
     */
    method AddChild(child: GameObject) returns (r: seq<GameObject>)
      modifies this, child
      ensures child.owner == this
      ensures Declared(old(children), GameObjectKey(child.name)) ==>
        children == Put(old(children), GameObjectKey(child.name), Get(old(children), GameObjectKey(child.name)) + [child]) &&
        r == GetChildren(GameObjectKey(child.name))
      ensures !Declared(old(children), GameObjectKey(child.name)) ==> children == old(children) && r == [child]
      ensures child != this ==> child.children == old(child.children) && owner == old(owner)
    {
      var k := GetGameObjectKey(child.name);
      var list := GetChildren(k) + [child];
      if Declared(children, k) {
        GetAfterPut(children, k, list);
        children := Put(children, k, list);
      }
      child.owner := this;
      return list;
    }

    /**
     * removeChild: the child's first occurrence (by identity) is spliced out of the list
     * of its name's key, its owner is cleared and the list is returned. A child that is
     * not in that list (an undeclared key included) is an error and nothing changes.
     */
    method RemoveChild(child: GameObject) returns (r: Result<seq<GameObject>>)
      modifies this, child
      ensures IndexOf(Get(old(children), GameObjectKey(child.name)), child) == -1 ==>
        r == Err(ChildNotFound(child.id, GameObjectKey(child.name))) &&
        children == old(children) && child.owner == old(child.owner)
      ensures IndexOf(Get(old(children), GameObjectKey(child.name)), child) != -1 ==>
        var k := GameObjectKey(child.name);
        var list := Get(old(children), k);
        var i := IndexOf(list, child);
        Declared(old(children), k) &&
        children == Put(old(children), k, Splice(list, i)) &&
        child.owner == null && r == Ok(Splice(list, i))
      ensures child != this ==> child.children == old(child.children) && owner == old(owner)
    {
      var k := GetGameObjectKey(child.name);
      var list := GetChildren(k);
      var i := IndexOf(list, child);
      if i == -1 {
        return Err(ChildNotFound(child.id, k));
      }
      assert Declared(children, k);
      list := Splice(list, i);
      children := Put(children, k, list);
      child.owner := null;
      return Ok(list);
    }

    /**
     * The loop of findChildByName / findChildById: collection by collection in key
     * order, the first member satisfying `p`; the result is the first such child of all.
     */
    method FindChild(p: GameObject -> bool) returns (r: Option<GameObject>)
      ensures r == FindFirst(Flatten(children), p)
    {
      FindInCollectionsIsFirstOverall(children, p);
      var i := 0;
      while i < |children|
        invariant 0 <= i <= |children|
        invariant FindInCollections(children, p) == FindInCollections(children[i..], p)
      {
        assert children[i..][1..] == children[i + 1..];
        var hit := FindFirst(children[i].members, p);
        if hit.Some? {
          return hit;
        }
        i := i + 1;
      }
      return None;
    }

    /** findChildByName: the first direct child, over all collections, with that name. */
    method FindChildByName(name: string) returns (r: Option<GameObject>)
      ensures r == FindFirst(Flatten(children), HasName(name))
      ensures r.Some? ==> r.value.name == name && r.value in Flatten(children)
      ensures r.None? <==> forall c :: c in Flatten(children) ==> c.name != name
    {
      r := FindChild(HasName(name));
    }

    /** findChildById: the first direct child, over all collections, with that id. */
    method FindChildById(id: string) returns (r: Option<GameObject>)
      ensures r == FindFirst(Flatten(children), HasId(id))
      ensures r.Some? ==> r.value.id == id && r.value in Flatten(children)
      ensures r.None? <==> forall c :: c in Flatten(children) ==> c.id != id
    {
      r := FindChild(HasId(id));
    }
  }

  /** The predicate `child => child.name === name`. */
  function HasName(name: string): GameObject -> bool
  {
    (c: GameObject) => c.name == name
  }

  /** The predicate `child => child.id === id`. */
  function HasId(id: string): GameObject -> bool
  {
    (c: GameObject) => c.id == id
  }

  /**
   * Adding a child that is not yet in its declared collection and then removing it
   * restores the record exactly and leaves the child without an owner.
   */
  method AddThenRemove(parent: GameObject, child: GameObject)
    requires Declared(parent.children, GameObjectKey(child.name))
    requires child !in parent.GetChildren(GameObjectKey(child.name))
    modifies parent, child
    ensures parent.children == old(parent.children)
    ensures child.owner == null
  {
    ghost var k := GameObjectKey(child.name);
    ghost var before := parent.children;
    ghost var list := Get(before, k);
    var added := parent.AddChild(child);
    assert parent.children == Put(before, k, list + [child]);
    GetAfterPut(before, k, list + [child]);
    PutKeepsKeys(before, k, list + [child]);
    assert parent.GetChildren(k) == list + [child];
    assert IndexOf(list + [child], child) == |list| by {
      assert (list + [child])[..|list|] == list;
    }
    var removed := parent.RemoveChild(child);
    assert Splice(list + [child], |list|) == list;
    PutPut(before, k, list + [child], list);
    PutGet(before, k);
  }

  /**
   * A child added to a declared collection is then found by findChildById (the first
   * child with that id, which is this one unless an earlier child shares its id).
   */
  method AddThenFindById(parent: GameObject, child: GameObject) returns (r: Option<GameObject>)
    requires Declared(parent.children, GameObjectKey(child.name))
    modifies parent, child
    ensures r.Some? && r.value.id == child.id
  {
    ghost var k := GameObjectKey(child.name);
    ghost var before := parent.children;
    ghost var list := Get(before, k) + [child];
    var added := parent.AddChild(child);
    GetAfterPut(before, k, list);
    assert child in Get(parent.children, k);
    MemberOfGetIsInFlatten(parent.children, k, child);
    r := parent.FindChildById(child.id);
  }

  /** getOwner returns the owner given at construction, and null when none was given. */
  method OwnerOfNewObject(name: string, id: string, owner: GameObject?) returns (r: GameObject?)
    ensures r == owner
  {
    var g := new GameObject(name, id, owner, []);
    r := g.GetOwner();
  }
}
