/**
 * Modifier gathering over a game object's subtree (getModifiersRecursively) and the
 * modified value of a property (getModifiedValue).
 */
module ModifierTree {
  import opened Wrappers
  import opened Collections
  import opened Entities
  import opened Modifiers

  /**
   * getModifiersRecursively without a filter: the object's own modifiers, then, for
   * each collection in key order and each child in list order, the child's result.
   */
  function Gather(e: Entity): seq<Modifier>
  {
    e.modifiers + GatherCollections(e.children)
  }

  function GatherCollections(cs: seq<Collection<Entity>>): seq<Modifier>
  {
    if cs == [] then [] else GatherList(cs[0].members) + GatherCollections(cs[1..])
  }

  function GatherList(es: seq<Entity>): seq<Modifier>
  {
    if es == [] then [] else Gather(es[0]) + GatherList(es[1..])
  }

  lemma {:induction false} GatherListAppend(a: seq<Entity>, b: seq<Entity>)
    ensures GatherList(a + b) == GatherList(a) + GatherList(b)
  {
    if a == [] {
      assert a + b == b;
    } else {
      assert (a + b)[1..] == a[1..] + b;
      GatherListAppend(a[1..], b);
    }
  }

  /**
   * Pre-order: an object's modifiers come first, followed by the gathered modifiers of
   * each direct child, children taken collection by collection and in list order.
   */
  lemma {:induction false} GatherPreOrder(e: Entity)
    ensures Gather(e) == e.modifiers + GatherList(Flatten(e.children))
  {
    GatherCollectionsFlat(e.children);
  }

  lemma {:induction false} GatherCollectionsFlat(cs: seq<Collection<Entity>>)
    ensures GatherCollections(cs) == GatherList(Flatten(cs))
  {
    if cs != [] {
      GatherCollectionsFlat(cs[1..]);
      GatherListAppend(cs[0].members, Flatten(cs[1..]));
    }
  }

  /** The optional filter of getModifiersRecursively; "" stands for a field not given. */
  datatype ModifierFilter = ModifierFilter(targetName: string, targetId: string)

  /** A modifier kept by the filter: the name must match exactly, a targetId must not differ. */
  predicate Passes(m: Modifier, f: ModifierFilter)
  {
    (f.targetName == "" || m.targetName == f.targetName) &&
    (f.targetId == "" || m.targetId == "" || m.targetId == f.targetId)
  }

  function PassesFor(f: ModifierFilter): Modifier -> bool
  {
    m => Passes(m, f)
  }

  function NameIs(name: string): Modifier -> bool
  {
    (m: Modifier) => m.targetName == name
  }

  function IdCompatible(id: string): Modifier -> bool
  {
    (m: Modifier) => m.targetId == "" || m.targetId == id
  }

  /**
   * getModifiersRecursively: everything gathered, filtered by `targetName` when one is
   * given, then by `targetId` when one is given. The result is the gathered list with
   * exactly the modifiers that pass the filter kept, in their gathered order.
   */
  function ModifiersRecursively(e: Entity, f: ModifierFilter): (r: seq<Modifier>)
    ensures r == Where(Gather(e), PassesFor(f))
  {
    var all := Gather(e);
    var byName := if f.targetName != "" then Where(all, NameIs(f.targetName)) else all;
    var byId := if f.targetId != "" then Where(byName, IdCompatible(f.targetId)) else byName;
    if f.targetName != "" && f.targetId != "" then
      WhereWhere(all, NameIs(f.targetName), IdCompatible(f.targetId), PassesFor(f));
      byId
    else if f.targetName != "" then
      WhereSame(all, NameIs(f.targetName), PassesFor(f));
      byId
    else if f.targetId != "" then
      WhereSame(all, IdCompatible(f.targetId), PassesFor(f));
      byId
    else
      WhereAll(all, PassesFor(f));
      byId
  }

  /**
   * getModifiedValue with an explicit modifier source: the modifiers gathered from the
   * source's subtree, filtered to this object's name and id, applied to `key`.
   */
  function GetModifiedValue(e: Entity, key: string, source: Entity): Result<int>
  {
    AppliedValue(e, key, ModifiersRecursively(source, ModifierFilter(e.name, e.id)))
  }

  /** The source used when none is passed: the owner, or the object itself when it has none. */
  function DefaultModifierSource(e: Entity, owner: Option<Entity>): Entity
  {
    match owner
    case Some(o) => o
    case None => e
  }

  /** A modifier in a subtree that changes `key` of `e`: named for it, not aimed at another id. */
  predicate Affects(m: Modifier, e: Entity, key: string)
  {
    m.targetName == e.name && (m.targetId == "" || m.targetId == e.id) && key in KeyListOf(m)
  }

  function AffectsFor(e: Entity, key: string): Modifier -> bool
  {
    m => Affects(m, e, key)
  }

  /**
   * The modified value is the raw value plus the amounts of the modifiers found in the
   * source's subtree that are named for this object and either carry no targetId or
   * carry this object's id, and that list `key`.
   */
  lemma ModifiedValueOfSubtree(e: Entity, key: string, source: Entity, raw: int)
    requires e.name != ""
    requires Lookup(e, key) == Some(Num(raw))
    ensures GetModifiedValue(e, key, source) ==
      Ok(raw + Total(Amounts(Where(Gather(source), AffectsFor(e, key)))))
  {
    var f := ModifierFilter(e.name, e.id);
    var mods := ModifiersRecursively(source, f);
    AffectsIsFilterThenMatch(e, key);
    WhereWhere(Gather(source), PassesFor(f), MatchesFor(e, key), AffectsFor(e, key));
    assert Contribution(mods, e, key) == Total(Amounts(Where(Gather(source), AffectsFor(e, key))));
  }

  /**
   * For a named object, passing its filter and matching it is being aimed at it. An
   * object without an id is reached only by modifiers that carry no targetId.
   */
  lemma AffectsIsFilterThenMatch(e: Entity, key: string)
    requires e.name != ""
    ensures forall m :: AffectsFor(e, key)(m) == (PassesFor(ModifierFilter(e.name, e.id))(m) && MatchesFor(e, key)(m))
  {
  }

  /**
   * getModifiedValue without an explicit source, for a named object: a numeric property
   * is shifted by the modifiers aimed at the object in its owner's subtree, or, without
   * an owner, in its own subtree (its own modifiers first).
   */
  lemma DefaultSourceModifiedValue(e: Entity, key: string, owner: Option<Entity>, raw: int)
    requires e.name != ""
    requires Lookup(e, key) == Some(Num(raw))
    ensures owner.None? ==>
      GetModifiedValue(e, key, DefaultModifierSource(e, owner)) ==
        Ok(raw + Total(Amounts(Where(e.modifiers + GatherList(Flatten(e.children)), AffectsFor(e, key)))))
    ensures owner.Some? ==>
      GetModifiedValue(e, key, DefaultModifierSource(e, owner)) ==
        Ok(raw + Total(Amounts(Where(Gather(owner.value), AffectsFor(e, key)))))
  {
    if owner.None? {
      assert DefaultModifierSource(e, owner) == e;
      OwnSubtreeModifiedValue(e, key, raw);
    } else {
      assert DefaultModifierSource(e, owner) == owner.value;
      ModifiedValueOfSubtree(e, key, owner.value, raw);
    }
  }

  lemma OwnSubtreeModifiedValue(e: Entity, key: string, raw: int)
    requires e.name != ""
    requires Lookup(e, key) == Some(Num(raw))
    ensures GetModifiedValue(e, key, e) ==
      Ok(raw + Total(Amounts(Where(e.modifiers + GatherList(Flatten(e.children)), AffectsFor(e, key)))))
  {
    GatherPreOrder(e);
    ModifiedValueOfSubtree(e, key, e, raw);
  }

  /** A property that is absent or not a number is an error, whatever the source holds. */
  lemma NonNumericIsError(e: Entity, key: string, source: Entity)
    requires !(Lookup(e, key).Some? && Lookup(e, key).value.Num?)
    ensures GetModifiedValue(e, key, source) == Err(NotNumeric(key))
  {
  }
}
