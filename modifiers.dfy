/**
 * Modifier resolution: which modifiers apply to a game object's property, and the
 * value that property has once their amounts are added to it.
 */
module Modifiers {
  import opened Wrappers
  import opened Collections
  import opened Entities

  /** getModifiedKeys: the `keys` field as a list (a single key becomes a one-element list). */
  function KeyListOf(m: Modifier): seq<string>
  {
    match m.keys
    case OneKey(k) => [k]
    case KeyList(ks) => ks
  }

  /**
   * The filter of applyModifiers: a modifier with a (truthy) `targetId` matches by id
   * alone, one without by `targetName` alone; either way `key` must be among its keys.
   */
  predicate Matches(m: Modifier, e: Entity, key: string)
  {
    (if m.targetId != "" then m.targetId == e.id else m.targetName == e.name) &&
    key in KeyListOf(m)
  }

  function MatchesFor(e: Entity, key: string): Modifier -> bool
  {
    m => Matches(m, e, key)
  }

  /** Sum of a list of integers, added left to right. */
  function Total(xs: seq<int>): int
  {
    if xs == [] then 0 else Total(xs[..|xs| - 1]) + xs[|xs| - 1]
  }

  function Amounts(ms: seq<Modifier>): seq<int>
  {
    seq(|ms|, i requires 0 <= i < |ms| => ms[i].amount)
  }

  /** What the modifiers in `mods` that match `e` add to its property `key`. */
  function Contribution(mods: seq<Modifier>, e: Entity, key: string): int
  {
    Total(Amounts(Where(mods, MatchesFor(e, key))))
  }

  /**
   * applyModifiers as a value: an error unless the raw value of `key` is a number,
   * otherwise that number plus the amounts of the matching modifiers.
   */
  function AppliedValue(e: Entity, key: string, mods: seq<Modifier>): (r: Result<int>)
    ensures r.Err? <==> !(Lookup(e, key).Some? && Lookup(e, key).value.Num?)
    ensures r.Err? ==> r.error == NotNumeric(key)
  {
    match Lookup(e, key)
    case Some(Num(raw)) => Ok(raw + Contribution(mods, e, key))
    case _ => Err(NotNumeric(key))
  }

  /** applyModifiers as the source runs it: check, filter, then an accumulator loop. */
  method ApplyModifiers(e: Entity, key: string, mods: seq<Modifier>) returns (r: Result<int>)
    ensures r == AppliedValue(e, key, mods)
  {
    var unmodified := Lookup(e, key);
    if !(unmodified.Some? && unmodified.value.Num?) {
      return Err(NotNumeric(key));
    }
    var matching := Where(mods, MatchesFor(e, key));
    var modified := unmodified.value.n;
    for i := 0 to |matching|
      invariant modified == unmodified.value.n + Total(Amounts(matching[..i]))
    {
      assert Amounts(matching[..i + 1]) == Amounts(matching[..i]) + [matching[i].amount];
      modified := modified + matching[i].amount;
    }
    assert matching[..|matching|] == matching;
    return Ok(modified);
  }

  lemma {:induction false} TotalAppend(a: seq<int>, b: seq<int>)
    ensures Total(a + b) == Total(a) + Total(b)
    decreases |b|
  {
    if b == [] {
      assert a + b == a;
    } else {
      assert (a + b)[..|a + b| - 1] == a + b[..|b| - 1];
      TotalAppend(a, b[..|b| - 1]);
    }
  }

  /** The sum depends only on the multiset of summands, not on their order. */
  lemma {:induction false} TotalPermutation(a: seq<int>, b: seq<int>)
    requires multiset(a) == multiset(b)
    ensures Total(a) == Total(b)
    decreases |a|
  {
    if a == [] {
      assert |b| == |multiset(b)| == 0;
    } else {
      var x := a[|a| - 1];
      assert x in multiset(b);
      var j := IndexOf(b, x);
      var left, right := b[..j], b[j + 1..];
      assert b == left + ([x] + right);
      PermutationWithoutLast(a, b, j);
      TotalPermutation(a[..|a| - 1], left + right);
      TotalAppend(left, [x] + right);
      TotalAppend([x], right);
      TotalAppend(left, right);
      assert Total([x]) == x by {
        assert [x][..0] == [];
      }
    }
  }

  lemma ContributionAppend(a: seq<Modifier>, b: seq<Modifier>, e: Entity, key: string)
    ensures Contribution(a + b, e, key) == Contribution(a, e, key) + Contribution(b, e, key)
  {
    var p := MatchesFor(e, key);
    var wa, wb := Where(a, p), Where(b, p);
    WhereAppend(a, b, p);
    AmountsAppend(wa, wb);
    TotalAppend(Amounts(wa), Amounts(wb));
  }

  lemma AmountsAppend(a: seq<Modifier>, b: seq<Modifier>)
    ensures Amounts(a + b) == Amounts(a) + Amounts(b)
  {
  }

  /** A single modifier adds its amount exactly when it matches. */
  lemma ContributionOfOne(m: Modifier, e: Entity, key: string)
    ensures Contribution([m], e, key) == if Matches(m, e, key) then m.amount else 0
  {
    var p := MatchesFor(e, key);
    assert [m][1..] == [];
    if Matches(m, e, key) {
      assert Where([m], p) == [m];
      assert Amounts([m]) == [m.amount];
      assert Total([m.amount]) == m.amount by {
        assert [m.amount][..0] == [];
      }
    } else {
      assert Where([m], p) == [];
    }
  }

  /** With no matching modifier the modified value is the raw value. */
  lemma NoMatchIsRaw(e: Entity, key: string, mods: seq<Modifier>, raw: int)
    requires Lookup(e, key) == Some(Num(raw))
    requires forall i :: 0 <= i < |mods| ==> !Matches(mods[i], e, key)
    ensures AppliedValue(e, key, mods) == Ok(raw)
  {
    WhereNone(mods, MatchesFor(e, key));
  }

  /**
   * The order of the modifier list does not change the modified value: only which
   * modifiers there are, and how often, matters.
   */
  lemma ModifierOrderIrrelevant(e: Entity, key: string, a: seq<Modifier>, b: seq<Modifier>)
    requires multiset(a) == multiset(b)
    ensures AppliedValue(e, key, a) == AppliedValue(e, key, b)
  {
    ContributionPermutation(e, key, a, b);
    var ra, rb := AppliedValue(e, key, a), AppliedValue(e, key, b);
    if Lookup(e, key).Some? && Lookup(e, key).value.Num? {
      assert ra == Ok(Lookup(e, key).value.n + Contribution(a, e, key));
      assert rb == Ok(Lookup(e, key).value.n + Contribution(b, e, key));
    }
  }

  lemma {:induction false} ContributionPermutation(e: Entity, key: string, a: seq<Modifier>, b: seq<Modifier>)
    requires multiset(a) == multiset(b)
    ensures Contribution(a, e, key) == Contribution(b, e, key)
    decreases |a|
  {
    if a == [] {
      assert |b| == |multiset(b)| == 0;
    } else {
      var x := a[|a| - 1];
      var init := a[..|a| - 1];
      assert a == init + [x];
      assert x in multiset(b);
      var j := IndexOf(b, x);
      var left, right := b[..j], b[j + 1..];
      assert b == left + ([x] + right);
      PermutationWithoutLast(a, b, j);
      ContributionPermutation(e, key, init, left + right);
      ContributionAppend(init, [x], e, key);
      ContributionAppend(left, [x] + right, e, key);
      ContributionAppend([x], right, e, key);
      ContributionAppend(left, right, e, key);
    }
  }

  /**
   * A modifier with a `targetId` reaches only the object with that id, whatever its
   * `targetName` says.
   */
  lemma IdTargetedModifier(m: Modifier, e: Entity, key: string)
    requires m.targetId != ""
    ensures Contribution([m], e, key) == if m.targetId == e.id && key in KeyListOf(m) then m.amount else 0
  {
    ContributionOfOne(m, e, key);
  }

  /** A modifier without a `targetId` reaches every object with its `targetName`. */
  lemma NameTargetedModifier(m: Modifier, e: Entity, key: string)
    requires m.targetId == ""
    ensures Contribution([m], e, key) == if m.targetName == e.name && key in KeyListOf(m) then m.amount else 0
  {
    ContributionOfOne(m, e, key);
  }

  /** One modifier shifts every numeric property it lists by its amount. */
  lemma EveryListedKeyShifted(m: Modifier, e: Entity, key: string, raw: int)
    requires if m.targetId != "" then m.targetId == e.id else m.targetName == e.name
    requires key in KeyListOf(m)
    requires Lookup(e, key) == Some(Num(raw))
    ensures AppliedValue(e, key, [m]) == Ok(raw + m.amount)
  {
    ContributionOfOne(m, e, key);
  }

  /** A modifier with a single key leaves every other property at its raw value. */
  lemma OneKeyLeavesOtherKeys(m: Modifier, e: Entity, key: string, raw: int)
    requires m.keys.OneKey? && key != m.keys.key
    requires Lookup(e, key) == Some(Num(raw))
    ensures AppliedValue(e, key, [m]) == Ok(raw)
  {
    ContributionOfOne(m, e, key);
  }
}
