/**
 * The library's own examples, stated on concrete objects: collection keys of names,
 * modified values of a train's speed stat, and dependency and conflict checks against
 * an object holding a `dependency.target` child. Identifiers the examples leave to a
 * fresh UUID, and the wagons' amounts, are parameters.
 */
module Scenarios {
  import opened Wrappers
  import opened Collections
  import opened GameObjectKeys
  import opened Entities
  import opened Modifiers
  import opened ModifierTree
  import opened Dependencies

  // ---- Collection keys ----

  lemma KeyOfSingleSegment(name: string)
    requires name == "foo"
    ensures GameObjectKey(name) == "foo"
  {
    assert '.' !in name;
  }

  lemma KeyOfTwoSegments(name: string)
    requires name == "foo.bar"
    ensures GameObjectKey(name) == "foo"
  {
    assert name == "foo" + "." + "bar";
    KeyOfQualifiedName("foo", "bar");
  }

  lemma KeyOfThreeSegments(name: string)
    requires name == "foo.bar.baz"
    ensures GameObjectKey(name) == "foo.bar"
  {
    assert name == "foo.bar" + "." + "baz";
    KeyOfQualifiedName("foo.bar", "baz");
  }

  lemma KeyOfQualifiedBlueprintName(name: string)
    requires name == "character.origin.earth-urban"
    ensures GameObjectKey(name) == "character.origin"
  {
    assert name == "character.origin" + "." + "earth-urban";
    KeyOfQualifiedName("character.origin", "earth-urban");
  }

  lemma KeyOfFourSegments(name: string)
    requires name == "foo.foz.bar.baz"
    ensures GameObjectKey(name) == "foo.foz.bar"
  {
    assert name == "foo.foz.bar" + "." + "baz";
    KeyOfQualifiedName("foo.foz.bar", "baz");
  }

  // ---- Modified values: a train with a speed stat and wagons ----

  /** `stat.speed`: value 5, max 10. */
  function Speed(id: string): Entity
  {
    Entity("stat.speed", id, map["value" := Num(5), "max" := Num(10)], [], [], [])
  }

  /** A wagon blueprint's single modifier of the speed stat's value (+2 small, -3 large). */
  function WagonModifier(amount: int): Modifier
  {
    Modifier("stat.speed", "", KeyList(["value"]), amount)
  }

  /** A wagon with an empty stat collection. */
  function Wagon(name: string, id: string, amount: int): Entity
  {
    Entity(name, id, map["seats" := Num(if amount < 0 then 200 else 50)], [WagonModifier(amount)], [], [Collection("stat", [])])
  }

  /** `train.thomas` with its stat and wagon collections; `length` is the wagon count plus one. */
  function Train(id: string, modifiers: seq<Modifier>, stats: seq<Entity>, wagons: seq<Entity>): Entity
  {
    Entity("train.thomas", id, map["noise" := Str("toot toot"), "length" := Num(|wagons| + 1)],
      modifiers, [], [Collection("stat", stats), Collection("wagon", wagons)])
  }

  /** A train's modifiers come first, then those of its stats, then those of its wagons. */
  lemma GatherOfTrain(id: string, mods: seq<Modifier>, stats: seq<Entity>, wagons: seq<Entity>)
    ensures Gather(Train(id, mods, stats, wagons)) == mods + GatherList(stats) + GatherList(wagons)
  {
    var train := Train(id, mods, stats, wagons);
    GatherOfTwoCollections(train, train.children[0], train.children[1]);
  }

  /** An object with two collections: its modifiers, then the first's, then the second's. */
  lemma GatherOfTwoCollections(e: Entity, a: Collection<Entity>, b: Collection<Entity>)
    requires e.children == [a, b]
    ensures Gather(e) == e.modifiers + GatherList(a.members) + GatherList(b.members)
  {
    assert e.children[1..] == [b] && e.children[1..][1..] == [];
    assert GatherCollections(e.children[1..]) == GatherList(b.members);
  }

  /** An object with no modifiers and no children contributes nothing, alone in a list. */
  lemma GatherOfChildless(e: Entity)
    requires e.modifiers == [] && e.children == []
    ensures GatherList([e]) == []
  {
    assert GatherCollections(e.children) == [];
    assert Gather(e) == [];
    assert [e][1..] == [];
  }

  /** A wagon's only modifier is its blueprint's. */
  lemma GatherOfWagon(name: string, id: string, amount: int)
    ensures Gather(Wagon(name, id, amount)) == [WagonModifier(amount)]
  {
    GatherPreOrder(Wagon(name, id, amount));
  }

  /** A one-wagon list contributes the wagon's modifier. */
  lemma GatherOfOneWagon(name: string, w: string, amount: int)
    ensures GatherList([Wagon(name, w, amount)]) == [WagonModifier(amount)]
  {
    GatherOfWagon(name, w, amount);
    assert [Wagon(name, w, amount)][1..] == [];
  }

  /** Three wagons contribute their three modifiers, in order. */
  lemma GatherOfThreeWagons(ws: seq<Entity>, w1: string, w2: string, w3: string, a1: int, a2: int, a3: int)
    requires ws == [Wagon("wagon.small", w1, a1), Wagon("wagon.small", w2, a2), Wagon("wagon.large", w3, a3)]
    ensures GatherList(ws) == [WagonModifier(a1), WagonModifier(a2), WagonModifier(a3)]
  {
    GatherOfWagon("wagon.small", w1, a1);
    GatherOfWagon("wagon.small", w2, a2);
    GatherOfOneWagon("wagon.large", w3, a3);
    assert ws[1..][1..] == [ws[2]];
    assert GatherList(ws[1..]) == [WagonModifier(a2), WagonModifier(a3)];
  }

  /** The sum of one amount. */
  lemma TotalOfOne(m: Modifier)
    ensures Total(Amounts([m])) == m.amount
  {
    assert Amounts([m]) == [m.amount] && [m.amount][..0] == [];
  }

  /** The sum of three amounts. */
  lemma TotalOfThree(a: Modifier, b: Modifier, c: Modifier)
    ensures Total(Amounts([a, b, c])) == a.amount + b.amount + c.amount
  {
    var xs := Amounts([a, b, c]);
    assert xs == [a.amount, b.amount, c.amount];
    assert xs[..2] == [a.amount, b.amount];
    assert xs[..2][..1] == [a.amount];
    assert [a.amount][..0] == [];
    assert Total([a.amount]) == a.amount;
    assert Total(xs[..2]) == a.amount + b.amount;
  }

  /** A modifier of the kind the wagon blueprints carry, whatever its amount. */
  predicate IsWagonModifier(m: Modifier)
  {
    m.targetName == "stat.speed" && m.targetId == "" && m.keys == KeyList(["value"])
  }

  /** A wagon modifier is aimed at every speed stat's value. */
  lemma WagonAffectsSpeed(m: Modifier, id: string)
    requires IsWagonModifier(m)
    ensures AffectsFor(Speed(id), "value")(m)
  {
  }

  /** Every wagon modifier is kept by the speed stat's filter. */
  lemma WagonModifiersAffectSpeed(mods: seq<Modifier>, s: string)
    requires forall i :: 0 <= i < |mods| ==> IsWagonModifier(mods[i])
    ensures Where(mods, AffectsFor(Speed(s), "value")) == mods
  {
    var p := AffectsFor(Speed(s), "value");
    forall i | 0 <= i < |mods|
      ensures p(mods[i])
    {
      WagonAffectsSpeed(mods[i], s);
    }
    WhereAll(mods, p);
  }

  /** The speed stat's value and maximum as read by the checks. */
  lemma SpeedProperties(s: string)
    ensures Lookup(Speed(s), "value") == Some(Num(5))
    ensures Lookup(Speed(s), "max") == Some(Num(10))
  {
  }

  /** A property of the speed stat in a source whose gathered modifiers sum to `total` on it. */
  lemma SpeedWithTotal(s: string, source: Entity, key: string, raw: int, total: int)
    requires Lookup(Speed(s), key) == Some(Num(raw))
    requires Total(Amounts(Where(Gather(source), AffectsFor(Speed(s), key)))) == total
    ensures GetModifiedValue(Speed(s), key, source) == Ok(raw + total)
  {
    ModifiedValueOfSubtree(Speed(s), key, source, raw);
  }

  /** With no modifier anywhere the speed is its raw value, 5. */
  lemma UnmodifiedSpeed(s: string, t: string)
    ensures GetModifiedValue(Speed(s), "value", Train(t, [], [Speed(s)], [])) == Ok(5)
  {
    UnmodifiedSpeedTotal(s, t);
    SpeedProperties(s);
    SpeedWithTotal(s, Train(t, [], [Speed(s)], []), "value", 5, 0);
  }

  lemma UnmodifiedSpeedTotal(s: string, t: string)
    ensures Total(Amounts(Where(Gather(Train(t, [], [Speed(s)], [])), AffectsFor(Speed(s), "value")))) == 0
  {
    GatherOfTrain(t, [], [Speed(s)], []);
    GatherOfChildless(Speed(s));
    assert Gather(Train(t, [], [Speed(s)], [])) == [];
  }

  /** One wagon shifts the speed by its amount: 7 with a small wagon, 2 with a large one. */
  lemma SpeedWithOneWagon(s: string, t: string, name: string, w: string, amount: int)
    ensures GetModifiedValue(Speed(s), "value", Train(t, [], [Speed(s)], [Wagon(name, w, amount)])) == Ok(5 + amount)
  {
    OneWagonTotal(s, t, name, w, amount);
    SpeedProperties(s);
    SpeedWithTotal(s, Train(t, [], [Speed(s)], [Wagon(name, w, amount)]), "value", 5, amount);
  }

  lemma OneWagonTotal(s: string, t: string, name: string, w: string, amount: int)
    ensures Total(Amounts(Where(Gather(Train(t, [], [Speed(s)], [Wagon(name, w, amount)])), AffectsFor(Speed(s), "value")))) == amount
  {
    var train := Train(t, [], [Speed(s)], [Wagon(name, w, amount)]);
    GatherOfTrain(t, [], [Speed(s)], [Wagon(name, w, amount)]);
    GatherOfChildless(Speed(s));
    GatherOfOneWagon(name, w, amount);
    assert Gather(train) == [WagonModifier(amount)];
    WagonModifiersAffectSpeed(Gather(train), s);
    TotalOfOne(WagonModifier(amount));
  }

  /**
   * Three wagons add up (two small and a large one: 5 + 2 + 2 - 3 = 6), with the stat's
   * owner, the train, as the default source.
   */
  lemma SpeedWithThreeWagons(s: string, t: string, w1: string, w2: string, w3: string, a1: int, a2: int, a3: int)
    ensures var train := Train(t, [], [Speed(s)],
      [Wagon("wagon.small", w1, a1), Wagon("wagon.small", w2, a2), Wagon("wagon.large", w3, a3)]);
      GetModifiedValue(Speed(s), "value", DefaultModifierSource(Speed(s), Some(train))) == Ok(5 + a1 + a2 + a3)
  {
    var train := Train(t, [], [Speed(s)],
      [Wagon("wagon.small", w1, a1), Wagon("wagon.small", w2, a2), Wagon("wagon.large", w3, a3)]);
    ThreeWagonsTotal(s, train, t, w1, w2, w3, a1, a2, a3);
    SpeedProperties(s);
    SpeedWithTotal(s, train, "value", 5, a1 + a2 + a3);
  }

  lemma ThreeWagonsTotal(s: string, train: Entity, t: string, w1: string, w2: string, w3: string, a1: int, a2: int, a3: int)
    requires train == Train(t, [], [Speed(s)],
      [Wagon("wagon.small", w1, a1), Wagon("wagon.small", w2, a2), Wagon("wagon.large", w3, a3)])
    ensures Total(Amounts(Where(Gather(train), AffectsFor(Speed(s), "value")))) == a1 + a2 + a3
  {
    var wagons := [Wagon("wagon.small", w1, a1), Wagon("wagon.small", w2, a2), Wagon("wagon.large", w3, a3)];
    GatherOfTrain(t, [], [Speed(s)], wagons);
    GatherOfChildless(Speed(s));
    GatherOfThreeWagons(wagons, w1, w2, w3, a1, a2, a3);
    var mods := [WagonModifier(a1), WagonModifier(a2), WagonModifier(a3)];
    assert Gather(train) == mods;
    WagonModifiersAffectSpeed(mods, s);
    TotalOfThree(WagonModifier(a1), WagonModifier(a2), WagonModifier(a3));
  }

  /** One modifier listing `value` and `max` shifts both; with -3 they become 2 and 7. */
  lemma SpeedAndMaxShifted(s: string, t: string, amount: int)
    ensures var train := Train(t, [Modifier("stat.speed", "", KeyList(["value", "max"]), amount)], [Speed(s)], []);
      GetModifiedValue(Speed(s), "value", train) == Ok(5 + amount) &&
      GetModifiedValue(Speed(s), "max", train) == Ok(10 + amount)
  {
    var train := Train(t, [Modifier("stat.speed", "", KeyList(["value", "max"]), amount)], [Speed(s)], []);
    SpeedAndMaxTotals(s, t, amount);
    SpeedProperties(s);
    SpeedWithTotal(s, train, "value", 5, amount);
    SpeedWithTotal(s, train, "max", 10, amount);
  }

  lemma SpeedAndMaxTotals(s: string, t: string, amount: int)
    ensures var m := Modifier("stat.speed", "", KeyList(["value", "max"]), amount);
      var train := Train(t, [m], [Speed(s)], []);
      Total(Amounts(Where(Gather(train), AffectsFor(Speed(s), "value")))) == amount &&
      Total(Amounts(Where(Gather(train), AffectsFor(Speed(s), "max")))) == amount
  {
    var m := Modifier("stat.speed", "", KeyList(["value", "max"]), amount);
    GatherOfTrain(t, [m], [Speed(s)], []);
    GatherOfChildless(Speed(s));
    assert Gather(Train(t, [m], [Speed(s)], [])) == [m];
    WhereAll([m], AffectsFor(Speed(s), "value"));
    WhereAll([m], AffectsFor(Speed(s), "max"));
    TotalOfOne(m);
  }

  /**
   * With no owner the train is its own source; of two modifiers naming it, only the one
   * whose targetId is its id applies: length 1 becomes 2, not 3.
   */
  lemma LengthByTargetId(id: string, other: string)
    requires id != "" && other != "" && other != id
    ensures var train := Train(id, [Modifier("train.thomas", id, OneKey("length"), 1),
      Modifier("train.thomas", other, OneKey("length"), 1)], [], []);
      GetModifiedValue(train, "length", DefaultModifierSource(train, None)) == Ok(2)
  {
    var m1, m2 := Modifier("train.thomas", id, OneKey("length"), 1), Modifier("train.thomas", other, OneKey("length"), 1);
    var train := Train(id, [m1, m2], [], []);
    LengthByTargetIdTotal(id, m1, m2, train);
    ModifiedValueOfSubtree(train, "length", train, 1);
  }

  lemma LengthByTargetIdTotal(id: string, m1: Modifier, m2: Modifier, train: Entity)
    requires id != "" && m1.targetName == "train.thomas" && m1.targetId == id && m1.keys == OneKey("length")
    requires m2.targetId != "" && m2.targetId != id
    requires train == Train(id, [m1, m2], [], [])
    ensures Total(Amounts(Where(Gather(train), AffectsFor(train, "length")))) == m1.amount
  {
    GatherOfTrain(id, [m1, m2], [], []);
    assert Gather(train) == [m1, m2];
    assert Where([m1, m2], AffectsFor(train, "length")) == [m1] by {
      assert [m1, m2][1..] == [m2] && [m2][1..] == [];
    }
    TotalOfOne(m1);
  }

  /** A modifier for another name, for another key or for another id changes nothing. */
  lemma LengthWithoutMatchingModifier(id: string, other: string)
    requires id != "" && other != "" && other != id
    ensures var train := Train(id, [Modifier("train.polar-express", "", OneKey("length"), 1),
      Modifier("train.thomas", "", OneKey("non-matching key"), 1),
      Modifier("train.thomas", other, OneKey("length"), 1)], [], []);
      GetModifiedValue(train, "length", train) == Ok(1)
  {
    var train := Train(id, [Modifier("train.polar-express", "", OneKey("length"), 1),
      Modifier("train.thomas", "", OneKey("non-matching key"), 1),
      Modifier("train.thomas", other, OneKey("length"), 1)], [], []);
    forall i | 0 <= i < |train.modifiers|
      ensures !Affects(train.modifiers[i], train, "length")
    {
      if i == 0 {
        assert "train.polar-express"[6] != "train.thomas"[6];
      } else if i == 1 {
        assert "length" != "non-matching key";
      }
    }
    NoMatchingModifierTotal(id, train.modifiers);
    ModifiedValueOfSubtree(train, "length", train, 1);
  }

  lemma NoMatchingModifierTotal(id: string, mods: seq<Modifier>)
    requires forall i :: 0 <= i < |mods| ==> !Affects(mods[i], Train(id, mods, [], []), "length")
    ensures Total(Amounts(Where(Gather(Train(id, mods, [], [])), AffectsFor(Train(id, mods, [], []), "length")))) == 0
  {
    GatherOfTrain(id, mods, [], []);
    assert Gather(Train(id, mods, [], [])) == mods;
    WhereNone(mods, AffectsFor(Train(id, mods, [], []), "length"));
  }

  // ---- Dependencies against an object holding a `dependency.target` child ----

  /** `dependency.target`: `hello` is "world" and `answer` is 42. */
  function DependencyTarget(id: string): Entity
  {
    Entity("dependency.target", id, map["hello" := Str("world"), "answer" := Num(42)], [], [], [])
  }

  /** `unrelated.object`, a child in another collection. */
  function Unrelated(id: string): Entity
  {
    Entity("unrelated.object", id, map[], [], [], [])
  }

  /** The object checked against: the unrelated child and the target, and its own modifiers. */
  function CheckedObject(id: string, modifiers: seq<Modifier>, unrelated: Entity, target: Entity): Entity
  {
    Entity("entity", id, map[], modifiers, [],
      [Collection("unrelated", [unrelated]), Collection("dependency", [target])])
  }

  /** A dependency on `dependency.target` finds the target in the `dependency` collection. */
  lemma TargetIsFound(d: Dependency, checked: Entity, c: string, mods: seq<Modifier>, u: string, t: string)
    requires d.dependencyName == "dependency.target"
    requires checked == CheckedObject(c, mods, Unrelated(u), DependencyTarget(t))
    ensures Target(d, checked) == Some(DependencyTarget(t))
  {
    KeyOfDependencyName(d.dependencyName, "target");
    DependencyCollection(d, checked, c, mods, u, t);
    FindFirstOfOne(DependencyTarget(t), NamedAs(d.dependencyName));
  }

  lemma KeyOfDependencyName(name: string, segment: string)
    requires '.' !in segment && name == "dependency." + segment
    ensures GameObjectKey(name) == "dependency"
  {
    assert name == "dependency" + "." + segment;
    KeyOfQualifiedName("dependency", segment);
  }

  /** A name of the `dependency` collection is searched among the target alone. */
  lemma DependencyCollection(d: Dependency, checked: Entity, c: string, mods: seq<Modifier>, u: string, t: string)
    requires GameObjectKey(d.dependencyName) == "dependency"
    requires checked == CheckedObject(c, mods, Unrelated(u), DependencyTarget(t))
    ensures Get(checked.children, GameObjectKey(d.dependencyName)) == [DependencyTarget(t)]
  {
    GetOfSecond(checked.children, "dependency");
  }

  lemma GetOfSecond<T>(cs: seq<Collection<T>>, k: string)
    requires |cs| == 2 && cs[0].key != k && cs[1].key == k
    ensures Get(cs, k) == cs[1].members
  {
    assert Get(cs, k) == Get(cs[1..], k);
  }

  lemma FindFirstOfOne<T>(x: T, p: T -> bool)
    ensures FindFirst([x], p) == if p(x) then Some(x) else None
  {
    if !p(x) {
      assert [x][1..] == [];
    }
  }

  /** The record of the checked object declares `unrelated` and `dependency`, in that order. */
  lemma CheckedObjectKeys(checked: Entity, c: string, mods: seq<Modifier>, u: string, t: string)
    requires checked == CheckedObject(c, mods, Unrelated(u), DependencyTarget(t))
    ensures Keys(checked.children) == ["unrelated", "dependency"]
  {
  }

  /** The target's properties as read by the checks. */
  lemma TargetProperties(t: string)
    ensures Lookup(DependencyTarget(t), "hello") == Some(Str("world"))
    ensures Lookup(DependencyTarget(t), "answer") == Some(Num(42))
    ensures Lookup(DependencyTarget(t), "non-existent") == None
  {
    var props := DependencyTarget(t).props;
    assert "non-existent" !in props;
  }

  /** Only the checked object's own modifiers are gathered: its children carry none. */
  lemma GatherOfCheckedObject(checked: Entity, c: string, mods: seq<Modifier>, u: string, t: string)
    requires checked == CheckedObject(c, mods, Unrelated(u), DependencyTarget(t))
    ensures Gather(checked) == mods
  {
    var a, b := Collection("unrelated", [Unrelated(u)]), Collection("dependency", [DependencyTarget(t)]);
    GatherOfTwoCollections(checked, a, b);
    GatherOfChildless(Unrelated(u));
    GatherOfChildless(DependencyTarget(t));
    assert Gather(checked) == mods + [] + [];
  }

  /** Existence only: met as a dependency, present as a conflict. */
  lemma ExistenceCheck(d: Dependency, checked: Entity, c: string, u: string, t: string)
    requires d.dependencyName == "dependency.target" && d.key == ""
    requires checked == CheckedObject(c, [], Unrelated(u), DependencyTarget(t))
    ensures Check(d, checked) == Ok(!d.isConflict)
  {
    TargetIsFound(d, checked, c, [], u, t);
    CheckExistence(d, checked);
  }

  /** `hello` against a string: met (no conflict) exactly when it is "world" (is not "world"). */
  lemma EqualityCheck(d: Dependency, checked: Entity, c: string, u: string, t: string, v: string)
    requires d.dependencyName == "dependency.target" && d.key == "hello" && d.value == Some(Str(v))
    requires checked == CheckedObject(c, [], Unrelated(u), DependencyTarget(t))
    ensures Check(d, checked) == Ok(if d.isConflict then v != "world" else v == "world")
  {
    TargetIsFound(d, checked, c, [], u, t);
    TargetProperties(t);
    CheckEquality(d, checked, Str("world"));
  }

  /**
   * `answer` (42) against a number, with modifiers on the checked object: a minimum for
   * a dependency (32 and 52 + 10 pass, 52 fails), a maximum for a conflict (52 and
   * 42 - 10 pass, 32 and 42 + 10 fail).
   */
  lemma ThresholdCheck(d: Dependency, checked: Entity, c: string, u: string, t: string, threshold: int, m: Modifier)
    requires d.dependencyName == "dependency.target" && d.key == "answer" && d.value == Some(Num(threshold))
    requires m.targetName == "dependency.target" && m.targetId == "" && m.keys == KeyList(["answer"])
    requires checked == CheckedObject(c, [m], Unrelated(u), DependencyTarget(t))
    ensures Check(d, checked) == Ok(if d.isConflict then 42 + m.amount <= threshold else 42 + m.amount >= threshold)
  {
    TargetIsFound(d, checked, c, [m], u, t);
    TargetProperties(t);
    GatherOfCheckedObject(checked, c, [m], u, t);
    AnswerModifier(m, t);
    CheckThreshold(d, checked, DependencyTarget(t), 42, threshold);
  }

  /** A modifier of `dependency.target`'s `answer` without a targetId adds its amount to it. */
  lemma AnswerModifier(m: Modifier, t: string)
    requires m.targetName == "dependency.target" && m.targetId == "" && m.keys == KeyList(["answer"])
    ensures Total(Amounts(Where([m], AffectsFor(DependencyTarget(t), "answer")))) == m.amount
  {
    assert AffectsFor(DependencyTarget(t), "answer")(m);
    assert Where([m], AffectsFor(DependencyTarget(t), "answer")) == [m] by {
      assert [m][1..] == [];
    }
    assert Amounts([m]) == [m.amount] && [m.amount][..0] == [];
  }

  /** Without modifiers the raw 42 is compared. */
  lemma UnmodifiedThresholdCheck(d: Dependency, checked: Entity, c: string, u: string, t: string, threshold: int)
    requires d.dependencyName == "dependency.target" && d.key == "answer" && d.value == Some(Num(threshold))
    requires checked == CheckedObject(c, [], Unrelated(u), DependencyTarget(t))
    ensures Check(d, checked) == Ok(if d.isConflict then 42 <= threshold else 42 >= threshold)
  {
    TargetIsFound(d, checked, c, [], u, t);
    TargetProperties(t);
    GatherOfCheckedObject(checked, c, [], u, t);
    CheckThreshold(d, checked, DependencyTarget(t), 42, threshold);
  }

  /** A key the target does not have is an error, dependency or conflict. */
  lemma NonExistentKey(d: Dependency, checked: Entity, c: string, u: string, t: string)
    requires d.dependencyName == "dependency.target" && d.key == "non-existent"
    requires checked == CheckedObject(c, [], Unrelated(u), DependencyTarget(t))
    ensures Check(d, checked) == Err(MissingProperty("non-existent"))
  {
    TargetIsFound(d, checked, c, [], u, t);
    TargetProperties(t);
    CheckMissingProperty(d, checked);
  }

  /** No child of the `dependency` collection has a name other than `dependency.target`. */
  lemma NoSuchTarget(d: Dependency, checked: Entity, c: string, u: string, t: string, segment: string)
    requires '.' !in segment && segment != "target" && d.dependencyName == "dependency." + segment
    requires checked == CheckedObject(c, [], Unrelated(u), DependencyTarget(t))
    ensures Target(d, checked) == None
  {
    KeyOfDependencyName(d.dependencyName, segment);
    DependencyCollection(d, checked, c, [], u, t);
    assert d.dependencyName != "dependency.target" by {
      assert "dependency.target"[11..] == "target";
      assert d.dependencyName[11..] == segment;
    }
    FindFirstOfOne(DependencyTarget(t), NamedAs(d.dependencyName));
  }

  /**
   * A name with no such child (`dependency.nonexistent`, `dependency.non-existing`): a
   * dependency fails, a conflict passes.
   */
  lemma AbsentChild(d: Dependency, checked: Entity, c: string, u: string, t: string, segment: string)
    requires '.' !in segment && segment != "target" && d.dependencyName == "dependency." + segment
    requires checked == CheckedObject(c, [], Unrelated(u), DependencyTarget(t))
    ensures Check(d, checked) == Ok(d.isConflict)
  {
    NoSuchTarget(d, checked, c, u, t, segment);
    CheckWhenNotFound(d, checked);
  }

  /** A name whose collection the object does not declare (`non-existent.collection`). */
  lemma AbsentCollection(d: Dependency, checked: Entity, c: string, u: string, t: string)
    requires d.dependencyName == "non-existent.collection"
    requires checked == CheckedObject(c, [], Unrelated(u), DependencyTarget(t))
    ensures Check(d, checked) == Ok(d.isConflict)
  {
    KeyOfAbsentCollection(d.dependencyName);
    NonExistentIsUndeclared(checked, c, u, t);
    UndeclaredCollectionIsNotFound(d, checked);
  }

  lemma KeyOfAbsentCollection(name: string)
    requires name == "non-existent.collection"
    ensures GameObjectKey(name) == "non-existent"
  {
    assert name == "non-existent" + "." + "collection";
    KeyOfQualifiedName("non-existent", "collection");
  }

  lemma NonExistentIsUndeclared(checked: Entity, c: string, u: string, t: string)
    requires checked == CheckedObject(c, [], Unrelated(u), DependencyTarget(t))
    ensures !Declared(checked.children, "non-existent")
  {
    CheckedObjectKeys(checked, c, [], u, t);
    assert "non-existent"[0] != "unrelated"[0] && "non-existent"[0] != "dependency"[0];
  }

  /** checkDependencies reports a failing dependency as a one-element list. */
  lemma FailingDependencyIsReported(d: Dependency, checked: Entity, c: string, u: string, t: string)
    requires d == Dependency("dependency.target", "hello", Some(Str("universe")), false)
    requires checked == CheckedObject(c, [], Unrelated(u), DependencyTarget(t))
    ensures FirstFailure([d], Outcomes([d], checked)) == Ok(Failed([d]))
  {
    EqualityCheck(d, checked, c, u, t, "universe");
  }
}
