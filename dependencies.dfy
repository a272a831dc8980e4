/**
 * Dependency evaluation: whether a checked game object satisfies a dependency (or is
 * free of a conflict), and checkDependencies, which reports the first one that fails.
 */
module Dependencies {
  import opened Wrappers
  import opened Collections
  import opened GameObjectKeys
  import opened Entities
  import opened Modifiers
  import opened ModifierTree

  /**
   * The object a dependency refers to: the first direct child named `dependencyName` in
   * the checked object's collection for that name's key (an undeclared collection is empty).
   */
  function Target(d: Dependency, checked: Entity): Option<Entity>
  {
    FindFirst(Get(checked.children, GameObjectKey(d.dependencyName)), NamedAs(d.dependencyName))
  }

  /**
   * Dependency.check: `Ok(true)` when the dependency is met or the conflict absent,
   * `Ok(false)` otherwise, an error when `key` names a property the target lacks.
   */
  function Check(d: Dependency, checked: Entity): Result<bool>
  {
    match Target(d, checked)
    case None => Ok(d.isConflict)
    case Some(t) => CheckFound(d, t, checked)
  }

  /** Dependency.check once the target `t` has been found among the checked object's children. */
  function CheckFound(d: Dependency, t: Entity, checked: Entity): Result<bool>
  {
    if d.key == "" then Ok(!d.isConflict)
    else
      match Lookup(t, d.key)
      case None => Err(MissingProperty(d.key))
      case Some(raw) =>
        if raw.Num? && d.value.Some? && d.value.value.Num? then
          match GetModifiedValue(t, d.key, checked)
          case Ok(modified) =>
            if d.isConflict then Ok(modified <= d.value.value.n)
            else Ok(modified >= d.value.value.n)
          case Err(e) => Err(e)
        else if d.isConflict then Ok(Some(raw) != d.value)
        else Ok(Some(raw) == d.value)
  }

  /** Not found: a dependency is unmet, a conflict is absent. */
  lemma CheckWhenNotFound(d: Dependency, checked: Entity)
    requires Target(d, checked).None?
    ensures Check(d, checked) == Ok(d.isConflict)
  {
  }

  /** A collection the checked object does not declare is searched as an empty one. */
  lemma UndeclaredCollectionIsNotFound(d: Dependency, checked: Entity)
    requires !Declared(checked.children, GameObjectKey(d.dependencyName))
    ensures Check(d, checked) == Ok(d.isConflict)
  {
  }

  /** Found, no key: existence meets a dependency and is a conflict. */
  lemma CheckExistence(d: Dependency, checked: Entity)
    requires Target(d, checked).Some? && d.key == ""
    ensures Check(d, checked) == Ok(!d.isConflict)
  {
  }

  /** Found, but the keyed property is undefined on it: an error, conflict or not. */
  lemma CheckMissingProperty(d: Dependency, checked: Entity)
    requires Target(d, checked).Some? && d.key != ""
    requires Lookup(Target(d, checked).value, d.key).None?
    ensures Check(d, checked) == Err(MissingProperty(d.key))
  {
  }

  /**
   * Numeric property against a numeric value: a threshold on the modified value (with
   * the checked object as modifier source), a minimum for a dependency and a maximum for
   * a conflict; the modified value is the raw value plus the amounts of the modifiers in
   * the checked object's subtree aimed at the target, so the check never fails with an error.
   */
  lemma CheckThreshold(d: Dependency, checked: Entity, t: Entity, raw: int, threshold: int)
    requires Target(d, checked) == Some(t) && d.key != ""
    requires Lookup(t, d.key) == Some(Num(raw))
    requires d.value == Some(Num(threshold))
    requires d.dependencyName != ""
    ensures var modified := raw + Total(Amounts(Where(Gather(checked), AffectsFor(t, d.key))));
      Check(d, checked) == Ok(if d.isConflict then modified <= threshold else modified >= threshold)
  {
    TargetIsNamed(d, checked);
    CheckFoundThreshold(d, t, checked, raw, threshold);
  }

  /** The target, when found, carries the dependency's name. */
  lemma TargetIsNamed(d: Dependency, checked: Entity)
    ensures Target(d, checked).Some? ==> Target(d, checked).value.name == d.dependencyName
  {
    var t := Target(d, checked);
    if t.Some? {
      assert NamedAs(d.dependencyName)(t.value);
    }
  }

  lemma CheckFoundThreshold(d: Dependency, t: Entity, checked: Entity, raw: int, threshold: int)
    requires d.key != "" && t.name != ""
    requires Lookup(t, d.key) == Some(Num(raw))
    requires d.value == Some(Num(threshold))
    ensures var modified := raw + Total(Amounts(Where(Gather(checked), AffectsFor(t, d.key))));
      CheckFound(d, t, checked) == Ok(if d.isConflict then modified <= threshold else modified >= threshold)
  {
    ModifiedValueOfSubtree(t, d.key, checked, raw);
  }

  /** Otherwise: strict equality of the raw value for a dependency, inequality for a conflict. */
  lemma CheckEquality(d: Dependency, checked: Entity, raw: Value)
    requires Target(d, checked).Some? && d.key != ""
    requires Lookup(Target(d, checked).value, d.key) == Some(raw)
    requires !(raw.Num? && d.value.Some? && d.value.value.Num?)
    ensures Check(d, checked) == Ok(if d.isConflict then Some(raw) != d.value else Some(raw) == d.value)
  {
  }

  /** For existence and equality checks, the conflict's verdict is the dependency's negated. */
  lemma ConflictNegatesDependency(d: Dependency, checked: Entity)
    requires Check(d.(isConflict := false), checked).Ok?
    requires !(d.key != "" && Target(d, checked).Some? && IsThreshold(d, Target(d, checked).value))
    ensures Check(d.(isConflict := true), checked) == Ok(!Check(d.(isConflict := false), checked).value)
  {
  }

  /** The checked property is numeric and so is the dependency's value. */
  predicate IsThreshold(d: Dependency, t: Entity)
  {
    Lookup(t, d.key).Some? && Lookup(t, d.key).value.Num? && d.value.Some? && d.value.value.Num?
  }

  /** At the threshold itself a dependency is met and a conflict is absent. */
  lemma BothPassAtThreshold(d: Dependency, checked: Entity)
    requires Target(d, checked).Some? && d.key != "" && IsThreshold(d, Target(d, checked).value)
    requires GetModifiedValue(Target(d, checked).value, d.key, checked) == Ok(d.value.value.n)
    ensures Check(d.(isConflict := false), checked) == Ok(true)
    ensures Check(d.(isConflict := true), checked) == Ok(true)
  {
  }

  /** The result of checkDependencies: `true`, or the list of failed dependencies. */
  datatype Verdict = AllSatisfied | Failed(failures: seq<Dependency>)

  /** The outcome of each dependency's check, in list order. */
  function Outcomes(deps: seq<Dependency>, checked: Entity): seq<Result<bool>>
  {
    seq(|deps|, i requires 0 <= i < |deps| => Check(deps[i], checked))
  }

  /**
   * The verdict of checkDependencies given each check's outcome: the first dependency
   * that does not pass decides it (an error propagates, a failure is reported alone);
   * if there is none, all are satisfied.
   */
  function FirstFailure(deps: seq<Dependency>, outcomes: seq<Result<bool>>): Result<Verdict>
    requires |outcomes| == |deps|
  {
    if deps == [] then Ok(AllSatisfied)
    else
      match outcomes[0]
      case Err(e) => Err(e)
      case Ok(passed) => if passed then FirstFailure(deps[1..], outcomes[1..]) else Ok(Failed([deps[0]]))
  }

  /**
   * All satisfied exactly when every check passes; otherwise the verdict comes from the
   * first dependency that does not pass: it is reported alone when its check fails, and
   * its error is raised when its check throws.
   */
  lemma {:induction false} FirstFailureIsFirst(deps: seq<Dependency>, outcomes: seq<Result<bool>>)
    requires |outcomes| == |deps|
    ensures FirstFailure(deps, outcomes) == Ok(AllSatisfied) <==>
      forall i :: 0 <= i < |deps| ==> outcomes[i] == Ok(true)
    ensures FirstFailure(deps, outcomes) != Ok(AllSatisfied) ==>
      exists i :: 0 <= i < |deps| && outcomes[i] != Ok(true) &&
        (forall j :: 0 <= j < i ==> outcomes[j] == Ok(true)) &&
        FirstFailure(deps, outcomes) ==
          (if outcomes[i].Err? then Err(outcomes[i].error) else Ok(Failed([deps[i]])))
  {
    if deps != [] {
      FirstFailureIsFirst(deps[1..], outcomes[1..]);
      if outcomes[0] == Ok(true) {
        if FirstFailure(deps, outcomes) != Ok(AllSatisfied) {
          var i :| 0 <= i < |deps| - 1 && outcomes[1..][i] != Ok(true) &&
            (forall j :: 0 <= j < i ==> outcomes[1..][j] == Ok(true)) &&
            FirstFailure(deps[1..], outcomes[1..]) ==
              (if outcomes[1..][i].Err? then Err(outcomes[1..][i].error) else Ok(Failed([deps[1..][i]])));
          assert deps[i + 1] == deps[1..][i];
          assert forall j :: 1 <= j < i + 1 ==> outcomes[j] == outcomes[1..][j - 1];
        } else {
          assert forall i :: 1 <= i < |deps| ==> outcomes[i] == outcomes[1..][i - 1];
        }
      } else {
        assert outcomes[0] != Ok(true);
      }
    }
  }

  /**
   * checkDependencies: checks this object's dependencies against `checked` in order and
   * stops at the first one that does not pass.
   */
  method CheckDependencies(self: Entity, checked: Entity) returns (r: Result<Verdict>)
    ensures r == FirstFailure(self.dependencies, Outcomes(self.dependencies, checked))
  {
    var result: Verdict := AllSatisfied;
    var deps := self.dependencies;
    ghost var outcomes := Outcomes(deps, checked);
    var i := 0;
    while i < |deps|
      invariant 0 <= i <= |deps|
      invariant result == AllSatisfied
      invariant FirstFailure(deps, outcomes) == FirstFailure(deps[i..], outcomes[i..])
    {
      assert deps[i..][1..] == deps[i + 1..];
      assert outcomes[i..][1..] == outcomes[i + 1..];
      var passed := Check(deps[i], checked);
      if passed.Err? {
        return Err(passed.error);
      }
      if !passed.value {
        result := Failed([deps[i]]);
        break;
      }
      i := i + 1;
    }
    return Ok(result);
  }
}
