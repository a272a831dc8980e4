/**
 * The data of the game-object library as values: modifiers, dependencies, property
 * values, and a game object together with its subtree of children.
 *
 * Optional string fields whose every use in the library is a truthiness test
 * (`targetId`, a dependency's `key`, the filter fields) are strings here, with ""
 * standing for both `undefined` and the empty string.
 */
module Entities {
  import opened Wrappers
  import opened Collections

  /** A JavaScript primitive a game-object property can hold. */
  datatype Value = Num(n: int) | Str(s: string) | Bool(b: bool) | Null

  /** A modifier's `keys` field: one property name or a list of them. */
  datatype ModifiedKeys = OneKey(key: string) | KeyList(keys: seq<string>)

  /** An additive adjustment of numeric properties of the objects it targets. */
  datatype Modifier = Modifier(targetName: string, targetId: string, keys: ModifiedKeys, amount: int)

  /**
   * A requirement on (or, as a conflict, against) a child named `dependencyName` of the
   * object it is checked against; `value` is `None` when the field is undefined.
   */
  datatype Dependency = Dependency(dependencyName: string, key: string, value: Option<Value>, isConflict: bool)

  /**
   * A game object and its subtree: identity, the kind-specific properties (fields and
   * getters, as read at this moment), its own modifiers and dependencies (an undefined
   * list is the empty one) and its child collections.
   */
  datatype Entity = Entity(
    name: string,
    id: string,
    props: map<string, Value>,
    modifiers: seq<Modifier>,
    dependencies: seq<Dependency>,
    children: seq<Collection<Entity>>)

  /** `entity[key]`: `None` is `undefined`. */
  function Lookup(e: Entity, key: string): Option<Value>
  {
    if key == "name" then Some(Str(e.name))
    else if key == "id" then Some(Str(e.id))
    else if key in e.props then Some(e.props[key])
    else None
  }

  /** The predicate `child => child.name === name`. */
  function NamedAs(name: string): Entity -> bool
  {
    (c: Entity) => c.name == name
  }
}
