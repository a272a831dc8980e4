/**
 * The collection-key resolver: a game object's name is a dot-separated path
 * ("wagon.large"), and the key of the child collection it belongs to is the name
 * without its last segment ("wagon").
 */
module GameObjectKeys {

  /** Index of the last '.' in `s`. */
  function LastDot(s: string): (i: nat)
    requires '.' in s
    ensures i < |s| && s[i] == '.'
    ensures '.' !in s[i + 1..]
    decreases |s|
  {
    if s[|s| - 1] == '.' then |s| - 1
    else
      var init := s[..|s| - 1];
      assert s == init + [s[|s| - 1]];
      var j := LastDot(init);
      assert s[j + 1..] == init[j + 1..] + [s[|s| - 1]];
      j
  }

  /** A dot at `i` with no dot after it is the last dot. */
  lemma LastDotUnique(s: string, i: nat)
    requires i < |s| && s[i] == '.' && '.' !in s[i + 1..]
    ensures LastDot(s) == i
  {
    var j := LastDot(s);
  }

  /** `s.split('.')`: the dot-free segments of `s`, in order. */
  function Split(s: string): (parts: seq<string>)
    ensures |parts| >= 1
    ensures forall j :: 0 <= j < |parts| ==> '.' !in parts[j]
    decreases |s|
  {
    if '.' !in s then [s]
    else
      var d := LastDot(s);
      Split(s[..d]) + [s[d + 1..]]
  }

  /** `parts.join('.')`. */
  function Join(parts: seq<string>): string
  {
    if |parts| == 0 then ""
    else if |parts| == 1 then parts[0]
    else Join(parts[..|parts| - 1]) + "." + parts[|parts| - 1]
  }

  /** Splitting at the dots and joining with dots gives the name back. */
  lemma {:induction false} JoinSplit(s: string)
    ensures Join(Split(s)) == s
    decreases |s|
  {
    if '.' in s {
      var d := LastDot(s);
      var parts := Split(s);
      JoinSplit(s[..d]);
      assert parts[..|parts| - 1] == Split(s[..d]);
      assert s == s[..d] + "." + s[d + 1..];
    }
  }

  /**
   * getGameObjectKey as a value: a single-segment name is its own key; otherwise all
   * segments but the last, joined with dots, which is the name cut at its last dot.
   */
  function GameObjectKey(name: string): (key: string)
    ensures '.' !in name ==> key == name
    ensures '.' in name ==> key == name[..LastDot(name)]
    ensures key <= name
  {
    var parts := Split(name);
    if |parts| == 1 then parts[0]
    else
      assert '.' in name;
      var d := LastDot(name);
      assert parts[..|parts| - 1] == Split(name[..d]);
      JoinSplit(name[..d]);
      Join(parts[..|parts| - 1])
  }

  /** The key of `prefix.segment` is `prefix` whenever the last segment has no dot. */
  lemma KeyOfQualifiedName(prefix: string, segment: string)
    requires '.' !in segment
    ensures GameObjectKey(prefix + "." + segment) == prefix
  {
    var name := prefix + "." + segment;
    assert name[|prefix|] == '.';
    assert name[|prefix| + 1..] == segment;
    LastDotUnique(name, |prefix|);
    assert name[..|prefix|] == prefix;
  }

  /** Dropping the last segment removes exactly one dot. */
  lemma KeyHasOneDotLess(name: string)
    requires '.' in name
    ensures multiset(GameObjectKey(name))['.'] == multiset(name)['.'] - 1
  {
    var d := LastDot(name);
    assert name == name[..d] + [name[d]] + name[d + 1..];
    assert multiset(name) == multiset(name[..d]) + multiset{'.'} + multiset(name[d + 1..]);
  }

  /**
   * getGameObjectKey as the source computes it: split, then concatenate every segment
   * but the last, with a dot after each one except the last one written.
   */
  method GetGameObjectKey(name: string) returns (key: string)
    ensures key == GameObjectKey(name)
  {
    var parts := Split(name);
    if |parts| == 1 {
      return parts[0];
    }
    var result := "";
    for i := 0 to |parts| - 1
      invariant i == 0 ==> result == ""
      invariant 0 < i ==> result == Join(parts[..i]) + (if i <= |parts| - 2 then "." else "")
    {
      result := result + parts[i];
      assert parts[..i + 1][..i] == parts[..i];
      if i < |parts| - 2 {
        result := result + ".";
      }
    }
    return result;
  }
}
