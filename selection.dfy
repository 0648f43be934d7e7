/**
 * Single selection over a list of page elements: the `forEach` loops that
 * give the `active` class to exactly the elements whose key equals the
 * selected one (nav links by section id, tab buttons by `data-tab`, tab
 * panels by `id`, skill filter tabs by `data-filter`).
 */
module Selection {

  /** `flags[i]` is set exactly when `keys[i]` is `target`. */
  ghost predicate MarksExactly<K>(flags: seq<bool>, keys: seq<K>, target: K) {
    |flags| == |keys| && forall i :: 0 <= i < |keys| ==> flags[i] == (keys[i] == target)
  }

  /** No key occurs twice. */
  ghost predicate Distinct<K>(keys: seq<K>) {
    forall i, j :: 0 <= i < j < |keys| ==> keys[i] != keys[j]
  }

  /** How many elements are marked. */
  function CountSet(flags: seq<bool>): nat {
    if flags == [] then 0 else (if flags[0] then 1 else 0) + CountSet(flags[1..])
  }

  /** Marking by key sets as many flags as there are elements carrying the selected key. */
  lemma {:induction false} CountSetIsOccurrences<K>(flags: seq<bool>, keys: seq<K>, target: K)
    requires MarksExactly(flags, keys, target)
    ensures CountSet(flags) == multiset(keys)[target]
  {
    if keys != [] {
      CountSetIsOccurrences(flags[1..], keys[1..], target);
      assert keys == [keys[0]] + keys[1..];
    }
  }

  lemma {:induction false} DistinctOccursAtMostOnce<K>(keys: seq<K>, target: K)
    requires Distinct(keys)
    ensures multiset(keys)[target] <= 1
    ensures target in keys ==> multiset(keys)[target] == 1
  {
    if keys != [] {
      DistinctOccursAtMostOnce(keys[1..], target);
      assert keys == [keys[0]] + keys[1..];
      if keys[0] == target {
        assert target !in keys[1..] by {
          forall j | 0 <= j < |keys[1..]| ensures keys[1..][j] != target {
            assert keys[1..][j] == keys[j + 1];
          }
        }
      }
    }
  }

  /**
   * With distinct keys at most one element is active, and exactly one when
   * some element carries the selected key; none is active when no element
   * carries it.
   */
  lemma SingleSelection<K>(flags: seq<bool>, keys: seq<K>, target: K)
    requires MarksExactly(flags, keys, target)
    ensures target !in keys ==> CountSet(flags) == 0
    ensures Distinct(keys) ==> CountSet(flags) <= 1
    ensures Distinct(keys) && target in keys ==> CountSet(flags) == 1
  {
    CountSetIsOccurrences(flags, keys, target);
    if Distinct(keys) {
      DistinctOccursAtMostOnce(keys, target);
    }
  }

  /**
   * The `forEach` over a list of elements that toggles `active` on exactly
   * those whose key equals the selection.
   */
  method MarkSelected<K(==)>(flags: array<bool>, keys: seq<K>, target: K)
    requires flags.Length == |keys|
    modifies flags
    ensures MarksExactly(flags[..], keys, target)
  {
    var i := 0;
    while i < flags.Length
      invariant 0 <= i <= flags.Length
      invariant forall j :: 0 <= j < i ==> flags[j] == (keys[j] == target)
    {
      flags[i] := keys[i] == target;
      i := i + 1;
    }
  }
}
