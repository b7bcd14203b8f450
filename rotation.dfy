/**
 * The lookup and successor rules of wallpaper rotation: `list.index` with its
 * missing case, the class's "next, wrapping after the last" rule, and the
 * older rule of the skill itself, which compares indices instead of values.
 */
module Rotation {
  import opened Wrappers
  import opened Sequences

  /** The first index of `x` in `c`, or None when it is absent. */
  function IndexOf<T(==)>(c: seq<T>, x: T): (r: Option<nat>)
    ensures r.None? <==> x !in c
    ensures r.Some? ==> r.value < |c| && c[r.value] == x && forall j :: 0 <= j < r.value ==> c[j] != x
  {
    if c == [] then None
    else if c[0] == x then Some(0)
    else
      match IndexOf(c[1..], x)
      case None => None
      case Some(i) => Some(i + 1)
  }

  /**
   * The entry that follows `selected`: the first entry when `selected` equals
   * the last one, else the one after its first occurrence; `default` when
   * `selected` is not in `c`.
   */
  function Next<T(==)>(c: seq<T>, selected: T, default: T): (r: T)
    ensures selected in c ==> r in c
    ensures selected !in c ==> r == default
  {
    if selected in c then
      if selected == c[|c| - 1] then c[0]
      else c[IndexOf(c, selected).value + 1]
    else default
  }

  /**
   * The skill's older rule: the entry after the first occurrence of
   * `selected`, or the first entry when that occurrence is the last index.
   */
  function LegacyNext<T(==)>(c: seq<T>, selected: T): (r: T)
    requires selected in c
    ensures r in c
  {
    var i := IndexOf(c, selected).value;
    if i != |c| - 1 then c[i + 1] else c[0]
  }

  /** On distinct entries both rules step from c[k] to c[k + 1], wrapping to c[0]. */
  lemma NextAt<T>(c: seq<T>, k: nat, default: T)
    requires Distinct(c) && k < |c|
    ensures Next(c, c[k], default) == LegacyNext(c, c[k])
    ensures Next(c, c[k], default) == if k == |c| - 1 then c[0] else c[k + 1]
  {
  }

  /** The rules part ways when the last entry also occurs earlier. */
  lemma NextDiffersFromLegacyOnRepeats<T>(a: T, b: T)
    requires a != b
    ensures LegacyNext([a, b, a], a) == b
    ensures Next([a, b, a], a, b) == a
  {
  }

  /** `Next` applied `n` times. */
  function Iterate<T(==)>(c: seq<T>, selected: T, default: T, n: nat): T {
    if n == 0 then selected else Next(c, Iterate(c, selected, default, n - 1), default)
  }

  lemma {:induction false} IterateFrom<T>(c: seq<T>, k: nat, default: T, n: nat)
    requires Distinct(c) && k < |c| && n <= |c|
    ensures Iterate(c, c[k], default, n) == if k + n < |c| then c[k + n] else c[k + n - |c|]
  {
    if n > 0 {
      IterateFrom(c, k, default, n - 1);
      var m := if k + n - 1 < |c| then k + n - 1 else k + n - 1 - |c|;
      NextAt(c, m, default);
    }
  }

  /**
   * Rotation is a cycle over a collection of distinct entries: |c| steps from
   * any entry of it lead back to that entry.
   */
  lemma RotationCycles<T>(c: seq<T>, selected: T, default: T)
    requires Distinct(c) && selected in c
    ensures Iterate(c, selected, default, |c|) == selected
  {
    var k := IndexOf(c, selected).value;
    IterateFrom(c, k, default, |c|);
  }
}
