/** Small vocabulary shared by every component of the wallet back end. */
module Prelude {

  datatype Option<+T> = None | Some(value: T)

  datatype Result<+T, +E> = Ok(value: T) | Err(error: E)

  function Min(a: int, b: int): int {
    if a <= b then a else b
  }

  /** The heights lo, lo + 1, ..., hi - 1, in order. */
  function Heights(lo: nat, hi: nat): (hs: seq<nat>)
    ensures |hs| == if lo <= hi then hi - lo else 0
    ensures forall i | 0 <= i < |hs| :: hs[i] == lo + i
  {
    if lo < hi then seq(hi - lo, i requires 0 <= i => lo + i) else []
  }

  lemma HeightsJoin(a: nat, b: nat, c: nat)
    requires a <= b <= c
    ensures Heights(a, b) + Heights(b, c) == Heights(a, c)
  {
  }

  /** True of a table of heights that covers one interval, in order and without repeats. */
  predicate Contiguous(hs: seq<nat>) {
    forall i | 0 < i < |hs| :: hs[i] == hs[i - 1] + 1
  }

  predicate Ascending(hs: seq<nat>) {
    forall i, j | 0 <= i < j < |hs| :: hs[i] < hs[j]
  }

  function Flatten<T>(parts: seq<seq<T>>): seq<T> {
    if parts == [] then [] else parts[0] + Flatten(parts[1..])
  }

  lemma AppendAssociates<T>(x: seq<T>, y: seq<T>, z: seq<T>)
    ensures x + (y + z) == x + y + z
  {
  }

  lemma SplitAt<T>(s: seq<T>, k: nat)
    requires k < |s|
    ensures s == s[..k] + ([s[k]] + s[k + 1..])
  {
  }

  lemma {:induction false} FlattenAppend<T>(a: seq<seq<T>>, b: seq<seq<T>>)
    ensures Flatten(a + b) == Flatten(a) + Flatten(b)
  {
    if a == [] {
      assert a + b == b;
    } else {
      var rest := a[1..];
      assert (a + b)[0] == a[0] && (a + b)[1..] == rest + b;
      FlattenAppend(rest, b);
      AppendAssociates(a[0], Flatten(rest), Flatten(b));
    }
  }

  lemma FlattenOneMore<T>(parts: seq<seq<T>>, last: seq<T>)
    ensures Flatten(parts + [last]) == Flatten(parts) + last
  {
    FlattenAppend(parts, [last]);
    assert [last][1..] == [] && last + [] == last;
  }
}
