/** Machine integers as the stores use them. */
module Integers {
  const MAX_U64 := 0xFFFF_FFFF_FFFF_FFFF
  const MAX_U32 := 0xFFFF_FFFF

  function Saturate(value: nat): nat {
    if value <= MAX_U64 then value else MAX_U64
  }

  function Max(a: nat, b: nat): nat {
    if a < b then b else a
  }

  function Pow2(n: nat): (power: nat)
    ensures 1 <= power
  {
    if n == 0 then 1 else 2 * Pow2(n - 1)
  }
}

/** Lists without repetition. */
module Sequences {

  predicate Unrepeated<T(==)>(items: seq<T>) {
    forall i, j :: 0 <= i < j < |items| ==> items[i] != items[j]
  }

  /** A rearrangement of a list without repetition has none either. */
  lemma RearrangedUnrepeated<T>(items: seq<T>, rearranged: seq<T>)
    requires Unrepeated(items) && multiset(rearranged) == multiset(items)
    ensures Unrepeated(rearranged)
    ensures forall item :: item in items <==> item in rearranged
  {
    forall i, j | 0 <= i < j < |rearranged| ensures rearranged[i] != rearranged[j] {
      if rearranged[i] == rearranged[j] {
        CountedTwice(rearranged, i, j);
        CountedAtMostOnce(items, rearranged[i]);
      }
    }
    forall item ensures item in items <==> item in rearranged {
      assert item in multiset(items) <==> item in multiset(rearranged);
    }
  }

  lemma CountedTwice<T>(items: seq<T>, i: nat, j: nat)
    requires i < j < |items| && items[i] == items[j]
    ensures 2 <= multiset(items)[items[i]]
  {
    assert items == items[..j] + items[j..];
    assert items[i] == items[..j][i] && items[j] == items[j..][0];
  }

  lemma {:induction false} CountedAtMostOnce<T>(items: seq<T>, item: T)
    requires Unrepeated(items)
    ensures multiset(items)[item] <= 1
  {
    if items != [] {
      assert items == [items[0]] + items[1..];
      CountedAtMostOnce(items[1..], item);
      if items[0] == item { assert item !in multiset(items[1..]); }
    }
  }
}
