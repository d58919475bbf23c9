/**
 * The host platform's helpers that map between an ordered list of named
 * speeds and a percentage. The host's library is not part of this model;
 * the two helpers are defined here the way that library states them: the
 * item at position `i` (counting from 1) of a list of `n` items stands for
 * `i * 100 // n` percent, and a percentage selects the first item whose
 * bound it does not exceed, or the last item.
 */
module PercentageUtil {
  import opened Python

  /** Every element of `s` occurs once. */
  predicate Distinct<T(==)>(s: seq<T>) {
    forall a, b :: 0 <= a < b < |s| ==> s[a] != s[b]
  }

  /** The percentage that stands for the item at 1-based `position` of a list of `n` items. */
  function UpperBound(n: nat, position: nat): int
    requires n > 0
  {
    position * 100 / n
  }

  /** `ordered_list_item_to_percentage(list, item)`; the helper raises `ValueError` when `item` is not in `list`. */
  function ItemToPercentage<T(==)>(list: seq<T>, item: T): (r: int)
    requires item in list
    ensures 0 <= r <= 100
    ensures |list| <= 100 ==> r > 0
  {
    var position := Index(list, item) + 1;
    BoundInRange(|list|, position);
    UpperBound(|list|, position)
  }

  lemma BoundInRange(n: nat, position: nat)
    requires 0 < position <= n
    ensures 0 <= UpperBound(n, position) <= 100
    ensures n <= 100 ==> UpperBound(n, position) > 0
    ensures position == n ==> UpperBound(n, position) == 100
  {
  }

  /** `percentage_to_ordered_list_item(list, percentage)`; the helper raises `ValueError` on an empty list. */
  function PercentageToItem<T>(list: seq<T>, percentage: int): (r: T)
    requires |list| > 0
    ensures r in list
  {
    ItemFrom(list, percentage, 0)
  }

  /** The helper's scan over the list, resumed at `offset`. */
  function ItemFrom<T>(list: seq<T>, percentage: int, offset: nat): (r: T)
    requires |list| > 0 && offset <= |list|
    ensures r in list[offset..] || r == list[|list| - 1]
    decreases |list| - offset
  {
    if offset == |list| then list[|list| - 1]
    else if percentage <= UpperBound(|list|, offset + 1) then list[offset]
    else ItemFrom(list, percentage, offset + 1)
  }

  /** In a list without repetitions, the item at 0-based `i` stands for `(i + 1) * 100 // n` percent. */
  lemma PercentageAt<T>(list: seq<T>, i: nat)
    requires Distinct(list) && i < |list|
    ensures ItemToPercentage(list, list[i]) == (i + 1) * 100 / |list|
  {
  }

  /** With at most 100 items, a later item stands for a strictly larger percentage. */
  lemma BoundStrict(n: nat, p: nat, q: nat)
    requires 0 < n <= 100 && p < q
    ensures UpperBound(n, p) < UpperBound(n, q)
  {
    DivMonotone(p * 100 + n, q * 100, n);
    DivAddDivisor(p * 100, n);
  }

  /** Every item but the last stands for less than 100 percent. */
  lemma BoundBelowFull(n: nat, position: nat)
    requires 0 < position < n
    ensures UpperBound(n, position) < 100
  {
    DivUnique(n * 100 - 1, n, 99, n - 1);
    DivMonotone(position * 100, n * 100 - 1, n);
  }

  lemma {:induction false} ItemFromSkips<T>(list: seq<T>, percentage: int, offset: nat, i: nat)
    requires |list| > 0 && offset <= i <= |list|
    requires forall position :: offset < position <= i ==> percentage > UpperBound(|list|, position)
    ensures ItemFrom(list, percentage, offset) == ItemFrom(list, percentage, i)
    decreases i - offset
  {
    if offset < i {
      ItemFromSkips(list, percentage, offset + 1, i);
    }
  }

  lemma ItemFromFinds<T>(list: seq<T>, percentage: int, i: nat)
    requires i < |list|
    requires percentage <= UpperBound(|list|, i + 1)
    requires forall position :: 0 < position <= i ==> percentage > UpperBound(|list|, position)
    ensures ItemFrom(list, percentage, 0) == list[i]
  {
    ItemFromSkips(list, percentage, 0, i);
  }

  /**
   * The percentage of an item selects that item again, when the list has no
   * repetitions and at most 100 items.
   */
  lemma PercentageRoundTrip<T>(list: seq<T>, item: T)
    requires Distinct(list) && |list| <= 100 && item in list
    ensures PercentageToItem(list, ItemToPercentage(list, item)) == item
  {
    var i := Index(list, item);
    PercentageAt(list, i);
    var p := ItemToPercentage(list, item);
    forall position | 0 < position <= i
      ensures p > UpperBound(|list|, position)
    {
      BoundStrict(|list|, position, i + 1);
    }
    ItemFromFinds(list, p, i);
  }

  /** 100 percent, or more, selects the last item. */
  lemma FullSpeedIsLast<T>(list: seq<T>, percentage: int)
    requires |list| > 0 && percentage >= 100
    ensures PercentageToItem(list, percentage) == list[|list| - 1]
  {
    var n := |list|;
    forall position | 0 < position <= n - 1
      ensures percentage > UpperBound(n, position)
    {
      BoundBelowFull(n, position);
    }
    ItemFromSkips(list, percentage, 0, n - 1);
  }

  /** A percentage no larger than the first item's selects the first item (0 percent, say). */
  lemma LowSpeedIsFirst<T>(list: seq<T>, percentage: int)
    requires |list| > 0 && percentage <= UpperBound(|list|, 1)
    ensures PercentageToItem(list, percentage) == list[0]
  {
    ItemFromFinds(list, percentage, 0);
  }

  // Euclidean division facts the bounds above rest on.

  lemma {:induction false} MulBounds(n: int, d: int)
    requires n > 0
    ensures d >= 1 ==> n * d >= n
    ensures d <= -1 ==> n * d <= -n
    decreases if d < 0 then -d else d
  {
    if d > 1 {
      MulBounds(n, d - 1);
      assert n * d == n * (d - 1) + n;
    } else if d < -1 {
      MulBounds(n, d + 1);
      assert n * d == n * (d + 1) - n;
    }
  }

  lemma DivUnique(x: int, n: int, q: int, r: int)
    requires n > 0 && 0 <= r < n && x == n * q + r
    ensures x / n == q
  {
    var q2 := x / n;
    MulBounds(n, q2 - q);
    assert n * (q2 - q) == n * q2 - n * q;
  }

  lemma DivMonotone(a: int, b: int, n: int)
    requires n > 0 && a <= b
    ensures a / n <= b / n
  {
    var qa, qb := a / n, b / n;
    MulBounds(n, qa - qb);
    assert n * (qa - qb) == n * qa - n * qb;
  }

  lemma DivExact(n: int, k: int)
    requires n > 0
    ensures (n * k) / n == k
  {
    DivUnique(n * k, n, k, 0);
  }

  lemma DivAddDivisor(a: int, n: int)
    requires n > 0
    ensures (a + n) / n == a / n + 1
  {
    assert n * (a / n + 1) == n * (a / n) + n;
    DivUnique(a + n, n, a / n + 1, a % n);
  }
}
