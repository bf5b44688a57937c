/**
 * The item catalog of ItemManager.java: configured entries, the allocation
 * record rolled for a slot, key lookup, permission and price predicates, and
 * the weighted sampler that picks an entry from a cumulative-weight index
 * (a TreeMap from running total to entry, queried with `higherEntry`).
 *
 * Random draws are parameters: `u` stands for one `Random.nextDouble()`.
 * Weights, prices and discounts, which are `double` in Java, are `real` here.
 */
module Items {
  import opened Wrappers

  /** One entry of an item-cost price list (material, amount, optional name and lore). */
  datatype RequiredItem = RequiredItem(
    material: string,
    amount: int,
    name: Option<string>,
    lore: Option<seq<string>>)

  /** A catalog entry as loaded from the items file. Identity is the key. */
  datatype ConfiguredItem = ConfiguredItem(
    key: string,
    displayLore: seq<string>,
    commandsOnClick: seq<string>,
    price: real,
    requiredItems: seq<RequiredItem>,
    chance: real,
    initialStock: int,
    discountChance: real,
    discountPercentage: real,
    permissionNode: Option<string>,
    invertPermission: bool,
    isGlobal: bool)

  /** An entry bound to a slot: the discount is rolled once, when it is created. */
  datatype PlayerMarketItem = PlayerMarketItem(
    baseItem: ConfiguredItem,
    isDiscounted: bool,
    finalPrice: real)

  /** The entry is paid for with items rather than money. */
  predicate HasItemPrice(item: ConfiguredItem) {
    |item.requiredItems| > 0
  }

  /**
   * Whether a player holding the permission nodes `granted` may buy `item`:
   * no node (or an empty one) lets everyone buy; otherwise holding the node,
   * flipped when the entry inverts it.
   */
  predicate HasPermission(item: ConfiguredItem, granted: set<string>) {
    match item.permissionNode
    case None => true
    case Some(node) => node == [] || ((node in granted) != item.invertPermission)
  }

  lemma PermissionRules(item: ConfiguredItem, granted: set<string>)
    ensures item.permissionNode == None || item.permissionNode == Some([]) ==> HasPermission(item, granted)
    ensures item.permissionNode.Some? && item.permissionNode.value != [] ==>
      (HasPermission(item, granted) <==> ((item.permissionNode.value in granted) != item.invertPermission))
    ensures item.permissionNode.Some? && item.permissionNode.value != [] ==>
      HasPermission(item.(invertPermission := !item.invertPermission), granted) == !HasPermission(item, granted)
  {
  }

  /** `ConfiguredItem.equals`: two entries are equal exactly when their keys are. */
  predicate SameItem(a: ConfiguredItem, b: ConfiguredItem) {
    a.key == b.key
  }

  /** Two's-complement wrap-around of a Java `int`. */
  function Wrap32(x: int): (r: int)
    ensures -0x8000_0000 <= r < 0x8000_0000
    ensures (r - x) % 0x1_0000_0000 == 0
  {
    (x + 0x8000_0000) % 0x1_0000_0000 - 0x8000_0000
  }

  /** `String.hashCode`: h = 31 * h + c over the characters, in `int` arithmetic. */
  function StringHash(s: string): int
    decreases |s|
  {
    if s == [] then 0 else Wrap32(31 * StringHash(s[..|s| - 1]) + s[|s| - 1] as int)
  }

  /** `ConfiguredItem.hashCode` = `Objects.hash(key)` = 31 + hash of the key, wrapped. */
  function ItemHash(item: ConfiguredItem): (h: int)
    ensures -0x8000_0000 <= h < 0x8000_0000
  {
    Wrap32(31 + StringHash(item.key))
  }

  /**
   * The hash depends on the key alone: an entry with any other fields but
   * the same key hashes alike, so equal entries hash alike.
   */
  lemma EqualItemsHashAlike(a: ConfiguredItem, b: ConfiguredItem)
    ensures ItemHash(b.(key := a.key)) == ItemHash(a)
    ensures SameItem(a, b) ==> ItemHash(a) == ItemHash(b)
  {
  }

  /**
   * `new PlayerMarketItem(baseItem, random)`: `roll` is the `nextDouble()` draw.
   * The entry is discounted when it has a positive discount chance and
   * roll * 100 falls below it; the price is then cut by the percentage.
   */
  function RollAllocation(base: ConfiguredItem, roll: real): (p: PlayerMarketItem)
    ensures p.baseItem == base
    ensures !p.isDiscounted ==> p.finalPrice == base.price
  {
    if base.discountChance > 0.0 && roll * 100.0 < base.discountChance then
      PlayerMarketItem(base, true, base.price * (1.0 - base.discountPercentage / 100.0))
    else
      PlayerMarketItem(base, false, base.price)
  }

  lemma {:induction false} DiscountRules(base: ConfiguredItem, roll: real)
    ensures base.discountChance <= 0.0 ==> !RollAllocation(base, roll).isDiscounted
    ensures RollAllocation(base, roll).isDiscounted <==> base.discountChance > 0.0 && roll * 100.0 < base.discountChance
    ensures base.discountChance >= 100.0 && 0.0 <= roll < 1.0 ==> RollAllocation(base, roll).isDiscounted
  {
    if base.discountChance >= 100.0 && 0.0 <= roll < 1.0 {
      assert roll * 100.0 < 100.0;
    }
  }

  /** With a percentage in 0..100 and a non-negative price, a discount can only lower the price. */
  lemma {:induction false} DiscountNeverRaisesPrice(base: ConfiguredItem, roll: real)
    requires 0.0 <= base.discountPercentage <= 100.0 && base.price >= 0.0
    ensures 0.0 <= RollAllocation(base, roll).finalPrice <= base.price
  {
    var f := 1.0 - base.discountPercentage / 100.0;
    assert 0.0 <= f <= 1.0;
    MulBetween(base.price, f);
  }

  lemma MulBetween(x: real, f: real)
    requires x >= 0.0 && 0.0 <= f <= 1.0
    ensures 0.0 <= x * f <= x
  {
  }

  // ---------------------------------------------------------------- key lookup

  /** The first entry of `items` whose key is `key`. */
  function FirstWithKey(items: seq<ConfiguredItem>, key: string): (r: Option<ConfiguredItem>)
    ensures r.None? <==> forall i :: 0 <= i < |items| ==> items[i].key != key
    ensures r.Some? ==> exists i :: 0 <= i < |items| && items[i] == r.value && r.value.key == key &&
                                     forall j :: 0 <= j < i ==> items[j].key != key
  {
    if items == [] then None
    else if items[0].key == key then Some(items[0])
    else
      var r := FirstWithKey(items[1..], key);
      assert r.Some? ==> exists i :: 0 <= i < |items[1..]| && items[1..][i] == r.value && r.value.key == key &&
                                     forall j :: 0 <= j < i ==> items[1..][j].key != key;
      assert r.Some? ==> exists i :: 1 <= i < |items| && items[i] == r.value && r.value.key == key &&
                                     forall j :: 1 <= j < i ==> items[j].key != key;
      r
  }

  /** Keys are unique (the items file is a map from key to entry). */
  predicate UniqueKeys(items: seq<ConfiguredItem>) {
    forall i, j :: 0 <= i < j < |items| ==> items[i].key != items[j].key
  }

  lemma {:induction false} FirstWithKeyOfMember(items: seq<ConfiguredItem>, i: nat)
    requires UniqueKeys(items) && i < |items|
    ensures FirstWithKey(items, items[i].key) == Some(items[i])
  {
  }

  // ---------------------------------------------------------------- weighted sampler

  /** Running total of the weights (`chance`) of `items`. */
  function TotalWeight(items: seq<ConfiguredItem>): real
    decreases |items|
  {
    if items == [] then 0.0 else TotalWeight(items[..|items| - 1]) + items[|items| - 1].chance
  }

  predicate PositiveWeights(items: seq<ConfiguredItem>) {
    forall i :: 0 <= i < |items| ==> items[i].chance > 0.0
  }

  /**
   * The TreeMap built by putting each entry under the running total reached
   * after it. A later put under an equal total replaces the earlier entry,
   * exactly as `TreeMap.put` does.
   */
  function CumulativeMap(items: seq<ConfiguredItem>): (m: map<real, ConfiguredItem>)
    ensures |items| > 0 ==> TotalWeight(items) in m && m[TotalWeight(items)] == items[|items| - 1]
    ensures |items| == 0 ==> m == map[]
    decreases |items|
  {
    if items == [] then map[]
    else CumulativeMap(items[..|items| - 1])[TotalWeight(items) := items[|items| - 1]]
  }

  /** Every entry of the cumulative map is an entry of the list it was built from. */
  lemma {:induction false} CumulativeValues(items: seq<ConfiguredItem>, k: real)
    requires k in CumulativeMap(items)
    ensures CumulativeMap(items)[k] in items
    decreases |items|
  {
    var n := |items|;
    if k != TotalWeight(items) {
      var front := items[..n - 1];
      CumulativeValues(front, k);
      var j :| 0 <= j < |front| && front[j] == CumulativeMap(front)[k];
      assert items[j] == front[j];
    }
  }

  /** `k` is the least key of `keys` strictly above `r`. */
  ghost predicate IsLeastAbove(keys: set<real>, r: real, k: real) {
    k in keys && k > r && forall k' | k' in keys && k' > r :: k <= k'
  }

  /** A non-empty set has a member (stated so that a witness can be chosen from it). */
  lemma HasMember(s: set<real>)
    requires s != {}
    ensures exists x :: x in s
  {
    assert (forall x :: x !in s) ==> s == {};
  }

  /** `k` is the least element of `s`. */
  predicate IsLeast(s: set<real>, k: real) {
    k in s && forall k2 | k2 in s :: k <= k2
  }

  lemma {:induction false} LeastExists(s: set<real>)
    requires s != {}
    ensures exists k :: IsLeast(s, k)
    decreases |s|
  {
    HasMember(s);
    var x :| x in s;
    var rest := s - {x};
    if rest == {} {
      forall k2 | k2 in s ensures x <= k2 { assert k2 !in rest; }
      assert IsLeast(s, x);
    } else {
      LeastExists(rest);
      var y :| IsLeast(rest, y);
      var least := if x < y then x else y;
      forall k2 | k2 in s ensures least <= k2 { if k2 != x { assert k2 in rest; } }
      assert IsLeast(s, least);
    }
  }

  /** `NavigableMap.higherEntry(r).getValue()`: the entry under the least key strictly above `r`. */
  function HigherEntry<V>(m: map<real, V>, r: real): Option<V> {
    var above := set k | k in m && k > r;
    if above == {} then
      None
    else
      LeastExists(above);
      var k :| IsLeast(above, k);
      Some(m[k])
  }

  /** The higher entry is absent exactly when no key exceeds `r`, and otherwise sits under the least such key. */
  lemma HigherEntryIsLeast<V>(m: map<real, V>, r: real)
    ensures HigherEntry(m, r).None? <==> forall k | k in m :: k <= r
    ensures HigherEntry(m, r).Some? ==> exists k :: IsLeastAbove(m.Keys, r, k)
    ensures forall k | IsLeastAbove(m.Keys, r, k) :: HigherEntry(m, r) == Some(m[k])
  {
    var above := set k | k in m && k > r;
    assert forall k | k in m :: k > r ==> k in above;
    assert forall k2 | IsLeastAbove(m.Keys, r, k2) :: IsLeast(above, k2);
    if above != {} {
      LeastExists(above);
      var k :| IsLeast(above, k);
      assert IsLeastAbove(m.Keys, r, k);
    }
  }

  /** The draw `nextDouble() * total`. */
  function Scaled(u: real, total: real): real {
    u * total
  }

  /**
   * What `getRandomWeightedItemFromList(items)` returns when `nextDouble()` yields
   * `u`: nothing for an empty list or a zero total, otherwise the higher entry of
   * the cumulative map at u * total.
   */
  function WeightedPick(items: seq<ConfiguredItem>, u: real): Option<ConfiguredItem> {
    if |items| == 0 then None
    else if TotalWeight(items) == 0.0 then None
    else HigherEntry(CumulativeMap(items), Scaled(u, TotalWeight(items)))
  }

  /** Whatever the weights, the sampler only ever returns an entry of the list. */
  lemma PickIsMember(items: seq<ConfiguredItem>, u: real)
    ensures WeightedPick(items, u).Some? ==> WeightedPick(items, u).value in items
    ensures |items| == 0 || TotalWeight(items) == 0.0 ==> WeightedPick(items, u).None?
  {
    var p := WeightedPick(items, u);
    if p.Some? {
      var m := CumulativeMap(items);
      var r := Scaled(u, TotalWeight(items));
      assert p == HigherEntry(m, r);
      HigherEntryIsLeast(m, r);
      var k :| IsLeastAbove(m.Keys, r, k);
      CumulativeValues(items, k);
    }
  }

  /** Extending a prefix by one entry adds its weight and puts it under the new total. */
  lemma {:induction false} PrefixStep(items: seq<ConfiguredItem>, j: nat)
    requires 0 < j <= |items|
    ensures TotalWeight(items[..j]) == TotalWeight(items[..j - 1]) + items[j - 1].chance
    ensures CumulativeMap(items[..j]) == CumulativeMap(items[..j - 1])[TotalWeight(items[..j]) := items[j - 1]]
  {
    assert items[..j][..j - 1] == items[..j - 1];
  }

  lemma AppendStep(items: seq<ConfiguredItem>, item: ConfiguredItem)
    ensures TotalWeight(items + [item]) == TotalWeight(items) + item.chance
    ensures CumulativeMap(items + [item]) == CumulativeMap(items)[TotalWeight(items) + item.chance := item]
  {
    assert (items + [item])[..|items|] == items;
  }

  /** With positive weights the running totals strictly increase. */
  lemma {:induction false} TotalsIncrease(items: seq<ConfiguredItem>, a: nat, b: nat)
    requires PositiveWeights(items) && a < b <= |items|
    ensures TotalWeight(items[..a]) < TotalWeight(items[..b])
    decreases b - a
  {
    PrefixStep(items, b);
    if a < b - 1 {
      TotalsIncrease(items, a, b - 1);
    }
  }

  lemma {:induction false} TotalsNonNegative(items: seq<ConfiguredItem>, a: nat)
    requires PositiveWeights(items) && a <= |items|
    ensures TotalWeight(items[..a]) >= 0.0
  {
    if a > 0 {
      assert TotalWeight(items[..0]) == 0.0 by { assert items[..0] == []; }
      TotalsIncrease(items, 0, a);
    }
  }

  /** Every key of the cumulative map is the running total after some entry. */
  lemma {:induction false} CumulativeKeys(items: seq<ConfiguredItem>, k: real)
    requires k in CumulativeMap(items)
    ensures exists j :: 1 <= j <= |items| && k == TotalWeight(items[..j])
    decreases |items|
  {
    var n := |items|;
    assert items[..n] == items;
    if k != TotalWeight(items) {
      CumulativeKeys(items[..n - 1], k);
      var j :| 1 <= j <= n - 1 && k == TotalWeight(items[..n - 1][..j]);
      assert items[..n - 1][..j] == items[..j];
    }
  }

  /** With positive weights no put overwrites: entry j sits under the total reached after it. */
  lemma {:induction false} CumulativeAt(items: seq<ConfiguredItem>, j: nat)
    requires PositiveWeights(items) && 1 <= j <= |items|
    ensures TotalWeight(items[..j]) in CumulativeMap(items)
    ensures CumulativeMap(items)[TotalWeight(items[..j])] == items[j - 1]
    decreases |items|
  {
    var n := |items|;
    assert items[..n] == items;
    if j < n {
      var front := items[..n - 1];
      assert PositiveWeights(front);
      CumulativeAt(front, j);
      assert front[..j] == items[..j];
      TotalsIncrease(items, j, n);
    }
  }

  /** The index of the first entry whose running total exceeds `r`. */
  function FirstIndexAbove(items: seq<ConfiguredItem>, r: real, i: nat): (k: nat)
    requires i < |items| && TotalWeight(items) > r
    ensures i <= k < |items| && TotalWeight(items[..k + 1]) > r
    ensures forall j :: i < j <= k ==> TotalWeight(items[..j]) <= r
    decreases |items| - i
  {
    assert items[..|items|] == items;
    if TotalWeight(items[..i + 1]) > r then i else FirstIndexAbove(items, r, i + 1)
  }

  lemma ScaledDraw(u: real, t: real)
    requires 0.0 <= u < 1.0 && t > 0.0
    ensures 0.0 <= Scaled(u, t) < t
  {
  }

  /** With positive weights the first index above a draw is the one whose interval holds it. */
  lemma {:induction false} FirstAboveIsInterval(items: seq<ConfiguredItem>, r: real, i: nat)
    requires PositiveWeights(items) && i < |items| && TotalWeight(items) > r
    requires TotalWeight(items[..i]) <= r < TotalWeight(items[..i + 1])
    ensures FirstIndexAbove(items, r, 0) == i
  {
    var k := FirstIndexAbove(items, r, 0);
    if k < i {
      TotalsIncrease(items, k + 1, i + 1);
      if k + 1 < i { TotalsIncrease(items, k + 1, i); }
    }
  }

  /**
   * Upper-bound semantics of the index: for a draw r in [0, total) the higher
   * entry is the first entry whose running total is strictly greater than r.
   */
  lemma {:induction false} IndexPicksFirstAbove(items: seq<ConfiguredItem>, r: real)
    requires PositiveWeights(items) && 0.0 <= r < TotalWeight(items)
    ensures |items| > 0
    ensures HigherEntry(CumulativeMap(items), r) == Some(items[FirstIndexAbove(items, r, 0)])
  {
    var n := |items|;
    assert items[..n] == items;
    assert n > 0;
    var i := FirstIndexAbove(items, r, 0);
    var m := CumulativeMap(items);
    var k0 := TotalWeight(items[..i + 1]);
    CumulativeAt(items, i + 1);
    assert TotalWeight(items[..i]) <= r by {
      if i == 0 { assert items[..0] == []; }
    }
    forall k | k in m && k > r ensures k0 <= k {
      NoKeyBelowFirstAbove(items, r, k);
    }
    assert IsLeastAbove(m.Keys, r, k0);
    HigherEntryIsLeast(m, r);
  }

  /** No key of the cumulative map lies strictly between the draw and the running total of the first index above it. */
  lemma NoKeyBelowFirstAbove(items: seq<ConfiguredItem>, r: real, k: real)
    requires PositiveWeights(items) && 0 < |items| && r < TotalWeight(items)
    requires k in CumulativeMap(items) && k > r
    ensures TotalWeight(items[..FirstIndexAbove(items, r, 0) + 1]) <= k
  {
    var i := FirstIndexAbove(items, r, 0);
    CumulativeKeys(items, k);
    var j :| 1 <= j <= |items| && k == TotalWeight(items[..j]);
    if j > i + 1 {
      TotalsIncrease(items, i + 1, j);
    } else if j <= i {
      assert false;
    }
  }

  /** A draw equal to the running total before entry i belongs to entry i, not to the one before it. */
  lemma {:induction false} BoundaryGoesToNext(items: seq<ConfiguredItem>, i: nat)
    requires PositiveWeights(items) && i < |items|
    ensures HigherEntry(CumulativeMap(items), TotalWeight(items[..i])) == Some(items[i])
  {
    var n := |items|;
    assert items[..n] == items;
    TotalsNonNegative(items, i);
    TotalsIncrease(items, i, i + 1);
    if i + 1 < n { TotalsIncrease(items, i + 1, n); }
    var r := TotalWeight(items[..i]);
    IndexPicksFirstAbove(items, r);
    FirstAboveIsInterval(items, r, i);
  }

  /**
   * The sampler itself: with positive weights, when u * total falls in the
   * interval [running total before entry i, running total after it), entry i
   * is returned.
   */
  lemma {:induction false} PickInInterval(items: seq<ConfiguredItem>, u: real, i: nat)
    requires PositiveWeights(items) && i < |items|
    requires TotalWeight(items[..i]) <= Scaled(u, TotalWeight(items)) < TotalWeight(items[..i + 1])
    ensures WeightedPick(items, u) == Some(items[i])
  {
    var n := |items|;
    assert items[..n] == items;
    TotalsNonNegative(items, i);
    var t := TotalWeight(items);
    var r := Scaled(u, t);
    assert TotalWeight(items[..i + 1]) <= t by {
      if i + 1 < n { TotalsIncrease(items, i + 1, n); } else { assert items[..i + 1] == items; }
    }
    IndexPicksFirstAbove(items, r);
    FirstAboveIsInterval(items, r, i);
    assert t != 0.0;
    assert HigherEntry(CumulativeMap(items), r) == Some(items[i]);
    assert WeightedPick(items, u) == HigherEntry(CumulativeMap(items), r);
  }

  /** With positive weights and a draw in [0, 1) the sampler always returns an entry. */
  lemma {:induction false} PickSucceeds(items: seq<ConfiguredItem>, u: real)
    requires PositiveWeights(items) && |items| > 0 && 0.0 <= u < 1.0
    ensures WeightedPick(items, u).Some?
  {
    var n := |items|;
    assert items[..n] == items;
    assert items[..0] == [];
    TotalsIncrease(items, 0, n);
    ScaledDraw(u, TotalWeight(items));
    IndexPicksFirstAbove(items, Scaled(u, TotalWeight(items)));
  }

  // ---------------------------------------------------------------- loading

  /**
   * One key of the items file's `items` mapping: an entry that failed to
   * parse is skipped with a warning; a parsed entry is built under the
   * section's name, which becomes its key.
   */
  datatype ItemSection = Unparsable(name: string) | Entry(item: ConfiguredItem)

  /** The name of the section, which a parsed entry carries as its key. */
  function SectionName(s: ItemSection): string {
    if s.Entry? then s.item.key else s.name
  }

  /** The sections of a YAML mapping: no name occurs twice. */
  predicate DistinctNames(sections: seq<ItemSection>) {
    forall i, j :: 0 <= i < j < |sections| ==> SectionName(sections[i]) != SectionName(sections[j])
  }

  /** The catalog `loadItems` keeps: parsed entries with chance > 0, in file order. */
  function LoadedItems(sections: seq<ItemSection>): (items: seq<ConfiguredItem>)
    ensures PositiveWeights(items)
    ensures |items| <= |sections|
    decreases |sections|
  {
    if sections == [] then []
    else
      var front := LoadedItems(sections[..|sections| - 1]);
      match sections[|sections| - 1]
      case Entry(item) => if item.chance > 0.0 then front + [item] else front
      case Unparsable(_) => front
  }

  lemma LoadedStep(sections: seq<ItemSection>, i: nat)
    requires i < |sections|
    ensures sections[i].Entry? && sections[i].item.chance > 0.0 ==> LoadedItems(sections[..i + 1]) == LoadedItems(sections[..i]) + [sections[i].item]
    ensures !(sections[i].Entry? && sections[i].item.chance > 0.0) ==> LoadedItems(sections[..i + 1]) == LoadedItems(sections[..i])
  {
    assert sections[..i + 1][..i] == sections[..i];
  }

  /** An entry is in the catalog exactly when it parsed and has a positive chance. */
  lemma {:induction false} LoadedMembers(sections: seq<ItemSection>, x: ConfiguredItem)
    ensures x in LoadedItems(sections) <==> Entry(x) in sections && x.chance > 0.0
    decreases |sections|
  {
    if sections != [] {
      var n := |sections|;
      var front := sections[..n - 1];
      LoadedMembers(front, x);
      assert sections == front + [sections[n - 1]];
      assert (Entry(x) in sections) == (Entry(x) in front || sections[n - 1] == Entry(x));
      var items := LoadedItems(front);
      match sections[n - 1]
      case Entry(item) =>
        if item.chance > 0.0 {
          assert LoadedItems(sections) == items + [item];
        } else {
          assert LoadedItems(sections) == items;
        }
      case Unparsable(_) =>
        assert LoadedItems(sections) == items;
    }
  }

  /** Sections with distinct names give a catalog with unique keys. */
  lemma {:induction false} LoadedUniqueKeys(sections: seq<ItemSection>)
    requires DistinctNames(sections)
    ensures UniqueKeys(LoadedItems(sections))
    decreases |sections|
  {
    if sections != [] {
      var n := |sections|;
      var front := sections[..n - 1];
      assert DistinctNames(front);
      LoadedUniqueKeys(front);
      var items := LoadedItems(front);
      if sections[n - 1].Entry? && sections[n - 1].item.chance > 0.0 {
        var item := sections[n - 1].item;
        forall x | x in items ensures x.key != item.key {
          LoadedMembers(front, x);
          var j :| 0 <= j < |front| && front[j] == Entry(x);
          assert SectionName(sections[j]) == x.key;
          assert SectionName(sections[n - 1]) == item.key;
        }
        assert LoadedItems(sections) == items + [item];
        forall i, j | 0 <= i < j < |items| + 1 ensures (items + [item])[i].key != (items + [item])[j].key {
          if j == |items| {
            assert items[i] in items;
          }
        }
      }
    }
  }

  class ItemManager {
    var allPossibleItems: seq<ConfiguredItem>
    var weightedItems: map<real, ConfiguredItem>
    var totalWeight: real

    /** The index is the cumulative map of the catalog, whose weights are all positive. */
    ghost predicate Valid()
      reads this
    {
      && PositiveWeights(allPossibleItems)
      && UniqueKeys(allPossibleItems)
      && totalWeight == TotalWeight(allPossibleItems)
      && weightedItems == CumulativeMap(allPossibleItems)
    }

    constructor (sections: Option<seq<ItemSection>>)
      requires sections.Some? ==> DistinctNames(sections.value)
      ensures Valid()
      ensures allPossibleItems == (if sections.None? then [] else LoadedItems(sections.value))
    {
      allPossibleItems, weightedItems, totalWeight := [], map[], 0.0;
      new;
      LoadItems(sections);
    }

    /**
     * `loadItems`: clears the catalog and rebuilds it from the file's `items`
     * section (None when the section is missing), skipping entries with
     * chance <= 0 and accumulating the running total and the index.
     */
    method LoadItems(sections: Option<seq<ItemSection>>)
      requires sections.Some? ==> DistinctNames(sections.value)
      modifies this
      ensures Valid()
      ensures allPossibleItems == (if sections.None? then [] else LoadedItems(sections.value))
    {
      allPossibleItems := [];
      weightedItems := map[];
      totalWeight := 0.0;
      if sections.None? {
        return;
      }
      var secs := sections.value;
      for i := 0 to |secs|
        invariant allPossibleItems == LoadedItems(secs[..i])
        invariant totalWeight == TotalWeight(allPossibleItems)
        invariant weightedItems == CumulativeMap(allPossibleItems)
      {
        LoadedStep(secs, i);
        if secs[i].Entry? && secs[i].item.chance > 0.0 {
          var item := secs[i].item;
          AppendStep(allPossibleItems, item);
          allPossibleItems := allPossibleItems + [item];
          totalWeight := totalWeight + item.chance;
          weightedItems := weightedItems[totalWeight := item];
        }
      }
      assert secs[..|secs|] == secs;
      assert UniqueKeys(allPossibleItems) by {
        LoadedUniqueKeys(secs);
      }
    }

    /**
     * `getRandomWeightedItemFromList(items)` with `u` for the `nextDouble()` draw:
     * builds the cumulative map in a loop, rejects an empty list or a zero total,
     * then takes the higher entry of u * total.
     */
    method GetRandomWeightedItemFromList(items: seq<ConfiguredItem>, u: real) returns (r: Option<ConfiguredItem>)
      ensures r == WeightedPick(items, u)
    {
      if |items| == 0 {
        return None;
      }
      var tempWeightedMap: map<real, ConfiguredItem> := map[];
      var tempTotalWeight := 0.0;
      for i := 0 to |items|
        invariant tempTotalWeight == TotalWeight(items[..i])
        invariant tempWeightedMap == CumulativeMap(items[..i])
      {
        PrefixStep(items, i + 1);
        tempTotalWeight := tempTotalWeight + items[i].chance;
        tempWeightedMap := tempWeightedMap[tempTotalWeight := items[i]];
      }
      assert items[..|items|] == items;
      if tempTotalWeight == 0.0 {
        return None;
      }
      var randomValue := Scaled(u, tempTotalWeight);
      r := HigherEntry(tempWeightedMap, randomValue);
    }

    /** `getRandomWeightedItem()`: the higher entry of the catalog index at u * totalWeight. */
    function RandomWeightedItem(u: real): Option<ConfiguredItem>
      reads this
    {
      if weightedItems == map[] then None else HigherEntry(weightedItems, Scaled(u, totalWeight))
    }

    /** Sampling the whole catalog agrees with sampling the list of all entries. */
    lemma FullCatalogPick(u: real)
      requires Valid()
      ensures RandomWeightedItem(u) == WeightedPick(allPossibleItems, u)
    {
      var n := |allPossibleItems|;
      if n > 0 {
        assert allPossibleItems[..n] == allPossibleItems;
        assert allPossibleItems[..0] == [];
        TotalsIncrease(allPossibleItems, 0, n);
        assert totalWeight in weightedItems;
        assert weightedItems != map[];
        assert TotalWeight(allPossibleItems) != 0.0;
      } else {
        assert weightedItems == map[];
      }
    }

    /**
     * The index loading builds: one key per entry, keys strictly increasing in
     * catalog order, the last key equal to the total weight and the largest.
     */
    lemma CatalogIndexShape()
      requires Valid()
      ensures forall a, b :: 1 <= a < b <= |allPossibleItems| ==>
                TotalWeight(allPossibleItems[..a]) < TotalWeight(allPossibleItems[..b])
      ensures |allPossibleItems| > 0 ==>
                totalWeight in weightedItems && forall k | k in weightedItems :: 0.0 < k <= totalWeight
    {
      var items := allPossibleItems;
      var n := |items|;
      forall a, b | 1 <= a < b <= n ensures TotalWeight(items[..a]) < TotalWeight(items[..b]) {
        TotalsIncrease(items, a, b);
      }
      if n > 0 {
        assert items[..n] == items;
        forall k | k in weightedItems ensures 0.0 < k <= totalWeight {
          CumulativeKeys(items, k);
          var j :| 1 <= j <= n && k == TotalWeight(items[..j]);
          assert items[..0] == [];
          TotalsIncrease(items, 0, j);
          if j < n { TotalsIncrease(items, j, n); }
        }
      }
    }

    /** `getItemByKey`: nothing for a null key, else the first entry with that key. */
    function GetItemByKey(key: Option<string>): (r: Option<ConfiguredItem>)
      reads this
      ensures key.None? ==> r.None?
      ensures key.Some? && r.None? ==> forall i :: 0 <= i < |allPossibleItems| ==> allPossibleItems[i].key != key.value
      ensures r.Some? ==> key.Some? && r.value in allPossibleItems && r.value.key == key.value
    {
      if key.None? then None else FirstWithKey(allPossibleItems, key.value)
    }
  }
}
