/**
 * ItemEconomyProvider.java: paying with items. An entry's price list names
 * materials with an amount and an optional display name and lore; `has`
 * checks the player's inventory against every line of the price list and
 * `withdraw` removes the items slot by slot.
 *
 * The inventory is an array of slots, each empty or holding a stack. A stack
 * without item meta is a stack without display name or lore. An offline
 * player is an absent inventory.
 */
module ItemEconomy {
  import opened Wrappers
  import opened Text
  import opened Items

  /** A stack in an inventory slot; an empty lore list means the stack has no lore. */
  datatype ItemStack = ItemStack(material: string, amount: int, displayName: Option<string>, lore: seq<string>)

  type Slot = Option<ItemStack>

  /**
   * `isMatchingItem`: a stack matches a price line when the material is the
   * same, its display name is the required one (or it has none when no name
   * is required), and its lore is the required one (or it has none when no
   * lore, or an empty lore, is required).
   */
  predicate Matches(slot: Slot, req: RequiredItem) {
    && slot.Some?
    && slot.value.material == req.material
    && (if req.name.Some? then slot.value.displayName == req.name else slot.value.displayName.None?)
    && (if req.lore.Some? && req.lore.value != [] then slot.value.lore == req.lore.value else slot.value.lore == [])
  }

  /** An empty slot, or a stack of another material, never matches. */
  lemma MatchingRules(slot: Slot, req: RequiredItem)
    ensures slot.None? ==> !Matches(slot, req)
    ensures slot.Some? && slot.value.material != req.material ==> !Matches(slot, req)
    ensures Matches(slot, req) && req.name.None? ==> slot.value.displayName.None?
    ensures Matches(slot, req) && req.name.Some? ==> slot.value.displayName == req.name
    ensures (slot.Some? && slot.value.material == req.material && slot.value.displayName == req.name && slot.value.lore == [] &&
             (req.lore.None? || req.lore == Some([]))) ==> Matches(slot, req)
  {
  }

  /** The amount in a slot that counts towards a price line. */
  function Counted(slot: Slot, req: RequiredItem): int {
    if Matches(slot, req) then slot.value.amount else 0
  }

  /** The total amount of matching stacks in `contents`. */
  function MatchingAmount(contents: seq<Slot>, req: RequiredItem): int {
    if contents == [] then 0 else Counted(contents[0], req) + MatchingAmount(contents[1..], req)
  }

  lemma MatchingStep(contents: seq<Slot>, req: RequiredItem, i: nat)
    requires i < |contents|
    ensures MatchingAmount(contents[i..], req) == Counted(contents[i], req) + MatchingAmount(contents[i + 1..], req)
  {
    assert contents[i..][1..] == contents[i + 1..];
  }

  /** Every line of the price list is covered by the matching stacks, each line on its own. */
  predicate Covers(contents: seq<Slot>, reqs: seq<RequiredItem>) {
    forall k :: 0 <= k < |reqs| ==> MatchingAmount(contents, reqs[k]) >= reqs[k].amount
  }

  /** `has`: an online player, a current entry with a non-empty price list, and every line covered. */
  predicate CanPay(item: Option<ConfiguredItem>, contents: Option<seq<Slot>>) {
    contents.Some? && item.Some? && |item.value.requiredItems| > 0 && Covers(contents.value, item.value.requiredItems)
  }

  /**
   * The scan of `withdraw` for one price line, from slot `i` with `toRemove`
   * still to take: a matching stack no larger than what is still needed is
   * emptied, a larger one is reduced and ends the need; the scan stops as
   * soon as nothing is needed.
   */
  function TakeFrom(contents: seq<Slot>, req: RequiredItem, i: nat, toRemove: int): (r: seq<Slot>)
    requires i <= |contents|
    ensures |r| == |contents|
    decreases |contents| - i
  {
    if i == |contents| then contents
    else
      var inSlot := if Matches(contents[i], req) then contents[i].value.amount else 0;
      var next := if !Matches(contents[i], req) then contents
                  else if toRemove >= inSlot then contents[i := None]
                  else contents[i := Some(contents[i].value.(amount := inSlot - toRemove))];
      var left := if !Matches(contents[i], req) then toRemove else if toRemove >= inSlot then toRemove - inSlot else 0;
      if left == 0 then next else TakeFrom(next, req, i + 1, left)
  }

  /** `withdraw`'s loop over the price list: each line scanned in turn over what the previous lines left. */
  function TakeAll(contents: seq<Slot>, reqs: seq<RequiredItem>): (r: seq<Slot>)
    ensures |r| == |contents|
    decreases |reqs|
  {
    if reqs == [] then contents
    else TakeFrom(TakeAll(contents, reqs[..|reqs| - 1]), reqs[|reqs| - 1], 0, reqs[|reqs| - 1].amount)
  }

  lemma TakeAllStep(contents: seq<Slot>, reqs: seq<RequiredItem>, k: nat)
    requires k < |reqs|
    ensures TakeAll(contents, reqs[..k + 1]) == TakeFrom(TakeAll(contents, reqs[..k]), reqs[k], 0, reqs[k].amount)
  {
    assert reqs[..k + 1][..k] == reqs[..k];
  }

  /** Every stack in the inventory holds at least one item. */
  predicate WellFormed(contents: seq<Slot>) {
    forall j :: 0 <= j < |contents| && contents[j].Some? ==> contents[j].value.amount > 0
  }

  /** The scan changes only matching slots at or after where it starts. */
  lemma {:induction false} TakeFromTouchesOnlyMatches(contents: seq<Slot>, req: RequiredItem, i: nat, toRemove: int, j: nat)
    requires i <= |contents| && j < |contents|
    requires j < i || !Matches(contents[j], req)
    ensures TakeFrom(contents, req, i, toRemove)[j] == contents[j]
    decreases |contents| - i
  {
    if i < |contents| {
      var inSlot := if Matches(contents[i], req) then contents[i].value.amount else 0;
      var next := if !Matches(contents[i], req) then contents
                  else if toRemove >= inSlot then contents[i := None]
                  else contents[i := Some(contents[i].value.(amount := inSlot - toRemove))];
      var left := if !Matches(contents[i], req) then toRemove else if toRemove >= inSlot then toRemove - inSlot else 0;
      if left != 0 {
        TakeFromTouchesOnlyMatches(next, req, i + 1, left, j);
      }
    }
  }

  /**
   * On a well-formed inventory holding enough from slot `i` on, the scan
   * takes exactly what is needed: the matching total drops by `toRemove`.
   */
  lemma {:induction false} TakeFromExact(contents: seq<Slot>, req: RequiredItem, i: nat, toRemove: int)
    requires i <= |contents| && WellFormed(contents)
    requires 0 <= toRemove <= MatchingAmount(contents[i..], req)
    ensures MatchingAmount(TakeFrom(contents, req, i, toRemove), req) == MatchingAmount(contents, req) - toRemove
    decreases |contents| - i
  {
    if i == |contents| {
      assert contents[i..] == [];
    } else {
      MatchingStep(contents, req, i);
      var inSlot := if Matches(contents[i], req) then contents[i].value.amount else 0;
      var next := if !Matches(contents[i], req) then contents
                  else if toRemove >= inSlot then contents[i := None]
                  else contents[i := Some(contents[i].value.(amount := inSlot - toRemove))];
      var left := if !Matches(contents[i], req) then toRemove else if toRemove >= inSlot then toRemove - inSlot else 0;
      ReplaceSlot(contents, req, i, next[i]);
      assert MatchingAmount(next, req) == MatchingAmount(contents, req) - (toRemove - left);
      if left != 0 {
        assert next[i + 1..] == contents[i + 1..];
        MatchingStep(contents, req, i);
        assert WellFormed(next);
        TakeFromExact(next, req, i + 1, left);
      }
    }
  }

  /** Replacing one slot changes the matching total by the difference of what the two slots count. */
  lemma {:induction false} ReplaceSlot(contents: seq<Slot>, req: RequiredItem, i: nat, v: Slot)
    requires i < |contents|
    ensures MatchingAmount(contents[i := v], req) == MatchingAmount(contents, req) - Counted(contents[i], req) + Counted(v, req)
    decreases i
  {
    if i > 0 {
      assert contents[i := v][1..] == contents[1..][i - 1 := v];
      ReplaceSlot(contents[1..], req, i - 1, v);
    } else {
      assert contents[i := v][1..] == contents[1..];
    }
  }

  /**
   * With a single price line that `has` accepts, `withdraw` removes exactly
   * the required amount of matching items and leaves every other slot alone.
   */
  lemma SingleLineWithdrawIsExact(contents: seq<Slot>, req: RequiredItem)
    requires WellFormed(contents) && Covers(contents, [req]) && req.amount >= 0
    ensures MatchingAmount(TakeAll(contents, [req]), req) == MatchingAmount(contents, req) - req.amount
    ensures forall j :: 0 <= j < |contents| && !Matches(contents[j], req) ==> TakeAll(contents, [req])[j] == contents[j]
  {
    assert [req][..0] == [];
    assert contents[0..] == contents;
    TakeFromExact(contents, req, 0, req.amount);
    forall j | 0 <= j < |contents| && !Matches(contents[j], req) ensures TakeAll(contents, [req])[j] == contents[j] {
      TakeFromTouchesOnlyMatches(contents, req, 0, req.amount, j);
    }
  }

  /**
   * Two price lines that the same stack satisfies are each covered on their
   * own, but the first line's withdrawal uses up the stack and the second
   * finds nothing: the player pays one diamond for a price of two.
   */
  lemma OverlappingLinesUndercharge()
    ensures var diamond := RequiredItem("DIAMOND", 1, None, None);
      var contents := [Some(ItemStack("DIAMOND", 1, None, []))];
      && Covers(contents, [diamond, diamond])
      && TakeAll(contents, [diamond, diamond]) == [None]
      && MatchingAmount(contents, diamond) == 1
  {
    var diamond := RequiredItem("DIAMOND", 1, None, None);
    var contents := [Some(ItemStack("DIAMOND", 1, None, []))];
    assert MatchingAmount(contents, diamond) == 1 by {
      assert contents[1..] == [];
    }
    var reqs := [diamond, diamond];
    assert reqs[..1] == [diamond] && reqs[..1][..0] == [];
    assert TakeAll(contents, [diamond]) == [None];
    assert TakeFrom([None], diamond, 0, 1) == [None];
  }

  /** One line of `format`: the amount, "x " and the required name, else the material. */
  function Label(req: RequiredItem): string {
    IntToString(req.amount) + "x " + (if req.name.Some? then req.name.value else req.material)
  }

  function Labels(reqs: seq<RequiredItem>): (labels: seq<string>)
    ensures |labels| == |reqs|
    ensures forall k :: 0 <= k < |reqs| ==> labels[k] == Label(reqs[k])
  {
    if reqs == [] then [] else [Label(reqs[0])] + Labels(reqs[1..])
  }

  /** `format`: the labels joined with ", ", or "Item" when there is no price list. */
  function FormatPrice(item: Option<ConfiguredItem>): string {
    if item.Some? && |item.value.requiredItems| > 0 then Join(Labels(item.value.requiredItems), ", ") else "Item"
  }

  /** A price of one line reads as that line; each further line is appended after ", ". */
  lemma FormatPriceLines(item: ConfiguredItem, extra: RequiredItem)
    ensures |item.requiredItems| == 1 ==> FormatPrice(Some(item)) == Label(item.requiredItems[0])
    ensures |item.requiredItems| > 0 ==>
      FormatPrice(Some(item.(requiredItems := item.requiredItems + [extra])))
        == FormatPrice(Some(item)) + ", " + Label(extra)
    ensures FormatPrice(None) == "Item" && FormatPrice(Some(item.(requiredItems := []))) == "Item"
  {
    var reqs := item.requiredItems;
    if |reqs| > 0 {
      assert Labels(reqs + [extra]) == Labels(reqs) + [Label(extra)];
      JoinSnoc(Labels(reqs), Label(extra), ", ");
    }
  }

  /** The contents of an optional inventory. */
  function Contents(inventory: Option<array<Slot>>): Option<seq<Slot>>
    reads if inventory.Some? then {inventory.value} else {}
  {
    if inventory.Some? then Some(inventory.value[..]) else None
  }

  class ItemEconomyProvider {
    /** The entry whose price is being paid, set by the purchase flow before it calls `has` and `withdraw`. */
    var currentItemForTransaction: Option<ConfiguredItem>

    constructor ()
      ensures currentItemForTransaction.None?
    {
      currentItemForTransaction := None;
    }

    method SetCurrentItemForTransaction(item: Option<ConfiguredItem>)
      modifies this
      ensures currentItemForTransaction == item
    {
      currentItemForTransaction := item;
    }

    /** `getName`. */
    function Name(): (name: string)
      ensures name == "ITEM"
    {
      "ITEM"
    }

    /**
     * `has`: false for an offline player, no current entry or an empty price
     * list; otherwise each line's matching stacks are summed and compared
     * with its amount. The money amount is ignored.
     */
    method Has(inventory: Option<array<Slot>>, amount: real) returns (r: bool)
      ensures r == CanPay(currentItemForTransaction, Contents(inventory))
    {
      if inventory.None? || currentItemForTransaction.None? || |currentItemForTransaction.value.requiredItems| == 0 {
        return false;
      }
      var contents := inventory.value;
      var reqs := currentItemForTransaction.value.requiredItems;
      for k := 0 to |reqs|
        invariant forall q :: 0 <= q < k ==> MatchingAmount(contents[..], reqs[q]) >= reqs[q].amount
      {
        var totalAmountFound := 0;
        for i := 0 to contents.Length
          invariant totalAmountFound + MatchingAmount(contents[..][i..], reqs[k]) == MatchingAmount(contents[..], reqs[k])
        {
          MatchingStep(contents[..], reqs[k], i);
          if Matches(contents[i], reqs[k]) {
            totalAmountFound := totalAmountFound + contents[i].value.amount;
          }
        }
        assert contents[..][contents.Length..] == [];
        if totalAmountFound < reqs[k].amount {
          return false;
        }
      }
      return true;
    }

    /** `getBalance`: 1 when the price is payable, else 0. */
    method GetBalance(inventory: Option<array<Slot>>) returns (balance: real)
      ensures balance == if CanPay(currentItemForTransaction, Contents(inventory)) then 1.0 else 0.0
    {
      var payable := Has(inventory, 0.0);
      balance := if payable then 1.0 else 0.0;
    }

    /**
     * `withdraw`: refused, with nothing changed, unless `has` holds; otherwise
     * each price line in turn is taken from the inventory by the slot scan.
     */
    method Withdraw(inventory: Option<array<Slot>>, amount: real) returns (ok: bool)
      modifies if inventory.Some? then {inventory.value} else {}
      ensures ok == CanPay(currentItemForTransaction, old(Contents(inventory)))
      ensures !ok ==> Contents(inventory) == old(Contents(inventory))
      ensures ok ==> inventory.value[..] == TakeAll(old(inventory.value[..]), currentItemForTransaction.value.requiredItems)
    {
      if inventory.None? || currentItemForTransaction.None? {
        return false;
      }
      var payable := Has(inventory, 0.0);
      if !payable {
        return false;
      }
      var contents := inventory.value;
      var reqs := currentItemForTransaction.value.requiredItems;
      for k := 0 to |reqs|
        invariant contents[..] == TakeAll(old(contents[..]), reqs[..k])
      {
        TakeAllStep(old(contents[..]), reqs, k);
        ghost var start := contents[..];
        var amountToRemove := reqs[k].amount;
        var i := 0;
        while i < contents.Length
          invariant 0 <= i <= contents.Length
          invariant TakeFrom(contents[..], reqs[k], i, amountToRemove) == TakeFrom(start, reqs[k], 0, reqs[k].amount)
          decreases contents.Length - i
        {
          if Matches(contents[i], reqs[k]) {
            var amountInSlot := contents[i].value.amount;
            if amountToRemove >= amountInSlot {
              amountToRemove := amountToRemove - amountInSlot;
              contents[i] := None;
            } else {
              contents[i] := Some(contents[i].value.(amount := amountInSlot - amountToRemove));
              amountToRemove := 0;
            }
          }
          if amountToRemove == 0 {
            break;
          }
          i := i + 1;
        }
      }
      assert reqs[..|reqs|] == reqs;
      return true;
    }

    /** `format`, for the current entry. */
    function Format(amount: real): string
      reads this
    {
      FormatPrice(currentItemForTransaction)
    }
  }
}
