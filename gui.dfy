/**
 * NightMarketGUI.java: what each market slot of a player's market window
 * shows, the stock text and lore of a shown item, revealing a hidden slot,
 * and the per-player record of the slot awaiting confirmation.
 *
 * A window is an array of views, one per inventory slot; `Untouched` is a
 * slot the code does not write. The ItemStacks themselves (material, name,
 * colours) are not modelled, only which of the configured displays a slot
 * gets and, for an item, the lore lines it is given.
 */
module Gui {
  import opened Wrappers
  import opened Text
  import opened Items
  import opened Config
  import opened Market

  /** Which display a market slot gets, in the order `populateMarketItems` decides it. */
  datatype SlotState = Blank | Hidden | Denied | SoldOut | Bought | Shown

  /**
   * A slot without an allocation is left alone once revealed and hidden
   * otherwise; an allocated slot is hidden until revealed, and then the first
   * of: no permission, sold out (GLOBAL stock mode only), limit met, shown.
   */
  function Decide(hasItem: bool, revealed: bool, permitted: bool, soldOut: bool, limitMet: bool): SlotState {
    if !hasItem then (if revealed then Blank else Hidden)
    else if !revealed then Hidden
    else if !permitted then Denied
    else if soldOut then SoldOut
    else if limitMet then Bought
    else Shown
  }

  /** Each display is chosen exactly when every earlier case fails and its own holds. */
  lemma DecideCases(hasItem: bool, revealed: bool, permitted: bool, soldOut: bool, limitMet: bool)
    ensures var d := Decide(hasItem, revealed, permitted, soldOut, limitMet);
      && (d == Blank <==> !hasItem && revealed)
      && (d == Hidden <==> !revealed)
      && (d == Denied <==> hasItem && revealed && !permitted)
      && (d == SoldOut <==> hasItem && revealed && permitted && soldOut)
      && (d == Bought <==> hasItem && revealed && permitted && !soldOut && limitMet)
      && (d == Shown <==> hasItem && revealed && permitted && !soldOut && !limitMet)
  {
  }

  /** The texts the lore of an item display is built from. */
  datatype GuiTexts = GuiTexts(
    normalPrice: string,         // the `normal` price line format
    discountedPrice: string,     // the `discounted` price line format
    money: real -> string,       // `String.format("%,.0f", x)`
    permissionDeniedLore: seq<string>)

  const PricePlaceholder: string := "%price_placeholder%"

  /** The money price line of an allocation: the discounted format names the original price too. */
  function PriceLine(p: PlayerMarketItem, texts: GuiTexts): string {
    var line := if p.isDiscounted then ReplaceAll(texts.discountedPrice, "%original_price%", texts.money(p.baseItem.price))
                else texts.normalPrice;
    ReplaceAll(line, "%final_price%", texts.money(p.finalPrice))
  }

  /**
   * The lore loop of `getDisplayItemWithDynamicLore`: a line naming the price
   * placeholder is dropped for an entry paid with items and replaced by the
   * price line for a money entry; then the stock placeholder is filled in.
   */
  function LoreLines(p: PlayerMarketItem, lore: seq<string>, stock: string, priceLine: string): (lines: seq<string>)
    ensures |lines| <= |lore|
    ensures !HasItemPrice(p.baseItem) ==> |lines| == |lore|
  {
    if lore == [] then []
    else
      var rest := LoreLines(p, lore[1..], stock, priceLine);
      if HasItemPrice(p.baseItem) && Contains(lore[0], PricePlaceholder) then rest
      else [ReplaceAll(if Contains(lore[0], PricePlaceholder) then priceLine else lore[0], "%stock%", stock)] + rest
  }

  /** The lines of `lore` that do not name the price placeholder. */
  function WithoutPricePlaceholder(lore: seq<string>): (kept: seq<string>)
    ensures forall k :: 0 <= k < |kept| ==> !Contains(kept[k], PricePlaceholder)
  {
    if lore == [] then []
    else if Contains(lore[0], PricePlaceholder) then WithoutPricePlaceholder(lore[1..])
    else [lore[0]] + WithoutPricePlaceholder(lore[1..])
  }

  function StockFilled(lines: seq<string>, stock: string): (r: seq<string>)
    ensures |r| == |lines|
    ensures forall k :: 0 <= k < |lines| ==> r[k] == ReplaceAll(lines[k], "%stock%", stock)
  {
    if lines == [] then [] else [ReplaceAll(lines[0], "%stock%", stock)] + StockFilled(lines[1..], stock)
  }

  /** An entry paid with items loses exactly its price lines; the others only get their stock filled in. */
  lemma {:induction false} ItemPriceLore(p: PlayerMarketItem, lore: seq<string>, stock: string, priceLine: string)
    requires HasItemPrice(p.baseItem)
    ensures LoreLines(p, lore, stock, priceLine) == StockFilled(WithoutPricePlaceholder(lore), stock)
  {
    if lore != [] {
      ItemPriceLore(p, lore[1..], stock, priceLine);
    }
  }

  /** A money entry keeps every line, the price lines becoming the price line. */
  lemma {:induction false} MoneyLore(p: PlayerMarketItem, lore: seq<string>, stock: string, priceLine: string, k: nat)
    requires !HasItemPrice(p.baseItem) && k < |lore|
    ensures LoreLines(p, lore, stock, priceLine)[k]
      == ReplaceAll(if Contains(lore[k], PricePlaceholder) then priceLine else lore[k], "%stock%", stock)
  {
    if k > 0 {
      MoneyLore(p, lore[1..], stock, priceLine, k - 1);
    }
  }

  /** A lore line naming neither placeholder is shown as written. */
  lemma PlainLineUnchanged(p: PlayerMarketItem, line: string, stock: string, priceLine: string)
    requires !Contains(line, PricePlaceholder) && !Contains(line, "%stock%")
    ensures LoreLines(p, [line], stock, priceLine) == [line]
  {
    ReplaceAbsent(line, "%stock%", stock);
    assert [line][1..] == [];
  }

  /**
   * The stock text: with a player, the global count (GLOBAL stock mode) or
   * what is left of the player's limit (PLAYER stock mode), -1 reading as
   * "Infinite"; without a player, the configured initial stock.
   */
  function StockText(forPlayer: bool, mode: StockMode, globalStock: int, initialStock: int, purchaseCount: int): string {
    if forPlayer then
      if mode == GLOBAL then (if globalStock == -1 then "Infinite" else IntToString(globalStock))
      else
        var remaining := if initialStock == -1 then -1 else initialStock - purchaseCount;
        if remaining == -1 then "Infinite" else IntToString(remaining)
    else
      var shown := IntToString(initialStock);
      if shown == "-1" then "Infinite" else shown
  }

  lemma DigitOne()
    ensures DigitChar(1) == '1'
  {
  }

  /** The decimal text "-1" belongs to -1 alone, and no number reads "Infinite". */
  lemma MinusOneText(x: int)
    ensures IntToString(x) == "-1" <==> x == -1
    ensures IntToString(x) != "Infinite"
  {
    DigitOne();
    if x == -1 {
      assert NatToString(1) == [DigitChar(1)];
    }
    if x < 0 && IntToString(x) == "-1" {
      var n := -x;
      assert IntToString(x) == "-" + NatToString(n);
      assert NatToString(n) == IntToString(x)[1..] == "1";
    }
    var s := IntToString(x);
    if x >= 0 {
      assert IsDigit(s[0]);
    } else {
      assert s[0] == '-';
    }
  }

  /**
   * The stock text rules: "Infinite" exactly for the -1 marker (GLOBAL mode,
   * and without a player), and in PLAYER mode a number as long as the
   * player has not bought more than the limit.
   */
  lemma StockTextRules(mode: StockMode, globalStock: int, initialStock: int, purchaseCount: int)
    ensures mode == GLOBAL ==>
      (StockText(true, mode, globalStock, initialStock, purchaseCount) == "Infinite" <==> globalStock == -1)
    ensures mode == GLOBAL && globalStock != -1 ==> StockText(true, mode, globalStock, initialStock, purchaseCount) == IntToString(globalStock)
    ensures mode == PLAYER && initialStock == -1 ==> StockText(true, mode, globalStock, initialStock, purchaseCount) == "Infinite"
    ensures mode == PLAYER && 0 <= purchaseCount <= initialStock ==>
      StockText(true, mode, globalStock, initialStock, purchaseCount) == IntToString(initialStock - purchaseCount)
    ensures StockText(false, mode, globalStock, initialStock, purchaseCount) == "Infinite" <==> initialStock == -1
    ensures initialStock != -1 ==> StockText(false, mode, globalStock, initialStock, purchaseCount) == IntToString(initialStock)
  {
    MinusOneText(globalStock);
    MinusOneText(initialStock);
    MinusOneText(initialStock - purchaseCount);
  }

  /** In PLAYER mode one purchase past the limit reads as "Infinite". */
  lemma OverLimitReadsInfinite(initialStock: int)
    requires initialStock >= 0
    ensures StockText(true, PLAYER, 0, initialStock, initialStock + 1) == "Infinite"
  {
  }

  /** What a window slot holds. */
  datatype View =
    | Untouched
    | Placeholder
    | PermissionDeniedItem(item: PlayerMarketItem, lore: seq<string>)
    | OutOfStockItem
    | PurchasedItem
    | DisplayItem(item: PlayerMarketItem, lore: seq<string>)

  /** `setItem` for a decided view; `Untouched` writes nothing. */
  function Placed(before: View, v: View): View {
    if v == Untouched then before else v
  }

  /** The slots among the first `i` of the list. */
  ghost function Taken(slots: seq<int>, i: nat): set<int>
    requires i <= |slots|
  {
    set j | 0 <= j < i :: slots[j]
  }

  lemma TakenStep(slots: seq<int>, i: nat)
    requires i < |slots| && NoDup(slots)
    ensures Taken(slots, i + 1) == Taken(slots, i) + {slots[i]}
    ensures slots[i] !in Taken(slots, i)
  {
    assert forall j :: 0 <= j < i ==> slots[j] != slots[i];
    assert slots[i] in Taken(slots, i + 1);
  }

  lemma TakenAll(slots: seq<int>, keys: set<int>)
    requires forall x :: x in slots <==> x in keys
    ensures Taken(slots, |slots|) == keys
  {
    forall k | k in keys ensures k in Taken(slots, |slots|) {
      var j :| 0 <= j < |slots| && slots[j] == k;
    }
    forall k | k in Taken(slots, |slots|) ensures k in keys {
      var j :| 0 <= j < |slots| && slots[j] == k;
      assert slots[j] in slots;
    }
  }

  /** `setItem(slots.get(0), …)` for a loaded button with slots needs that slot inside the menu. */
  predicate ButtonFits(button: Option<DecorativeItemConfig>, size: int) {
    button.None? || |button.value.slots| == 0 || 0 <= button.value.slots[0] < size
  }

  /**
   * Whether `openConfirmationGUI` gets as far as recording the slot.
   * `Bukkit.createInventory` takes only a size that is a multiple of 9 from
   * 9 to 54, and `setItem` throws for a slot outside the inventory; the
   * display slot and the first slot of each loaded button are written
   * unchecked, while the filler's slots are bounds-checked by the code.
   */
  predicate ConfirmationMenuBuilds(rows: int, displaySlot: int, confirm: Option<DecorativeItemConfig>,
                                   cancel: Option<DecorativeItemConfig>) {
    && 1 <= rows <= 6
    && 0 <= displaySlot < rows * 9
    && ButtonFits(confirm, rows * 9)
    && ButtonFits(cancel, rows * 9)
  }

  /** A confirmation section that is missing leaves zero rows, and no menu can be built. */
  lemma NoMenuWithoutRows(displaySlot: int, confirm: Option<DecorativeItemConfig>, cancel: Option<DecorativeItemConfig>)
    ensures !ConfirmationMenuBuilds(0, displaySlot, confirm, cancel)
  {
  }

  /** The defaults of a present section (3 rows, display slot 13, no buttons) build a menu. */
  lemma DefaultMenuBuilds()
    ensures ConfirmationMenuBuilds(3, 13, None, None)
  {
  }

  /**
   * One turn of `populateMarketItems`: turn `k` assigns slot `s` as
   * `getOrAssignPlayerItemForSlot` does, with the draws of that turn.
   */
  function Turn(globals: map<int, PlayerMarketItem>, catalog: seq<ConfiguredItem>, player: PlayerId,
                picks: nat -> nat -> real, rolls: nat -> nat -> real)
    : (map<PlayerId, map<int, PlayerMarketItem>>, int, nat) -> map<PlayerId, map<int, PlayerMarketItem>>
  {
    (m: map<PlayerId, map<int, PlayerMarketItem>>, s: int, k: nat) =>
      AssignedForSlot(m, globals, catalog, player, s, picks(k), rolls(k))
  }

  /** The allocations after the first `i` turns over `slots`, in a window of `size` slots: a slot outside is skipped. */
  function Turns(pa: map<PlayerId, map<int, PlayerMarketItem>>, slots: seq<int>, size: int, i: nat,
                 step: (map<PlayerId, map<int, PlayerMarketItem>>, int, nat) -> map<PlayerId, map<int, PlayerMarketItem>>)
    : map<PlayerId, map<int, PlayerMarketItem>>
    requires i <= |slots|
    decreases i
  {
    if i == 0 then pa
    else
      var before := Turns(pa, slots, size, i - 1, step);
      if slots[i - 1] < size then step(before, slots[i - 1], i - 1) else before
  }

  /** The player's allocations after the first `i` turns of `populateMarketItems`. */
  function AssignedThrough(pa: map<PlayerId, map<int, PlayerMarketItem>>, globals: map<int, PlayerMarketItem>,
                           catalog: seq<ConfiguredItem>, player: PlayerId, slots: seq<int>, size: int, i: nat,
                           picks: nat -> nat -> real, rolls: nat -> nat -> real): map<PlayerId, map<int, PlayerMarketItem>>
    requires i <= |slots|
  {
    Turns(pa, slots, size, i, Turn(globals, catalog, player, picks, rolls))
  }

  /** Turn `i` of the populate loop assigns slot `slots[i]`, or skips it when it lies outside the window. */
  lemma AssignedThroughStep(pa: map<PlayerId, map<int, PlayerMarketItem>>, globals: map<int, PlayerMarketItem>,
                            catalog: seq<ConfiguredItem>, player: PlayerId, slots: seq<int>, size: int, i: nat,
                            picks: nat -> nat -> real, rolls: nat -> nat -> real)
    requires i < |slots|
    ensures AssignedThrough(pa, globals, catalog, player, slots, size, i + 1, picks, rolls) ==
      if slots[i] < size
      then AssignedForSlot(AssignedThrough(pa, globals, catalog, player, slots, size, i, picks, rolls),
                           globals, catalog, player, slots[i], picks(i), rolls(i))
      else AssignedThrough(pa, globals, catalog, player, slots, size, i, picks, rolls)
  {
  }

  /** Every player but `player` keeps their allocations through a step. */
  ghost predicate StepLeavesOthers(step: (map<PlayerId, map<int, PlayerMarketItem>>, int, nat) -> map<PlayerId, map<int, PlayerMarketItem>>,
                                   player: PlayerId) {
    forall m, s, k :: step(m, s, k) - {player} == m - {player}
  }

  /** The player keeps every allocation through a step. */
  ghost predicate StepKeeps(step: (map<PlayerId, map<int, PlayerMarketItem>>, int, nat) -> map<PlayerId, map<int, PlayerMarketItem>>,
                            player: PlayerId) {
    forall m, s, k :: Extends(Mine(m, player), Mine(step(m, s, k), player))
  }

  /** Slots of `after` missing from `before` are `slot`, which is not global, and hold non-global catalog entries. */
  predicate AddedOnlyAt(before: map<int, PlayerMarketItem>, after: map<int, PlayerMarketItem>, slot: int,
                        globals: map<int, PlayerMarketItem>, catalog: seq<ConfiguredItem>) {
    forall t | t in after && t !in before :: t == slot && slot !in globals && after[t].baseItem in catalog && !after[t].baseItem.isGlobal
  }

  /** A step on slot `s` adds to the player's allocations only at `s`. */
  ghost predicate StepAddsAt(step: (map<PlayerId, map<int, PlayerMarketItem>>, int, nat) -> map<PlayerId, map<int, PlayerMarketItem>>,
                             player: PlayerId, globals: map<int, PlayerMarketItem>, catalog: seq<ConfiguredItem>) {
    forall m, s, k :: AddedOnlyAt(Mine(m, player), Mine(step(m, s, k), player), s, globals, catalog)
  }

  /** A step keeps the player's offers distinct. */
  ghost predicate StepKeepsDistinct(step: (map<PlayerId, map<int, PlayerMarketItem>>, int, nat) -> map<PlayerId, map<int, PlayerMarketItem>>,
                                    player: PlayerId, globals: map<int, PlayerMarketItem>) {
    forall m, s, k :: OffersDistinct(Mine(m, player), globals) ==> OffersDistinct(Mine(step(m, s, k), player), globals)
  }

  /** `a` and `b` agree on every slot but `slot`. */
  ghost predicate AgreeOff(a: map<int, PlayerMarketItem>, b: map<int, PlayerMarketItem>, slot: int) {
    forall t | t != slot :: (t in a <==> t in b) && (t in a ==> b[t] == a[t])
  }

  /** A step on slot `s` touches no other slot of the player. */
  ghost predicate StepLocal(step: (map<PlayerId, map<int, PlayerMarketItem>>, int, nat) -> map<PlayerId, map<int, PlayerMarketItem>>,
                            player: PlayerId) {
    forall m, s, k :: AgreeOff(Mine(m, player), Mine(step(m, s, k), player), s)
  }

  /** A turn of the populate loop has each of the step properties. */
  lemma TurnSteps(globals: map<int, PlayerMarketItem>, catalog: seq<ConfiguredItem>, player: PlayerId,
                  picks: nat -> nat -> real, rolls: nat -> nat -> real)
    ensures var step := Turn(globals, catalog, player, picks, rolls);
      && StepLeavesOthers(step, player) && StepKeeps(step, player) && StepAddsAt(step, player, globals, catalog)
      && StepKeepsDistinct(step, player, globals) && StepLocal(step, player)
  {
    var step := Turn(globals, catalog, player, picks, rolls);
    forall m, s, k ensures step(m, s, k) - {player} == m - {player} {
      AssignedForSlotOthers(m, globals, catalog, player, s, picks(k), rolls(k));
    }
    forall m, s, k ensures Extends(Mine(m, player), Mine(step(m, s, k), player)) {
      AssignedForSlotKeeps(m, globals, catalog, player, s, picks(k), rolls(k));
    }
    forall m, s, k ensures AddedOnlyAt(Mine(m, player), Mine(step(m, s, k), player), s, globals, catalog) {
      AssignedForSlotAdds(m, globals, catalog, player, s, picks(k), rolls(k));
    }
    forall m, s, k ensures OffersDistinct(Mine(m, player), globals) ==> OffersDistinct(Mine(step(m, s, k), player), globals) {
      AssignedForSlotDistinct(m, globals, catalog, player, s, picks(k), rolls(k));
    }
    forall m, s, k ensures AgreeOff(Mine(m, player), Mine(step(m, s, k), player), s) {
      forall t | t != s ensures var r := Mine(step(m, s, k), player); (t in Mine(m, player) <==> t in r) && (t in Mine(m, player) ==> r[t] == Mine(m, player)[t]) {
        AssignedForSlotElsewhere(m, globals, catalog, player, s, picks(k), rolls(k), t);
      }
    }
  }

  lemma {:induction false} TurnsLeaveOthers(pa: map<PlayerId, map<int, PlayerMarketItem>>, slots: seq<int>, size: int, i: nat,
                                            step: (map<PlayerId, map<int, PlayerMarketItem>>, int, nat) -> map<PlayerId, map<int, PlayerMarketItem>>,
                                            player: PlayerId)
    requires i <= |slots| && StepLeavesOthers(step, player)
    ensures Turns(pa, slots, size, i, step) - {player} == pa - {player}
  {
    if i > 0 {
      TurnsLeaveOthers(pa, slots, size, i - 1, step, player);
    }
  }

  lemma {:induction false} TurnsKeep(pa: map<PlayerId, map<int, PlayerMarketItem>>, slots: seq<int>, size: int, i: nat,
                                     step: (map<PlayerId, map<int, PlayerMarketItem>>, int, nat) -> map<PlayerId, map<int, PlayerMarketItem>>,
                                     player: PlayerId)
    requires i <= |slots| && StepKeeps(step, player)
    ensures Extends(Mine(pa, player), Mine(Turns(pa, slots, size, i, step), player))
  {
    if i > 0 {
      TurnsKeep(pa, slots, size, i - 1, step, player);
      var before := Turns(pa, slots, size, i - 1, step);
      if slots[i - 1] < size {
        ExtendsTransitive(Mine(pa, player), Mine(before, player), Mine(step(before, slots[i - 1], i - 1), player));
      }
    }
  }

  lemma {:induction false} TurnsAdd(pa: map<PlayerId, map<int, PlayerMarketItem>>, slots: seq<int>, size: int, i: nat,
                                    step: (map<PlayerId, map<int, PlayerMarketItem>>, int, nat) -> map<PlayerId, map<int, PlayerMarketItem>>,
                                    player: PlayerId, globals: map<int, PlayerMarketItem>, catalog: seq<ConfiguredItem>)
    requires i <= |slots| && StepKeeps(step, player) && StepAddsAt(step, player, globals, catalog)
    ensures var r := Mine(Turns(pa, slots, size, i, step), player);
      forall s | s in r && s !in Mine(pa, player) ::
        s in slots[..i] && s < size && s !in globals && r[s].baseItem in catalog && !r[s].baseItem.isGlobal
  {
    if i > 0 {
      TurnsAdd(pa, slots, size, i - 1, step, player, globals, catalog);
      TurnsKeep(pa, slots, size, i - 1, step, player);
      assert slots[..i] == slots[..i - 1] + [slots[i - 1]];
      if slots[i - 1] < size {
        var before := Turns(pa, slots, size, i - 1, step);
        assert AddedOnlyAt(Mine(before, player), Mine(step(before, slots[i - 1], i - 1), player), slots[i - 1], globals, catalog);
      }
    }
  }

  lemma {:induction false} TurnsKeepDistinct(pa: map<PlayerId, map<int, PlayerMarketItem>>, slots: seq<int>, size: int, i: nat,
                                             step: (map<PlayerId, map<int, PlayerMarketItem>>, int, nat) -> map<PlayerId, map<int, PlayerMarketItem>>,
                                             player: PlayerId, globals: map<int, PlayerMarketItem>)
    requires i <= |slots| && StepKeepsDistinct(step, player, globals)
    ensures OffersDistinct(Mine(pa, player), globals) ==> OffersDistinct(Mine(Turns(pa, slots, size, i, step), player), globals)
  {
    if i > 0 {
      TurnsKeepDistinct(pa, slots, size, i - 1, step, player, globals);
    }
  }

  lemma {:induction false} TurnsLocal(pa: map<PlayerId, map<int, PlayerMarketItem>>, slots: seq<int>, size: int, j: nat, i: nat,
                                      step: (map<PlayerId, map<int, PlayerMarketItem>>, int, nat) -> map<PlayerId, map<int, PlayerMarketItem>>,
                                      player: PlayerId)
    requires NoDup(slots) && j < i <= |slots| && StepLocal(step, player)
    ensures var r := Mine(Turns(pa, slots, size, i, step), player);
      var t := Mine(Turns(pa, slots, size, j + 1, step), player);
      && (slots[j] in r <==> slots[j] in t)
      && (slots[j] in t ==> r[slots[j]] == t[slots[j]])
  {
    if i > j + 1 {
      TurnsLocal(pa, slots, size, j, i - 1, step, player);
      if slots[i - 1] < size {
        var before := Turns(pa, slots, size, i - 1, step);
        assert slots[j] != slots[i - 1];
        assert AgreeOff(Mine(before, player), Mine(step(before, slots[i - 1], i - 1), player), slots[i - 1]);
      }
    }
  }

  /**
   * Populating the window changes only the player's own allocations, keeps
   * every allocation the player had, adds new ones only at configured
   * non-global slots inside the window, each a non-global catalog entry,
   * and never makes the player's offers repeat an item.
   */
  lemma AssignedThroughFacts(pa: map<PlayerId, map<int, PlayerMarketItem>>, globals: map<int, PlayerMarketItem>,
                             catalog: seq<ConfiguredItem>, player: PlayerId, slots: seq<int>, size: int, i: nat,
                             picks: nat -> nat -> real, rolls: nat -> nat -> real)
    requires i <= |slots|
    ensures var r := AssignedThrough(pa, globals, catalog, player, slots, size, i, picks, rolls);
      && r - {player} == pa - {player}
      && (forall s | s in Mine(pa, player) :: s in Mine(r, player) && Mine(r, player)[s] == Mine(pa, player)[s])
      && (forall s | s in Mine(r, player) && s !in Mine(pa, player) ::
            s in slots[..i] && s < size && s !in globals &&
            Mine(r, player)[s].baseItem in catalog && !Mine(r, player)[s].baseItem.isGlobal)
      && (OffersDistinct(Mine(pa, player), globals) ==> OffersDistinct(Mine(r, player), globals))
  {
    var step := Turn(globals, catalog, player, picks, rolls);
    TurnSteps(globals, catalog, player, picks, rolls);
    TurnsLeaveOthers(pa, slots, size, i, step, player);
    TurnsKeep(pa, slots, size, i, step, player);
    TurnsAdd(pa, slots, size, i, step, player, globals, catalog);
    TurnsKeepDistinct(pa, slots, size, i, step, player, globals);
  }

  /**
   * Each configured slot keeps, to the end of the loop, what its own turn
   * gave it: a later turn touches only its own, different slot.
   */
  lemma SlotKeepsItsTurn(pa: map<PlayerId, map<int, PlayerMarketItem>>, globals: map<int, PlayerMarketItem>,
                         catalog: seq<ConfiguredItem>, player: PlayerId, slots: seq<int>, size: int,
                         j: nat, i: nat, picks: nat -> nat -> real, rolls: nat -> nat -> real)
    requires NoDup(slots) && j < i <= |slots|
    ensures var r := Mine(AssignedThrough(pa, globals, catalog, player, slots, size, i, picks, rolls), player);
      var t := Mine(AssignedThrough(pa, globals, catalog, player, slots, size, j + 1, picks, rolls), player);
      && (slots[j] in r <==> slots[j] in t)
      && (slots[j] in t ==> r[slots[j]] == t[slots[j]])
  {
    TurnSteps(globals, catalog, player, picks, rolls);
    TurnsLocal(pa, slots, size, j, i, Turn(globals, catalog, player, picks, rolls), player);
  }

  class NightMarketGUI {
    const market: MarketManager
    const texts: GuiTexts
    /** The GUI slot each player is being asked to confirm a purchase of. */
    var pendingConfirmation: map<PlayerId, int>

    constructor (market: MarketManager, texts: GuiTexts)
      ensures this.market == market && this.texts == texts && pendingConfirmation == map[]
    {
      this.market := market;
      this.texts := texts;
      pendingConfirmation := map[];
    }

    /** The stock text for a player (or none), read from the ledgers. */
    function StockDisplay(player: Option<PlayerId>, item: ConfiguredItem): string
      reads market`globalItemStock, market`playerPurchaseCounts, market.config`stockMode
    {
      var count := if player.Some? then PurchaseCount(market.playerPurchaseCounts, player.value, item.key) else 0;
      StockText(player.Some?, market.config.stockMode, RemainingStock(market.globalItemStock, item.key), item.initialStock, count)
    }

    /** The lore of `getDisplayItemWithDynamicLore`; an item without lore keeps none. */
    function DisplayLore(player: Option<PlayerId>, p: PlayerMarketItem): seq<string>
      reads market`globalItemStock, market`playerPurchaseCounts, market.config`stockMode
    {
      LoreLines(p, p.baseItem.displayLore, StockDisplay(player, p.baseItem), PriceLine(p, texts))
    }

    /** `getPermissionDeniedItem`: the display built without a player, followed by the denial lines. */
    function DeniedView(p: PlayerMarketItem): View
      reads market`globalItemStock, market`playerPurchaseCounts, market.config`stockMode
    {
      PermissionDeniedItem(p, DisplayLore(None, p) + texts.permissionDeniedLore)
    }

    /** The decision of `populateMarketItems` for one slot of one player holding allocation `a`. */
    function SlotStateOf(player: PlayerId, guiSlot: int, granted: set<string>, a: Option<PlayerMarketItem>): SlotState
      reads market`playerRevealedSlots, market`globalItemStock, market`playerPurchasedItemKeys,
            market`playerPurchaseCounts, market.config`stockMode
    {
      Decide(a.Some?, IsRevealed(market.playerRevealedSlots, player, guiSlot),
             a.Some? && HasPermission(a.value.baseItem, granted),
             a.Some? && market.config.stockMode == GLOBAL && RemainingStock(market.globalItemStock, a.value.baseItem.key) == 0,
             a.Some? && LimitMet(market.config.stockMode, market.playerPurchasedItemKeys, market.playerPurchaseCounts, player, a.value.baseItem))
    }

    /** The view `populateMarketItems` writes for one slot holding allocation `a`. */
    function ViewFor(player: PlayerId, guiSlot: int, granted: set<string>, a: Option<PlayerMarketItem>): View
      reads market`playerRevealedSlots, market`globalItemStock, market`playerPurchasedItemKeys,
            market`playerPurchaseCounts, market.config`stockMode
    {
      if a.None? then (if IsRevealed(market.playerRevealedSlots, player, guiSlot) then Untouched else Placeholder)
      else match SlotStateOf(player, guiSlot, granted, a)
        case Blank => Untouched
        case Hidden => Placeholder
        case Denied => DeniedView(a.value)
        case SoldOut => OutOfStockItem
        case Bought => PurchasedItem
        case Shown => DisplayItem(a.value, DisplayLore(Some(player), a.value))
    }

    /** The view of a slot given the player's current allocation there. */
    function MarketView(player: PlayerId, guiSlot: int, granted: set<string>): View
      reads market, market.config
    {
      ViewFor(player, guiSlot, granted, market.GetPlayerAssignedItem(player, guiSlot))
    }

    /**
     * `openNightMarketGUI`: no window while the market is closed; otherwise
     * a window of `guiRows` rows whose market slots are populated.
     */
    method OpenNightMarketGUI(player: PlayerId, granted: set<string>, picks: nat -> nat -> real, rolls: nat -> nat -> real)
      returns (gui: Option<array<View>>)
      requires forall k | k in market.config.marketSlotToYmlKey :: k >= 0
      requires market.config.guiRows >= 0
      modifies market`playerAssignedItems
      ensures !old(market.marketOpen) ==> gui.None? && market.playerAssignedItems == old(market.playerAssignedItems)
      ensures old(market.marketOpen) ==> gui.Some? && fresh(gui.value) && gui.value.Length == market.config.guiRows * 9
      ensures gui.Some? ==> forall k :: 0 <= k < gui.value.Length ==>
        gui.value[k] == if k in market.config.marketSlotToYmlKey then Placed(Untouched, MarketView(player, k, granted)) else Untouched
      ensures old(market.marketOpen) ==>
        var slots := SlotList(market.config.marketSlotToYmlKey.Keys);
        market.playerAssignedItems == AssignedThrough(old(market.playerAssignedItems), market.globalAssignedItems,
                                        market.itemManager.allPossibleItems, player, slots, market.config.guiRows * 9, |slots|, picks, rolls)
    {
      if !market.marketOpen {
        return None;
      }
      var window := new View[market.config.guiRows * 9](_ => Untouched);
      PopulateMarketItems(window, player, granted, picks, rolls);
      return Some(window);
    }

    /**
     * `populateMarketItems`: each configured market slot inside the window,
     * in the order of `SlotList`, gets its allocation (assigning one if
     * needed, with the draws of its turn) and the view its state decides.
     */
    method PopulateMarketItems(gui: array<View>, player: PlayerId, granted: set<string>,
                               picks: nat -> nat -> real, rolls: nat -> nat -> real)
      requires forall k | k in market.config.marketSlotToYmlKey :: k >= 0
      modifies gui, market`playerAssignedItems
      ensures forall k :: 0 <= k < gui.Length ==>
        gui[k] == if k in market.config.marketSlotToYmlKey then Placed(old(gui[k]), MarketView(player, k, granted)) else old(gui[k])
      ensures var slots := SlotList(market.config.marketSlotToYmlKey.Keys);
        market.playerAssignedItems == AssignedThrough(old(market.playerAssignedItems), market.globalAssignedItems,
                                        market.itemManager.allPossibleItems, player, slots, gui.Length, |slots|, picks, rolls)
    {
      var slots := SlotList(market.config.marketSlotToYmlKey.Keys);
      var i := 0;
      while i < |slots|
        invariant 0 <= i <= |slots|
        invariant Populated(gui, old(gui[..]), Taken(slots, i), player, granted)
        invariant market.playerAssignedItems == AssignedThrough(old(market.playerAssignedItems), market.globalAssignedItems,
                                                 market.itemManager.allPossibleItems, player, slots, gui.Length, i, picks, rolls)
      {
        var guiSlot := slots[i];
        TakenStep(slots, i);
        AssignedThroughStep(old(market.playerAssignedItems), market.globalAssignedItems,
                            market.itemManager.allPossibleItems, player, slots, gui.Length, i, picks, rolls);
        PopulateTurn(gui, player, guiSlot, granted, old(gui[..]), Taken(slots, i), picks(i), rolls(i));
        i := i + 1;
      }
      TakenAll(slots, market.config.marketSlotToYmlKey.Keys);
    }

    /**
     * The slots in `done` of the window show the view of the player's current
     * allocation there, over what they showed in `orig`; the others still show `orig`.
     */
    ghost predicate Populated(gui: array<View>, orig: seq<View>, done: set<int>, player: PlayerId, granted: set<string>)
      reads gui, market, market.config
    {
      && |orig| == gui.Length
      && forall k :: 0 <= k < gui.Length ==>
           gui[k] == if k in done then Placed(orig[k], MarketView(player, k, granted)) else orig[k]
    }

    /** The body of the loop of `populateMarketItems`: one more configured slot, skipped when outside the window. */
    method PopulateTurn(gui: array<View>, player: PlayerId, guiSlot: int, granted: set<string>,
                        ghost orig: seq<View>, ghost done: set<int>, picks: nat -> real, rolls: nat -> real)
      requires guiSlot in market.config.marketSlotToYmlKey && guiSlot >= 0 && guiSlot !in done
      requires Populated(gui, orig, done, player, granted)
      modifies gui, market`playerAssignedItems
      ensures Populated(gui, orig, done + {guiSlot}, player, granted)
      ensures market.playerAssignedItems ==
        if guiSlot < gui.Length then AssignedForSlot(old(market.playerAssignedItems), market.globalAssignedItems,
                                                     market.itemManager.allPossibleItems, player, guiSlot, picks, rolls)
        else old(market.playerAssignedItems)
    {
      if guiSlot < gui.Length {
        PopulateSlot(gui, player, guiSlot, granted, picks, rolls);
        forall k | 0 <= k < gui.Length && k != guiSlot
          ensures gui[k] == if k in done then Placed(orig[k], MarketView(player, k, granted)) else orig[k]
        {
          assert market.GetPlayerAssignedItem(player, k) == old(market.GetPlayerAssignedItem(player, k));
        }
      }
    }

    /** One turn of `populateMarketItems`: the slot's allocation, then its view. */
    method PopulateSlot(gui: array<View>, player: PlayerId, guiSlot: int, granted: set<string>,
                        picks: nat -> real, rolls: nat -> real)
      requires 0 <= guiSlot < gui.Length && guiSlot in market.config.marketSlotToYmlKey
      modifies gui, market`playerAssignedItems
      ensures gui[guiSlot] == Placed(old(gui[guiSlot]), MarketView(player, guiSlot, granted))
      ensures forall k :: 0 <= k < gui.Length && k != guiSlot ==> gui[k] == old(gui[k])
      ensures forall s :: s != guiSlot ==> market.GetPlayerAssignedItem(player, s) == old(market.GetPlayerAssignedItem(player, s))
      ensures market.playerAssignedItems == AssignedForSlot(old(market.playerAssignedItems), market.globalAssignedItems,
                                                            market.itemManager.allPossibleItems, player, guiSlot, picks, rolls)
    {
      var assignedItem := market.GetOrAssignPlayerItemForSlot(player, guiSlot, market.config.marketSlotToYmlKey[guiSlot], picks, rolls);
      ShowSlot(gui, player, guiSlot, granted, assignedItem);
    }

    /** The decision of `populateMarketItems` for a slot whose allocation is `assignedItem`. */
    method ShowSlot(gui: array<View>, player: PlayerId, guiSlot: int, granted: set<string>, assignedItem: Option<PlayerMarketItem>)
      requires 0 <= guiSlot < gui.Length
      modifies gui
      ensures gui[..] == old(gui[..])[guiSlot := Placed(old(gui[guiSlot]), ViewFor(player, guiSlot, granted, assignedItem))]
    {
      if assignedItem.None? {
        if !IsRevealed(market.playerRevealedSlots, player, guiSlot) {
          gui[guiSlot] := Placeholder;
        }
        return;
      }
      var item := assignedItem.value;
      if !IsRevealed(market.playerRevealedSlots, player, guiSlot) {
        gui[guiSlot] := Placeholder;
      } else if !HasPermission(item.baseItem, granted) {
        gui[guiSlot] := DeniedView(item);
      } else if market.config.stockMode == GLOBAL && RemainingStock(market.globalItemStock, item.baseItem.key) == 0 {
        gui[guiSlot] := OutOfStockItem;
      } else if LimitMet(market.config.stockMode, market.playerPurchasedItemKeys, market.playerPurchaseCounts, player, item.baseItem) {
        gui[guiSlot] := PurchasedItem;
      } else {
        gui[guiSlot] := DisplayItem(item, DisplayLore(Some(player), item));
      }
    }

    /**
     * `revealItem`: with an allocation for the slot and the player looking
     * at the window, the slot is marked revealed and shows the item, or the
     * permission-denied display. Stock and purchase state are not consulted.
     */
    method RevealItem(player: PlayerId, clickedGuiSlot: int, viewing: bool, granted: set<string>, top: array<View>)
      requires 0 <= clickedGuiSlot < top.Length
      modifies market`playerRevealedSlots, top
      ensures var a := old(market.GetPlayerAssignedItem(player, clickedGuiSlot));
        if a.Some? && viewing then
          && market.playerRevealedSlots == MarkedRevealed(old(market.playerRevealedSlots), player, clickedGuiSlot)
          && top[..] == old(top[..])[clickedGuiSlot := if HasPermission(a.value.baseItem, granted) then DisplayItem(a.value, DisplayLore(Some(player), a.value)) else DeniedView(a.value)]
        else market.playerRevealedSlots == old(market.playerRevealedSlots) && top[..] == old(top[..])
    {
      var itemToReveal := market.GetPlayerAssignedItem(player, clickedGuiSlot);
      if itemToReveal.Some? && viewing {
        market.MarkSlotAsRevealed(player, clickedGuiSlot);
        var display;
        if !HasPermission(itemToReveal.value.baseItem, granted) {
          display := DeniedView(itemToReveal.value);
        } else {
          display := DisplayItem(itemToReveal.value, DisplayLore(Some(player), itemToReveal.value));
        }
        top[clickedGuiSlot] := display;
      }
    }

    /** The configured confirmation menu can be built. */
    predicate MenuBuilds()
      reads market.config`confirmationMenuRows, market.config`confirmationMenuItemDisplaySlot,
            market.config`confirmationMenuConfirmButton, market.config`confirmationMenuCancelButton
    {
      ConfirmationMenuBuilds(market.config.confirmationMenuRows, market.config.confirmationMenuItemDisplaySlot,
                             market.config.confirmationMenuConfirmButton, market.config.confirmationMenuCancelButton)
    }

    /**
     * `openConfirmationGUI`: when the configured menu can be built, the slot
     * is remembered for the player; otherwise the Bukkit call throws first
     * and nothing is recorded. The menu's contents are not modelled.
     */
    method OpenConfirmationGUI(player: PlayerId, sourceSlot: int) returns (built: bool)
      modifies this`pendingConfirmation
      ensures built == MenuBuilds()
      ensures pendingConfirmation == if built then old(pendingConfirmation)[player := sourceSlot] else old(pendingConfirmation)
    {
      var c := market.config;
      var rows := c.confirmationMenuRows;
      if rows < 1 || rows > 6 {
        return false;
      }
      var size := rows * 9;
      if c.confirmationMenuItemDisplaySlot < 0 || c.confirmationMenuItemDisplaySlot >= size {
        return false;
      }
      if !ButtonFits(c.confirmationMenuConfirmButton, size) || !ButtonFits(c.confirmationMenuCancelButton, size) {
        return false;
      }
      pendingConfirmation := pendingConfirmation[player := sourceSlot];
      return true;
    }

    /** `getPendingConfirmation().remove(player)`: the pending slot, if any, taken out of the map. */
    method TakePending(player: PlayerId) returns (sourceSlot: Option<int>)
      modifies this`pendingConfirmation
      ensures sourceSlot == if player in old(pendingConfirmation) then Some(old(pendingConfirmation)[player]) else None
      ensures pendingConfirmation == old(pendingConfirmation) - {player}
    {
      sourceSlot := if player in pendingConfirmation then Some(pendingConfirmation[player]) else None;
      pendingConfirmation := pendingConfirmation - {player};
    }

    /** `cleanUp`. */
    method CleanUp()
      modifies this`pendingConfirmation
      ensures pendingConfirmation == map[]
    {
      pendingConfirmation := map[];
    }
  }
}
