/**
 * InventoryClickListener.java: routing clicks in the market window and in
 * the confirmation menu, and the purchase itself, which first checks
 * permission, stock and the purchase limit, then takes payment, and only
 * then touches the stock table and the purchase ledger and saves.
 *
 * Money providers are oracles: `moneyHas` and `moneyWithdrawn` are their
 * answers for the price at hand. Messages, sounds, the success text and the
 * console commands run on purchase are not modelled.
 */
module Click {
  import opened Wrappers
  import opened Items
  import opened Config
  import opened Market
  import opened ItemEconomy
  import opened Gui

  /** How `purchaseItem` ends. */
  datatype Outcome =
    | NothingPending
    | NoAllocation
    | NoPermission
    | NoStock
    | AlreadyPurchased
    | PlayerLimitReached
    | NotEnoughItems
    | NotEnoughMoney
    | PaymentFailed
    | Purchased

  /**
   * The checks before payment: permission, then in GLOBAL stock mode the
   * stock and then the player's earlier purchase, in PLAYER mode only the
   * player's limit.
   */
  function Gate(permitted: bool, mode: StockMode, remaining: int, limitMet: bool): Option<Outcome> {
    if !permitted then Some(NoPermission)
    else if mode == GLOBAL then
      if remaining == 0 then Some(NoStock) else if limitMet then Some(AlreadyPurchased) else None
    else if limitMet then Some(PlayerLimitReached) else None
  }

  /**
   * Payment: an entry with a price list needs the items; a money entry with
   * a positive price and a hooked provider needs the balance and then the
   * withdrawal; anything else is free.
   */
  function Pay(itemPrice: bool, canPayItems: bool, hooked: bool, price: real, moneyHas: bool, moneyWithdrawn: bool): Option<Outcome> {
    if itemPrice then (if !canPayItems then Some(NotEnoughItems) else None)
    else if hooked && price > 0.0 then
      if !moneyHas then Some(NotEnoughMoney) else if !moneyWithdrawn then Some(PaymentFailed) else None
    else None
  }

  /** `purchaseItem` as a function of what it reads. */
  function PurchaseOutcome(pending: bool, allocation: Option<PlayerMarketItem>, gate: Option<Outcome>, pay: Option<Outcome>): Outcome {
    if !pending then NothingPending
    else if allocation.None? then NoAllocation
    else if gate.Some? then gate.value
    else if pay.Some? then pay.value
    else Purchased
  }

  /** A purchase goes through only past every check, each one decided on the state before any change. */
  lemma PurchasedPassesEveryCheck(pending: bool, allocation: Option<PlayerMarketItem>, permitted: bool, mode: StockMode,
                                  remaining: int, limitMet: bool, itemPrice: bool, canPayItems: bool, hooked: bool,
                                  price: real, moneyHas: bool, moneyWithdrawn: bool)
    ensures var o := PurchaseOutcome(pending, allocation, Gate(permitted, mode, remaining, limitMet),
                                     Pay(itemPrice, canPayItems, hooked, price, moneyHas, moneyWithdrawn));
      o == Purchased <==>
        && pending && allocation.Some? && permitted && !limitMet
        && (mode == GLOBAL ==> remaining != 0)
        && (itemPrice ==> canPayItems)
        && (!itemPrice && hooked && price > 0.0 ==> moneyHas && moneyWithdrawn)
  {
  }

  /**
   * In GLOBAL mode an empty stock refuses before the earlier purchase is
   * looked at; in PLAYER mode the stock is never looked at.
   */
  lemma GateOrder(permitted: bool, remaining: int, other: int, limitMet: bool)
    ensures permitted ==> Gate(permitted, GLOBAL, 0, limitMet) == Some(NoStock)
    ensures Gate(permitted, PLAYER, remaining, limitMet) == Gate(permitted, PLAYER, other, limitMet)
    ensures !permitted ==> Gate(permitted, GLOBAL, remaining, limitMet) == Some(NoPermission)
  {
  }

  /** No hooked provider, or a price that is not positive, makes a money entry free. */
  lemma MoneyEntryFree(hooked: bool, price: real, moneyHas: bool, moneyWithdrawn: bool, canPayItems: bool)
    requires !hooked || price <= 0.0
    ensures Pay(false, canPayItems, hooked, price, moneyHas, moneyWithdrawn) == None
  {
  }

  /**
   * An allocated, revealed slot is shown for sale exactly when the checks
   * before payment would let its purchase through.
   */
  lemma ShownIffGatePasses(permitted: bool, mode: StockMode, remaining: int, limitMet: bool)
    ensures (Decide(true, true, permitted, mode == GLOBAL && remaining == 0, limitMet) == Shown) <==>
            Gate(permitted, mode, remaining, limitMet).None?
  {
  }

  /**
   * GLOBAL mode: once a player's purchase of an entry is recorded, trying to
   * buy it again is refused (as sold out, when the stock ran out meanwhile).
   */
  lemma NoSecondPurchaseInGlobalMode(purchased: map<PlayerId, set<string>>, counts: map<PlayerId, map<string, int>>,
                                     player: PlayerId, item: ConfiguredItem, remaining: int)
    ensures Gate(true, GLOBAL, remaining, LimitMet(GLOBAL, RecordedKeys(purchased, player, item.key), counts, player, item)).Some?
  {
  }

  /**
   * PLAYER mode: after as many recorded purchases as the entry's initial
   * stock (when it is limited), the next attempt is refused.
   */
  lemma PlayerModeLimitReached(purchased: map<PlayerId, set<string>>, counts: map<PlayerId, map<string, int>>,
                               player: PlayerId, item: ConfiguredItem, remaining: int)
    requires item.initialStock >= 0
    requires PurchaseCount(counts, player, item.key) == 0
    ensures Gate(true, PLAYER, remaining,
                 LimitMet(PLAYER, purchased, RecordedTimes(counts, player, item.key, item.initialStock), player, item))
            == Some(PlayerLimitReached)
  {
    PlayerLimitAfterPurchases(counts, player, item, item.initialStock);
  }

  /** What a click in the market window leads to. */
  datatype ClickResult =
    | Ignored
    | Reveal
    | PermissionMessage
    | Desync
    | ConfirmationOpened
    | SoldOutMessage
    | AlreadyPurchasedMessage
    | PlayerOutOfStockMessage

  /**
   * `handleNightMarketClick`: clicks outside the window's own slots or on
   * non-market slots are ignored, a placeholder is revealed; for an item,
   * no permission, a desynchronised window (limit met although the item is
   * displayed) or the confirmation menu; a purchased or out-of-stock display
   * explains itself.
   */
  function Route(inWindow: bool, marketSlot: bool, clicked: View, allocation: Option<PlayerMarketItem>,
                 permitted: bool, limitMet: bool, mode: StockMode, remaining: int): ClickResult {
    if !inWindow || !marketSlot then Ignored
    else if clicked == Placeholder then Reveal
    else if allocation.None? then Ignored
    else if !permitted then PermissionMessage
    else if clicked != PurchasedItem && clicked != OutOfStockItem then (if limitMet then Desync else ConfirmationOpened)
    else if mode == GLOBAL then (if remaining == 0 then SoldOutMessage else AlreadyPurchasedMessage)
    else PlayerOutOfStockMessage
  }

  /** Clicking an item the window shows for sale opens the confirmation menu. */
  lemma ClickOnShownItemConfirms(p: PlayerMarketItem, lore: seq<string>, permitted: bool, mode: StockMode, remaining: int, limitMet: bool)
    requires Gate(permitted, mode, remaining, limitMet).None?
    ensures Route(true, true, DisplayItem(p, lore), Some(p), permitted, limitMet, mode, remaining) == ConfirmationOpened
  {
  }

  /** Which handler a click goes to. */
  datatype Target = NotHandled | MarketWindow | ConfirmationMenu

  /** `onInventoryClick`: an empty slot is ignored; the window title picks the handler, the market title first. */
  function Dispatch(clickedEmpty: bool, viewTitle: string, guiTitle: string, confirmationTitle: string): (t: Target)
    ensures clickedEmpty ==> t == NotHandled
    ensures !clickedEmpty && viewTitle == guiTitle ==> t == MarketWindow
    ensures t == ConfirmationMenu ==> viewTitle == confirmationTitle && viewTitle != guiTitle
  {
    if clickedEmpty then NotHandled
    else if viewTitle == guiTitle then MarketWindow
    else if viewTitle == confirmationTitle then ConfirmationMenu
    else NotHandled
  }

  /** A click in the confirmation menu: on the confirm button, the cancel button, or something else. */
  datatype MenuClick = OnConfirm | OnCancel | OnOther

  class InventoryClickListener {
    const market: MarketManager
    const gui: NightMarketGUI
    const itemEcon: ItemEconomyProvider
    /** Whether a money provider was hooked at start-up. */
    const economyHooked: bool

    constructor (market: MarketManager, gui: NightMarketGUI, itemEcon: ItemEconomyProvider, economyHooked: bool)
      ensures this.market == market && this.gui == gui && this.itemEcon == itemEcon && this.economyHooked == economyHooked
    {
      this.market := market;
      this.gui := gui;
      this.itemEcon := itemEcon;
      this.economyHooked := economyHooked;
    }

    /** The checks before payment for an allocation, on the current ledgers. */
    function GateFor(player: PlayerId, granted: set<string>, p: PlayerMarketItem): Option<Outcome>
      reads market, market.config
    {
      Gate(HasPermission(p.baseItem, granted), market.config.stockMode, market.GetRemainingStock(p.baseItem.key),
           market.HasPlayerMetPurchaseLimit(player, p.baseItem))
    }

    /** Payment for an allocation, on the current inventory and the money oracle's answers. */
    function PayFor(p: PlayerMarketItem, inventory: Option<array<Slot>>, moneyHas: bool, moneyWithdrawn: bool): Option<Outcome>
      reads if inventory.Some? then {inventory.value} else {}
    {
      Pay(HasItemPrice(p.baseItem), CanPay(Some(p.baseItem), Contents(inventory)), economyHooked, p.finalPrice, moneyHas, moneyWithdrawn)
    }

    /** The outcome `purchaseItem` reaches from the current state. */
    function Expected(player: PlayerId, granted: set<string>, inventory: Option<array<Slot>>, moneyHas: bool, moneyWithdrawn: bool): Outcome
      reads market, market.config, gui
      reads if inventory.Some? then {inventory.value} else {}
    {
      var pending := player in gui.pendingConfirmation;
      var a := if pending then market.GetPlayerAssignedItem(player, gui.pendingConfirmation[player]) else None;
      PurchaseOutcome(pending, a,
                      if a.Some? then GateFor(player, granted, a.value) else None,
                      if a.Some? then PayFor(a.value, inventory, moneyHas, moneyWithdrawn) else None)
    }

    /** The allocation being bought, when there is one. */
    function PendingAllocation(player: PlayerId): Option<PlayerMarketItem>
      reads market, gui
    {
      if player in gui.pendingConfirmation then market.GetPlayerAssignedItem(player, gui.pendingConfirmation[player]) else None
    }

    /**
     * `purchaseItem`: the pending slot is taken out first. Every refusal
     * returns before the stock table, the ledger and the state file change;
     * a purchase decrements the stock (GLOBAL mode), records the purchase
     * and saves. Items are taken from the inventory only for an entry paid
     * with items that the player can pay. The window is reopened
     * afterwards on every path but the first two; that is not modelled here.
     */
    method PurchaseItem(player: PlayerId, granted: set<string>, inventory: Option<array<Slot>>,
                        moneyHas: bool, moneyWithdrawn: bool, now: int)
      returns (outcome: Outcome)
      modifies gui`pendingConfirmation, itemEcon, market`globalItemStock, market`playerPurchasedItemKeys,
               market`playerPurchaseCounts, market`stateFile
      modifies if inventory.Some? then {inventory.value} else {}
      ensures outcome == old(Expected(player, granted, inventory, moneyHas, moneyWithdrawn))
      ensures gui.pendingConfirmation == old(gui.pendingConfirmation) - {player}
      ensures itemEcon.currentItemForTransaction ==
        var a := old(PendingAllocation(player));
        if a.Some? && old(GateFor(player, granted, a.value)).None? && HasItemPrice(a.value.baseItem) then Some(a.value.baseItem)
        else old(itemEcon.currentItemForTransaction)
      ensures outcome != Purchased ==>
        && market.globalItemStock == old(market.globalItemStock)
        && market.playerPurchasedItemKeys == old(market.playerPurchasedItemKeys)
        && market.playerPurchaseCounts == old(market.playerPurchaseCounts)
        && market.stateFile == old(market.stateFile)
      ensures outcome == Purchased ==> var key := old(PendingAllocation(player)).value.baseItem.key;
        && market.globalItemStock == (if market.config.stockMode == GLOBAL then Decremented(old(market.globalItemStock), key) else old(market.globalItemStock))
        && market.playerPurchasedItemKeys == (if market.config.stockMode == GLOBAL then RecordedKeys(old(market.playerPurchasedItemKeys), player, key) else old(market.playerPurchasedItemKeys))
        && market.playerPurchaseCounts == (if market.config.stockMode == GLOBAL then old(market.playerPurchaseCounts) else RecordedCounts(old(market.playerPurchaseCounts), player, key))
        && market.stateFile == Some(SaveRecord(market.State(), now))
      ensures inventory.Some? ==>
        inventory.value[..] == if outcome == Purchased && HasItemPrice(old(PendingAllocation(player)).value.baseItem)
                               then TakeAll(old(inventory.value[..]), old(PendingAllocation(player)).value.baseItem.requiredItems)
                               else old(inventory.value[..])
    {
      var sourceSlot := gui.TakePending(player);
      if sourceSlot.None? {
        return NothingPending;
      }
      var playerMarketItem := market.GetPlayerAssignedItem(player, sourceSlot.value);
      if playerMarketItem.None? {
        return NoAllocation;
      }
      var configuredItem := playerMarketItem.value.baseItem;
      if !HasPermission(configuredItem, granted) {
        return NoPermission;
      }
      if market.config.stockMode == GLOBAL {
        if market.GetRemainingStock(configuredItem.key) == 0 {
          return NoStock;
        }
        if market.HasPlayerMetPurchaseLimit(player, configuredItem) {
          return AlreadyPurchased;
        }
      } else {
        if market.HasPlayerMetPurchaseLimit(player, configuredItem) {
          return PlayerLimitReached;
        }
      }
      var failure := TakePayment(playerMarketItem.value, inventory, moneyHas, moneyWithdrawn);
      if failure.Some? {
        return failure.value;
      }
      RecordPurchase(player, configuredItem.key, now);
      return Purchased;
    }

    /**
     * The payment step of `purchaseItem`: a refusal, or `None` when paid. Only
     * an entry paid with items touches the inventory, and only when it is paid.
     */
    method TakePayment(p: PlayerMarketItem, inventory: Option<array<Slot>>, moneyHas: bool, moneyWithdrawn: bool)
      returns (failure: Option<Outcome>)
      modifies itemEcon
      modifies if inventory.Some? then {inventory.value} else {}
      ensures failure == old(PayFor(p, inventory, moneyHas, moneyWithdrawn))
      ensures itemEcon.currentItemForTransaction ==
        if HasItemPrice(p.baseItem) then Some(p.baseItem) else old(itemEcon.currentItemForTransaction)
      ensures inventory.Some? ==>
        inventory.value[..] == if failure.None? && HasItemPrice(p.baseItem) then TakeAll(old(inventory.value[..]), p.baseItem.requiredItems)
                               else old(inventory.value[..])
    {
      var configuredItem := p.baseItem;
      var transactionSuccess := false;
      if HasItemPrice(configuredItem) {
        itemEcon.SetCurrentItemForTransaction(Some(configuredItem));
        var enough := itemEcon.Has(inventory, 0.0);
        if !enough {
          return Some(NotEnoughItems);
        }
        transactionSuccess := itemEcon.Withdraw(inventory, 0.0);
      } else if economyHooked {
        var price := p.finalPrice;
        if price > 0.0 {
          if !moneyHas {
            return Some(NotEnoughMoney);
          }
          transactionSuccess := moneyWithdrawn;
        } else {
          transactionSuccess := true;
        }
      } else {
        transactionSuccess := true;
      }
      if !transactionSuccess {
        return Some(PaymentFailed);
      }
      return None;
    }

    /** The ledger step of `purchaseItem`: stock (GLOBAL mode), the purchase record, the save. */
    method RecordPurchase(player: PlayerId, key: string, now: int)
      modifies market`globalItemStock, market`playerPurchasedItemKeys, market`playerPurchaseCounts, market`stateFile
      ensures market.globalItemStock == (if market.config.stockMode == GLOBAL then Decremented(old(market.globalItemStock), key) else old(market.globalItemStock))
      ensures market.playerPurchasedItemKeys == (if market.config.stockMode == GLOBAL then RecordedKeys(old(market.playerPurchasedItemKeys), player, key) else old(market.playerPurchasedItemKeys))
      ensures market.playerPurchaseCounts == (if market.config.stockMode == GLOBAL then old(market.playerPurchaseCounts) else RecordedCounts(old(market.playerPurchaseCounts), player, key))
      ensures market.stateFile == Some(SaveRecord(market.State(), now))
    {
      if market.config.stockMode == GLOBAL {
        market.DecrementStock(key);
      }
      market.RecordPlayerPurchase(player, key);
      market.SaveMarketState(now);
    }

    /** The result `handleNightMarketClick` reaches from the current state. */
    function RouteFor(player: PlayerId, clickedSlot: int, windowSize: int, clicked: View, granted: set<string>): ClickResult
      reads market, market.config
    {
      var a := market.GetPlayerAssignedItem(player, clickedSlot);
      Route(clickedSlot < windowSize, clickedSlot in market.config.marketSlotToYmlKey, clicked, a,
            a.Some? && HasPermission(a.value.baseItem, granted),
            a.Some? && market.HasPlayerMetPurchaseLimit(player, a.value.baseItem),
            market.config.stockMode, if a.Some? then market.GetRemainingStock(a.value.baseItem.key) else 0)
    }

    /**
     * `handleNightMarketClick` on the market window `top`: a reveal goes to
     * `revealItem`, a confirmation remembers the slot; nothing else changes
     * state. The window reopened on a desynchronised click is not modelled.
     */
    method HandleNightMarketClick(player: PlayerId, clickedSlot: int, clicked: View, granted: set<string>,
                                  viewing: bool, top: array<View>)
      returns (result: ClickResult)
      requires gui.market == market
      requires forall k | k in market.config.marketSlotToYmlKey :: k >= 0
      modifies market`playerRevealedSlots, top, gui`pendingConfirmation
      ensures result == old(RouteFor(player, clickedSlot, top.Length, clicked, granted))
      ensures result != Reveal ==> market.playerRevealedSlots == old(market.playerRevealedSlots) && top[..] == old(top[..])
      ensures result == Reveal ==> 0 <= clickedSlot < top.Length
      ensures result == Reveal ==>
        var a := old(market.GetPlayerAssignedItem(player, clickedSlot));
        if a.Some? && viewing then
          && market.playerRevealedSlots == MarkedRevealed(old(market.playerRevealedSlots), player, clickedSlot)
          && top[..] == old(top[..])[clickedSlot := if HasPermission(a.value.baseItem, granted) then DisplayItem(a.value, gui.DisplayLore(Some(player), a.value)) else gui.DeniedView(a.value)]
        else market.playerRevealedSlots == old(market.playerRevealedSlots) && top[..] == old(top[..])
      ensures gui.pendingConfirmation ==
        if result == ConfirmationOpened && gui.MenuBuilds() then old(gui.pendingConfirmation)[player := clickedSlot]
        else old(gui.pendingConfirmation)
    {
      if clickedSlot >= top.Length || clickedSlot !in market.config.marketSlotToYmlKey {
        return Ignored;
      }
      if clicked == Placeholder {
        gui.RevealItem(player, clickedSlot, viewing, granted, top);
        return Reveal;
      }
      var assignedItem := market.GetPlayerAssignedItem(player, clickedSlot);
      if assignedItem.None? {
        return Ignored;
      }
      if !HasPermission(assignedItem.value.baseItem, granted) {
        return PermissionMessage;
      }
      if clicked != PurchasedItem && clicked != OutOfStockItem {
        if market.HasPlayerMetPurchaseLimit(player, assignedItem.value.baseItem) {
          return Desync;
        }
        var built := gui.OpenConfirmationGUI(player, clickedSlot);
        return ConfirmationOpened;
      }
      if market.config.stockMode == GLOBAL {
        if market.GetRemainingStock(assignedItem.value.baseItem.key) == 0 {
          return SoldOutMessage;
        }
        return AlreadyPurchasedMessage;
      }
      return PlayerOutOfStockMessage;
    }

    /**
     * `handleConfirmationMenuClick`: confirming buys; cancelling drops the
     * pending slot and reopens the market window, which populates it with
     * the draws `picks` and `rolls`; any other click does nothing.
     */
    method HandleConfirmationMenuClick(player: PlayerId, click: MenuClick, granted: set<string>, inventory: Option<array<Slot>>,
                                       moneyHas: bool, moneyWithdrawn: bool, now: int,
                                       picks: nat -> nat -> real, rolls: nat -> nat -> real)
      returns (outcome: Option<Outcome>, reopened: Option<array<View>>)
      requires gui.market == market
      requires forall k | k in market.config.marketSlotToYmlKey :: k >= 0
      requires market.config.guiRows >= 0
      modifies gui`pendingConfirmation, itemEcon, market`globalItemStock, market`playerPurchasedItemKeys,
               market`playerPurchaseCounts, market`stateFile, market`playerAssignedItems
      modifies if inventory.Some? then {inventory.value} else {}
      ensures click == OnConfirm ==> outcome == Some(old(Expected(player, granted, inventory, moneyHas, moneyWithdrawn)))
      ensures click != OnConfirm ==>
        && outcome.None?
        && market.globalItemStock == old(market.globalItemStock)
        && market.playerPurchasedItemKeys == old(market.playerPurchasedItemKeys)
        && market.playerPurchaseCounts == old(market.playerPurchaseCounts)
        && market.stateFile == old(market.stateFile)
      ensures gui.pendingConfirmation == if click == OnOther then old(gui.pendingConfirmation) else old(gui.pendingConfirmation) - {player}
      ensures click != OnCancel ==> reopened.None? && market.playerAssignedItems == old(market.playerAssignedItems)
      ensures click == OnCancel ==> (reopened.Some? <==> old(market.marketOpen))
      ensures click == OnCancel && reopened.Some? ==>
        && fresh(reopened.value) && reopened.value.Length == market.config.guiRows * 9
        && forall k :: 0 <= k < reopened.value.Length ==>
             reopened.value[k] == if k in market.config.marketSlotToYmlKey then Placed(Untouched, gui.MarketView(player, k, granted)) else Untouched
      ensures click == OnCancel ==>
        market.playerAssignedItems ==
          if old(market.marketOpen) then
            var slots := SlotList(market.config.marketSlotToYmlKey.Keys);
            AssignedThrough(old(market.playerAssignedItems), market.globalAssignedItems, market.itemManager.allPossibleItems,
                            player, slots, market.config.guiRows * 9, |slots|, picks, rolls)
          else old(market.playerAssignedItems)
    {
      reopened := None;
      if click == OnConfirm {
        var o := PurchaseItem(player, granted, inventory, moneyHas, moneyWithdrawn, now);
        return Some(o), None;
      } else if click == OnCancel {
        var _ := gui.TakePending(player);
        reopened := gui.OpenNightMarketGUI(player, granted, picks, rolls);
      }
      return None, reopened;
    }
  }
}
