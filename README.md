# NightMarket in Dafny

A Dafny model of the core of NightMarket, a Minecraft (Bukkit) plugin that
runs a "night market": a shop that opens and closes on a fixed cycle, shows
each player a window of hidden item slots, and sells the revealed items
under a stock and purchase-limit system.

The model covers the market engine and the code that feeds it or applies its
rules, one module per Java class:

- `Market` (MarketManager): the open/closed state machine with its countdown
  tick, the scheduled and forced transitions, the announcement schedule,
  recovery from the saved state file, the global slot selection with its
  shuffle, the lazy per-player slot assignment with its 50-attempt retry, the
  stock table, the two-mode purchase ledger, revealed slots, resets and
  `formatTime`.
- `Items` (ItemManager): the catalog loaded from the items file, the
  cumulative-weight index and the weighted sampler with `higherEntry`
  semantics, key lookup, the permission and item-price predicates, the
  discount roll of a `PlayerMarketItem`, and key-based equality and hash.
- `Config` (ConfigManager): the settings the engine reads and the rules
  applied while loading them (stock-mode fallback, row clamp, market-slot
  filter, announcement filter, decorative-item slot rule).
- `ItemEconomy` (ItemEconomyProvider): paying with items. `has` sums matching
  stacks per price line, and `withdraw` scans an inventory array in place.
- `Api` (APIManager): the registry of custom economy providers, keyed by
  normalised name.
- `Gui` (NightMarketGUI): what each market slot shows, the stock text and
  lore, revealing a slot, and the pending-confirmation map.
- `Click` (InventoryClickListener): click routing and the purchase sequence
  (checks, then payment, then ledger updates and save).
- `Text` and `Wrappers`: string helpers standing in for `java.lang.String`
  (`trim`, ASCII case, `contains`, `replace`, joining, decimal rendering), and
  an `Option` type for Java's `null`.

Classes whose fields the Java code updates in place are Dafny classes:
`MarketManager`, `ItemManager`, `ConfigManager`, `ItemEconomyProvider`,
`ProviderRegistry`, `NightMarketGUI` and `InventoryClickListener`. Their
methods carry `modifies` clauses naming the fields they change. Loops keep
their loop form with invariants, and each looping method is proved equal to a
specification function. The properties are proved about those functions as
lemmas.

External inputs are parameters:
- the clock is `now`, in seconds;
- the random draws are streams `nat -> real`, one draw per `nextDouble()`
  call, plus `nat -> nat` for the bound draws of `Collections.shuffle`;
- the player's permissions are a set of granted nodes;
- money providers are the boolean answers of `has` and `withdraw`;
- an inventory is an array of optional stacks;
- the YAML files are records of the values found in them. The sections of
  the items file are a list in file order whose names are distinct, as the
  keys of a YAML mapping are, and a parsed entry is keyed by its section name.

## Model

| member | source | states |
|---|---|---|
| Items.PermissionRules | src/main/java/me/allync/nightmarket/manager/ItemManager.java:378-384 | no node or an empty node lets everyone buy; otherwise holding the node decides, flipped when the entry inverts it |
| Items.EqualItemsHashAlike | src/main/java/me/allync/nightmarket/manager/ItemManager.java:399-410 | `hashCode` depends on the key alone: any entry with the same key hashes alike, so entries that `equals` calls equal have one hash |
| Items.Wrap32 | src/main/java/me/allync/nightmarket/manager/ItemManager.java:407-410 | the result is a 32-bit `int` congruent to its argument modulo 2^32 (Java `int` overflow) |
| Items.RollAllocation | src/main/java/me/allync/nightmarket/manager/ItemManager.java:304-313 | an allocation keeps its base entry, and an undiscounted allocation costs the base price |
| Items.DiscountRules | src/main/java/me/allync/nightmarket/manager/ItemManager.java:304-313 | the discount applies exactly when the chance is positive and roll·100 is below it; a chance of 100 or more always applies for a roll in [0, 1) |
| Items.DiscountNeverRaisesPrice | src/main/java/me/allync/nightmarket/manager/ItemManager.java:308 | with a percentage in 0..100 and a non-negative price, the final price lies between 0 and the base price |
| Items.FirstWithKey | src/main/java/me/allync/nightmarket/manager/ItemManager.java:286-289 | the result is absent exactly when no entry has the key, and otherwise is the first entry with that key |
| Items.FirstWithKeyOfMember | src/main/java/me/allync/nightmarket/manager/ItemManager.java:286-289 | with unique keys, lookup by an entry's key returns that entry |
| Items.CumulativeMap | src/main/java/me/allync/nightmarket/manager/ItemManager.java:249-255 | the last running total maps to the last entry; an empty list gives an empty map |
| Items.CumulativeValues | src/main/java/me/allync/nightmarket/manager/ItemManager.java:249-255 | every value of the cumulative map is an entry of the list |
| Items.HigherEntryIsLeast | src/main/java/me/allync/nightmarket/manager/ItemManager.java:260-261 | `higherEntry` is absent exactly when no key exceeds the draw, and otherwise is the value under the least key above it |
| Items.PickIsMember | src/main/java/me/allync/nightmarket/manager/ItemManager.java:246-261 | the sampler only returns entries of the list, and returns nothing for an empty list or a zero total |
| Items.PrefixStep | src/main/java/me/allync/nightmarket/manager/ItemManager.java:252-255 | one more loop turn adds the entry's weight to the total and puts the entry under the new total |
| Items.TotalsIncrease | src/main/java/me/allync/nightmarket/manager/ItemManager.java:72-76 | with positive weights, the running totals strictly increase along the list |
| Items.CumulativeKeys | src/main/java/me/allync/nightmarket/manager/ItemManager.java:249-255 | every key of the cumulative map is the running total after some entry |
| Items.CumulativeAt | src/main/java/me/allync/nightmarket/manager/ItemManager.java:153-154 | with positive weights no put overwrites: entry j sits under the total reached after it |
| Items.FirstIndexAbove | src/main/java/me/allync/nightmarket/manager/ItemManager.java:260 | the index found is the first whose running total exceeds the draw |
| Items.FirstAboveIsInterval | src/main/java/me/allync/nightmarket/manager/ItemManager.java:260 | the first index above a draw is that of the interval [total before, total after) holding the draw |
| Items.IndexPicksFirstAbove | src/main/java/me/allync/nightmarket/manager/ItemManager.java:249-261 | upper-bound semantics: for a draw in [0, total), `higherEntry` returns the first entry whose running total is strictly above the draw |
| Items.NoKeyBelowFirstAbove | src/main/java/me/allync/nightmarket/manager/ItemManager.java:260 | no key of the cumulative map lies strictly between the draw and the total of the first index above it |
| Items.BoundaryGoesToNext | src/main/java/me/allync/nightmarket/manager/ItemManager.java:260 | a draw equal to the total before entry i selects entry i, not the one before it |
| Items.PickInInterval | src/main/java/me/allync/nightmarket/manager/ItemManager.java:246-261 | when u·total falls in entry i's interval, the sampler returns entry i |
| Items.PickSucceeds | src/main/java/me/allync/nightmarket/manager/ItemManager.java:246-261 | with positive weights, a non-empty list and a draw in [0, 1), the sampler always returns an entry |
| Items.LoadedItems | src/main/java/me/allync/nightmarket/manager/ItemManager.java:68-76 | the kept catalog has only positive weights and is no longer than the file's entries |
| Items.LoadedMembers | src/main/java/me/allync/nightmarket/manager/ItemManager.java:68-76 | an entry is in the catalog exactly when it parsed and its chance is above 0 |
| Items.LoadedUniqueKeys | src/main/java/me/allync/nightmarket/manager/ItemManager.java:68-151 | sections with distinct names, each entry keyed by its section name, give a catalog in which no key occurs twice |
| Items.ItemManager.LoadItems | src/main/java/me/allync/nightmarket/manager/ItemManager.java:46-160 | the catalog is emptied and rebuilt in file order with no key twice; the running total and the index are the total weight and cumulative map of the catalog; a missing section leaves it empty |
| Items.ItemManager.GetRandomWeightedItemFromList | src/main/java/me/allync/nightmarket/manager/ItemManager.java:246-262 | the loop builds the cumulative map and returns exactly the specified pick `WeightedPick` for the draw |
| Items.ItemManager.FullCatalogPick | src/main/java/me/allync/nightmarket/manager/ItemManager.java:269-274 | sampling the stored index agrees with sampling the list of all entries |
| Items.ItemManager.CatalogIndexShape | src/main/java/me/allync/nightmarket/manager/ItemManager.java:153-154 | the index has one key per entry, strictly increasing in catalog order, with the last key equal to the total weight and the largest |
| Items.ItemManager.GetItemByKey | src/main/java/me/allync/nightmarket/manager/ItemManager.java:286-289 | a null key finds nothing; otherwise the result is an entry with that key, and nothing is found only when no entry has it |
| Config.ParseStockMode | src/main/java/me/allync/nightmarket/manager/ConfigManager.java:94-99 | the mode is PLAYER exactly when the upper-cased setting is "PLAYER" |
| Config.StockModeFallback | src/main/java/me/allync/nightmarket/manager/ConfigManager.java:94-99 | any other setting, or none, falls back to GLOBAL; any casing of "player" gives PLAYER |
| Config.TruncateTowardZero | src/main/java/me/allync/nightmarket/manager/ConfigManager.java:216-219 | `longValue()` truncates toward zero on both signs |
| Config.ParseAnnouncement | src/main/java/me/allync/nightmarket/manager/ConfigManager.java:216-230 | a kept announcement has a non-negative lead time and a non-empty message |
| Config.AnnouncementFilter | src/main/java/me/allync/nightmarket/manager/ConfigManager.java:216-230 | an entry is kept exactly when `time_before` is a number above -1 and `message` is a non-empty list |
| Config.KeptAnnouncements | src/main/java/me/allync/nightmarket/manager/ConfigManager.java:212-235 | every kept announcement has a non-negative lead and a non-empty message, and there are no more of them than source entries |
| Config.KeptAnnouncementsMembers | src/main/java/me/allync/nightmarket/manager/ConfigManager.java:212-235 | an announcement is kept exactly when some source entry parses to it |
| Config.ClampRows | src/main/java/me/allync/nightmarket/manager/ConfigManager.java:271-274 | rows lie in 1..6: an in-range value is kept, a missing or out-of-range one becomes 3 |
| Config.SlotMapping | src/main/java/me/allync/nightmarket/manager/ConfigManager.java:276-286 | every mapped slot lies in 0..rows·9 and maps to a non-empty key |
| Config.SlotMappingLastWins | src/main/java/me/allync/nightmarket/manager/ConfigManager.java:279-285 | a slot named by a kept entry maps to the key of the last kept entry for that slot |
| Config.SlotMappingDomain | src/main/java/me/allync/nightmarket/manager/ConfigManager.java:279-285 | a slot is mapped exactly when some entry that passes the filter names it |
| Config.LoadDecorativeItem | src/main/java/me/allync/nightmarket/manager/ConfigManager.java:310-331 | an item exists exactly when its material is known and it has a slot; the single `slot` is used only when `slots` is empty |
| Config.LoadedDecorations | src/main/java/me/allync/nightmarket/manager/ConfigManager.java:288-297 | every kept decorative item has at least one slot |
| Config.ReadMarketSlots | src/main/java/me/allync/nightmarket/manager/ConfigManager.java:276-286 | the loop builds exactly the filtered slot mapping |
| Config.ReadDecorativeItems | src/main/java/me/allync/nightmarket/manager/ConfigManager.java:288-297 | the loop keeps exactly the loadable decorative items, in order |
| Config.ConfigManager.constructor | src/main/java/me/allync/nightmarket/manager/ConfigManager.java:84-88 | both loaders run: every general and GUI setting is as loaded (`GeneralLoaded`, `GuiLoaded`), every kept announcement and slot is valid, and without a confirmation section the menu fields stay zero and empty |
| Config.ConfigManager.LoadGeneralConfig | src/main/java/me/allync/nightmarket/manager/ConfigManager.java:90-133 | `GeneralLoaded`: each setting is the file's value or its default (GLOBAL fallback, 604800 s open, 259200 s closed, 1 global item, economy on, VAULT), and the announcements are the kept entries; every kept announcement is valid |
| Config.ConfigManager.LoadAnnouncements | src/main/java/me/allync/nightmarket/manager/ConfigManager.java:203-261 | both lists are emptied, and refilled with the kept entries of each list when the section exists |
| Config.ConfigManager.LoadGuiConfig | src/main/java/me/allync/nightmarket/manager/ConfigManager.java:263-308 | `GuiLoaded`: rows clamped, slots filtered, decorative items loaded, and the confirmation menu (rows default 3, display slot default 13, three buttons) read when its section exists; otherwise the menu fields keep their values; every slot lies in the window |
| Config.ConfigManager.YmlKeyForGuiSlot | src/main/java/me/allync/nightmarket/manager/ConfigManager.java:379-380 | a key is found exactly for a mapped slot, and it is the mapped key |
| Market.SlotList | src/main/java/me/allync/nightmarket/manager/MarketManager.java:442 | the configured slots as a list, each exactly once (in an order the model fixes, see Left out) |
| Market.ShufflePermutes | src/main/java/me/allync/nightmarket/manager/MarketManager.java:443 | `Collections.shuffle` keeps the length, the elements and their distinctness |
| Market.RemoveFirstWithKey | src/main/java/me/allync/nightmarket/manager/MarketManager.java:453 | removing by equality drops one entry with the key, and with unique keys no entry with that key is left |
| Market.GlobalCandidates | src/main/java/me/allync/nightmarket/manager/MarketManager.java:434-436 | the candidates are exactly the catalog entries flagged global |
| Market.PersonalPool | src/main/java/me/allync/nightmarket/manager/MarketManager.java:523-525 | the pool is exactly the catalog entries not flagged global |
| Market.SelectionContents | src/main/java/me/allync/nightmarket/manager/MarketManager.java:445-458 | every slot filled is an offered slot holding one of the candidates |
| Market.SelectionSize | src/main/java/me/allync/nightmarket/manager/MarketManager.java:446 | at most the wanted number of entries are placed, and no more than there are slots or candidates |
| Market.SelectionDistinctKeys | src/main/java/me/allync/nightmarket/manager/MarketManager.java:446-458 | with distinct slots and unique keys, no two placed entries share a key |
| Market.GlobalSelectionFacts | src/main/java/me/allync/nightmarket/manager/MarketManager.java:426-463 | no global items for a non-positive count; otherwise at most min(count, global entries, slots), each a global catalog entry under a configured slot; for a catalog with unique keys, no key twice |
| Market.RetryPick | src/main/java/me/allync/nightmarket/manager/MarketManager.java:527-538 | a successful pick is a pool entry whose key is not excluded |
| Market.RetryPickFails | src/main/java/me/allync/nightmarket/manager/MarketManager.java:531-538 | the retry fails exactly when each remaining attempt drew nothing or an excluded key |
| Market.PersonalPickFacts | src/main/java/me/allync/nightmarket/manager/MarketManager.java:517-538 | a personal pick is a non-global catalog entry whose key the player does not already see |
| Market.AssignedKeys | src/main/java/me/allync/nightmarket/manager/MarketManager.java:517-521 | the excluded keys are exactly the keys of the player's own and of the global allocations |
| Market.AssignKeepsOffersDistinct | src/main/java/me/allync/nightmarket/manager/MarketManager.java:540-543 | storing a retried pick keeps every item offered to a player distinct in key from their others and from the globals |
| Market.StockTable | src/main/java/me/allync/nightmarket/manager/MarketManager.java:416-424 | the keys of the stock table are exactly the catalog keys |
| Market.StockTableAt | src/main/java/me/allync/nightmarket/manager/MarketManager.java:420-422 | with unique keys, every entry starts at its own initial stock |
| Market.Decremented | src/main/java/me/allync/nightmarket/manager/MarketManager.java:470-475 | only the key changes, and it loses one unit only when positive; unknown keys, 0 and -1 stay |
| Market.DecrementKeepsSentinels | src/main/java/me/allync/nightmarket/manager/MarketManager.java:472 | repeated decrements never go below 0, and the infinite marker -1 never moves |
| Market.PendingFor | src/main/java/me/allync/nightmarket/manager/MarketManager.java:607-619 | every task has a non-negative delay that is a whole number of seconds in ticks |
| Market.PendingMembers | src/main/java/me/allync/nightmarket/manager/MarketManager.java:607-619 | a task exists for an announcement exactly when its lead is at most the time remaining, and it fires remaining − lead seconds later |
| Market.ComponentsReassemble | src/main/java/me/allync/nightmarket/manager/MarketManager.java:492-495 | days, hours, minutes and seconds reassemble the duration, each below its radix |
| Market.RenderIsJoinedParts | src/main/java/me/allync/nightmarket/manager/MarketManager.java:496-501 | the builder of non-negative components, not all zero, is their non-zero parts joined by single spaces |
| Market.FormatTimeIsJoinedParts | src/main/java/me/allync/nightmarket/manager/MarketManager.java:490-502 | a positive duration prints its non-zero d/h/m/s components in order, with single spaces and no trailing space |
| Market.FormatTimeOfNothing | src/main/java/me/allync/nightmarket/manager/MarketManager.java:491 | every non-positive duration prints as "0s" |
| Market.RecordingPurchases | src/main/java/me/allync/nightmarket/manager/MarketManager.java:563-584 | GLOBAL mode meets the limit right after a purchase; PLAYER mode counts one more and changes no other count; unlimited stock is never exhausted |
| Market.PlayerLimitAfterPurchases | src/main/java/me/allync/nightmarket/manager/MarketManager.java:563-584 | a fresh player meets a limited item's PLAYER-mode limit exactly after its initial stock of purchases |
| Market.RevealingSlots | src/main/java/me/allync/nightmarket/manager/MarketManager.java:477-484 | a marked slot is revealed, and every other player's and slot's status is unchanged |
| Market.Resolve | src/main/java/me/allync/nightmarket/manager/MarketManager.java:87-95 | a restored allocation names the catalog entry of the saved key, with the saved discount flag and price |
| Market.RestoredAllocations | src/main/java/me/allync/nightmarket/manager/MarketManager.java:80-98 | restored allocations are saved ones whose key still resolves |
| Market.CatalogStateResolves | src/main/java/me/allync/nightmarket/manager/MarketManager.java:80-98 | with unique keys, a state whose items all come from the catalog resolves on reload |
| Market.RestoreSavedAllocations | src/main/java/me/allync/nightmarket/manager/MarketManager.java:204-212 | saving then restoring allocations that resolve gives them back unchanged |
| Market.SaveThenRecover | src/main/java/me/allync/nightmarket/manager/MarketManager.java:51-270 | round trip: a record loaded before its countdown runs out gives back the saved state, less empty per-player entries, with the offline time deducted |
| Market.RestoreSavedPlayers | src/main/java/me/allync/nightmarket/manager/MarketManager.java:148-178 | the per-player half of the round trip: non-empty assignments come back unchanged |
| Market.SaveThenRecoverExpired | src/main/java/me/allync/nightmarket/manager/MarketManager.java:63-74 | a record whose countdown ran out while offline flips the market into a fresh cycle with the new period's full countdown and no global items |
| Market.TransitionRecordFlipsOnLoad | src/main/java/me/allync/nightmarket/manager/MarketManager.java:279-292 | a record saved by a scheduled transition holds a countdown ≤ 0, so loading it at any later time flips the market again |
| Market.UpdateLeavesOthers | src/main/java/me/allync/nightmarket/manager/MarketManager.java:510 | updating one player's entry leaves every other player's entry unchanged |
| Market.MarketManager.constructor | src/main/java/me/allync/nightmarket/manager/MarketManager.java:46-49 | a new manager is closed with no countdown, holds nothing, and sees the state file as found |
| Market.MarketManager.SaveMarketState | src/main/java/me/allync/nightmarket/manager/MarketManager.java:195-270 | the file holds the record of the current state, stamped with the current time |
| Market.MarketManager.LoadMarketState | src/main/java/me/allync/nightmarket/manager/MarketManager.java:51-193 | the new state is `Recover` of the old state, the file and the clock; the file is written only when it was missing; announcements are rescheduled |
| Market.MarketManager.ChangeCycleAfterExpiry | src/main/java/me/allync/nightmarket/manager/MarketManager.java:63-74 | an open market closes and a closed one opens, each for a full period, with every ledger cleared and the stock reset |
| Market.MarketManager.RestoreFromRecord | src/main/java/me/allync/nightmarket/manager/MarketManager.java:76-188 | every section of the record is read back, allocations resolved against the catalog, and the stock reset when its section is missing |
| Market.MarketManager.Tick | src/main/java/me/allync/nightmarket/manager/MarketManager.java:278-293 | the countdown drops by one; at ≤ 0 an open market closes (data kept) or a closed one opens a fresh cycle, the new countdown is the period's duration and the announcements are rescheduled; saves on positive multiples of 300 |
| Market.MarketManager.SwitchPeriod | src/main/java/me/allync/nightmarket/manager/MarketManager.java:280-289 | the phase flip of the cycle task, whose save holds the countdown that ran out |
| Market.MarketManager.OpenMarketScheduled | src/main/java/me/allync/nightmarket/manager/MarketManager.java:297-316 | opens with a fresh cycle (ledgers cleared, stock reset, globals reselected) and saves |
| Market.MarketManager.CloseMarketScheduled | src/main/java/me/allync/nightmarket/manager/MarketManager.java:318-334 | closes and saves, clearing nothing |
| Market.MarketManager.ForceOpenMarket | src/main/java/me/allync/nightmarket/manager/MarketManager.java:336-360 | opens for a full open period with a fresh cycle, saves, restarts the cycle task and schedules the before-close announcements |
| Market.MarketManager.OpenForFullPeriod | src/main/java/me/allync/nightmarket/manager/MarketManager.java:336-356 | open, full countdown, fresh cycle, then save |
| Market.MarketManager.RestartCycle | src/main/java/me/allync/nightmarket/manager/MarketManager.java:357-359 | the cycle task runs again and the announcements are rescheduled |
| Market.MarketManager.ForceCloseMarket | src/main/java/me/allync/nightmarket/manager/MarketManager.java:362-383 | closes for a full closed period, keeping the cycle's data, saves, restarts and schedules the before-open announcements |
| Market.MarketManager.StartMarketCycle | src/main/java/me/allync/nightmarket/manager/MarketManager.java:272-276 | the cycle task is scheduled |
| Market.MarketManager.StopMarketCycle | src/main/java/me/allync/nightmarket/manager/MarketManager.java:587-598 | the cycle task and every announcement task are cancelled |
| Market.MarketManager.ScheduleAnnouncements | src/main/java/me/allync/nightmarket/manager/MarketManager.java:600-621 | the previous tasks are cancelled and replaced by exactly the pending tasks of the upcoming phase's announcements |
| Market.MarketManager.ResetPlayerData | src/main/java/me/allync/nightmarket/manager/MarketManager.java:385-392 | the player is removed from all four per-player maps and nothing else changes; then saves |
| Market.MarketManager.RerollMarket | src/main/java/me/allync/nightmarket/manager/MarketManager.java:394-398 | no player changes nothing; otherwise the player's reset |
| Market.MarketManager.ClearAllPlayerData | src/main/java/me/allync/nightmarket/manager/MarketManager.java:400-406 | every per-player map and the global table are emptied |
| Market.MarketManager.ResetAllPlayersData | src/main/java/me/allync/nightmarket/manager/MarketManager.java:408-414 | a fresh cycle in the current phase, then save |
| Market.MarketManager.BeginCycle | src/main/java/me/allync/nightmarket/manager/MarketManager.java:311-313 | ledgers and globals cleared, stock reset, globals reselected |
| Market.MarketManager.ResetGlobalStock | src/main/java/me/allync/nightmarket/manager/MarketManager.java:416-424 | the stock table becomes every catalog key at its initial stock |
| Market.MarketManager.SelectGlobalItemsForCycle | src/main/java/me/allync/nightmarket/manager/MarketManager.java:426-463 | the loop leaves the global table equal to the specified selection (facts in `GlobalSelectionFacts`) |
| Market.MarketManager.CycleSelectionDistinct | src/main/java/me/allync/nightmarket/manager/MarketManager.java:426-463 | over the catalog as loaded, a cycle never puts one entry under two global slots |
| Market.MarketManager.LoadedCatalogRoundTrip | src/main/java/me/allync/nightmarket/manager/MarketManager.java:51-270 | over the catalog as loaded, a saved state whose allocations are catalog entries is restored on reload before its countdown runs out |
| Market.MarketManager.DecrementStock | src/main/java/me/allync/nightmarket/manager/MarketManager.java:470-475 | the new stock table is `Decremented` of the old one |
| Market.MarketManager.MarkSlotAsRevealed | src/main/java/me/allync/nightmarket/manager/MarketManager.java:477-479 | the slot joins the player's revealed set and is revealed afterwards |
| Market.MarketManager.GetOrAssignPlayerItemForSlot | src/main/java/me/allync/nightmarket/manager/MarketManager.java:504-548 | a global slot returns its global item; a cached slot returns the cached item; otherwise the retried pick is rolled and stored under that slot only, or nothing is stored and null is returned; the new allocations are `AssignedForSlot` of the old ones; no other player's map changes |
| Market.AssignedForSlotFacts | src/main/java/me/allync/nightmarket/manager/MarketManager.java:504-548 | one slot's assignment leaves other players alone, keeps the player's allocations, gives a non-global slot an allocation exactly when it had one or the pick succeeds, adds only a non-global catalog entry at that slot, and keeps offers distinct |
| Market.MarketManager.EnsurePlayerMap | src/main/java/me/allync/nightmarket/manager/MarketManager.java:510 | `putIfAbsent` gives the player an empty map if they had none, changing no allocation |
| Market.MarketManager.AssignNewItem | src/main/java/me/allync/nightmarket/manager/MarketManager.java:517-547 | a new allocation is the roll of the retried pick, stored only at the slot |
| Market.MarketManager.DrawUnassigned | src/main/java/me/allync/nightmarket/manager/MarketManager.java:527-538 | the 50-attempt loop returns exactly `RetryPick` from attempt 0 |
| Market.MarketManager.GetPlayerAssignedItem | src/main/java/me/allync/nightmarket/manager/MarketManager.java:551-561 | a global slot gives its global item; nothing is found exactly when neither the globals nor the player's map has the slot |
| Market.MarketManager.RecordPlayerPurchase | src/main/java/me/allync/nightmarket/manager/MarketManager.java:563-570 | GLOBAL mode adds the key to the player's set; PLAYER mode raises the player's count of the key by one (1 when absent) |
| ItemEconomy.MatchingRules | src/main/java/me/allync/nightmarket/economy/provider/ItemEconomyProvider.java:102-124 | an empty slot or another material never matches; a required name demands that name and no required name demands none; lore likewise |
| ItemEconomy.MatchingStep | src/main/java/me/allync/nightmarket/economy/provider/ItemEconomyProvider.java:49-53 | the matching total is the sum over slots of matching amounts |
| ItemEconomy.TakeFrom | src/main/java/me/allync/nightmarket/economy/provider/ItemEconomyProvider.java:69-86 | the scan keeps the inventory's size |
| ItemEconomy.TakeFromTouchesOnlyMatches | src/main/java/me/allync/nightmarket/economy/provider/ItemEconomyProvider.java:71-86 | the scan changes only matching slots at or after where it starts |
| ItemEconomy.TakeFromExact | src/main/java/me/allync/nightmarket/economy/provider/ItemEconomyProvider.java:69-86 | on a well-formed inventory holding enough, the scan lowers the matching total by exactly what is still needed |
| ItemEconomy.SingleLineWithdrawIsExact | src/main/java/me/allync/nightmarket/economy/provider/ItemEconomyProvider.java:68-87 | with one price line that `has` accepts, `withdraw` removes exactly the required amount and touches no non-matching slot |
| ItemEconomy.OverlappingLinesUndercharge | src/main/java/me/allync/nightmarket/economy/provider/ItemEconomyProvider.java:41-90 | two lines met by the same stack both pass `has`, but `withdraw` takes only one diamond for a price of two |
| ItemEconomy.Labels | src/main/java/me/allync/nightmarket/economy/provider/ItemEconomyProvider.java:95-96 | one label per price line, in order |
| ItemEconomy.FormatPriceLines | src/main/java/me/allync/nightmarket/economy/provider/ItemEconomyProvider.java:93-100 | one line reads as its label, each further line follows ", ", and no price list reads "Item" |
| ItemEconomy.ItemEconomyProvider.SetCurrentItemForTransaction | src/main/java/me/allync/nightmarket/economy/provider/ItemEconomyProvider.java:26-28 | the current entry is the one given |
| ItemEconomy.ItemEconomyProvider.Name | src/main/java/me/allync/nightmarket/economy/provider/ItemEconomyProvider.java:30-33 | the provider is named "ITEM" |
| ItemEconomy.ItemEconomyProvider.Has | src/main/java/me/allync/nightmarket/economy/provider/ItemEconomyProvider.java:41-59 | the summing loop answers exactly `CanPay`: online, current entry, non-empty list, every line covered |
| ItemEconomy.ItemEconomyProvider.GetBalance | src/main/java/me/allync/nightmarket/economy/provider/ItemEconomyProvider.java:35-38 | 1 when the price is payable, else 0 |
| ItemEconomy.ItemEconomyProvider.Withdraw | src/main/java/me/allync/nightmarket/economy/provider/ItemEconomyProvider.java:61-90 | refused with nothing changed unless `has` holds; otherwise the inventory becomes each price line taken in turn by the slot scan |
| Api.NormaliseIdempotent | src/main/java/me/allync/nightmarket/api/APIManager.java:57-71 | normalising twice is normalising once, so a stored name finds itself |
| Api.BlankIffNormalEmpty | src/main/java/me/allync/nightmarket/api/APIManager.java:27-32 | a name is blank exactly when its normal form is empty |
| Api.Classify | src/main/java/me/allync/nightmarket/api/APIManager.java:26-48 | a registration is accepted exactly when name and provider are given, the name is not blank, not built in and not taken |
| Api.Lookup | src/main/java/me/allync/nightmarket/api/APIManager.java:57-60 | a provider is found exactly for a given name whose normal form is registered, and it is the one stored there |
| Api.RefusedLeavesRegistry | src/main/java/me/allync/nightmarket/api/APIManager.java:27-44 | a null or blank name, a null provider, a built-in or a taken name leaves the registry, and the first provider under a name, unchanged |
| Api.RegisteredIsFound | src/main/java/me/allync/nightmarket/api/APIManager.java:46-60 | after an accepted registration any spelling with the same normal form finds the provider, other names find what they found before, and null finds nothing |
| Api.RegisterKeepsWellKeyed | src/main/java/me/allync/nightmarket/api/APIManager.java:32-46 | registration keeps every stored name normalised, non-blank and not built in |
| Api.CaseAndPaddingDoNotMatter | src/main/java/me/allync/nightmarket/api/APIManager.java:32-88 | names that differ only in letter case and surrounding padding get the same lookup, the same verdict and the same registry after registering |
| Api.NormalFormDecides | src/main/java/me/allync/nightmarket/api/APIManager.java:32-88 | two names with one normal form get the same lookup, verdict and registry after registering |
| Api.PaddingNormalises | src/main/java/me/allync/nightmarket/api/APIManager.java:39-76 | padding around a name is dropped by `toUpperCase().trim()` |
| Api.PaddedNormal | src/main/java/me/allync/nightmarket/api/APIManager.java:32 | padding around a word is removed by `trim` |
| Api.RegistrationSteps | src/main/java/me/allync/nightmarket/api/APIManager.java:27-46 | each early return of the method leaves the registry unchanged, and reaching the put adds exactly the normal name |
| Api.ProviderRegistry.constructor | src/main/java/me/allync/nightmarket/api/APIManager.java:16 | the registry starts empty |
| Api.ProviderRegistry.RegisterEconomyProvider | src/main/java/me/allync/nightmarket/api/APIManager.java:26-48 | the registry becomes `Registered` of the old one |
| Api.ProviderRegistry.GetProvider | src/main/java/me/allync/nightmarket/api/APIManager.java:57-60 | null for a null name; a result is the provider stored under the normal form, and one is found whenever it is stored |
| Api.ProviderRegistry.CustomIffFound | src/main/java/me/allync/nightmarket/api/APIManager.java:57-71 | `isCustomProvider` holds exactly when `getProvider` finds something |
| Gui.DecideCases | src/main/java/me/allync/nightmarket/gui/NightMarketGUI.java:63-83 | each display is chosen exactly when every earlier case fails and its own case holds: blank, placeholder, denied, out of stock (GLOBAL only), purchased, item |
| Gui.LoreLines | src/main/java/me/allync/nightmarket/gui/NightMarketGUI.java:193-220 | an item-price entry can only lose lines; a money entry keeps one line per lore line |
| Gui.WithoutPricePlaceholder | src/main/java/me/allync/nightmarket/gui/NightMarketGUI.java:197-200 | no kept line names the price placeholder |
| Gui.StockFilled | src/main/java/me/allync/nightmarket/gui/NightMarketGUI.java:217 | each line has its stock placeholder replaced |
| Gui.ItemPriceLore | src/main/java/me/allync/nightmarket/gui/NightMarketGUI.java:196-217 | an item-price entry drops exactly its price-placeholder lines, and the rest get the stock filled in |
| Gui.MoneyLore | src/main/java/me/allync/nightmarket/gui/NightMarketGUI.java:201-217 | a money entry keeps every line, and a price-placeholder line becomes the price line |
| Gui.PlainLineUnchanged | src/main/java/me/allync/nightmarket/gui/NightMarketGUI.java:193-219 | a lore line naming neither placeholder is shown as written |
| Gui.MinusOneText | src/main/java/me/allync/nightmarket/gui/NightMarketGUI.java:188-189 | the decimal text "-1" belongs to -1 alone, and no number renders as "Infinite" |
| Gui.StockTextRules | src/main/java/me/allync/nightmarket/gui/NightMarketGUI.java:177-190 | GLOBAL: -1 shows "Infinite", else the count; PLAYER: unlimited shows "Infinite", else the remaining limit; without a player, the initial stock, with -1 as "Infinite" |
| Gui.OverLimitReadsInfinite | src/main/java/me/allync/nightmarket/gui/NightMarketGUI.java:184-185 | in PLAYER mode a count one past the limit renders the remaining limit of -1 as "Infinite" |
| Gui.TakenAll | src/main/java/me/allync/nightmarket/gui/NightMarketGUI.java:58 | the loop has visited every configured slot once it ends |
| Gui.AssignedThroughFacts | src/main/java/me/allync/nightmarket/gui/NightMarketGUI.java:58-84 | the populate loop changes only the player's allocations, keeps every allocation the player had, adds new ones only at configured non-global slots inside the window, each a non-global catalog entry, and keeps the offers distinct |
| Gui.TurnSteps | src/main/java/me/allync/nightmarket/gui/NightMarketGUI.java:58-84 | one turn of the populate loop leaves other players alone, keeps the player's allocations, adds only at its own slot (a non-global catalog entry there), touches no other slot and keeps the offers distinct |
| Gui.SlotKeepsItsTurn | src/main/java/me/allync/nightmarket/gui/NightMarketGUI.java:58-84 | each configured slot ends the loop with what its own turn assigned it |
| Gui.NightMarketGUI.constructor | src/main/java/me/allync/nightmarket/gui/NightMarketGUI.java:22-26 | nothing is pending confirmation |
| Gui.NightMarketGUI.OpenNightMarketGUI | src/main/java/me/allync/nightmarket/gui/NightMarketGUI.java:28-51 | no window while closed, with nothing assigned; otherwise a fresh window of rows·9 slots, populated, and the player's allocations are those of the populate loop over the whole window |
| Gui.NightMarketGUI.PopulateMarketItems | src/main/java/me/allync/nightmarket/gui/NightMarketGUI.java:53-85 | every market slot inside the window shows the view of the player's allocation over what it showed, other slots are unchanged, and the allocations become `AssignedThrough` of the old ones over all the configured slots |
| Gui.NightMarketGUI.PopulateTurn | src/main/java/me/allync/nightmarket/gui/NightMarketGUI.java:58-84 | one more configured slot is populated and assigned as `getOrAssignPlayerItemForSlot` does, or skipped, with the allocations unchanged, when outside the window |
| Gui.NightMarketGUI.PopulateSlot | src/main/java/me/allync/nightmarket/gui/NightMarketGUI.java:61-83 | the slot gets its allocation as `getOrAssignPlayerItemForSlot` assigns it (created if needed), then the decided view; no other window slot changes |
| Gui.NightMarketGUI.ShowSlot | src/main/java/me/allync/nightmarket/gui/NightMarketGUI.java:63-83 | the slot gets the decided view, and only the slot changes |
| Gui.NightMarketGUI.RevealItem | src/main/java/me/allync/nightmarket/gui/NightMarketGUI.java:136-152 | with an allocation and the player viewing, the slot is marked revealed and shows the item or the denied display; otherwise nothing changes |
| Gui.NightMarketGUI.OpenConfirmationGUI | src/main/java/me/allync/nightmarket/gui/NightMarketGUI.java:102-134 | the source slot is remembered exactly when the configured menu can be built (rows 1..6, display slot and first button slots inside the menu); otherwise nothing is recorded |
| Gui.NoMenuWithoutRows | src/main/java/me/allync/nightmarket/gui/NightMarketGUI.java:102-106 | zero rows, which a missing `confirmation_menu` section leaves, never build a menu |
| Gui.DefaultMenuBuilds | src/main/java/me/allync/nightmarket/gui/NightMarketGUI.java:102-108 | the defaults of a present section (3 rows, display slot 13) build a menu |
| Gui.NightMarketGUI.TakePending | src/main/java/me/allync/nightmarket/gui/NightMarketGUI.java:240-242 | the pending slot, if any, is returned and removed |
| Gui.NightMarketGUI.CleanUp | src/main/java/me/allync/nightmarket/gui/NightMarketGUI.java:244-246 | the pending map is emptied |
| Click.PurchasedPassesEveryCheck | src/main/java/me/allync/nightmarket/listeners/InventoryClickListener.java:109-205 | a purchase goes through exactly when a slot is pending, it has an allocation, permission holds, the limit is not met, GLOBAL-mode stock is not 0, and the required payment is made |
| Click.GateOrder | src/main/java/me/allync/nightmarket/listeners/InventoryClickListener.java:121-144 | no permission refuses first; in GLOBAL mode an empty stock refuses before the earlier purchase is checked; PLAYER mode never reads the stock |
| Click.MoneyEntryFree | src/main/java/me/allync/nightmarket/listeners/InventoryClickListener.java:159-175 | a money entry with no hooked economy or a price ≤ 0 is free |
| Click.ShownIffGatePasses | src/main/java/me/allync/nightmarket/gui/NightMarketGUI.java:71-83 | an allocated, revealed slot is shown for sale exactly when the purchase gate would let it through |
| Click.NoSecondPurchaseInGlobalMode | src/main/java/me/allync/nightmarket/listeners/InventoryClickListener.java:127-137 | after a recorded purchase in GLOBAL mode, buying the same item again is refused |
| Click.PlayerModeLimitReached | src/main/java/me/allync/nightmarket/listeners/InventoryClickListener.java:138-143 | in PLAYER mode, after the initial stock's number of purchases, the next attempt is refused |
| Click.ClickOnShownItemConfirms | src/main/java/me/allync/nightmarket/listeners/InventoryClickListener.java:75-81 | clicking an item the window offers for sale opens the confirmation menu |
| Click.Dispatch | src/main/java/me/allync/nightmarket/listeners/InventoryClickListener.java:32-48 | an empty slot is ignored; the market title goes to the market handler first, the confirmation handler only otherwise |
| Click.InventoryClickListener.constructor | src/main/java/me/allync/nightmarket/listeners/InventoryClickListener.java:27-30 | the listener holds the market, GUI and item provider it is built with |
| Click.InventoryClickListener.PurchaseItem | src/main/java/me/allync/nightmarket/listeners/InventoryClickListener.java:109-205 | the pending slot is always removed; the outcome is the one specified on the state before; every refusal leaves stock, ledgers and file unchanged; a purchase decrements stock (GLOBAL mode), records once and saves; an item-price entry past the gates becomes the transaction item |
| Click.InventoryClickListener.TakePayment | src/main/java/me/allync/nightmarket/listeners/InventoryClickListener.java:146-181 | the payment step reaches the specified result, touches the inventory only for a paid item-price entry, and makes an item-price entry the transaction item |
| Click.InventoryClickListener.RecordPurchase | src/main/java/me/allync/nightmarket/listeners/InventoryClickListener.java:198-203 | GLOBAL mode decrements the stock and records the key; PLAYER mode only counts; then saves |
| Click.InventoryClickListener.HandleNightMarketClick | src/main/java/me/allync/nightmarket/listeners/InventoryClickListener.java:50-93 | the routing reaches the specified result; a reveal of an assigned slot while viewing marks it revealed and shows the item (with its lore) to a permitted player or the denied view otherwise, and changes nothing else; only a confirmation whose menu can be built changes the pending map |
| Click.InventoryClickListener.HandleConfirmationMenuClick | src/main/java/me/allync/nightmarket/listeners/InventoryClickListener.java:95-107 | confirm buys; cancel drops the pending slot and reopens the market window, which exists exactly when the market is open and whose turns assign the allocations; any other click changes nothing |
| Text.IntToString | src/main/java/me/allync/nightmarket/gui/NightMarketGUI.java:180 | `String.valueOf` of an int: a digit string, with a minus sign for negatives |
| Text.TrimDropsPadding | src/main/java/me/allync/nightmarket/api/APIManager.java:32 | `trim` removes leading and trailing padding and only that |
| Text.JoinSnoc | src/main/java/me/allync/nightmarket/economy/provider/ItemEconomyProvider.java:95-97 | joining a list with one more element appends the separator and that element |
| Text.ReplaceAbsent | src/main/java/me/allync/nightmarket/gui/NightMarketGUI.java:217 | `replace` changes nothing in a string without the target |
| Text.ReplaceWhole | src/main/java/me/allync/nightmarket/gui/NightMarketGUI.java:217 | a string that is exactly the target becomes the replacement |

### Behaviour of the code as written

These follow the Java code and are modelled as it behaves, not as the
comments or log messages suggest:

- Recovery that flips a closed market to open leaves it with no global items.
  The flip selects the global items and then clears all player data, and that
  clear also empties the global table (`Market.SaveThenRecoverExpired`,
  `Market.Recover`).
- A scheduled transition saves the state before the new countdown is set, so
  the record holds a countdown of zero or less. Loaded later, such a record
  flips the market again (`Market.TransitionRecordFlipsOnLoad`). Within the
  same tick, a second save with the new countdown happens only when the new
  duration is a positive multiple of 300 seconds.
- `has` checks each price line on its own, while `withdraw` takes the lines
  one after another from the same inventory. Two price lines that the same
  stack satisfies are therefore charged only once
  (`ItemEconomy.OverlappingLinesUndercharge`).
- `revealItem` does not consult the stock or the purchase limit. A revealed
  slot shows the item display even when it is sold out or already bought,
  until the window is rebuilt.
- In PLAYER stock mode, a count one above the limit makes the remaining stock
  -1, which the stock text shows as "Infinite" (`Gui.OverLimitReadsInfinite`).
- `getOrAssignPlayerItemForSlot` receives the slot's configured item-source
  key and never uses it. A personal slot is filled from the whole non-global
  pool.
- The announcement filter truncates `time_before` toward zero before testing
  it against 0, so a value such as -0.5 is kept as 0
  (`Config.AnnouncementFilter`).

## Left out

- YAML reading and writing: files are records of the values they hold, and
  the state file is the abstract record `SavedState`. Parse failures that the
  code catches and logs are entries that read as absent or are skipped.
- The packaged default files, `saveResource`, and the config header read by
  the plugin class are not modelled.
- The Bukkit scheduler: the once-per-second task is the explicit `Tick`
  method, `cycleRunning` stands for the task handle, and a scheduled
  announcement is a `Task` value recording its delay.
- Concurrency: the concurrent maps are sequential maps. The race between the
  stock check and the decrement is outside a sequential model.
- Floating point: weights, prices and discounts are `real`, so rounding of
  `double` arithmetic is not modelled. Price formatting with `%,.0f` is not
  modelled either.
- Randomness: every draw is a parameter. There is no claim about the
  distribution of `java.util.Random`.
- Money providers (Vault, PlayerPoints, TokenManager, CoinsEngine) and
  EconomyManager: only their `has`/`withdraw` answers and whether one is
  hooked enter the purchase.
- Cosmetics: broadcasts, messages, sounds, titles, colour codes, ItemStack and
  ItemMeta construction, and the console commands run on purchase. A window
  slot records which display it got, and for an item the lore it was given.
- The confirmation menu's layout and the decorative items placed in the market
  window (`populateDecorativeItems`, `createMenuItem`) are not modelled. Only
  whether the menu can be built decides `Gui.NightMarketGUI.OpenConfirmationGUI`.
  That rule is Bukkit's: sizes are multiples of 9 from 9 to 54, and `setItem`
  fails outside the inventory. Bukkit itself is not part of this model. When
  building fails, the exception is not modelled beyond nothing being recorded.
  Loading of the decorative item configuration is modelled.
- Click.InventoryClickListener.PurchaseItem: reopening the market window
  after a purchase attempt is not modelled. The outcome is returned instead.
- Click.InventoryClickListener.HandleNightMarketClick: reopening the market
  window after a desynchronised click (the limit is met but the display is
  not the purchased one) is not modelled. Reopening after a cancel in the
  confirmation menu is modelled.
- `Gui.NightMarketGUI.OpenNightMarketGUI`: the closed-market message with the
  formatted time is not modelled; the time text is `Market.FormatTime`.
- `reloadConfigs` is not modelled as one method. It is the two modelled load
  methods followed by `Items.ItemManager.LoadItems`.
- The trivial getters (`isMarketOpen`, `getTimeRemainingSeconds`, the copying
  list getters of ConfigManager) are not modelled. The model's fields are
  values, so a caller cannot change them through a returned copy anyway.
- The reroll item, the price-placeholder formats and the other cosmetic
  settings of the items file are not modelled.
- Admin and glue: NightMarketCommand, the join, interact and placeholder
  listeners, the plugin class and the event classes are not part of this
  model. The events are never fired.
- `Text.ToUpper` upper-cases ASCII letters only. Non-ASCII letters and the
  locale-dependent case mapping of `String.toUpperCase()` are not modelled.
  Provider names come from other plugins and can be any string. Under a
  Turkish locale, for example, "vault" upper-cases to a dotted capital I,
  so it does not match the built-in name.
- `Market.SlotList`: the configured slots are visited in the iteration order
  of a `HashMap` copy, which depends on bucket layout. For example, slots
  10 and 20 in a 4-bucket table come out as [20, 10]. The model fixes the
  order as ascending. The allocations a window assigns follow that order,
  since each turn excludes the keys assigned before it. The properties proved
  about them (`Gui.AssignedThroughFacts`) hold for any order.
- Player identity is an opaque number, so `UUID` parsing errors in the state
  file are among the entries that read as absent.
