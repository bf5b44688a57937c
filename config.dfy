/**
 * ConfigManager.java: the settings the market engine reads, with the
 * validation rules applied while loading them (stock-mode fallback, the
 * GUI row clamp, the market-slot filter, the announcement filter and the
 * decorative-item slot rule).
 *
 * The YAML files are not read here: each load method receives the values
 * found in the file as a `Raw...` record, with `None` where a key is absent
 * or has the wrong type (the cases in which Bukkit's getters fall back to
 * their default).
 */
module Config {
  import opened Wrappers
  import opened Text

  datatype StockMode = GLOBAL | PLAYER

  /** `StockMode.valueOf(mode.toUpperCase())`, falling back to GLOBAL when the name is unknown. */
  function ParseStockMode(raw: Option<string>): (m: StockMode)
    ensures m == PLAYER <==> raw.Some? && ToUpper(raw.value) == "PLAYER"
  {
    // the default "GLOBAL" is upper case already
    var name := if raw.Some? then ToUpper(raw.value) else "GLOBAL";
    if name == "PLAYER" then PLAYER else GLOBAL
  }

  /** Any spelling other than a case variant of PLAYER, including a missing key, yields GLOBAL. */
  lemma StockModeFallback(raw: Option<string>)
    ensures raw.Some? && ToUpper(raw.value) == "GLOBAL" ==> ParseStockMode(raw) == GLOBAL
    ensures raw.Some? && ToUpper(raw.value) != "PLAYER" ==> ParseStockMode(raw) == GLOBAL
    ensures raw.None? ==> ParseStockMode(raw) == GLOBAL
    ensures ParseStockMode(Some("player")) == PLAYER && ParseStockMode(Some("Player")) == PLAYER
  {
    assert ToUpper("player") == "PLAYER";
    assert ToUpper("Player") == "PLAYER";
  }

  // ---------------------------------------------------------------- announcements

  datatype Announcement = Announcement(timeBeforeSeconds: int, message: seq<string>)

  /**
   * One map of an announcement list as found in the file: `timeBefore` is the
   * value of `time_before` when it is a Number (None otherwise), `message` the
   * elements of `message` when it is a List (None otherwise).
   */
  datatype RawAnnouncement = RawAnnouncement(timeBefore: Option<real>, message: Option<seq<string>>)

  /** `Number.longValue()` of a floating-point value: truncation toward zero. */
  function TruncateTowardZero(x: real): (n: int)
    ensures x >= 0.0 ==> n as real <= x < n as real + 1.0
    ensures x < 0.0 ==> n as real - 1.0 < x <= n as real
  {
    if x >= 0.0 then x.Floor else -((-x).Floor)
  }

  /** The announcement kept for one entry: time_before defaults to -1, message to the empty list. */
  function ParseAnnouncement(raw: RawAnnouncement): (a: Option<Announcement>)
    ensures a.Some? ==> a.value.timeBeforeSeconds >= 0 && |a.value.message| > 0
  {
    var timeBefore := if raw.timeBefore.Some? then TruncateTowardZero(raw.timeBefore.value) else -1;
    var message := raw.message.GetOr([]);
    if timeBefore >= 0 && |message| > 0 then Some(Announcement(timeBefore, message)) else None
  }

  /**
   * An entry is kept exactly when time_before is a number above -1 (it is
   * truncated, so -0.5 is kept as 0) and the message is a non-empty list.
   */
  lemma {:induction false} AnnouncementFilter(raw: RawAnnouncement)
    ensures ParseAnnouncement(raw).Some? <==>
      raw.timeBefore.Some? && raw.timeBefore.value > -1.0 && raw.message.Some? && |raw.message.value| > 0
    ensures ParseAnnouncement(raw).Some? ==>
      ParseAnnouncement(raw).value.message == raw.message.value &&
      ParseAnnouncement(raw).value.timeBeforeSeconds as real <= if raw.timeBefore.value >= 0.0 then raw.timeBefore.value else 0.0
  {
    if raw.timeBefore.Some? {
      var x := raw.timeBefore.value;
      var n := TruncateTowardZero(x);
      if x < 0.0 && x > -1.0 {
        assert n == 0;
      }
    }
  }

  /** The list `loadAnnouncements` builds from one source list, in order. */
  function KeptAnnouncements(raws: seq<RawAnnouncement>): (kept: seq<Announcement>)
    ensures |kept| <= |raws|
    ensures forall i :: 0 <= i < |kept| ==> kept[i].timeBeforeSeconds >= 0 && |kept[i].message| > 0
    decreases |raws|
  {
    if raws == [] then []
    else
      var front := KeptAnnouncements(raws[..|raws| - 1]);
      match ParseAnnouncement(raws[|raws| - 1])
      case Some(a) => front + [a]
      case None => front
  }

  /** An announcement is kept exactly when some source entry parses to it. */
  lemma {:induction false} KeptAnnouncementsMembers(raws: seq<RawAnnouncement>, a: Announcement)
    ensures a in KeptAnnouncements(raws) <==> exists raw | raw in raws :: ParseAnnouncement(raw) == Some(a)
    decreases |raws|
  {
    if raws != [] {
      var n := |raws|;
      KeptAnnouncementsMembers(raws[..n - 1], a);
      assert raws == raws[..n - 1] + [raws[n - 1]];
      if a in KeptAnnouncements(raws) && a !in KeptAnnouncements(raws[..n - 1]) {
        assert ParseAnnouncement(raws[n - 1]) == Some(a);
      }
    }
  }

  lemma KeptStep(raws: seq<RawAnnouncement>, i: nat)
    requires i < |raws|
    ensures KeptAnnouncements(raws[..i + 1]) ==
      match ParseAnnouncement(raws[i])
      case Some(a) => KeptAnnouncements(raws[..i]) + [a]
      case None => KeptAnnouncements(raws[..i])
  {
    assert raws[..i + 1][..i] == raws[..i];
  }

  /** The `market_schedule.announcements` section; `getMapList` of an absent list is empty. */
  datatype AnnouncementsSection = AnnouncementsSection(beforeOpen: seq<RawAnnouncement>, beforeClose: seq<RawAnnouncement>)

  // ---------------------------------------------------------------- GUI layout

  /** `rows`, defaulting to 3, with any value outside 1..6 replaced by 3. */
  function ClampRows(raw: Option<int>): (rows: int)
    ensures 1 <= rows <= 6
    ensures raw.Some? && 1 <= raw.value <= 6 ==> rows == raw.value
    ensures raw.None? || raw.value < 1 || raw.value > 6 ==> rows == 3
  {
    var rows := raw.GetOr(3);
    if rows < 1 || rows > 6 then 3 else rows
  }

  /** One key of `market_item_slots`: the slot (-1 when absent) and the item-source key. */
  datatype RawSlotEntry = RawSlotEntry(inventorySlot: int, sourceKey: Option<string>)

  /** The filter applied to each market-slot entry. */
  predicate KeepSlot(e: RawSlotEntry, rows: int) {
    0 <= e.inventorySlot < rows * 9 && e.sourceKey.Some? && e.sourceKey.value != ""
  }

  /** The slot-to-key map the loop builds; a later entry for the same slot replaces an earlier one. */
  function SlotMapping(entries: seq<RawSlotEntry>, rows: int): (m: map<int, string>)
    ensures forall k | k in m :: 0 <= k < rows * 9 && m[k] != ""
    decreases |entries|
  {
    if entries == [] then map[]
    else
      var front := SlotMapping(entries[..|entries| - 1], rows);
      var e := entries[|entries| - 1];
      if KeepSlot(e, rows) then front[e.inventorySlot := e.sourceKey.value] else front
  }

  lemma SlotStep(entries: seq<RawSlotEntry>, rows: int, i: nat)
    requires i < |entries|
    ensures SlotMapping(entries[..i + 1], rows) ==
      if KeepSlot(entries[i], rows) then SlotMapping(entries[..i], rows)[entries[i].inventorySlot := entries[i].sourceKey.value]
      else SlotMapping(entries[..i], rows)
  {
    assert entries[..i + 1][..i] == entries[..i];
  }

  /**
   * A slot is mapped exactly when some entry passing the filter names it, and
   * it maps to the key of the last such entry.
   */
  lemma {:induction false} SlotMappingLastWins(entries: seq<RawSlotEntry>, rows: int, i: nat)
    requires i < |entries| && KeepSlot(entries[i], rows)
    requires forall j :: i < j < |entries| ==> !KeepSlot(entries[j], rows) || entries[j].inventorySlot != entries[i].inventorySlot
    ensures entries[i].inventorySlot in SlotMapping(entries, rows)
    ensures SlotMapping(entries, rows)[entries[i].inventorySlot] == entries[i].sourceKey.value
    decreases |entries|
  {
    var n := |entries|;
    if i < n - 1 {
      var front := entries[..n - 1];
      assert forall j :: i < j < |front| ==> front[j] == entries[j];
      SlotMappingLastWins(front, rows, i);
    }
  }

  lemma {:induction false} SlotMappingDomain(entries: seq<RawSlotEntry>, rows: int, k: int)
    ensures k in SlotMapping(entries, rows) <==>
      exists i :: 0 <= i < |entries| && KeepSlot(entries[i], rows) && entries[i].inventorySlot == k
    decreases |entries|
  {
    if entries != [] {
      var n := |entries|;
      var front := entries[..n - 1];
      SlotMappingDomain(front, rows, k);
      assert forall i :: 0 <= i < n - 1 ==> front[i] == entries[i];
    }
  }

  datatype DecorativeItemConfig = DecorativeItemConfig(
    material: string,
    name: string,
    lore: seq<string>,
    slots: seq<int>,
    customModelData: int)

  /**
   * One decorative entry as found in the file. `slots` is `getIntegerList`
   * of `slots` (empty when absent); `slot` is `slot` when it is an int.
   */
  datatype RawDecorative = RawDecorative(
    material: Option<string>,
    name: Option<string>,
    lore: seq<string>,
    customModelData: Option<int>,
    slots: seq<int>,
    slot: Option<int>)

  /** The upper-cased material name, or STONE (already upper case) when there is none. */
  function MaterialName(raw: Option<string>): string {
    if raw.Some? then ToUpper(raw.value) else "STONE"
  }

  /**
   * `loadDecorativeItem`: the material (default STONE, upper-cased) must be a
   * known one; the single `slot` is used only when `slots` is empty; an entry
   * left with no slot is dropped.
   */

  function LoadDecorativeItem(raw: RawDecorative, materials: set<string>): (r: Option<DecorativeItemConfig>)
    ensures r.Some? <==> MaterialName(raw.material) in materials && (|raw.slots| > 0 || raw.slot.Some?)
    ensures r.Some? ==> |r.value.slots| > 0
    ensures r.Some? ==> r.value.slots == if |raw.slots| > 0 then raw.slots else [raw.slot.value]
    ensures r.Some? ==> r.value.material in materials
  {
    var material := MaterialName(raw.material);
    if material !in materials then None
    else
      var slots := if |raw.slots| == 0 && raw.slot.Some? then [raw.slot.value] else raw.slots;
      if |slots| > 0 then
        Some(DecorativeItemConfig(material, raw.name.GetOr(" "), raw.lore, slots, raw.customModelData.GetOr(0)))
      else None
  }

  /** The decorative items kept from the section, in order. */
  function LoadedDecorations(raws: seq<RawDecorative>, materials: set<string>): (items: seq<DecorativeItemConfig>)
    ensures |items| <= |raws|
    ensures forall i :: 0 <= i < |items| ==> |items[i].slots| > 0
    decreases |raws|
  {
    if raws == [] then []
    else
      var front := LoadedDecorations(raws[..|raws| - 1], materials);
      match LoadDecorativeItem(raws[|raws| - 1], materials)
      case Some(d) => front + [d]
      case None => front
  }

  lemma DecorationStep(raws: seq<RawDecorative>, materials: set<string>, i: nat)
    requires i < |raws|
    ensures LoadedDecorations(raws[..i + 1], materials) ==
      match LoadDecorativeItem(raws[i], materials)
      case Some(d) => LoadedDecorations(raws[..i], materials) + [d]
      case None => LoadedDecorations(raws[..i], materials)
  {
    assert raws[..i + 1][..i] == raws[..i];
  }

  // ---------------------------------------------------------------- the files

  /** The values of config.yml the market reads. */
  datatype RawGeneralConfig = RawGeneralConfig(
    stockMode: Option<string>,
    openDuration: Option<int>,
    closeDuration: Option<int>,
    globalItemsToShow: Option<int>,
    economyEnabled: Option<bool>,
    economyProvider: Option<string>,
    announcements: Option<AnnouncementsSection>)

  datatype RawConfirmationMenu = RawConfirmationMenu(
    rows: Option<int>,
    itemDisplaySlot: Option<int>,
    confirmButton: RawDecorative,
    cancelButton: RawDecorative,
    fillItem: RawDecorative)

  /** The values of gui.yml the market reads. */
  datatype RawGuiConfig = RawGuiConfig(
    rows: Option<int>,
    marketItemSlots: Option<seq<RawSlotEntry>>,
    decorativeItems: Option<seq<RawDecorative>>,
    confirmationMenu: Option<RawConfirmationMenu>)

  /** The loop over `market_item_slots` in `loadGuiConfig`. */
  method ReadMarketSlots(entries: seq<RawSlotEntry>, rows: int) returns (slotMap: map<int, string>)
    ensures slotMap == SlotMapping(entries, rows)
  {
    slotMap := map[];
    for i := 0 to |entries|
      invariant slotMap == SlotMapping(entries[..i], rows)
    {
      SlotStep(entries, rows, i);
      var e := entries[i];
      if e.inventorySlot >= 0 && e.inventorySlot < rows * 9 && e.sourceKey.Some? && e.sourceKey.value != "" {
        slotMap := slotMap[e.inventorySlot := e.sourceKey.value];
      }
    }
    assert entries[..|entries|] == entries;
  }

  /** The loop over `decorative_items` in `loadGuiConfig`. */
  method ReadDecorativeItems(raws: seq<RawDecorative>, materials: set<string>) returns (decorations: seq<DecorativeItemConfig>)
    ensures decorations == LoadedDecorations(raws, materials)
  {
    decorations := [];
    for i := 0 to |raws|
      invariant decorations == LoadedDecorations(raws[..i], materials)
    {
      DecorationStep(raws, materials, i);
      var item := LoadDecorativeItem(raws[i], materials);
      if item.Some? {
        decorations := decorations + [item.value];
      }
    }
    assert raws[..|raws|] == raws;
  }

  class ConfigManager {
    var stockMode: StockMode
    var openDurationSeconds: int
    var closeDurationSeconds: int
    var numberOfGlobalItemsToShow: int
    var economyEnabled: bool
    var economyProviderName: string
    var beforeOpenAnnouncements: seq<Announcement>
    var beforeCloseAnnouncements: seq<Announcement>
    var guiRows: int
    var marketSlotToYmlKey: map<int, string>
    var decorativeItems: seq<DecorativeItemConfig>
    var confirmationMenuRows: int
    var confirmationMenuItemDisplaySlot: int
    var confirmationMenuConfirmButton: Option<DecorativeItemConfig>
    var confirmationMenuCancelButton: Option<DecorativeItemConfig>
    var confirmationMenuFillItem: Option<DecorativeItemConfig>

    /** Every announcement kept has a non-negative lead time and a message; every slot lies in the GUI. */
    ghost predicate Valid()
      reads this`beforeOpenAnnouncements, this`beforeCloseAnnouncements, this`guiRows, this`marketSlotToYmlKey
    {
      AnnouncementsValid() && LayoutValid()
    }

    ghost predicate AnnouncementsValid()
      reads this`beforeOpenAnnouncements, this`beforeCloseAnnouncements
    {
      && (forall i :: 0 <= i < |beforeOpenAnnouncements| ==> beforeOpenAnnouncements[i].timeBeforeSeconds >= 0)
      && (forall i :: 0 <= i < |beforeCloseAnnouncements| ==> beforeCloseAnnouncements[i].timeBeforeSeconds >= 0)
    }

    ghost predicate LayoutValid()
      reads this`guiRows, this`marketSlotToYmlKey
    {
      && 1 <= guiRows <= 6
      && (forall k | k in marketSlotToYmlKey :: 0 <= k < guiRows * 9 && marketSlotToYmlKey[k] != "")
    }

    /** The settings `loadGeneralConfig` reads from config.yml: each value, or its default. */
    ghost predicate GeneralLoaded(general: RawGeneralConfig)
      reads this`stockMode, this`openDurationSeconds, this`closeDurationSeconds
      reads this`numberOfGlobalItemsToShow, this`economyEnabled, this`economyProviderName
      reads this`beforeOpenAnnouncements, this`beforeCloseAnnouncements
    {
      && stockMode == ParseStockMode(general.stockMode)
      && openDurationSeconds == general.openDuration.GetOr(604800)
      && closeDurationSeconds == general.closeDuration.GetOr(259200)
      && numberOfGlobalItemsToShow == general.globalItemsToShow.GetOr(1)
      && economyEnabled == general.economyEnabled.GetOr(true)
      && economyProviderName == general.economyProvider.GetOr("VAULT")
      && (general.announcements.None? ==> beforeOpenAnnouncements == [] && beforeCloseAnnouncements == [])
      && (general.announcements.Some? ==>
            && beforeOpenAnnouncements == KeptAnnouncements(general.announcements.value.beforeOpen)
            && beforeCloseAnnouncements == KeptAnnouncements(general.announcements.value.beforeClose))
    }

    /**
     * The settings `loadGuiConfig` reads from gui.yml: the clamped rows, the
     * filtered slot map, the decorative items and, when its section exists,
     * the confirmation menu.
     */
    ghost predicate GuiLoaded(gui: RawGuiConfig, materials: set<string>)
      reads this`guiRows, this`marketSlotToYmlKey, this`decorativeItems
      reads this`confirmationMenuRows, this`confirmationMenuItemDisplaySlot
      reads this`confirmationMenuConfirmButton, this`confirmationMenuCancelButton, this`confirmationMenuFillItem
    {
      && guiRows == ClampRows(gui.rows)
      && marketSlotToYmlKey == (if gui.marketItemSlots.None? then map[] else SlotMapping(gui.marketItemSlots.value, guiRows))
      && decorativeItems == (if gui.decorativeItems.None? then [] else LoadedDecorations(gui.decorativeItems.value, materials))
      && (gui.confirmationMenu.Some? ==>
            var c := gui.confirmationMenu.value;
            && confirmationMenuRows == c.rows.GetOr(3)
            && confirmationMenuItemDisplaySlot == c.itemDisplaySlot.GetOr(13)
            && confirmationMenuConfirmButton == LoadDecorativeItem(c.confirmButton, materials)
            && confirmationMenuCancelButton == LoadDecorativeItem(c.cancelButton, materials)
            && confirmationMenuFillItem == LoadDecorativeItem(c.fillItem, materials))
    }

    /**
     * Both loaders run, so every setting is as loaded; without a
     * confirmation section the menu fields keep their initial zero values.
     */
    constructor (general: RawGeneralConfig, gui: RawGuiConfig, materials: set<string>)
      ensures Valid()
      ensures GeneralLoaded(general)
      ensures GuiLoaded(gui, materials)
      ensures gui.confirmationMenu.None? ==>
        confirmationMenuRows == 0 && confirmationMenuItemDisplaySlot == 0 &&
        confirmationMenuConfirmButton.None? && confirmationMenuCancelButton.None? && confirmationMenuFillItem.None?
    {
      confirmationMenuRows, confirmationMenuItemDisplaySlot := 0, 0;
      confirmationMenuConfirmButton, confirmationMenuCancelButton, confirmationMenuFillItem := None, None, None;
      beforeOpenAnnouncements, beforeCloseAnnouncements := [], [];
      guiRows, marketSlotToYmlKey := 3, map[];
      new;
      LoadGeneralConfig(general);
      LoadGuiConfig(gui, materials);
    }

    /** `loadGeneralConfig`: each setting from config.yml, or its default. */
    method LoadGeneralConfig(general: RawGeneralConfig)
      modifies this`stockMode, this`openDurationSeconds, this`closeDurationSeconds
      modifies this`numberOfGlobalItemsToShow, this`economyEnabled, this`economyProviderName
      modifies this`beforeOpenAnnouncements, this`beforeCloseAnnouncements
      ensures GeneralLoaded(general)
      ensures AnnouncementsValid()
    {
      stockMode := ParseStockMode(general.stockMode);
      openDurationSeconds := general.openDuration.GetOr(604800);
      closeDurationSeconds := general.closeDuration.GetOr(259200);
      economyEnabled := general.economyEnabled.GetOr(true);
      economyProviderName := general.economyProvider.GetOr("VAULT");
      numberOfGlobalItemsToShow := general.globalItemsToShow.GetOr(1);
      LoadAnnouncements(general.announcements);
    }

    /** `loadAnnouncements`: both lists emptied, then refilled from the section when it exists. */
    method LoadAnnouncements(section: Option<AnnouncementsSection>)
      modifies this`beforeOpenAnnouncements, this`beforeCloseAnnouncements
      ensures section.None? ==> beforeOpenAnnouncements == [] && beforeCloseAnnouncements == []
      ensures section.Some? ==>
        beforeOpenAnnouncements == KeptAnnouncements(section.value.beforeOpen) &&
        beforeCloseAnnouncements == KeptAnnouncements(section.value.beforeClose)
    {
      beforeOpenAnnouncements := [];
      beforeCloseAnnouncements := [];
      if section.None? {
        return;
      }
      var beforeOpenList := section.value.beforeOpen;
      for i := 0 to |beforeOpenList|
        invariant beforeOpenAnnouncements == KeptAnnouncements(beforeOpenList[..i])
        invariant beforeCloseAnnouncements == []
      {
        KeptStep(beforeOpenList, i);
        var a := ParseAnnouncement(beforeOpenList[i]);
        if a.Some? {
          beforeOpenAnnouncements := beforeOpenAnnouncements + [a.value];
        }
      }
      assert beforeOpenList[..|beforeOpenList|] == beforeOpenList;
      var beforeCloseList := section.value.beforeClose;
      for i := 0 to |beforeCloseList|
        invariant beforeOpenAnnouncements == KeptAnnouncements(beforeOpenList)
        invariant beforeCloseAnnouncements == KeptAnnouncements(beforeCloseList[..i])
      {
        KeptStep(beforeCloseList, i);
        var a := ParseAnnouncement(beforeCloseList[i]);
        if a.Some? {
          beforeCloseAnnouncements := beforeCloseAnnouncements + [a.value];
        }
      }
      assert beforeCloseList[..|beforeCloseList|] == beforeCloseList;
    }

    /**
     * `loadGuiConfig`: the row clamp, the filtered slot map, the decorative
     * items, and the confirmation menu (whose fields keep their previous
     * values when the section is missing).
     */
    method LoadGuiConfig(gui: RawGuiConfig, materials: set<string>)
      modifies this`guiRows, this`marketSlotToYmlKey, this`decorativeItems
      modifies this`confirmationMenuRows, this`confirmationMenuItemDisplaySlot
      modifies this`confirmationMenuConfirmButton, this`confirmationMenuCancelButton, this`confirmationMenuFillItem
      ensures GuiLoaded(gui, materials)
      ensures gui.confirmationMenu.None? ==>
        confirmationMenuRows == old(confirmationMenuRows) &&
        confirmationMenuItemDisplaySlot == old(confirmationMenuItemDisplaySlot) &&
        confirmationMenuConfirmButton == old(confirmationMenuConfirmButton) &&
        confirmationMenuCancelButton == old(confirmationMenuCancelButton) &&
        confirmationMenuFillItem == old(confirmationMenuFillItem)
      ensures LayoutValid()
    {
      var rows := ClampRows(gui.rows);
      var slotMap: map<int, string> := map[];
      if gui.marketItemSlots.Some? {
        slotMap := ReadMarketSlots(gui.marketItemSlots.value, rows);
      }
      var decorations: seq<DecorativeItemConfig> := [];
      if gui.decorativeItems.Some? {
        decorations := ReadDecorativeItems(gui.decorativeItems.value, materials);
      }
      guiRows, marketSlotToYmlKey, decorativeItems := rows, slotMap, decorations;
      if gui.confirmationMenu.Some? {
        var c := gui.confirmationMenu.value;
        confirmationMenuRows := c.rows.GetOr(3);
        confirmationMenuItemDisplaySlot := c.itemDisplaySlot.GetOr(13);
        confirmationMenuConfirmButton := LoadDecorativeItem(c.confirmButton, materials);
        confirmationMenuCancelButton := LoadDecorativeItem(c.cancelButton, materials);
        confirmationMenuFillItem := LoadDecorativeItem(c.fillItem, materials);
      }
    }

    /** `getYmlKeyForGuiSlot`: the item-source key mapped to a GUI slot, if any. */
    function YmlKeyForGuiSlot(guiSlot: int): (key: Option<string>)
      reads this
      ensures key.Some? <==> guiSlot in marketSlotToYmlKey
      ensures key.Some? ==> key.value == marketSlotToYmlKey[guiSlot]
    {
      if guiSlot in marketSlotToYmlKey then Some(marketSlotToYmlKey[guiSlot]) else None
    }
  }
}
