/**
 * MarketManager.java: the open/closed cycle, its countdown and announcement
 * schedule, the global and per-player slot allocations, the stock and
 * purchase ledgers, revealed slots, and persistence of all of it.
 *
 * The clock (`now`, in seconds), the random draws and the state file are
 * parameters: `picks(k)` is the k-th `nextDouble()` of the item manager's
 * generator during one call, `rolls(k)` the k-th draw of the market
 * manager's own generator, `shuffleDraws(k)` the k-th `nextInt` bound draw
 * of `Collections.shuffle`. The file is the abstract record `SavedState`.
 */
module Market {
  import opened Wrappers
  import opened Text
  import opened Items
  import opened Config

  /** A player's UUID, as an opaque identifier. */
  type PlayerId = nat

  // ---------------------------------------------------------------- slot order

  predicate NoDup(s: seq<int>) {
    forall i, j :: 0 <= i < j < |s| ==> s[i] != s[j]
  }

  predicate IsLeastInt(s: set<int>, m: int) {
    m in s && forall x | x in s :: m <= x
  }

  lemma {:induction false} LeastIntExists(s: set<int>)
    requires s != {}
    ensures exists m :: IsLeastInt(s, m)
    decreases |s|
  {
    assert (forall x :: x !in s) ==> s == {};
    var x :| x in s;
    var rest := s - {x};
    if rest == {} {
      forall y | y in s ensures x <= y { assert y !in rest; }
      assert IsLeastInt(s, x);
    } else {
      LeastIntExists(rest);
      var y :| IsLeastInt(rest, y);
      var least := if x < y then x else y;
      forall z | z in s ensures least <= z { if z != x { assert z in rest; } }
      assert IsLeastInt(s, least);
    }
  }

  /**
   * `new ArrayList<>(slotMappings.keySet())`: each configured slot once, in
   * the iteration order of the HashMap copy, which the model fixes as
   * ascending.
   */
  function SlotList(keys: set<int>): (r: seq<int>)
    ensures |r| == |keys|
    ensures forall x :: x in r <==> x in keys
    ensures NoDup(r)
    decreases |keys|
  {
    if keys == {} then []
    else
      LeastIntExists(keys);
      var m :| IsLeastInt(keys, m);
      var rest := SlotList(keys - {m});
      assert forall i :: 0 <= i < |rest| ==> rest[i] != m by {
        forall i | 0 <= i < |rest| ensures rest[i] != m { assert rest[i] in rest; }
      }
      [m] + rest
  }

  function Swap(s: seq<int>, i: nat, j: nat): seq<int>
    requires i < |s| && j < |s|
  {
    s[i := s[j]][j := s[i]]
  }

  /**
   * `Collections.shuffle`: for i from the size down to 2, swap position i - 1
   * with `nextInt(i)`; `draws(k)` is the value the k-th `nextInt` call is
   * reduced from.
   */
  function ShuffleDown(s: seq<int>, i: nat, draws: nat -> nat): seq<int>
    requires i <= |s|
    decreases i
  {
    if i <= 1 then s else ShuffleDown(Swap(s, i - 1, draws(|s| - i) % i), i - 1, draws)
  }

  function Shuffled(s: seq<int>, draws: nat -> nat): seq<int> {
    ShuffleDown(s, |s|, draws)
  }

  /** A shuffle keeps the length, the elements and their distinctness. */
  lemma {:induction false} ShufflePermutes(s: seq<int>, i: nat, draws: nat -> nat)
    requires i <= |s|
    ensures |ShuffleDown(s, i, draws)| == |s|
    ensures forall x :: x in ShuffleDown(s, i, draws) <==> x in s
    ensures NoDup(s) ==> NoDup(ShuffleDown(s, i, draws))
    decreases i
  {
    if i > 1 {
      var a, b := i - 1, draws(|s| - i) % i;
      var t := Swap(s, a, b);
      assert forall x :: x in t <==> x in s by {
        forall x ensures x in t <==> x in s {
          if x in s {
            var k :| 0 <= k < |s| && s[k] == x;
            if k == a { assert t[b] == x; } else if k == b { assert t[a] == x; } else { assert t[k] == x; }
          }
        }
      }
      if NoDup(s) {
        forall p, q | 0 <= p < q < |t| ensures t[p] != t[q] {
          var p' := if p == a then b else if p == b then a else p;
          var q' := if q == a then b else if q == b then a else q;
          assert t[p] == s[p'] && t[q] == s[q'];
        }
      }
      ShufflePermutes(t, i - 1, draws);
    }
  }

  // ---------------------------------------------------------------- global selection

  /** `list.remove(item)`: drops the first entry equal to it, and entries are equal by key. */
  function RemoveFirstWithKey(items: seq<ConfiguredItem>, key: string): (r: seq<ConfiguredItem>)
    ensures forall x :: x in r ==> x in items
    ensures (exists i :: 0 <= i < |items| && items[i].key == key) ==> |r| == |items| - 1
    ensures UniqueKeys(items) ==> UniqueKeys(r) && forall x :: x in r ==> x.key != key
  {
    if items == [] then []
    else if items[0].key == key then items[1..]
    else
      var rest := RemoveFirstWithKey(items[1..], key);
      assert forall x :: x in [items[0]] + rest ==> x in items;
      assert UniqueKeys(items) ==> forall x :: x in rest ==> x.key != items[0].key by {
        if UniqueKeys(items) {
          forall x | x in rest ensures x.key != items[0].key {
            var j :| 0 <= j < |items[1..]| && items[1..][j] == x;
            assert items[j + 1] == x;
          }
        }
      }
      assert UniqueKeys(items) ==> UniqueKeys(items[1..]);
      [items[0]] + rest
  }

  /** The candidates for global slots: catalog entries flagged global, in catalog order. */
  function GlobalCandidates(items: seq<ConfiguredItem>): (r: seq<ConfiguredItem>)
    ensures forall x :: x in r <==> x in items && x.isGlobal
    ensures UniqueKeys(items) ==> UniqueKeys(r)
  {
    if items == [] then []
    else
      var rest := GlobalCandidates(items[1..]);
      assert UniqueKeys(items) ==> UniqueKeys(items[1..]);
      assert forall x :: x in items <==> x == items[0] || x in items[1..];
      assert UniqueKeys(items) ==> forall x :: x in rest ==> x.key != items[0].key by {
        if UniqueKeys(items) {
          forall x | x in rest ensures x.key != items[0].key {
            var j :| 0 <= j < |items[1..]| && items[1..][j] == x;
            assert items[j + 1] == x;
          }
        }
      }
      if items[0].isGlobal then [items[0]] + rest else rest
  }

  /** The pool for personal slots: catalog entries not flagged global. */
  function PersonalPool(items: seq<ConfiguredItem>): (r: seq<ConfiguredItem>)
    ensures forall x :: x in r <==> x in items && !x.isGlobal
  {
    if items == [] then []
    else
      var rest := PersonalPool(items[1..]);
      assert forall x :: x in items <==> x == items[0] || x in items[1..];
      if !items[0].isGlobal then [items[0]] + rest else rest
  }

  /**
   * The selection loop of `selectGlobalItemsForCycle`, from a state where
   * `count` entries have been placed in `chosen`: while fewer than `want`
   * have been placed and candidates and slots remain, draw a candidate; stop
   * if none is drawn, otherwise put a freshly rolled allocation of it under
   * the next slot and drop it from the candidates.
   */
  function Selection(chosen: map<int, PlayerMarketItem>, cands: seq<ConfiguredItem>, slots: seq<int>,
                     count: nat, want: int, picks: nat -> real, rolls: nat -> real): map<int, PlayerMarketItem>
    decreases |slots|
  {
    if count < want && |cands| > 0 && |slots| > 0 then
      match WeightedPick(cands, picks(count))
      case None => chosen
      case Some(sel) =>
        Selection(chosen[slots[0] := RollAllocation(sel, rolls(count))], RemoveFirstWithKey(cands, sel.key),
                  slots[1..], count + 1, want, picks, rolls)
    else chosen
  }

  /** Every slot the loop fills is a slot it was offered, holding one of its candidates. */
  lemma {:induction false} SelectionContents(chosen: map<int, PlayerMarketItem>, cands: seq<ConfiguredItem>, slots: seq<int>,
                                             count: nat, want: int, picks: nat -> real, rolls: nat -> real)
    ensures chosen.Keys <= Selection(chosen, cands, slots, count, want, picks, rolls).Keys
    ensures var r := Selection(chosen, cands, slots, count, want, picks, rolls);
      forall s | s in r :: (s in chosen && r[s] == chosen[s]) || (s in slots && r[s].baseItem in cands)
    decreases |slots|
  {
    if count < want && |cands| > 0 && |slots| > 0 {
      PickIsMember(cands, picks(count));
      match WeightedPick(cands, picks(count))
      case None =>
      case Some(sel) =>
        var next := chosen[slots[0] := RollAllocation(sel, rolls(count))];
        var rest := RemoveFirstWithKey(cands, sel.key);
        SelectionContents(next, rest, slots[1..], count + 1, want, picks, rolls);
        var r := Selection(next, rest, slots[1..], count + 1, want, picks, rolls);
        forall s | s in r ensures (s in chosen && r[s] == chosen[s]) || (s in slots && r[s].baseItem in cands) {
          if s in slots[1..] { assert s in slots; }
        }
    }
  }

  /** The loop places at most `want - count` entries, at most one per candidate and one per slot. */
  lemma {:induction false} SelectionSize(chosen: map<int, PlayerMarketItem>, cands: seq<ConfiguredItem>, slots: seq<int>,
                                         count: nat, want: int, picks: nat -> real, rolls: nat -> real)
    ensures var r := Selection(chosen, cands, slots, count, want, picks, rolls);
      && |r| <= |chosen| + |slots|
      && |r| <= |chosen| + |cands|
      && (count >= want ==> r == chosen)
      && (count < want ==> |r| <= |chosen| + (want - count))
    decreases |slots|
  {
    if count < want && |cands| > 0 && |slots| > 0 {
      PickIsMember(cands, picks(count));
      match WeightedPick(cands, picks(count))
      case None =>
      case Some(sel) =>
        var next := chosen[slots[0] := RollAllocation(sel, rolls(count))];
        var k :| 0 <= k < |cands| && cands[k] == sel;
        SelectionSize(next, RemoveFirstWithKey(cands, sel.key), slots[1..], count + 1, want, picks, rolls);
        assert |next| <= |chosen| + 1;
    }
  }

  /**
   * With distinct slots not yet used and unique catalog keys, every placed
   * entry sits under its own slot and no two placed entries share a key.
   */
  lemma {:induction false} SelectionDistinctKeys(chosen: map<int, PlayerMarketItem>, cands: seq<ConfiguredItem>, slots: seq<int>,
                                                 count: nat, want: int, picks: nat -> real, rolls: nat -> real)
    requires UniqueKeys(cands) && NoDup(slots)
    requires forall s | s in chosen :: s !in slots
    requires forall s | s in chosen :: forall c | c in cands :: c.key != chosen[s].baseItem.key
    requires forall s, t | s in chosen && t in chosen && s != t :: chosen[s].baseItem.key != chosen[t].baseItem.key
    ensures var r := Selection(chosen, cands, slots, count, want, picks, rolls);
      forall s, t | s in r && t in r && s != t :: r[s].baseItem.key != r[t].baseItem.key
    decreases |slots|
  {
    if count < want && |cands| > 0 && |slots| > 0 {
      PickIsMember(cands, picks(count));
      match WeightedPick(cands, picks(count))
      case None =>
      case Some(sel) =>
        var pmi := RollAllocation(sel, rolls(count));
        var next := chosen[slots[0] := pmi];
        var rest := RemoveFirstWithKey(cands, sel.key);
        assert forall s | s in next :: s !in slots[1..] by {
          forall s | s in next ensures s !in slots[1..] {
            if s != slots[0] {
              assert s in chosen;
              assert forall x :: x in slots[1..] ==> x in slots;
            }
          }
        }
        assert NoDup(slots[1..]) by {
          forall i, j | 0 <= i < j < |slots[1..]| ensures slots[1..][i] != slots[1..][j] {
            assert slots[1..][i] == slots[i + 1] && slots[1..][j] == slots[j + 1];
          }
        }
        assert sel in cands && pmi.baseItem.key == sel.key;
        assert forall s | s in chosen :: chosen[s].baseItem.key != sel.key;
        assert forall s, t | s in next && t in next && s != t :: next[s].baseItem.key != next[t].baseItem.key by {
          forall s, t | s in next && t in next && s != t ensures next[s].baseItem.key != next[t].baseItem.key {
            if s != slots[0] && t != slots[0] {
              assert next[s] == chosen[s] && next[t] == chosen[t];
            }
          }
        }
        assert forall s | s in next :: forall c | c in rest :: c.key != next[s].baseItem.key;
        SelectionDistinctKeys(next, rest, slots[1..], count + 1, want, picks, rolls);
        assert Selection(chosen, cands, slots, count, want, picks, rolls) == Selection(next, rest, slots[1..], count + 1, want, picks, rolls);
    }
  }

  // ---------------------------------------------------------------- personal assignment

  /** The number of draws `getOrAssignPlayerItemForSlot` makes before giving up. */
  const MaxAttempts: nat := 50

  /**
   * The retry loop of `getOrAssignPlayerItemForSlot` from attempt `attempt`:
   * the first drawn entry whose key is not excluded, or None after the last
   * attempt.
   */
  function RetryPick(pool: seq<ConfiguredItem>, excluded: set<string>, picks: nat -> real, attempt: nat): (r: Option<ConfiguredItem>)
    ensures r.Some? ==> r.value in pool && r.value.key !in excluded
    decreases MaxAttempts - attempt
  {
    if attempt >= MaxAttempts then None
    else
      PickIsMember(pool, picks(attempt));
      var potential := WeightedPick(pool, picks(attempt));
      if potential.Some? && potential.value.key !in excluded then potential
      else RetryPick(pool, excluded, picks, attempt + 1)
  }

  /** The retry fails exactly when each of the remaining attempts drew nothing or an excluded key. */
  lemma {:induction false} RetryPickFails(pool: seq<ConfiguredItem>, excluded: set<string>, picks: nat -> real, attempt: nat)
    ensures RetryPick(pool, excluded, picks, attempt).None? <==>
      forall a :: attempt <= a < MaxAttempts ==>
        WeightedPick(pool, picks(a)).None? || WeightedPick(pool, picks(a)).value.key in excluded
    ensures RetryPick(pool, excluded, picks, attempt).Some? ==>
      exists a :: attempt <= a < MaxAttempts &&
        RetryPick(pool, excluded, picks, attempt) == WeightedPick(pool, picks(a))
    decreases MaxAttempts - attempt
  {
    if attempt < MaxAttempts {
      RetryPickFails(pool, excluded, picks, attempt + 1);
    }
  }

  /** A personal assignment is a non-global catalog entry whose key the player does not already see. */
  lemma PersonalPickFacts(catalog: seq<ConfiguredItem>, excluded: set<string>, picks: nat -> real)
    ensures var r := RetryPick(PersonalPool(catalog), excluded, picks, 0);
      r.Some? ==> r.value in catalog && !r.value.isGlobal && r.value.key !in excluded
  {
  }

  // ---------------------------------------------------------------- ledgers

  /** `resetGlobalStock`: every catalog key with its initial stock; a later entry under the same key wins. */
  function StockTable(items: seq<ConfiguredItem>): (table: map<string, int>)
    ensures forall k :: k in table <==> exists i :: 0 <= i < |items| && items[i].key == k
    decreases |items|
  {
    if items == [] then map[]
    else
      var front := StockTable(items[..|items| - 1]);
      assert forall i :: 0 <= i < |items| - 1 ==> items[..|items| - 1][i] == items[i];
      front[items[|items| - 1].key := items[|items| - 1].initialStock]
  }

  lemma StockTableStep(items: seq<ConfiguredItem>, i: nat)
    requires i < |items|
    ensures StockTable(items[..i + 1]) == StockTable(items[..i])[items[i].key := items[i].initialStock]
  {
    assert items[..i + 1][..i] == items[..i];
  }

  /** With unique keys each catalog entry starts at its own initial stock. */
  lemma {:induction false} StockTableAt(items: seq<ConfiguredItem>, i: nat)
    requires UniqueKeys(items) && i < |items|
    ensures items[i].key in StockTable(items) && StockTable(items)[items[i].key] == items[i].initialStock
    decreases |items|
  {
    var n := |items|;
    if i < n - 1 {
      var front := items[..n - 1];
      assert UniqueKeys(front);
      StockTableAt(front, i);
    }
  }

  /** `decrementStock`: one unit off a positive count; a missing key, 0 and the -1 of infinite stock stay. */
  function Decremented(stock: map<string, int>, key: string): (r: map<string, int>)
    ensures r.Keys == stock.Keys
    ensures forall k | k in stock && k != key :: r[k] == stock[k]
    ensures key in stock ==> r[key] == if stock[key] > 0 then stock[key] - 1 else stock[key]
  {
    if key in stock && stock[key] > 0 then stock[key := stock[key] - 1] else stock
  }

  /** Repeated decrements never take a count below zero, and the infinite marker never moves. */
  lemma DecrementKeepsSentinels(stock: map<string, int>, key: string)
    ensures key in stock && stock[key] >= 0 ==> Decremented(stock, key)[key] >= 0
    ensures key in stock && stock[key] == -1 ==> Decremented(stock, key)[key] == -1
    ensures key in stock && stock[key] > 0 ==> Decremented(stock, key)[key] == stock[key] - 1
  {
  }

  // ---------------------------------------------------------------- announcements

  /** A scheduled broadcast: its delay in server ticks (20 per second) and its lines. */
  datatype Task = Task(delayTicks: int, message: seq<string>)

  /** The tasks `scheduleAnnouncements` creates: one per announcement not yet due, at remaining - lead. */
  function PendingFor(announcements: seq<Announcement>, remaining: int): (tasks: seq<Task>)
    ensures |tasks| <= |announcements|
    ensures forall i :: 0 <= i < |tasks| ==> tasks[i].delayTicks >= 0 && tasks[i].delayTicks % 20 == 0
    decreases |announcements|
  {
    if announcements == [] then []
    else
      var front := PendingFor(announcements[..|announcements| - 1], remaining);
      var a := announcements[|announcements| - 1];
      var delayInSeconds := remaining - a.timeBeforeSeconds;
      if delayInSeconds >= 0 then front + [Task(delayInSeconds * 20, a.message)] else front
  }

  lemma PendingStep(announcements: seq<Announcement>, remaining: int, i: nat)
    requires i < |announcements|
    ensures PendingFor(announcements[..i + 1], remaining) ==
      if remaining - announcements[i].timeBeforeSeconds >= 0
      then PendingFor(announcements[..i], remaining) + [Task((remaining - announcements[i].timeBeforeSeconds) * 20, announcements[i].message)]
      else PendingFor(announcements[..i], remaining)
  {
    assert announcements[..i + 1][..i] == announcements[..i];
  }

  /**
   * A task exists for an announcement exactly when its lead time is at most
   * the time remaining; the task fires `remaining - lead` seconds from now.
   */
  lemma {:induction false} PendingMembers(announcements: seq<Announcement>, remaining: int, t: Task)
    ensures t in PendingFor(announcements, remaining) <==>
      exists a | a in announcements :: a.timeBeforeSeconds <= remaining &&
        t == Task((remaining - a.timeBeforeSeconds) * 20, a.message)
    decreases |announcements|
  {
    if announcements != [] {
      var n := |announcements|;
      PendingMembers(announcements[..n - 1], remaining, t);
      assert announcements == announcements[..n - 1] + [announcements[n - 1]];
    }
  }

  // ---------------------------------------------------------------- time formatting

  /** One non-zero component of a duration, such as "3h". */
  function Part(n: int, unit: string): string {
    IntToString(n) + unit
  }

  /** The day, hour, minute and second components of a positive duration. */
  function Days(t: int): int { t / 86400 }
  function Hours(t: int): int { (t % 86400) / 3600 }
  function Minutes(t: int): int { ((t % 86400) % 3600) / 60 }
  function Seconds(t: int): int { ((t % 86400) % 3600) % 60 }

  /** The components reassemble the duration, and each but the days is below its radix. */
  lemma {:induction false} ComponentsReassemble(t: int)
    requires t > 0
    ensures Days(t) * 86400 + Hours(t) * 3600 + Minutes(t) * 60 + Seconds(t) == t
    ensures 0 <= Hours(t) < 24 && 0 <= Minutes(t) < 60 && 0 <= Seconds(t) < 60 && Days(t) >= 0
  {
    var r1 := t % 86400;
    assert t == Days(t) * 86400 + r1;
    var r2 := r1 % 3600;
    assert r1 == Hours(t) * 3600 + r2;
    assert r2 == Minutes(t) * 60 + Seconds(t);
  }

  /** The components `formatTime` prints for days, hours, minutes and seconds, in order, without separators. */
  function NonZeroParts(d: int, h: int, m: int, s: int): seq<string> {
    LeadParts(d, h, m) + (if s > 0 then [Part(s, "s")] else [])
  }

  /**
   * The StringBuilder of `formatTime`: each non-zero component of days, hours
   * and minutes with a trailing space, then the seconds when non-zero or when
   * nothing precedes them, then trimmed.
   */
  function Render(days: int, hours: int, minutes: int, seconds: int): string {
    var sb := Prefix(days, hours, minutes);
    Trim(if seconds > 0 || |sb| == 0 then sb + Part(seconds, "s") else sb)
  }

  /** `formatTime`: "0s" for a non-positive duration, otherwise its rendered components. */
  function FormatTime(totalSeconds: int): string {
    if totalSeconds <= 0 then "0s"
    else Render(Days(totalSeconds), Hours(totalSeconds), Minutes(totalSeconds), Seconds(totalSeconds))
  }

  /** Each part followed by a space. */
  function Spaced(parts: seq<string>): (s: string)
    ensures parts == [] ==> s == ""
  {
    if parts == [] then "" else parts[0] + " " + Spaced(parts[1..])
  }

  lemma {:induction false} SpacedAppend(a: seq<string>, b: seq<string>)
    ensures Spaced(a + b) == Spaced(a) + Spaced(b)
    decreases |a|
  {
    if a == [] {
      assert a + b == b;
    } else {
      assert (a + b)[1..] == a[1..] + b;
      SpacedAppend(a[1..], b);
    }
  }

  lemma {:induction false} SpacedIsJoinPlusSpace(parts: seq<string>)
    requires |parts| > 0
    ensures Spaced(parts) == Join(parts, " ") + " "
    decreases |parts|
  {
    if |parts| > 1 {
      SpacedIsJoinPlusSpace(parts[1..]);
    } else {
      assert parts[1..] == [];
    }
  }

  /** A word: non-empty, a digit first and a lower-case unit letter last. */
  predicate IsWord(p: string) {
    |p| > 0 && IsDigit(p[0]) && 'a' <= p[|p| - 1] <= 'z'
  }

  /** A joined list of words has nothing to trim. */
  lemma {:induction false} WordsJoinUntrimmed(parts: seq<string>)
    requires |parts| > 0
    requires forall i :: 0 <= i < |parts| ==> IsWord(parts[i])
    ensures IsWord(Join(parts, " "))
    decreases |parts|
  {
    if |parts| > 1 {
      WordsJoinUntrimmed(parts[1..]);
      var rest := Join(parts[1..], " ");
      assert Join(parts, " ") == parts[0] + " " + rest;
    }
  }

  lemma PartIsWord(n: int, unit: string)
    requires n > 0 && |unit| == 1 && 'a' <= unit[0] <= 'z'
    ensures IsWord(Part(n, unit))
  {
  }

  function Prefix(d: int, h: int, m: int): string {
    (if d > 0 then Part(d, "d") + " " else "")
    + (if h > 0 then Part(h, "h") + " " else "")
    + (if m > 0 then Part(m, "m") + " " else "")
  }

  function LeadParts(d: int, h: int, m: int): seq<string> {
    (if d > 0 then [Part(d, "d")] else [])
    + (if h > 0 then [Part(h, "h")] else [])
    + (if m > 0 then [Part(m, "m")] else [])
  }

  lemma PrefixIsSpaced(d: int, h: int, m: int)
    ensures Prefix(d, h, m) == Spaced(LeadParts(d, h, m))
  {
    var dp := if d > 0 then [Part(d, "d")] else [];
    var hp := if h > 0 then [Part(h, "h")] else [];
    var mp := if m > 0 then [Part(m, "m")] else [];
    SpacedAppend(dp, hp);
    SpacedAppend(dp + hp, mp);
  }

  lemma PartsAreWords(d: int, h: int, m: int, s: int)
    ensures var parts := NonZeroParts(d, h, m, s); forall i :: 0 <= i < |parts| ==> IsWord(parts[i])
  {
    if d > 0 { PartIsWord(d, "d"); }
    if h > 0 { PartIsWord(h, "h"); }
    if m > 0 { PartIsWord(m, "m"); }
    if s > 0 { PartIsWord(s, "s"); }
  }

  /** The rendered string of non-negative components, not all zero, is their parts joined by single spaces. */
  lemma RenderIsJoinedParts(d: int, h: int, m: int, s: int)
    requires d >= 0 && h >= 0 && m >= 0 && s >= 0 && (d > 0 || h > 0 || m > 0 || s > 0)
    ensures |NonZeroParts(d, h, m, s)| > 0
    ensures Render(d, h, m, s) == Join(NonZeroParts(d, h, m, s), " ")
  {
    var lead := LeadParts(d, h, m);
    var parts := NonZeroParts(d, h, m, s);
    var sb := Prefix(d, h, m);
    PrefixIsSpaced(d, h, m);
    PartsAreWords(d, h, m, s);
    WordsJoinUntrimmed(parts);
    var joined := Join(parts, " ");
    TrimOfTrimmed(joined);
    if s > 0 {
      assert parts == lead + [Part(s, "s")];
      RenderWithSeconds(lead, Part(s, "s"));
    } else {
      assert parts == lead;
      SpacedIsJoinPlusSpace(lead);
      TrimDropsPadding([], joined, " ");
      assert [] + joined + " " == sb;
    }
  }

  lemma RenderWithSeconds(lead: seq<string>, last: string)
    ensures Spaced(lead) + last == Join(lead + [last], " ")
  {
    if lead == [] {
      assert lead + [last] == [last];
    } else {
      SpacedIsJoinPlusSpace(lead);
      JoinSnoc(lead, last, " ");
    }
  }

  /**
   * `formatTime` of a positive duration lists its non-zero day, hour,
   * minute and second components in that order, separated by single spaces.
   */
  lemma FormatTimeIsJoinedParts(t: int)
    requires t > 0
    ensures var parts := NonZeroParts(Days(t), Hours(t), Minutes(t), Seconds(t));
      |parts| > 0 && FormatTime(t) == Join(parts, " ")
  {
    ComponentsReassemble(t);
    RenderIsJoinedParts(Days(t), Hours(t), Minutes(t), Seconds(t));
  }

  /** A countdown that has run out, or never started, prints as "0s". */
  lemma FormatTimeOfNothing(t: int)
    requires t <= 0
    ensures FormatTime(t) == "0s"
  {
  }

  /**
   * `selectGlobalItemsForCycle` for a catalog, the configured slots, the
   * number of global items to show and the draws: the selection loop over the
   * global candidates and the shuffled slot list.
   */
  function GlobalSelection(catalog: seq<ConfiguredItem>, slotKeys: set<int>, want: int,
                           picks: nat -> real, rolls: nat -> real, shuffleDraws: nat -> nat): map<int, PlayerMarketItem>
  {
    Selection(map[], GlobalCandidates(catalog), Shuffled(SlotList(slotKeys), shuffleDraws), 0, want, picks, rolls)
  }

  /**
   * A cycle's global items: none when the configured count is not positive,
   * at most that many, at most one per configured slot and per global
   * catalog entry, each a global catalog entry under a configured slot, and
   * (for a catalog with unique keys) no item twice.
   */
  lemma GlobalSelectionFacts(catalog: seq<ConfiguredItem>, slotKeys: set<int>, want: int,
                             picks: nat -> real, rolls: nat -> real, shuffleDraws: nat -> nat)
    ensures var g := GlobalSelection(catalog, slotKeys, want, picks, rolls, shuffleDraws);
      && (want <= 0 ==> g == map[])
      && (want > 0 ==> |g| <= want)
      && |g| <= |slotKeys|
      && |g| <= |GlobalCandidates(catalog)|
      && (forall s | s in g :: s in slotKeys && g[s].baseItem in catalog && g[s].baseItem.isGlobal)
      && (UniqueKeys(catalog) ==> forall s, t | s in g && t in g && s != t :: g[s].baseItem.key != g[t].baseItem.key)
  {
    var cands := GlobalCandidates(catalog);
    var list := SlotList(slotKeys);
    var slots := Shuffled(list, shuffleDraws);
    ShufflePermutes(list, |list|, shuffleDraws);
    var g := GlobalSelection(catalog, slotKeys, want, picks, rolls, shuffleDraws);
    SelectionContents(map[], cands, slots, 0, want, picks, rolls);
    SelectionSize(map[], cands, slots, 0, want, picks, rolls);
    if UniqueKeys(catalog) {
      SelectionDistinctKeys(map[], cands, slots, 0, want, picks, rolls);
    }
    if want <= 0 {
      assert g == map[];
    }
  }

  /** The keys a player already sees: their own slots' items and every global item. */
  function AssignedKeys(mine: map<int, PlayerMarketItem>, globals: map<int, PlayerMarketItem>): (keys: set<string>)
    ensures forall s | s in mine :: mine[s].baseItem.key in keys
    ensures forall g | g in globals :: globals[g].baseItem.key in keys
    ensures forall k | k in keys :: (exists s | s in mine :: mine[s].baseItem.key == k) || (exists g | g in globals :: globals[g].baseItem.key == k)
  {
    (set s | s in mine :: mine[s].baseItem.key) + (set g | g in globals :: globals[g].baseItem.key)
  }

  /** No item is offered to a player twice: their own slots differ in key, and from every global slot. */
  predicate OffersDistinct(mine: map<int, PlayerMarketItem>, globals: map<int, PlayerMarketItem>) {
    && (forall s, t | s in mine && t in mine && s != t :: mine[s].baseItem.key != mine[t].baseItem.key)
    && (forall s, g | s in mine && g in globals :: mine[s].baseItem.key != globals[g].baseItem.key)
  }

  /** A retried personal pick never repeats an item the player already sees. */
  lemma AssignKeepsOffersDistinct(mine: map<int, PlayerMarketItem>, globals: map<int, PlayerMarketItem>,
                                  pool: seq<ConfiguredItem>, picks: nat -> real, slot: int, roll: real)
    requires OffersDistinct(mine, globals) && slot !in mine
    requires RetryPick(pool, AssignedKeys(mine, globals), picks, 0).Some?
    ensures OffersDistinct(mine[slot := RollAllocation(RetryPick(pool, AssignedKeys(mine, globals), picks, 0).value, roll)], globals)
  {
    var item := RetryPick(pool, AssignedKeys(mine, globals), picks, 0).value;
    assert item.key !in AssignedKeys(mine, globals);
  }

  /** A player's own allocations, empty when the player has none. */
  function Mine(pa: map<PlayerId, map<int, PlayerMarketItem>>, player: PlayerId): map<int, PlayerMarketItem> {
    if player in pa then pa[player] else map[]
  }

  /**
   * The allocations `getOrAssignPlayerItemForSlot` leaves behind: nothing
   * changes for a global slot; otherwise the player has a (possibly empty)
   * map, and a slot the player does not hold yet gets the roll of the retried
   * pick, when there is one.
   */
  function AssignedForSlot(pa: map<PlayerId, map<int, PlayerMarketItem>>, globals: map<int, PlayerMarketItem>,
                           catalog: seq<ConfiguredItem>, player: PlayerId, guiSlot: int,
                           picks: nat -> real, rolls: nat -> real): map<PlayerId, map<int, PlayerMarketItem>>
  {
    if guiSlot in globals then pa
    else
      var mine := Mine(pa, player);
      var pick := RetryPick(PersonalPool(catalog), AssignedKeys(mine, globals), picks, 0);
      if guiSlot in mine || pick.None? then pa[player := mine]
      else pa[player := mine[guiSlot := RollAllocation(pick.value, rolls(0))]]
  }

  /** One slot's assignment leaves the player's other slots as they were. */
  lemma AssignedForSlotElsewhere(pa: map<PlayerId, map<int, PlayerMarketItem>>, globals: map<int, PlayerMarketItem>,
                                 catalog: seq<ConfiguredItem>, player: PlayerId, guiSlot: int,
                                 picks: nat -> real, rolls: nat -> real, other: int)
    requires other != guiSlot
    ensures var r := Mine(AssignedForSlot(pa, globals, catalog, player, guiSlot, picks, rolls), player);
      && (other in r <==> other in Mine(pa, player))
      && (other in r ==> r[other] == Mine(pa, player)[other])
  {
  }

  /** Every slot of `m` is a slot of `n` with the same allocation. */
  predicate Extends(m: map<int, PlayerMarketItem>, n: map<int, PlayerMarketItem>) {
    forall s | s in m :: s in n && n[s] == m[s]
  }

  lemma ExtendsTransitive(a: map<int, PlayerMarketItem>, b: map<int, PlayerMarketItem>, c: map<int, PlayerMarketItem>)
    requires Extends(a, b) && Extends(b, c)
    ensures Extends(a, c)
  {
  }

  /** One slot's assignment keeps every allocation the player had. */
  lemma AssignedForSlotKeeps(pa: map<PlayerId, map<int, PlayerMarketItem>>, globals: map<int, PlayerMarketItem>,
                             catalog: seq<ConfiguredItem>, player: PlayerId, guiSlot: int,
                             picks: nat -> real, rolls: nat -> real)
    ensures Extends(Mine(pa, player), Mine(AssignedForSlot(pa, globals, catalog, player, guiSlot, picks, rolls), player))
  {
  }

  /** One slot's assignment adds at most a non-global catalog entry at that slot, when it is not global. */
  lemma AssignedForSlotAdds(pa: map<PlayerId, map<int, PlayerMarketItem>>, globals: map<int, PlayerMarketItem>,
                            catalog: seq<ConfiguredItem>, player: PlayerId, guiSlot: int,
                            picks: nat -> real, rolls: nat -> real)
    ensures var r := Mine(AssignedForSlot(pa, globals, catalog, player, guiSlot, picks, rolls), player);
      forall s | s in r && s !in Mine(pa, player) ::
        s == guiSlot && guiSlot !in globals && r[s].baseItem in catalog && !r[s].baseItem.isGlobal
  {
    PersonalPickFacts(catalog, AssignedKeys(Mine(pa, player), globals), picks);
  }

  /** One slot's assignment leaves every other player's allocations alone. */
  lemma AssignedForSlotOthers(pa: map<PlayerId, map<int, PlayerMarketItem>>, globals: map<int, PlayerMarketItem>,
                              catalog: seq<ConfiguredItem>, player: PlayerId, guiSlot: int,
                              picks: nat -> real, rolls: nat -> real)
    ensures AssignedForSlot(pa, globals, catalog, player, guiSlot, picks, rolls) - {player} == pa - {player}
  {
    var mine := Mine(pa, player);
    var pick := RetryPick(PersonalPool(catalog), AssignedKeys(mine, globals), picks, 0);
    if guiSlot !in globals {
      if guiSlot in mine || pick.None? {
        UpdateLeavesOthers(pa, player, mine);
      } else {
        UpdateLeavesOthers(pa, player, mine[guiSlot := RollAllocation(pick.value, rolls(0))]);
      }
    }
  }

  /** One slot's assignment never makes the player's offers repeat an item. */
  lemma AssignedForSlotDistinct(pa: map<PlayerId, map<int, PlayerMarketItem>>, globals: map<int, PlayerMarketItem>,
                                catalog: seq<ConfiguredItem>, player: PlayerId, guiSlot: int,
                                picks: nat -> real, rolls: nat -> real)
    ensures OffersDistinct(Mine(pa, player), globals) ==>
              OffersDistinct(Mine(AssignedForSlot(pa, globals, catalog, player, guiSlot, picks, rolls), player), globals)
  {
    var mine := Mine(pa, player);
    var pool := PersonalPool(catalog);
    var pick := RetryPick(pool, AssignedKeys(mine, globals), picks, 0);
    if guiSlot !in globals && guiSlot !in mine && pick.Some? && OffersDistinct(mine, globals) {
      AssignKeepsOffersDistinct(mine, globals, pool, picks, guiSlot, rolls(0));
    }
  }

  /**
   * One slot's assignment: other players are untouched, the player's
   * allocations are kept, a non-global slot holds an allocation afterwards
   * exactly when it held one or the pick succeeded, a new allocation is a
   * non-global catalog entry at that slot, and offers stay distinct.
   */
  lemma AssignedForSlotFacts(pa: map<PlayerId, map<int, PlayerMarketItem>>, globals: map<int, PlayerMarketItem>,
                             catalog: seq<ConfiguredItem>, player: PlayerId, guiSlot: int,
                             picks: nat -> real, rolls: nat -> real)
    ensures var r := AssignedForSlot(pa, globals, catalog, player, guiSlot, picks, rolls);
      && r - {player} == pa - {player}
      && (forall s | s in Mine(pa, player) :: s in Mine(r, player) && Mine(r, player)[s] == Mine(pa, player)[s])
      && (guiSlot !in globals ==>
            (guiSlot in Mine(r, player) <==>
               (guiSlot in Mine(pa, player) || RetryPick(PersonalPool(catalog), AssignedKeys(Mine(pa, player), globals), picks, 0).Some?)))
      && (forall s | s in Mine(r, player) && s !in Mine(pa, player) ::
            s == guiSlot && guiSlot !in globals &&
            Mine(r, player)[s].baseItem in catalog && !Mine(r, player)[s].baseItem.isGlobal)
      && (OffersDistinct(Mine(pa, player), globals) ==> OffersDistinct(Mine(r, player), globals))
  {
    AssignedForSlotOthers(pa, globals, catalog, player, guiSlot, picks, rolls);
    AssignedForSlotKeeps(pa, globals, catalog, player, guiSlot, picks, rolls);
    AssignedForSlotAdds(pa, globals, catalog, player, guiSlot, picks, rolls);
    AssignedForSlotDistinct(pa, globals, catalog, player, guiSlot, picks, rolls);
  }

  /** `getRemainingStock`: the recorded count, 0 for an unknown key. */
  function RemainingStock(stock: map<string, int>, key: string): int {
    if key in stock then stock[key] else 0
  }

  /** `getPlayerPurchaseCount`: the player's recorded count of a key, 0 when either is unknown. */
  function PurchaseCount(counts: map<PlayerId, map<string, int>>, player: PlayerId, key: string): int {
    if player in counts && key in counts[player] then counts[player][key] else 0
  }

  /** GLOBAL mode of `recordPlayerPurchase`: the key joins the player's set. */
  function RecordedKeys(purchased: map<PlayerId, set<string>>, player: PlayerId, key: string): map<PlayerId, set<string>> {
    purchased[player := (if player in purchased then purchased[player] else {}) + {key}]
  }

  /** PLAYER mode of `recordPlayerPurchase`: the player's count of the key becomes one more (1 when absent). */
  function RecordedCounts(counts: map<PlayerId, map<string, int>>, player: PlayerId, key: string): map<PlayerId, map<string, int>> {
    var mine := if player in counts then counts[player] else map[];
    counts[player := mine[key := if key in mine then mine[key] + 1 else 1]]
  }

  /**
   * `hasPlayerMetPurchaseLimit`: in GLOBAL mode, whether the player bought the
   * key before; in PLAYER mode never for unlimited stock (-1), otherwise
   * whether their count reached the initial stock.
   */
  predicate LimitMet(mode: StockMode, purchased: map<PlayerId, set<string>>, counts: map<PlayerId, map<string, int>>,
                     player: PlayerId, item: ConfiguredItem) {
    if mode == GLOBAL then player in purchased && item.key in purchased[player]
    else if item.initialStock == -1 then false
    else PurchaseCount(counts, player, item.key) >= item.initialStock
  }

  /**
   * Recording a purchase: in GLOBAL mode the player meets the limit for the
   * item at once; in PLAYER mode the count goes up by one and no other
   * player's or key's count changes, and unlimited stock is never exhausted.
   */
  lemma RecordingPurchases(purchased: map<PlayerId, set<string>>, counts: map<PlayerId, map<string, int>>,
                           player: PlayerId, item: ConfiguredItem, other: PlayerId, otherKey: string)
    ensures LimitMet(GLOBAL, RecordedKeys(purchased, player, item.key), counts, player, item)
    ensures PurchaseCount(RecordedCounts(counts, player, item.key), player, item.key) == PurchaseCount(counts, player, item.key) + 1
    ensures (other, otherKey) != (player, item.key) ==>
      PurchaseCount(RecordedCounts(counts, player, item.key), other, otherKey) == PurchaseCount(counts, other, otherKey)
    ensures item.initialStock == -1 ==> !LimitMet(PLAYER, purchased, RecordedCounts(counts, player, item.key), player, item)
  {
  }

  /** Recording `n` purchases of a key in PLAYER mode. */
  function RecordedTimes(counts: map<PlayerId, map<string, int>>, player: PlayerId, key: string, n: nat): map<PlayerId, map<string, int>>
    decreases n
  {
    if n == 0 then counts else RecordedCounts(RecordedTimes(counts, player, key, n - 1), player, key)
  }

  /** In PLAYER mode a fresh player meets the limit of a limited item after exactly its initial stock of purchases. */
  lemma {:induction false} PlayerLimitAfterPurchases(counts: map<PlayerId, map<string, int>>, player: PlayerId, item: ConfiguredItem, n: nat)
    requires PurchaseCount(counts, player, item.key) == 0 && item.initialStock != -1
    ensures PurchaseCount(RecordedTimes(counts, player, item.key, n), player, item.key) == n
    ensures LimitMet(PLAYER, map[], RecordedTimes(counts, player, item.key, n), player, item) <==> n >= item.initialStock
    decreases n
  {
    if n > 0 {
      PlayerLimitAfterPurchases(counts, player, item, n - 1);
    }
  }

  /** `markSlotAsRevealed`: the slot joins the player's revealed set. */
  function MarkedRevealed(revealed: map<PlayerId, set<int>>, player: PlayerId, slot: int): map<PlayerId, set<int>> {
    revealed[player := (if player in revealed then revealed[player] else {}) + {slot}]
  }

  /** `isSlotRevealed`. */
  predicate IsRevealed(revealed: map<PlayerId, set<int>>, player: PlayerId, slot: int) {
    player in revealed && slot in revealed[player]
  }

  /** Revealing a slot reveals it and leaves every other player's and slot's status as it was. */
  lemma RevealingSlots(revealed: map<PlayerId, set<int>>, player: PlayerId, slot: int, q: PlayerId, t: int)
    ensures IsRevealed(MarkedRevealed(revealed, player, slot), player, slot)
    ensures (q, t) != (player, slot) ==> (IsRevealed(MarkedRevealed(revealed, player, slot), q, t) <==> IsRevealed(revealed, q, t))
  {
  }

  // ---------------------------------------------------------------- state and persistence

  /** Everything `MarketManager` keeps between calls, apart from scheduled tasks. */
  datatype MarketState = MarketState(
    marketOpen: bool,
    timeRemainingSeconds: int,
    globalAssigned: map<int, PlayerMarketItem>,
    playerAssigned: map<PlayerId, map<int, PlayerMarketItem>>,
    purchasedKeys: map<PlayerId, set<string>>,
    purchaseCounts: map<PlayerId, map<string, int>>,
    revealedSlots: map<PlayerId, set<int>>,
    globalStock: map<string, int>)

  /** An allocation as `market_state.yml` stores it: the item key, the discount flag and the price. */
  datatype SavedAllocation = SavedAllocation(key: string, discounted: bool, price: real)

  /**
   * The contents of `market_state.yml`. A section that is missing reads as
   * empty, except the stock section, whose absence triggers a stock reset;
   * a missing timestamp reads as the load time.
   */
  datatype SavedState = SavedState(
    marketOpen: bool,
    timeRemainingSeconds: int,
    lastSavedTimestamp: Option<int>,
    globalAssignedItems: map<int, SavedAllocation>,
    playerPurchases: map<PlayerId, set<string>>,
    playerPurchaseCounts: map<PlayerId, map<string, int>>,
    playerRevealedSlots: map<PlayerId, set<int>>,
    playerAssignedItems: map<PlayerId, map<int, SavedAllocation>>,
    globalItemStock: Option<map<string, int>>)

  function Saved(p: PlayerMarketItem): SavedAllocation {
    SavedAllocation(p.baseItem.key, p.isDiscounted, p.finalPrice)
  }

  function SavedAllocations(m: map<int, PlayerMarketItem>): map<int, SavedAllocation> {
    map s | s in m :: Saved(m[s])
  }

  /**
   * `saveMarketState` at time `now`: every field and section rewritten;
   * players whose purchases, counts, revealed slots or assignments are empty
   * are left out of that section.
   */
  function SaveRecord(st: MarketState, now: int): SavedState {
    SavedState(
      st.marketOpen, st.timeRemainingSeconds, Some(now),
      SavedAllocations(st.globalAssigned),
      map p | p in st.purchasedKeys && st.purchasedKeys[p] != {} :: st.purchasedKeys[p],
      map p | p in st.purchaseCounts && st.purchaseCounts[p] != map[] :: st.purchaseCounts[p],
      map p | p in st.revealedSlots && st.revealedSlots[p] != {} :: st.revealedSlots[p],
      SavedPlayers(st.playerAssigned),
      Some(st.globalStock))
  }

  /** The assigned-items section: each player with a non-empty assignment, saved. */
  function SavedPlayers(pa: map<PlayerId, map<int, PlayerMarketItem>>): map<PlayerId, map<int, SavedAllocation>> {
    map p | p in pa && pa[p] != map[] :: SavedAllocations(pa[p])
  }

  /** One stored allocation against the current catalog: nothing when its key is gone. */
  function Resolve(catalog: seq<ConfiguredItem>, a: SavedAllocation): (r: Option<PlayerMarketItem>)
    ensures r.Some? ==> r.value.baseItem in catalog && r.value.baseItem.key == a.key
    ensures r.Some? ==> r.value.isDiscounted == a.discounted && r.value.finalPrice == a.price
  {
    match FirstWithKey(catalog, a.key)
    case None => None
    case Some(base) => Some(PlayerMarketItem(base, a.discounted, a.price))
  }

  /** Loading stored allocations: entries whose key is no longer in the catalog are dropped. */
  function RestoredAllocations(catalog: seq<ConfiguredItem>, m: map<int, SavedAllocation>): (r: map<int, PlayerMarketItem>)
    ensures forall s | s in r :: s in m && Resolve(catalog, m[s]) == Some(r[s])
  {
    map s | s in m && Resolve(catalog, m[s]).Some? :: Resolve(catalog, m[s]).value
  }

  /** Loading the assigned-items section: every stored player, with the allocations that still resolve. */
  function RestoredPlayers(catalog: seq<ConfiguredItem>, saved: map<PlayerId, map<int, SavedAllocation>>): map<PlayerId, map<int, PlayerMarketItem>> {
    map p | p in saved :: RestoredAllocations(catalog, saved[p])
  }

  /** The in-memory state `loadMarketState` builds from a record whose countdown has not run out. */
  function Restored(f: SavedState, remaining: int, catalog: seq<ConfiguredItem>): MarketState {
    MarketState(
      f.marketOpen, remaining,
      RestoredAllocations(catalog, f.globalAssignedItems),
      RestoredPlayers(catalog, f.playerAssignedItems),
      f.playerPurchases, f.playerPurchaseCounts, f.playerRevealedSlots,
      if f.globalItemStock.Some? then f.globalItemStock.value else StockTable(catalog))
  }

  /** The state a new cycle starts from: every player ledger empty and the stock back to its initial values. */
  function FreshCycle(open: bool, remaining: int, catalog: seq<ConfiguredItem>, globals: map<int, PlayerMarketItem>): MarketState {
    MarketState(open, remaining, globals, map[], map[], map[], map[], StockTable(catalog))
  }

  /**
   * `loadMarketState` as a function of the state before, the file, the
   * clock and the configured durations: no file closes the market for a full
   * closed period; a record whose countdown ran out while the server was down
   * flips the market and starts a fresh cycle, with no global items even when
   * it opens; otherwise the record is restored with the elapsed time deducted.
   */
  function Recover(prev: MarketState, file: Option<SavedState>, now: int,
                   openDuration: int, closeDuration: int, catalog: seq<ConfiguredItem>): MarketState
  {
    match file
    case None => prev.(marketOpen := false, timeRemainingSeconds := closeDuration)
    case Some(f) =>
      var timePassed := now - f.lastSavedTimestamp.GetOr(now);
      if timePassed >= f.timeRemainingSeconds then
        if f.marketOpen then FreshCycle(false, closeDuration, catalog, map[])
        else FreshCycle(true, openDuration, catalog, map[])
      else Restored(f, f.timeRemainingSeconds - timePassed, catalog)
  }

  /** Every allocation names an item the catalog resolves its key to. */
  predicate ResolvesAll(catalog: seq<ConfiguredItem>, m: map<int, PlayerMarketItem>) {
    forall s | s in m :: FirstWithKey(catalog, m[s].baseItem.key) == Some(m[s].baseItem)
  }

  /** Every allocation in the state, global or personal, resolves. */
  predicate Resolves(catalog: seq<ConfiguredItem>, st: MarketState) {
    ResolvesAll(catalog, st.globalAssigned) && forall p | p in st.playerAssigned :: ResolvesAll(catalog, st.playerAssigned[p])
  }

  /** Every allocation in the state, global or personal, is of a catalog entry. */
  predicate DrawnFrom(catalog: seq<ConfiguredItem>, st: MarketState) {
    && (forall s | s in st.globalAssigned :: st.globalAssigned[s].baseItem in catalog)
    && (forall p | p in st.playerAssigned :: forall s | s in st.playerAssigned[p] :: st.playerAssigned[p][s].baseItem in catalog)
  }

  /** In a catalog with unique keys, any state whose items all come from the catalog resolves. */
  lemma CatalogStateResolves(catalog: seq<ConfiguredItem>, st: MarketState)
    requires UniqueKeys(catalog)
    requires DrawnFrom(catalog, st)
    ensures Resolves(catalog, st)
  {
    CatalogResolvesAll(catalog, st.globalAssigned);
    forall p | p in st.playerAssigned ensures ResolvesAll(catalog, st.playerAssigned[p]) {
      CatalogResolvesAll(catalog, st.playerAssigned[p]);
    }
  }

  lemma CatalogResolvesAll(catalog: seq<ConfiguredItem>, m: map<int, PlayerMarketItem>)
    requires UniqueKeys(catalog)
    requires forall s | s in m :: m[s].baseItem in catalog
    ensures ResolvesAll(catalog, m)
  {
    forall s | s in m ensures FirstWithKey(catalog, m[s].baseItem.key) == Some(m[s].baseItem) {
      var i :| 0 <= i < |catalog| && catalog[i] == m[s].baseItem;
      FirstWithKeyOfMember(catalog, i);
    }
  }

  lemma RestoreSavedAllocation(catalog: seq<ConfiguredItem>, m: map<int, PlayerMarketItem>, s: int)
    requires s in m && ResolvesAll(catalog, m)
    ensures s in RestoredAllocations(catalog, SavedAllocations(m))
    ensures RestoredAllocations(catalog, SavedAllocations(m))[s] == m[s]
  {
    var saved := SavedAllocations(m);
    assert saved[s] == Saved(m[s]);
    assert Resolve(catalog, saved[s]) == Some(m[s]);
  }

  /** Saving and restoring allocations whose keys resolve gives them back unchanged. */
  lemma RestoreSavedAllocations(catalog: seq<ConfiguredItem>, m: map<int, PlayerMarketItem>)
    requires ResolvesAll(catalog, m)
    ensures RestoredAllocations(catalog, SavedAllocations(m)) == m
  {
    var r := RestoredAllocations(catalog, SavedAllocations(m));
    forall s | s in m ensures s in r && r[s] == m[s] {
      RestoreSavedAllocation(catalog, m, s);
    }
    var saved := SavedAllocations(m);
    assert forall s | s in r :: s in saved;
    assert forall s | s in saved :: s in m;
    SameEntries(r, m);
  }

  function NonEmptyAssignments(pa: map<PlayerId, map<int, PlayerMarketItem>>): map<PlayerId, map<int, PlayerMarketItem>> {
    map p | p in pa && pa[p] != map[] :: pa[p]
  }

  /** The state with empty per-player entries dropped, which is all a save forgets. */
  function Normalised(st: MarketState): MarketState {
    st.(
      playerAssigned := NonEmptyAssignments(st.playerAssigned),
      purchasedKeys := map p | p in st.purchasedKeys && st.purchasedKeys[p] != {} :: st.purchasedKeys[p],
      purchaseCounts := map p | p in st.purchaseCounts && st.purchaseCounts[p] != map[] :: st.purchaseCounts[p],
      revealedSlots := map p | p in st.revealedSlots && st.revealedSlots[p] != {} :: st.revealedSlots[p])
  }

  /**
   * Round trip: loading a saved record before its countdown runs out gives
   * back the saved state, less the empty per-player entries, with the time
   * spent offline deducted from the countdown.
   */
  lemma SaveThenRecover(prev: MarketState, st: MarketState, savedAt: int, now: int,
                        openDuration: int, closeDuration: int, catalog: seq<ConfiguredItem>)
    requires Resolves(catalog, st)
    requires now - savedAt < st.timeRemainingSeconds
    ensures Recover(prev, Some(SaveRecord(st, savedAt)), now, openDuration, closeDuration, catalog)
         == Normalised(st).(timeRemainingSeconds := st.timeRemainingSeconds - (now - savedAt))
  {
    var f := SaveRecord(st, savedAt);
    var elapsed := now - savedAt;
    assert f.lastSavedTimestamp.GetOr(now) == savedAt;
    RestoreSavedAllocations(catalog, st.globalAssigned);
    RestoreSavedPlayers(catalog, st.playerAssigned);
    assert Restored(f, st.timeRemainingSeconds - elapsed, catalog)
        == Normalised(st).(timeRemainingSeconds := st.timeRemainingSeconds - elapsed);
  }

  /** The per-player half of the round trip: non-empty assignments come back unchanged. */
  lemma RestoreSavedPlayers(catalog: seq<ConfiguredItem>, pa: map<PlayerId, map<int, PlayerMarketItem>>)
    requires forall p | p in pa :: ResolvesAll(catalog, pa[p])
    ensures RestoredPlayers(catalog, SavedPlayers(pa)) == NonEmptyAssignments(pa)
  {
    var back := RestoredPlayers(catalog, SavedPlayers(pa));
    var want := NonEmptyAssignments(pa);
    forall p | p in want ensures p in back && back[p] == want[p] {
      RestoreSavedPlayer(catalog, pa, p);
    }
    assert forall p | p in back :: p in want;
    SameEntries(back, want);
  }

  /** Maps with the same keys and the same value at each key are equal. */
  lemma SameEntries<K, V>(a: map<K, V>, b: map<K, V>)
    requires forall k :: k in a <==> k in b
    requires forall k | k in a :: a[k] == b[k]
    ensures a == b
  {
  }

  lemma RestoreSavedPlayer(catalog: seq<ConfiguredItem>, pa: map<PlayerId, map<int, PlayerMarketItem>>, p: PlayerId)
    requires p in pa && pa[p] != map[] && ResolvesAll(catalog, pa[p])
    ensures p in RestoredPlayers(catalog, SavedPlayers(pa))
    ensures RestoredPlayers(catalog, SavedPlayers(pa))[p] == pa[p]
  {
    assert SavedPlayers(pa)[p] == SavedAllocations(pa[p]);
    RestoreSavedAllocations(catalog, pa[p]);
  }

  /** A record whose countdown ran out while offline flips the market into a fresh cycle. */
  lemma SaveThenRecoverExpired(prev: MarketState, st: MarketState, savedAt: int, now: int,
                               openDuration: int, closeDuration: int, catalog: seq<ConfiguredItem>)
    requires now - savedAt >= st.timeRemainingSeconds
    ensures var r := Recover(prev, Some(SaveRecord(st, savedAt)), now, openDuration, closeDuration, catalog);
      && r.marketOpen == !st.marketOpen
      && r.timeRemainingSeconds == (if st.marketOpen then closeDuration else openDuration)
      && r == FreshCycle(!st.marketOpen, r.timeRemainingSeconds, catalog, map[])
  {
  }

  /**
   * A record saved by a scheduled transition holds the countdown that ran
   * out (zero or less); loaded at any later time, it flips the market again.
   */
  lemma TransitionRecordFlipsOnLoad(prev: MarketState, st: MarketState, savedAt: int, now: int,
                                    openDuration: int, closeDuration: int, catalog: seq<ConfiguredItem>)
    requires st.timeRemainingSeconds <= 0 && now >= savedAt
    ensures Recover(prev, Some(SaveRecord(st, savedAt)), now, openDuration, closeDuration, catalog).marketOpen == !st.marketOpen
  {
    SaveThenRecoverExpired(prev, st, savedAt, now, openDuration, closeDuration, catalog);
  }

  // ---------------------------------------------------------------- the manager

  /** Updating one player's entry leaves every other player's as it was. */
  lemma UpdateLeavesOthers<V>(m: map<PlayerId, V>, player: PlayerId, v: V)
    ensures m[player := v] - {player} == m - {player}
  {
  }

  class MarketManager {
    const config: ConfigManager
    const itemManager: ItemManager

    var marketOpen: bool
    var timeRemainingSeconds: int
    /** Whether the once-per-second cycle task is scheduled. */
    var cycleRunning: bool
    var announcementTasks: seq<Task>
    var globalAssignedItems: map<int, PlayerMarketItem>
    var playerAssignedItems: map<PlayerId, map<int, PlayerMarketItem>>
    /** GLOBAL stock mode: the keys each player bought this cycle. */
    var playerPurchasedItemKeys: map<PlayerId, set<string>>
    /** PLAYER stock mode: how often each player bought each key this cycle. */
    var playerPurchaseCounts: map<PlayerId, map<string, int>>
    var playerRevealedSlots: map<PlayerId, set<int>>
    var globalItemStock: map<string, int>
    /** `market_state.yml`: None while the file does not exist. */
    var stateFile: Option<SavedState>

    function State(): MarketState
      reads this`marketOpen, this`timeRemainingSeconds, this`globalAssignedItems, this`playerAssignedItems,
            this`playerPurchasedItemKeys, this`playerPurchaseCounts, this`playerRevealedSlots, this`globalItemStock
    {
      MarketState(marketOpen, timeRemainingSeconds, globalAssignedItems, playerAssignedItems,
                  playerPurchasedItemKeys, playerPurchaseCounts, playerRevealedSlots, globalItemStock)
    }

    /** The announcements that lead up to the next transition. */
    function Upcoming(): seq<Announcement>
      reads this`marketOpen, config`beforeCloseAnnouncements, config`beforeOpenAnnouncements
    {
      if marketOpen then config.beforeCloseAnnouncements else config.beforeOpenAnnouncements
    }

    /** The global items a cycle opened now would show, for the given draws. */
    function CycleSelection(picks: nat -> real, rolls: nat -> real, shuffleDraws: nat -> nat): map<int, PlayerMarketItem>
      reads config`marketSlotToYmlKey, config`numberOfGlobalItemsToShow, itemManager`allPossibleItems
    {
      GlobalSelection(itemManager.allPossibleItems, config.marketSlotToYmlKey.Keys, config.numberOfGlobalItemsToShow,
                      picks, rolls, shuffleDraws)
    }

    /** A cycle over the loaded catalog never shows one entry under two global slots. */
    lemma CycleSelectionDistinct(picks: nat -> real, rolls: nat -> real, shuffleDraws: nat -> nat)
      requires itemManager.Valid()
      ensures var g := CycleSelection(picks, rolls, shuffleDraws);
        forall s, t | s in g && t in g && s != t :: g[s].baseItem.key != g[t].baseItem.key
    {
      GlobalSelectionFacts(itemManager.allPossibleItems, config.marketSlotToYmlKey.Keys, config.numberOfGlobalItemsToShow,
                           picks, rolls, shuffleDraws);
    }

    /**
     * The round trip for the catalog actually loaded: a record of a state
     * whose allocations are catalog entries, loaded before its countdown runs
     * out, restores that state less the empty per-player entries and the
     * time spent offline.
     */
    lemma LoadedCatalogRoundTrip(prev: MarketState, st: MarketState, savedAt: int, now: int)
      requires itemManager.Valid() && DrawnFrom(itemManager.allPossibleItems, st)
      requires now - savedAt < st.timeRemainingSeconds
      ensures Recover(prev, Some(SaveRecord(st, savedAt)), now, config.openDurationSeconds,
                      config.closeDurationSeconds, itemManager.allPossibleItems)
           == Normalised(st).(timeRemainingSeconds := st.timeRemainingSeconds - (now - savedAt))
    {
      CatalogStateResolves(itemManager.allPossibleItems, st);
      SaveThenRecover(prev, st, savedAt, now, config.openDurationSeconds, config.closeDurationSeconds,
                      itemManager.allPossibleItems);
    }

    /** A freshly constructed manager: closed, no countdown, nothing assigned, the file as found on disk. */
    constructor (config: ConfigManager, itemManager: ItemManager, stateFile: Option<SavedState>)
      ensures this.config == config && this.itemManager == itemManager && this.stateFile == stateFile
      ensures State() == MarketState(false, 0, map[], map[], map[], map[], map[], map[])
      ensures !cycleRunning && announcementTasks == []
    {
      this.config := config;
      this.itemManager := itemManager;
      this.stateFile := stateFile;
      marketOpen := false;
      timeRemainingSeconds := 0;
      cycleRunning := false;
      announcementTasks := [];
      globalAssignedItems := map[];
      playerAssignedItems := map[];
      playerPurchasedItemKeys := map[];
      playerPurchaseCounts := map[];
      playerRevealedSlots := map[];
      globalItemStock := map[];
    }

    /** `saveMarketState`: the file now holds the record of the current state, stamped `now`. */
    method SaveMarketState(now: int)
      modifies this`stateFile
      ensures stateFile == Some(SaveRecord(State(), now))
    {
      stateFile := Some(SaveRecord(State(), now));
    }

    /**
     * `loadMarketState` at time `now`: the state `Recover` describes, the file
     * written only when it was missing, and the announcements rescheduled.
     */
    method LoadMarketState(now: int, picks: nat -> real, rolls: nat -> real, shuffleDraws: nat -> nat)
      modifies this
      ensures State() == Recover(old(State()), old(stateFile), now, config.openDurationSeconds,
                                 config.closeDurationSeconds, itemManager.allPossibleItems)
      ensures stateFile == if old(stateFile).None? then Some(SaveRecord(State(), now)) else old(stateFile)
      ensures announcementTasks == PendingFor(Upcoming(), timeRemainingSeconds)
      ensures cycleRunning == old(cycleRunning)
    {
      if stateFile.None? {
        marketOpen := false;
        timeRemainingSeconds := config.closeDurationSeconds;
        SaveMarketState(now);
      } else {
        var f := stateFile.value;
        marketOpen := f.marketOpen;
        var lastSavedTime := f.lastSavedTimestamp.GetOr(now);
        var timePassed := now - lastSavedTime;
        var savedTimeRemaining := f.timeRemainingSeconds;
        if timePassed >= savedTimeRemaining {
          ChangeCycleAfterExpiry(picks, rolls, shuffleDraws);
        } else {
          RestoreFromRecord(f, savedTimeRemaining - timePassed);
        }
      }
      ScheduleAnnouncements();
    }

    /**
     * The expired branch of `loadMarketState`: an open market closes for a
     * full closed period, a closed one opens for a full open period (its
     * freshly chosen global items are cleared again right away), and the
     * cycle's ledgers and stock are reset.
     */
    method ChangeCycleAfterExpiry(picks: nat -> real, rolls: nat -> real, shuffleDraws: nat -> nat)
      modifies this`marketOpen, this`timeRemainingSeconds, this`globalAssignedItems, this`playerAssignedItems,
               this`playerPurchasedItemKeys, this`playerPurchaseCounts, this`playerRevealedSlots, this`globalItemStock
      ensures State() == FreshCycle(!old(marketOpen), if old(marketOpen) then config.closeDurationSeconds else config.openDurationSeconds,
                                    itemManager.allPossibleItems, map[])
    {
      if marketOpen {
        marketOpen := false;
        timeRemainingSeconds := config.closeDurationSeconds;
      } else {
        marketOpen := true;
        timeRemainingSeconds := config.openDurationSeconds;
        SelectGlobalItemsForCycle(picks, rolls, shuffleDraws);
      }
      ClearAllPlayerData();
      ResetGlobalStock();
    }

    /** The unexpired branch of `loadMarketState`: every section of the record read back. */
    method RestoreFromRecord(f: SavedState, remaining: int)
      modifies this`timeRemainingSeconds, this`globalAssignedItems, this`playerAssignedItems,
               this`playerPurchasedItemKeys, this`playerPurchaseCounts, this`playerRevealedSlots, this`globalItemStock
      requires marketOpen == f.marketOpen
      ensures State() == Restored(f, remaining, itemManager.allPossibleItems)
    {
      timeRemainingSeconds := remaining;
      ClearAllPlayerData();
      var catalog := itemManager.allPossibleItems;
      globalAssignedItems := RestoredAllocations(catalog, f.globalAssignedItems);
      playerPurchasedItemKeys := f.playerPurchases;
      playerPurchaseCounts := f.playerPurchaseCounts;
      playerRevealedSlots := f.playerRevealedSlots;
      playerAssignedItems := RestoredPlayers(catalog, f.playerAssignedItems);
      globalItemStock := map[];
      if f.globalItemStock.Some? {
        globalItemStock := f.globalItemStock.value;
      } else {
        ResetGlobalStock();
      }
    }

    /**
     * One run of the cycle task: count down a second; when the countdown
     * reaches zero, switch the market and start the new period's countdown
     * and announcements; save on every positive multiple of five minutes.
     * The switch saves before the new countdown is set, so that record holds
     * the countdown that ran out.
     */
    method Tick(now: int, picks: nat -> real, rolls: nat -> real, shuffleDraws: nat -> nat)
      modifies this
      ensures var r := old(timeRemainingSeconds) - 1;
        r > 0 ==> State() == old(State()).(timeRemainingSeconds := r) && announcementTasks == old(announcementTasks)
      ensures old(timeRemainingSeconds) - 1 <= 0 && old(marketOpen) ==>
        State() == old(State()).(marketOpen := false, timeRemainingSeconds := config.closeDurationSeconds)
      ensures old(timeRemainingSeconds) - 1 <= 0 && !old(marketOpen) ==>
        State() == FreshCycle(true, config.openDurationSeconds, itemManager.allPossibleItems, CycleSelection(picks, rolls, shuffleDraws))
      ensures old(timeRemainingSeconds) - 1 <= 0 ==> announcementTasks == PendingFor(Upcoming(), timeRemainingSeconds)
      ensures stateFile ==
        if timeRemainingSeconds > 0 && timeRemainingSeconds % 300 == 0 then Some(SaveRecord(State(), now))
        else if old(timeRemainingSeconds) - 1 <= 0 then Some(SaveRecord(State().(timeRemainingSeconds := old(timeRemainingSeconds) - 1), now))
        else old(stateFile)
      ensures cycleRunning == old(cycleRunning)
    {
      timeRemainingSeconds := timeRemainingSeconds - 1;
      if timeRemainingSeconds <= 0 {
        SwitchPeriod(now, picks, rolls, shuffleDraws);
      }
      if timeRemainingSeconds > 0 && timeRemainingSeconds % 300 == 0 {
        SaveMarketState(now);
      }
    }

    /**
     * The branch of the countdown task that runs when the countdown is over:
     * the scheduled close or open (each saving the state with the countdown
     * that ran out), the new period's countdown and its announcements.
     */
    method SwitchPeriod(now: int, picks: nat -> real, rolls: nat -> real, shuffleDraws: nat -> nat)
      modifies this`marketOpen, this`timeRemainingSeconds, this`announcementTasks, this`globalAssignedItems,
               this`playerAssignedItems, this`playerPurchasedItemKeys, this`playerPurchaseCounts,
               this`playerRevealedSlots, this`globalItemStock, this`stateFile
      ensures old(marketOpen) ==>
        State() == old(State()).(marketOpen := false, timeRemainingSeconds := config.closeDurationSeconds)
      ensures !old(marketOpen) ==>
        State() == FreshCycle(true, config.openDurationSeconds, itemManager.allPossibleItems, CycleSelection(picks, rolls, shuffleDraws))
      ensures announcementTasks == PendingFor(Upcoming(), timeRemainingSeconds)
      ensures stateFile == Some(SaveRecord(State().(timeRemainingSeconds := old(timeRemainingSeconds)), now))
    {
      if marketOpen {
        CloseMarketScheduled(now);
        timeRemainingSeconds := config.closeDurationSeconds;
      } else {
        OpenMarketScheduled(now, picks, rolls, shuffleDraws);
        timeRemainingSeconds := config.openDurationSeconds;
      }
      ScheduleAnnouncements();
    }

    /** `openMarketScheduled`: open, start a fresh cycle with newly chosen global items, and save. */
    method OpenMarketScheduled(now: int, picks: nat -> real, rolls: nat -> real, shuffleDraws: nat -> nat)
      modifies this`marketOpen, this`globalAssignedItems, this`playerAssignedItems, this`playerPurchasedItemKeys,
               this`playerPurchaseCounts, this`playerRevealedSlots, this`globalItemStock, this`stateFile
      ensures State() == FreshCycle(true, timeRemainingSeconds, itemManager.allPossibleItems, CycleSelection(picks, rolls, shuffleDraws))
      ensures stateFile == Some(SaveRecord(State(), now))
    {
      marketOpen := true;
      BeginCycle(picks, rolls, shuffleDraws);
      SaveMarketState(now);
    }

    /** `closeMarketScheduled`: close and save; the cycle's data stays until the next opening. */
    method CloseMarketScheduled(now: int)
      modifies this`marketOpen, this`stateFile
      ensures !marketOpen
      ensures stateFile == Some(SaveRecord(State(), now))
    {
      marketOpen := false;
      SaveMarketState(now);
    }

    /** `forceOpenMarket`: open for a full period with a fresh cycle, save, restart the cycle task, reschedule. */
    method ForceOpenMarket(now: int, picks: nat -> real, rolls: nat -> real, shuffleDraws: nat -> nat)
      modifies this
      ensures State() == FreshCycle(true, config.openDurationSeconds, itemManager.allPossibleItems, CycleSelection(picks, rolls, shuffleDraws))
      ensures stateFile == Some(SaveRecord(State(), now))
      ensures cycleRunning && announcementTasks == PendingFor(config.beforeCloseAnnouncements, config.openDurationSeconds)
    {
      OpenForFullPeriod(now, picks, rolls, shuffleDraws);
      RestartCycle();
    }

    /** The part of `forceOpenMarket` before the cycle task is restarted: open, full countdown, fresh cycle, save. */
    method OpenForFullPeriod(now: int, picks: nat -> real, rolls: nat -> real, shuffleDraws: nat -> nat)
      modifies this`marketOpen, this`timeRemainingSeconds, this`globalAssignedItems, this`playerAssignedItems,
               this`playerPurchasedItemKeys, this`playerPurchaseCounts, this`playerRevealedSlots,
               this`globalItemStock, this`stateFile
      ensures State() == FreshCycle(true, config.openDurationSeconds, itemManager.allPossibleItems, CycleSelection(picks, rolls, shuffleDraws))
      ensures stateFile == Some(SaveRecord(State(), now))
    {
      marketOpen := true;
      timeRemainingSeconds := config.openDurationSeconds;
      BeginCycle(picks, rolls, shuffleDraws);
      SaveMarketState(now);
    }

    /** The tail of both forced transitions: restart the cycle task and reschedule the announcements. */
    method RestartCycle()
      modifies this`cycleRunning, this`announcementTasks
      ensures cycleRunning && announcementTasks == PendingFor(Upcoming(), timeRemainingSeconds)
    {
      StartMarketCycle();
      ScheduleAnnouncements();
    }

    /** `forceCloseMarket`: close for a full period, keeping the cycle's data, save, restart, reschedule. */
    method ForceCloseMarket(now: int)
      modifies this
      ensures State() == old(State()).(marketOpen := false, timeRemainingSeconds := config.closeDurationSeconds)
      ensures stateFile == Some(SaveRecord(State(), now))
      ensures cycleRunning && announcementTasks == PendingFor(config.beforeOpenAnnouncements, config.closeDurationSeconds)
    {
      marketOpen := false;
      timeRemainingSeconds := config.closeDurationSeconds;
      SaveMarketState(now);
      RestartCycle();
    }

    /** `startMarketCycle`: the cycle task (re)scheduled. */
    method StartMarketCycle()
      modifies this`cycleRunning
      ensures cycleRunning
    {
      cycleRunning := true;
    }

    /** `stopMarketCycle`: the cycle task and every pending announcement cancelled. */
    method StopMarketCycle()
      modifies this`cycleRunning, this`announcementTasks
      ensures !cycleRunning && announcementTasks == []
    {
      cycleRunning := false;
      announcementTasks := [];
    }

    /**
     * `scheduleAnnouncements`: cancel the pending tasks, then schedule one for
     * each announcement of the coming transition that is not already past.
     */
    method ScheduleAnnouncements()
      modifies this`announcementTasks
      ensures announcementTasks == PendingFor(Upcoming(), timeRemainingSeconds)
    {
      announcementTasks := [];
      var announcements := if marketOpen then config.beforeCloseAnnouncements else config.beforeOpenAnnouncements;
      for i := 0 to |announcements|
        invariant announcementTasks == PendingFor(announcements[..i], timeRemainingSeconds)
      {
        PendingStep(announcements, timeRemainingSeconds, i);
        var delayInSeconds := timeRemainingSeconds - announcements[i].timeBeforeSeconds;
        if delayInSeconds >= 0 {
          announcementTasks := announcementTasks + [Task(delayInSeconds * 20, announcements[i].message)];
        }
      }
      assert announcements[..|announcements|] == announcements;
    }

    /** `resetPlayerData`: forget one player's cycle data, then save. */
    method ResetPlayerData(player: PlayerId, now: int)
      modifies this`playerAssignedItems, this`playerPurchasedItemKeys, this`playerPurchaseCounts,
               this`playerRevealedSlots, this`stateFile
      ensures playerAssignedItems == old(playerAssignedItems) - {player}
      ensures playerPurchasedItemKeys == old(playerPurchasedItemKeys) - {player}
      ensures playerPurchaseCounts == old(playerPurchaseCounts) - {player}
      ensures playerRevealedSlots == old(playerRevealedSlots) - {player}
      ensures stateFile == Some(SaveRecord(State(), now))
    {
      playerAssignedItems := playerAssignedItems - {player};
      playerPurchasedItemKeys := playerPurchasedItemKeys - {player};
      playerPurchaseCounts := playerPurchaseCounts - {player};
      playerRevealedSlots := playerRevealedSlots - {player};
      SaveMarketState(now);
    }

    /** `rerollMarket`: nothing without a player, otherwise that player's reset. */
    method RerollMarket(player: Option<PlayerId>, now: int)
      modifies this`playerAssignedItems, this`playerPurchasedItemKeys, this`playerPurchaseCounts,
               this`playerRevealedSlots, this`stateFile
      ensures player.None? ==> State() == old(State()) && stateFile == old(stateFile)
      ensures player.Some? ==> playerAssignedItems == old(playerAssignedItems) - {player.value}
      ensures player.Some? ==> playerPurchasedItemKeys == old(playerPurchasedItemKeys) - {player.value}
      ensures player.Some? ==> playerPurchaseCounts == old(playerPurchaseCounts) - {player.value}
      ensures player.Some? ==> playerRevealedSlots == old(playerRevealedSlots) - {player.value}
      ensures player.Some? ==> stateFile == Some(SaveRecord(State(), now))
    {
      if player.None? {
        return;
      }
      ResetPlayerData(player.value, now);
    }

    /** `clearAllPlayerData`: every player ledger and the global items emptied. */
    method ClearAllPlayerData()
      modifies this`playerAssignedItems, this`playerPurchasedItemKeys, this`playerPurchaseCounts,
               this`playerRevealedSlots, this`globalAssignedItems
      ensures playerAssignedItems == map[] && playerPurchasedItemKeys == map[] && playerPurchaseCounts == map[]
      ensures playerRevealedSlots == map[] && globalAssignedItems == map[]
    {
      playerAssignedItems := map[];
      playerPurchasedItemKeys := map[];
      playerPurchaseCounts := map[];
      playerRevealedSlots := map[];
      globalAssignedItems := map[];
    }

    /** `resetAllPlayersData`: a fresh cycle in the current period, then save. */
    method ResetAllPlayersData(now: int, picks: nat -> real, rolls: nat -> real, shuffleDraws: nat -> nat)
      modifies this`globalAssignedItems, this`playerAssignedItems, this`playerPurchasedItemKeys,
               this`playerPurchaseCounts, this`playerRevealedSlots, this`globalItemStock, this`stateFile
      ensures State() == FreshCycle(marketOpen, timeRemainingSeconds, itemManager.allPossibleItems, CycleSelection(picks, rolls, shuffleDraws))
      ensures stateFile == Some(SaveRecord(State(), now))
    {
      BeginCycle(picks, rolls, shuffleDraws);
      SaveMarketState(now);
    }

    /**
     * The three steps every new cycle starts with: clear the ledgers and
     * global items, reset the stock, choose the global items.
     */
    method BeginCycle(picks: nat -> real, rolls: nat -> real, shuffleDraws: nat -> nat)
      modifies this`globalAssignedItems, this`playerAssignedItems, this`playerPurchasedItemKeys,
               this`playerPurchaseCounts, this`playerRevealedSlots, this`globalItemStock
      ensures State() == FreshCycle(marketOpen, timeRemainingSeconds, itemManager.allPossibleItems, CycleSelection(picks, rolls, shuffleDraws))
    {
      ClearAllPlayerData();
      ResetGlobalStock();
      SelectGlobalItemsForCycle(picks, rolls, shuffleDraws);
    }

    /** `resetGlobalStock`: every catalog key back to its initial stock. */
    method ResetGlobalStock()
      modifies this`globalItemStock
      ensures globalItemStock == StockTable(itemManager.allPossibleItems)
    {
      globalItemStock := map[];
      var items := itemManager.allPossibleItems;
      for i := 0 to |items|
        invariant globalItemStock == StockTable(items[..i])
      {
        StockTableStep(items, i);
        globalItemStock := globalItemStock[items[i].key := items[i].initialStock];
      }
      assert items[..|items|] == items;
    }

    /**
     * `selectGlobalItemsForCycle`: the slot list shuffled, then up to the
     * configured number of global candidates drawn without repetition, each
     * rolled and placed under the next slot.
     */
    method SelectGlobalItemsForCycle(picks: nat -> real, rolls: nat -> real, shuffleDraws: nat -> nat)
      modifies this`globalAssignedItems
      ensures globalAssignedItems == CycleSelection(picks, rolls, shuffleDraws)
    {
      globalAssignedItems := map[];
      var itemsToSelect := config.numberOfGlobalItemsToShow;
      if itemsToSelect <= 0 {
        return;
      }
      var globalCandidates := GlobalCandidates(itemManager.allPossibleItems);
      if |globalCandidates| == 0 {
        return;
      }
      var availableSlots := Shuffled(SlotList(config.marketSlotToYmlKey.Keys), shuffleDraws);
      var selectedCount: nat := 0;
      while selectedCount < itemsToSelect && |globalCandidates| > 0 && |availableSlots| > 0
        invariant Selection(globalAssignedItems, globalCandidates, availableSlots, selectedCount, itemsToSelect, picks, rolls)
               == CycleSelection(picks, rolls, shuffleDraws)
        decreases |availableSlots|
      {
        var selected := itemManager.GetRandomWeightedItemFromList(globalCandidates, picks(selectedCount));
        if selected.Some? {
          var slot := availableSlots[0];
          availableSlots := availableSlots[1..];
          var pmi := RollAllocation(selected.value, rolls(selectedCount));
          globalAssignedItems := globalAssignedItems[slot := pmi];
          globalCandidates := RemoveFirstWithKey(globalCandidates, selected.value.key);
          selectedCount := selectedCount + 1;
        } else {
          break;
        }
      }
    }

    /** `getRemainingStock`. */
    function GetRemainingStock(key: string): int
      reads this
    {
      RemainingStock(globalItemStock, key)
    }

    /** `decrementStock`: one unit off a positive count; unknown keys, 0 and -1 (infinite) stay. */
    method DecrementStock(key: string)
      modifies this`globalItemStock
      ensures globalItemStock == Decremented(old(globalItemStock), key)
    {
      if key in globalItemStock && globalItemStock[key] > 0 {
        globalItemStock := globalItemStock[key := globalItemStock[key] - 1];
      }
    }

    /** `markSlotAsRevealed`. */
    method MarkSlotAsRevealed(player: PlayerId, guiSlot: int)
      modifies this`playerRevealedSlots
      ensures playerRevealedSlots == MarkedRevealed(old(playerRevealedSlots), player, guiSlot)
      ensures IsSlotRevealed(player, guiSlot)
    {
      var revealed := if player in playerRevealedSlots then playerRevealedSlots[player] else {};
      playerRevealedSlots := playerRevealedSlots[player := revealed + {guiSlot}];
    }

    /** `isSlotRevealed`. */
    predicate IsSlotRevealed(player: PlayerId, guiSlot: int)
      reads this
    {
      IsRevealed(playerRevealedSlots, player, guiSlot)
    }

    /** `getFormattedTimeRemaining`. */
    function FormattedTimeRemaining(): string
      reads this
    {
      FormatTime(timeRemainingSeconds)
    }

    /**
     * `getOrAssignPlayerItemForSlot`: a global slot shows its global item; a
     * slot the player already has keeps its item; otherwise up to 50 draws
     * from the non-global entries look for a key the player does not already
     * see, and the first such draw is rolled and kept for the slot. The
     * player's (possibly empty) assignment map exists afterwards either way,
     * except for global slots. The configured item key of the slot is unused.
     */
    method GetOrAssignPlayerItemForSlot(player: PlayerId, guiSlot: int, ymlItemSourceKey: string,
                                        picks: nat -> real, rolls: nat -> real)
      returns (r: Option<PlayerMarketItem>)
      modifies this`playerAssignedItems
      ensures guiSlot in globalAssignedItems ==>
        r == Some(globalAssignedItems[guiSlot]) && playerAssignedItems == old(playerAssignedItems)
      ensures guiSlot !in globalAssignedItems && player in old(playerAssignedItems) && guiSlot in old(playerAssignedItems)[player] ==>
        r == Some(old(playerAssignedItems)[player][guiSlot]) && playerAssignedItems == old(playerAssignedItems)
      ensures var mine := if player in old(playerAssignedItems) then old(playerAssignedItems)[player] else map[];
        var pick := RetryPick(PersonalPool(itemManager.allPossibleItems), AssignedKeys(mine, globalAssignedItems), picks, 0);
        guiSlot !in globalAssignedItems && guiSlot !in mine ==>
          && (pick.None? ==> r.None? && playerAssignedItems == old(playerAssignedItems)[player := mine])
          && (pick.Some? ==> r == Some(RollAllocation(pick.value, rolls(0)))
                             && playerAssignedItems == old(playerAssignedItems)[player := mine[guiSlot := r.value]])
      ensures var mine := if player in old(playerAssignedItems) then old(playerAssignedItems)[player] else map[];
        guiSlot !in globalAssignedItems && OffersDistinct(mine, globalAssignedItems) ==>
          OffersDistinct(playerAssignedItems[player], globalAssignedItems)
      ensures r == GetPlayerAssignedItem(player, guiSlot)
      ensures forall s :: s != guiSlot ==> GetPlayerAssignedItem(player, s) == old(GetPlayerAssignedItem(player, s))
      ensures playerAssignedItems - {player} == old(playerAssignedItems) - {player}
      ensures playerAssignedItems == AssignedForSlot(old(playerAssignedItems), globalAssignedItems, itemManager.allPossibleItems,
                                                     player, guiSlot, picks, rolls)
    {
      if guiSlot in globalAssignedItems {
        return Some(globalAssignedItems[guiSlot]);
      }
      EnsurePlayerMap(player);
      var playerItems := playerAssignedItems[player];
      if guiSlot in playerItems {
        return Some(playerItems[guiSlot]);
      }
      r := AssignNewItem(player, guiSlot, picks, rolls);
    }

    /** `computeIfAbsent(uuid, k -> new ConcurrentHashMap<>())`: an empty assignment map for a player without one. */
    method EnsurePlayerMap(player: PlayerId)
      modifies this`playerAssignedItems
      ensures playerAssignedItems == old(playerAssignedItems)[player := if player in old(playerAssignedItems) then old(playerAssignedItems)[player] else map[]]
      ensures forall s :: GetPlayerAssignedItem(player, s) == old(GetPlayerAssignedItem(player, s))
      ensures playerAssignedItems - {player} == old(playerAssignedItems) - {player}
    {
      if player !in playerAssignedItems {
        UpdateLeavesOthers(playerAssignedItems, player, map[]);
        playerAssignedItems := playerAssignedItems[player := map[]];
      } else {
        assert playerAssignedItems == playerAssignedItems[player := playerAssignedItems[player]];
      }
    }

    /** The drawing part of `getOrAssignPlayerItemForSlot`, for a slot the player has no item in yet. */
    method AssignNewItem(player: PlayerId, guiSlot: int, picks: nat -> real, rolls: nat -> real)
      returns (r: Option<PlayerMarketItem>)
      requires guiSlot !in globalAssignedItems && player in playerAssignedItems && guiSlot !in playerAssignedItems[player]
      modifies this`playerAssignedItems
      ensures var mine := old(playerAssignedItems)[player];
        var pick := RetryPick(PersonalPool(itemManager.allPossibleItems), AssignedKeys(mine, globalAssignedItems), picks, 0);
          && (pick.None? ==> r.None? && playerAssignedItems == old(playerAssignedItems))
          && (pick.Some? ==> r == Some(RollAllocation(pick.value, rolls(0)))
                             && playerAssignedItems == old(playerAssignedItems)[player := mine[guiSlot := r.value]])
          && (OffersDistinct(mine, globalAssignedItems) ==> OffersDistinct(playerAssignedItems[player], globalAssignedItems))
      ensures r == GetPlayerAssignedItem(player, guiSlot)
      ensures forall s :: s != guiSlot ==> GetPlayerAssignedItem(player, s) == old(GetPlayerAssignedItem(player, s))
      ensures playerAssignedItems - {player} == old(playerAssignedItems) - {player}
    {
      var playerItems := playerAssignedItems[player];
      var alreadyAssignedKeys := AssignedKeys(playerItems, globalAssignedItems);
      var personalItemPool := PersonalPool(itemManager.allPossibleItems);
      var newItem := DrawUnassigned(personalItemPool, alreadyAssignedKeys, picks);
      if newItem.Some? {
        var playerMarketItem := RollAllocation(newItem.value, rolls(0));
        if OffersDistinct(playerItems, globalAssignedItems) {
          AssignKeepsOffersDistinct(playerItems, globalAssignedItems, personalItemPool, picks, guiSlot, rolls(0));
        }
        UpdateLeavesOthers(playerAssignedItems, player, playerItems[guiSlot := playerMarketItem]);
        playerAssignedItems := playerAssignedItems[player := playerItems[guiSlot := playerMarketItem]];
        return Some(playerMarketItem);
      }
      return None;
    }

    /** The retry loop of `getOrAssignPlayerItemForSlot`: up to 50 draws for a key not yet assigned. */
    method DrawUnassigned(pool: seq<ConfiguredItem>, excluded: set<string>, picks: nat -> real)
      returns (newItem: Option<ConfiguredItem>)
      ensures newItem == RetryPick(pool, excluded, picks, 0)
    {
      newItem := None;
      var attempts := 0;
      while attempts < MaxAttempts
        invariant 0 <= attempts <= MaxAttempts
        invariant RetryPick(pool, excluded, picks, attempts) == RetryPick(pool, excluded, picks, 0)
        decreases MaxAttempts - attempts
      {
        var potentialItem := itemManager.GetRandomWeightedItemFromList(pool, picks(attempts));
        if potentialItem.Some? && potentialItem.value.key !in excluded {
          newItem := potentialItem;
          break;
        }
        attempts := attempts + 1;
      }
    }

    /** `getPlayerAssignedItem`: the global item of the slot, else the player's, else nothing. */
    function GetPlayerAssignedItem(player: PlayerId, guiSlot: int): (r: Option<PlayerMarketItem>)
      reads this
      ensures guiSlot in globalAssignedItems ==> r == Some(globalAssignedItems[guiSlot])
      ensures r.None? <==> guiSlot !in globalAssignedItems && (player !in playerAssignedItems || guiSlot !in playerAssignedItems[player])
    {
      if guiSlot in globalAssignedItems then Some(globalAssignedItems[guiSlot])
      else if player in playerAssignedItems && guiSlot in playerAssignedItems[player] then Some(playerAssignedItems[player][guiSlot])
      else None
    }

    /** `recordPlayerPurchase`: the key joins the player's set (GLOBAL mode) or their count goes up (PLAYER mode). */
    method RecordPlayerPurchase(player: PlayerId, key: string)
      modifies this`playerPurchasedItemKeys, this`playerPurchaseCounts
      ensures config.stockMode == GLOBAL ==>
        playerPurchasedItemKeys == RecordedKeys(old(playerPurchasedItemKeys), player, key) && playerPurchaseCounts == old(playerPurchaseCounts)
      ensures config.stockMode == PLAYER ==>
        playerPurchaseCounts == RecordedCounts(old(playerPurchaseCounts), player, key) && playerPurchasedItemKeys == old(playerPurchasedItemKeys)
    {
      if config.stockMode == GLOBAL {
        var keys := if player in playerPurchasedItemKeys then playerPurchasedItemKeys[player] else {};
        playerPurchasedItemKeys := playerPurchasedItemKeys[player := keys + {key}];
      } else {
        var counts := if player in playerPurchaseCounts then playerPurchaseCounts[player] else map[];
        var count := if key in counts then counts[key] + 1 else 1;
        playerPurchaseCounts := playerPurchaseCounts[player := counts[key := count]];
      }
    }

    /** `hasPlayerMetPurchaseLimit`, under the configured stock mode. */
    predicate HasPlayerMetPurchaseLimit(player: PlayerId, item: ConfiguredItem)
      reads this, config
    {
      LimitMet(config.stockMode, playerPurchasedItemKeys, playerPurchaseCounts, player, item)
    }

    /** `getPlayerPurchaseCount`. */
    function GetPlayerPurchaseCount(player: PlayerId, key: string): int
      reads this
    {
      PurchaseCount(playerPurchaseCounts, player, key)
    }
  }
}
