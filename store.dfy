/**
 * The pool store: the handlers of App.tsx that replace the list of pools
 * (and, for deleting a custom die, the registry too). Each handler's state
 * update `setPools(prev => ...)` is a function from the old pools to the new
 * ones; identifiers, draws and clock readings are parameters.
 */
module Store {
  import opened Wrappers
  import opened Text
  import opened Types
  import opened Seqs
  import opened Registry
  import opened Bag
  import opened Threshold
  import opened Roll
  import opened History

  /** Replaces the pools whose identifier is `id` by `f` of them (`prev.map(p => p.id === id ? f(p) : p)`). */
  function AtPool(pools: seq<DicePool>, id: string, f: DicePool -> DicePool): (r: seq<DicePool>)
    ensures |r| == |pools|
    ensures forall i :: 0 <= i < |r| ==> r[i] == if pools[i].id == id then f(pools[i]) else pools[i]
  {
    seq(|pools|, i requires 0 <= i < |pools| => if pools[i].id == id then f(pools[i]) else pools[i])
  }

  /** Replaces the entries whose identifier is `id` by `f` of them. */
  function AtEntry(entries: seq<DiceEntry>, id: string, f: DiceEntry -> DiceEntry): (r: seq<DiceEntry>)
    ensures |r| == |entries|
    ensures forall k :: 0 <= k < |r| ==> r[k] == if entries[k].id == id then f(entries[k]) else entries[k]
  {
    seq(|entries|, k requires 0 <= k < |entries| => if entries[k].id == id then f(entries[k]) else entries[k])
  }

  // ---------------------------------------------------------------- pools

  /** `PRESET_COLORS.reduce((acc, color) => ({ ...acc, [color]: 5 }), {})` */
  function PresetDefinition(): (def: seq<BagSlot>)
    ensures |def| == |PRESET_COLORS|
    ensures forall i :: 0 <= i < |def| ==> def[i] == BagSlot(PRESET_COLORS[i], 5)
  {
    seq(|PRESET_COLORS|, i requires 0 <= i < |PRESET_COLORS| => BagSlot(PRESET_COLORS[i], 5))
  }

  /** The pool `addPool(mode)` builds, before a blind-bag pool's bag is filled. */
  function FreshPool(poolId: string, entryId: string, mode: PoolMode): DicePool {
    var entry := DefaultEntry(entryId, Standard(6));
    DicePool(
      poolId,
      if mode == BlindBagMode then BLIND_BAG_POOL_NAME else DEFAULT_POOL_NAME,
      mode,
      [if mode == BlindBagMode then entry.(thresholdType := NoThreshold) else entry],
      [], None, [], PRESET_COLORS, PresetDefinition(), [])
  }

  /** `addPool(mode)`: appends a new pool; a blind-bag pool starts with a full bag. */
  method AddPool(pools: seq<DicePool>, mode: PoolMode, poolId: string, entryId: string) returns (r: seq<DicePool>)
    ensures |r| == |pools| + 1 && r[..|pools|] == pools
    ensures r[|pools|] == FreshPool(poolId, entryId, mode).(currentBag := r[|pools|].currentBag)
    ensures r[|pools|].currentBag == if mode == BlindBagMode then Expand(PresetDefinition()) else []
  {
    var newPool := FreshPool(poolId, entryId, mode);
    if mode == BlindBagMode {
      newPool := RefillBag(newPool);
    }
    r := pools + [newPool];
  }

  /** The preset colours are distinct. */
  lemma PresetColorsDistinct()
    ensures DistinctColors(PresetDefinition())
  {
    var def := PresetDefinition();
    forall i, j | 0 <= i < j < |def|
      ensures def[i].color != def[j].color
    {
      assert PRESET_COLORS[i][1] != PRESET_COLORS[j][1] || PRESET_COLORS[i][2] != PRESET_COLORS[j][2];
    }
  }

  /** A new blind bag holds five of each of the ten preset colours, fifty in all. */
  lemma NewBagHoldsFiveOfEach(c: string)
    ensures |Expand(PresetDefinition())| == 50
    ensures multiset(Expand(PresetDefinition()))[c] == if c in PRESET_COLORS then 5 else 0
  {
    var def := PresetDefinition();
    PresetColorsDistinct();
    ExpandCounts(def, c);
    ExpandLength(def);
    FiveEach(def, |def|);
    assert def[..|def|] == def;
    if c in PRESET_COLORS {
      var i :| 0 <= i < |PRESET_COLORS| && PRESET_COLORS[i] == c;
      LookupDistinct(def, i);
    } else {
      assert forall k :: 0 <= k < |def| ==> def[k].color != c;
    }
  }

  lemma {:induction false} FiveEach(def: seq<BagSlot>, n: nat)
    requires n <= |def| && forall i :: 0 <= i < |def| ==> def[i].qty == 5
    ensures TotalCopies(def[..n]) == 5 * n
  {
    if n > 0 {
      assert def[..n][..n - 1] == def[..n - 1];
      FiveEach(def, n - 1);
    }
  }

  lemma {:induction false} LookupDistinct(def: seq<BagSlot>, i: nat)
    requires DistinctColors(def) && i < |def|
    ensures Lookup(def, def[i].color) == Some(def[i].qty)
  {
    if i < |def| - 1 {
      assert def[..|def| - 1][i] == def[i];
      LookupDistinct(def[..|def| - 1], i);
    }
  }

  /**
   * The first roll of a new standard pool: one d6 result, a success from 4
   * up, recorded as the only event.
   */
  lemma FreshPoolFirstRoll(poolId: string, entryId: string, dice: seq<CustomDie>, x: int, eventId: string, now: int)
    requires 0 <= x < 6
    ensures RollFits(FreshPool(poolId, entryId, StandardMode), dice, [x])
    ensures var p := Rolled(FreshPool(poolId, entryId, StandardMode), dice, [x], eventId, now);
      && p.results == [RollResult(Num(x + 1), Some(x + 1 >= 4), None, false, Standard(6))]
      && |p.history| == 1
      && p.history[0].sum == x + 1
      && p.history[0].successes == (if x + 1 >= 4 then 1 else 0)
  {
    var pool := FreshPool(poolId, entryId, StandardMode);
    assert pool.entries[1..] == [];
    var results := StandardResults(pool.entries, dice, [x]);
    assert results == [RollResult(Num(x + 1), Some(x + 1 >= 4), None, false, Standard(6))];
    assert results[1..] == [];
    assert RollOutcome(pool, dice, [x]).0 == results;
    assert Sum(results) == x + 1;
    assert Successes(results) == (if x + 1 >= 4 then 1 else 0);
  }

  /**
   * A default entry is judged "at least 4": a face that reads as a number
   * succeeds from 4 up, and any other text fails.
   */
  lemma DefaultEntryVerdict(id: string, t: DiceType, v: Value)
    ensures NumericValue(v).Some? ==>
      CalculateIsSuccess(v, DefaultEntry(id, t)) == Some(NumericValue(v).value >= 4)
    ensures NumericValue(v).None? ==> CalculateIsSuccess(v, DefaultEntry(id, t)) == Some(false)
  {
  }

  /** `deletePool(id)` */
  function DeletePool(pools: seq<DicePool>, id: string): (r: seq<DicePool>)
    ensures forall i :: 0 <= i < |r| ==> r[i].id != id && r[i] in pools
    ensures forall i :: 0 <= i < |pools| && pools[i].id != id ==> pools[i] in r
    ensures forall p :: multiset(r)[p] == if p.id != id then multiset(pools)[p] else 0
    ensures IsSubsequence(r, pools)
  {
    var keep := (p: DicePool) => p.id != id;
    FilterIsSubsequence(pools, keep);
    forall p ensures multiset(Filter(pools, keep))[p] == if p.id != id then multiset(pools)[p] else 0 {
      FilterCount(pools, keep, p);
    }
    Filter(pools, keep)
  }

  /** `updatePool(id, { name })`, the only update the pool editor makes. */
  function UpdatePool(pools: seq<DicePool>, id: string, name: string): (r: seq<DicePool>)
    ensures |r| == |pools|
    ensures forall i :: 0 <= i < |r| ==> r[i] == if pools[i].id == id then pools[i].(name := name) else pools[i]
  {
    AtPool(pools, id, (p: DicePool) => p.(name := name))
  }

  /** `resetBag(poolId)`: the pool's bag is refilled from its definition. */
  function ResetBag(pools: seq<DicePool>, poolId: string): (r: seq<DicePool>)
    ensures |r| == |pools|
    ensures forall i :: 0 <= i < |r| && pools[i].id != poolId ==> r[i] == pools[i]
    ensures forall i :: 0 <= i < |r| && pools[i].id == poolId ==>
      && r[i] == pools[i].(currentBag := r[i].currentBag)
      && (DistinctColors(pools[i].bagDefinition) ==>
            forall c :: multiset(r[i].currentBag)[c] == Wanted(pools[i].bagDefinition, c))
  {
    var r := AtPool(pools, poolId, (p: DicePool) => p.(currentBag := Expand(p.bagDefinition)));
    forall i, c | 0 <= i < |r| && pools[i].id == poolId && DistinctColors(pools[i].bagDefinition)
      ensures multiset(r[i].currentBag)[c] == Wanted(pools[i].bagDefinition, c)
    {
      ExpandCounts(pools[i].bagDefinition, c);
    }
    r
  }

  /** `updateBagDefinition(poolId, color, qty)`: edits the definition only, never the live bag. */
  function UpdateBagDefinition(pools: seq<DicePool>, poolId: string, color: string, qty: int): (r: seq<DicePool>)
    ensures |r| == |pools|
    ensures forall i :: 0 <= i < |r| && pools[i].id != poolId ==> r[i] == pools[i]
    ensures forall i :: 0 <= i < |r| && pools[i].id == poolId ==>
      && r[i] == pools[i].(bagDefinition := r[i].bagDefinition)
      && Lookup(r[i].bagDefinition, color) == Some(Repetitions(qty))
      && (forall c :: c != color ==> Lookup(r[i].bagDefinition, c) == Lookup(pools[i].bagDefinition, c))
  {
    AtPool(pools, poolId, (p: DicePool) => p.(bagDefinition := UpdateQuantity(p.bagDefinition, color, qty)))
  }

  /** `clearGlobalHistory()`: every pool's history is emptied. */
  function ClearGlobalHistory(pools: seq<DicePool>): (r: seq<DicePool>)
    ensures |r| == |pools|
    ensures forall i :: 0 <= i < |r| ==> r[i] == pools[i].(history := [])
  {
    seq(|pools|, i requires 0 <= i < |pools| => pools[i].(history := []))
  }

  /** After clearing, the merged history is empty too. */
  lemma {:induction false} ClearedHistoryIsEmpty(pools: seq<DicePool>)
    ensures AllEvents(ClearGlobalHistory(pools)) == []
    ensures GlobalHistory(ClearGlobalHistory(pools)) == []
  {
    var r := ClearGlobalHistory(pools);
    if pools != [] {
      assert ClearGlobalHistory(pools)[1..] == ClearGlobalHistory(pools[1..]);
      ClearedHistoryIsEmpty(pools[1..]);
    }
  }

  /** `clearResults()`: every pool's results and last-roll time are cleared. */
  function ClearResults(pools: seq<DicePool>): (r: seq<DicePool>)
    ensures |r| == |pools|
    ensures forall i :: 0 <= i < |r| ==> r[i] == pools[i].(results := [], lastRolledAt := None)
  {
    seq(|pools|, i requires 0 <= i < |pools| => pools[i].(results := [], lastRolledAt := None))
  }

  // -------------------------------------------------------------- entries

  /** `addDiceEntry(poolId)`: appends a default d6 entry. */
  function AddDiceEntry(pools: seq<DicePool>, poolId: string, entryId: string): (r: seq<DicePool>)
    ensures |r| == |pools|
    ensures forall i :: 0 <= i < |r| && pools[i].id != poolId ==> r[i] == pools[i]
    ensures forall i :: 0 <= i < |r| && pools[i].id == poolId ==>
      r[i] == pools[i].(entries := pools[i].entries + [DefaultEntry(entryId, Standard(6))])
  {
    AtPool(pools, poolId, (p: DicePool) => p.(entries := p.entries + [DefaultEntry(entryId, Standard(6))]))
  }

  /** The entries half of `removeDiceEntry`: nothing happens to a pool with at most one entry. */
  function RemoveEntry(entries: seq<DiceEntry>, entryId: string): (r: seq<DiceEntry>)
    ensures |entries| <= 1 ==> r == entries
    ensures |entries| > 1 ==>
      && (forall k :: 0 <= k < |r| ==> r[k].id != entryId && r[k] in entries)
      && (forall k :: 0 <= k < |entries| && entries[k].id != entryId ==> entries[k] in r)
      && IsSubsequence(r, entries)
      && (forall x :: multiset(r)[x] == if x.id != entryId then multiset(entries)[x] else 0)
  {
    if |entries| <= 1 then entries
    else
      var keep := (e: DiceEntry) => e.id != entryId;
      FilterIsSubsequence(entries, keep);
      forall x ensures multiset(Filter(entries, keep))[x] == if x.id != entryId then multiset(entries)[x] else 0 {
        FilterCount(entries, keep, x);
      }
      Filter(entries, keep)
  }

  /** `removeDiceEntry(poolId, entryId)` */
  function RemoveDiceEntry(pools: seq<DicePool>, poolId: string, entryId: string): (r: seq<DicePool>)
    ensures |r| == |pools|
    ensures forall i :: 0 <= i < |r| && pools[i].id != poolId ==> r[i] == pools[i]
    ensures forall i :: 0 <= i < |r| && pools[i].id == poolId ==>
      r[i] == pools[i].(entries := RemoveEntry(pools[i].entries, entryId))
  {
    AtPool(pools, poolId, (p: DicePool) => p.(entries := RemoveEntry(p.entries, entryId)))
  }

  predicate DistinctEntryIds(entries: seq<DiceEntry>) {
    forall k, m :: 0 <= k < m < |entries| ==> entries[k].id != entries[m].id
  }

  /** With distinct identifiers, removing an entry never leaves a pool without entries. */
  lemma RemoveKeepsAnEntry(entries: seq<DiceEntry>, entryId: string)
    requires DistinctEntryIds(entries) && |entries| >= 1
    ensures |RemoveEntry(entries, entryId)| >= 1
    ensures |entries| > 1 && (exists k :: 0 <= k < |entries| && entries[k].id == entryId) ==>
      |RemoveEntry(entries, entryId)| == |entries| - 1
  {
    if |entries| > 1 {
      var keep := (e: DiceEntry) => e.id != entryId;
      if k :| 0 <= k < |entries| && entries[k].id == entryId {
        FilterDropsOne(entries, keep, k);
      } else {
        FilterKeepsAll(entries, keep);
      }
    }
  }

  /** Adding an entry and then removing it by its fresh identifier gives the pools back. */
  lemma AddThenRemoveEntry(pools: seq<DicePool>, poolId: string, entryId: string)
    requires forall i :: 0 <= i < |pools| && pools[i].id == poolId ==>
      |pools[i].entries| >= 1 && forall k :: 0 <= k < |pools[i].entries| ==> pools[i].entries[k].id != entryId
    ensures RemoveDiceEntry(AddDiceEntry(pools, poolId, entryId), poolId, entryId) == pools
  {
    var r := RemoveDiceEntry(AddDiceEntry(pools, poolId, entryId), poolId, entryId);
    forall i | 0 <= i < |pools|
      ensures r[i] == pools[i]
    {
      if pools[i].id == poolId {
        var entries := pools[i].entries;
        var keep := (e: DiceEntry) => e.id != entryId;
        FilterAppend(entries, DefaultEntry(entryId, Standard(6)), keep);
        FilterKeepsAll(entries, keep);
      }
    }
  }

  /** The fields a `Partial<DiceEntry>` passed to `updateDiceEntry` may carry. */
  datatype EntryUpdate = EntryUpdate(
    diceType: Option<DiceType>,
    count: Option<int>,
    color: Option<Option<string>>,
    thresholdType: Option<ThresholdKind>,
    threshold: Option<Value>,
    targetValues: Option<seq<Value>>)

  /** `{ ...e, ...updates }` */
  function Merge(e: DiceEntry, u: EntryUpdate): (r: DiceEntry)
    ensures r.id == e.id
    ensures u.diceType.Some? ==> r.diceType == u.diceType.value
    ensures u.diceType.None? ==> r.diceType == e.diceType
    ensures u.count.Some? ==> r.count == u.count.value
    ensures u.count.None? ==> r.count == e.count
    ensures u.color.Some? ==> r.color == u.color.value
    ensures u.color.None? ==> r.color == e.color
    ensures u.thresholdType.Some? ==> r.thresholdType == u.thresholdType.value
    ensures u.thresholdType.None? ==> r.thresholdType == e.thresholdType
    ensures u.threshold.Some? ==> r.threshold == u.threshold.value
    ensures u.threshold.None? ==> r.threshold == e.threshold
    ensures u.targetValues.Some? ==> r.targetValues == u.targetValues.value
    ensures u.targetValues.None? ==> r.targetValues == e.targetValues
  {
    e.(diceType := u.diceType.GetOr(e.diceType),
       count := u.count.GetOr(e.count),
       color := u.color.GetOr(e.color),
       thresholdType := u.thresholdType.GetOr(e.thresholdType),
       threshold := u.threshold.GetOr(e.threshold),
       targetValues := u.targetValues.GetOr(e.targetValues))
  }

  /**
   * The entry half of `updateDiceEntry`: the update is merged in, and a die
   * type that looks custom keeps only "no rule" or "match any".
   */
  function EditEntry(e: DiceEntry, u: EntryUpdate): (r: DiceEntry)
    ensures r == Merge(e, u).(thresholdType := r.thresholdType)
    ensures HasCustomShape(r.diceType) ==> r.thresholdType in {NoThreshold, MatchAny}
    ensures HasCustomShape(r.diceType) && Merge(e, u).thresholdType !in {NoThreshold, MatchAny} ==>
      r.thresholdType == MatchAny
    ensures !HasCustomShape(r.diceType) || Merge(e, u).thresholdType in {NoThreshold, MatchAny} ==>
      r.thresholdType == Merge(e, u).thresholdType
  {
    var updated := Merge(e, u);
    if HasCustomShape(updated.diceType) && updated.thresholdType != MatchAny && updated.thresholdType != NoThreshold then
      updated.(thresholdType := MatchAny)
    else
      updated
  }

  /** `updateDiceEntry(poolId, entryId, updates)` */
  function UpdateDiceEntry(pools: seq<DicePool>, poolId: string, entryId: string, u: EntryUpdate): (r: seq<DicePool>)
    ensures |r| == |pools|
    ensures forall i :: 0 <= i < |r| && pools[i].id != poolId ==> r[i] == pools[i]
    ensures forall i :: 0 <= i < |r| && pools[i].id == poolId ==>
      && r[i] == pools[i].(entries := r[i].entries)
      && |r[i].entries| == |pools[i].entries|
      && forall k :: 0 <= k < |r[i].entries| ==>
           r[i].entries[k] == if pools[i].entries[k].id == entryId then EditEntry(pools[i].entries[k], u) else pools[i].entries[k]
  {
    AtPool(pools, poolId, (p: DicePool) => p.(entries := AtEntry(p.entries, entryId, (e: DiceEntry) => EditEntry(e, u))))
  }

  /**
   * The editor and the roller disagree on what is custom: a die type "6"
   * keeps a numeric rule when edited, yet rolls as the registered die with
   * identifier "6" when there is one.
   */
  lemma ShapeAndLookupDisagree(e: DiceEntry, d: CustomDie, u: EntryUpdate)
    requires d.id == "6"
    requires u == EntryUpdate(Some(Custom("6")), None, None, Some(AtLeast), None, None)
    ensures EditEntry(e, u).thresholdType == AtLeast
    ensures FindDie([d], EditEntry(e, u).diceType) == Some(d)
  {
    assert STANDARD_DICE_TYPES[2] == "6";
  }

  /**
   * The entry half of `toggleEntryTargetValue`: a value whose normalized
   * form is among the targets is removed (every target of that form),
   * otherwise it is appended.
   */
  function ToggleTarget(targets: seq<Value>, value: Value): (r: seq<Value>)
    ensures MatchesTarget(targets, Key(value)) ==>
      && (forall k :: 0 <= k < |r| ==> Key(r[k]) != Key(value) && r[k] in targets)
      && (forall k :: 0 <= k < |targets| && Key(targets[k]) != Key(value) ==> targets[k] in r)
      && |r| < |targets|
      && IsSubsequence(r, targets)
      && (forall x :: multiset(r)[x] == if Key(x) != Key(value) then multiset(targets)[x] else 0)
    ensures !MatchesTarget(targets, Key(value)) ==> r == targets + [value]
  {
    var valStr := Key(value);
    if MatchesTarget(targets, valStr) then
      var keep := (v: Value) => Key(v) != valStr;
      var k :| 0 <= k < |targets| && Key(targets[k]) == valStr;
      FilterShorter(targets, keep, k);
      FilterIsSubsequence(targets, keep);
      forall x ensures multiset(Filter(targets, keep))[x] == if Key(x) != valStr then multiset(targets)[x] else 0 {
        FilterCount(targets, keep, x);
      }
      Filter(targets, keep)
    else
      targets + [value]
  }

  lemma {:induction false} FilterShorter(s: seq<Value>, keep: Value -> bool, k: nat)
    requires k < |s| && !keep(s[k])
    ensures |Filter(s, keep)| < |s|
  {
    if k > 0 {
      FilterShorter(s[1..], keep, k - 1);
    }
  }

  /** Toggling a value flips whether it matches the targets. */
  lemma ToggleFlipsMatch(targets: seq<Value>, value: Value)
    ensures MatchesTarget(ToggleTarget(targets, value), Key(value)) == !MatchesTarget(targets, Key(value))
  {
    var r := ToggleTarget(targets, value);
    if !MatchesTarget(targets, Key(value)) {
      assert Key(r[|targets|]) == Key(value);
    }
  }

  /** Toggling an absent value twice gives the targets back. */
  lemma ToggleTwiceRestores(targets: seq<Value>, value: Value)
    requires !MatchesTarget(targets, Key(value))
    ensures ToggleTarget(ToggleTarget(targets, value), value) == targets
  {
    var added := targets + [value];
    assert Key(added[|targets|]) == Key(value);
    var keep := (v: Value) => Key(v) != Key(value);
    FilterAppend(targets, value, keep);
    FilterKeepsAll(targets, keep);
  }

  /** On a "match any" entry, toggling a value turns its classification around. */
  lemma ToggleFlipsSuccess(e: DiceEntry, value: Value)
    requires e.thresholdType == MatchAny
    ensures CalculateIsSuccess(value, e.(targetValues := ToggleTarget(e.targetValues, value)))
         == Some(!CalculateIsSuccess(value, e).value)
  {
    ToggleFlipsMatch(e.targetValues, value);
    MatchAnyMeaning(value, e);
    MatchAnyMeaning(value, e.(targetValues := ToggleTarget(e.targetValues, value)));
  }

  /** `toggleEntryTargetValue(poolId, entryId, value)` */
  function ToggleEntryTargetValue(pools: seq<DicePool>, poolId: string, entryId: string, value: Value): (r: seq<DicePool>)
    ensures |r| == |pools|
    ensures forall i :: 0 <= i < |r| && pools[i].id != poolId ==> r[i] == pools[i]
    ensures forall i :: 0 <= i < |r| && pools[i].id == poolId ==>
      && r[i] == pools[i].(entries := r[i].entries)
      && |r[i].entries| == |pools[i].entries|
      && forall k :: 0 <= k < |r[i].entries| ==>
           r[i].entries[k] == if pools[i].entries[k].id == entryId
             then pools[i].entries[k].(targetValues := ToggleTarget(pools[i].entries[k].targetValues, value))
             else pools[i].entries[k]
  {
    AtPool(pools, poolId, (p: DicePool) =>
      p.(entries := AtEntry(p.entries, entryId, (e: DiceEntry) => e.(targetValues := ToggleTarget(e.targetValues, value)))))
  }

  // ---------------------------------------------------------- custom dice

  /** `e.diceType === id ? { ...e, diceType: 6 } : e` */
  function Repoint(e: DiceEntry, id: string): DiceEntry {
    if e.diceType == Custom(id) then e.(diceType := Standard(6)) else e
  }

  /**
   * `deleteCustomDie(id)`: the die leaves the registry and every entry that
   * named it becomes a d6; no other entry changes.
   */
  function DeleteCustomDie(dice: seq<CustomDie>, pools: seq<DicePool>, id: string): (r: (seq<CustomDie>, seq<DicePool>))
    ensures r.0 == RemoveDie(dice, id)
    ensures |r.1| == |pools|
    ensures forall i :: 0 <= i < |pools| ==>
      && r.1[i] == pools[i].(entries := r.1[i].entries)
      && |r.1[i].entries| == |pools[i].entries|
      && forall k :: 0 <= k < |pools[i].entries| ==>
           && r.1[i].entries[k].diceType != Custom(id)
           && (pools[i].entries[k].diceType == Custom(id) ==> r.1[i].entries[k] == pools[i].entries[k].(diceType := Standard(6)))
           && (pools[i].entries[k].diceType != Custom(id) ==> r.1[i].entries[k] == pools[i].entries[k])
  {
    (RemoveDie(dice, id),
     seq(|pools|, i requires 0 <= i < |pools| =>
       pools[i].(entries := seq(|pools[i].entries|, k requires 0 <= k < |pools[i].entries| => Repoint(pools[i].entries[k], id)))))
  }

  /** Looking up any other die type finds the same die after a deletion. */
  lemma {:induction false} FindDieAfterRemove(dice: seq<CustomDie>, id: string, t: DiceType)
    requires t != Custom(id)
    ensures FindDie(RemoveDie(dice, id), t) == FindDie(dice, t)
  {
    if t.Custom? && dice != [] {
      FindDieAfterRemove(dice[1..], id, t);
      RemoveDieCons(dice, id);
      FindDieCons(dice, t.id);
      var r := RemoveDie(dice, id);
      if dice[0].id != id {
        FindDieCons(r, t.id);
      }
    }
  }

  lemma RemoveDieCons(dice: seq<CustomDie>, id: string)
    requires dice != []
    ensures dice[0].id != id ==>
      && RemoveDie(dice, id) != []
      && RemoveDie(dice, id)[0] == dice[0]
      && RemoveDie(dice, id)[1..] == RemoveDie(dice[1..], id)
    ensures dice[0].id == id ==> RemoveDie(dice, id) == RemoveDie(dice[1..], id)
  {
  }

  lemma FindDieCons(dice: seq<CustomDie>, id: string)
    requires dice != []
    ensures FindDie(dice, Custom(id)) == if dice[0].id == id then Some(dice[0]) else FindDie(dice[1..], Custom(id))
  {
  }

  /**
   * After a deletion, an entry that named the die rolls as a plain d6, and
   * every other entry finds the same die as before.
   */
  lemma DeletedDieRollsAsD6(dice: seq<CustomDie>, pools: seq<DicePool>, id: string, i: nat, k: nat)
    requires i < |pools| && k < |pools[i].entries|
    ensures var r := DeleteCustomDie(dice, pools, id);
      var before, after := pools[i].entries[k], r.1[i].entries[k];
      && (before.diceType == Custom(id) ==> FindDie(r.0, after.diceType).None? && StandardSides(after.diceType) == 6)
      && (before.diceType != Custom(id) ==> FindDie(r.0, after.diceType) == FindDie(dice, before.diceType))
  {
    var before := pools[i].entries[k];
    if before.diceType != Custom(id) {
      FindDieAfterRemove(dice, id, before.diceType);
    }
  }

  // ---------------------------------------------------------------- rolls

  /** What one roll of one pool takes from outside: the draws, the event identifier, the clock. */
  datatype Draw = Draw(rolls: seq<int>, eventId: string, now: int)

  /**
   * `rollPool(id)`: every pool with that identifier is rolled, pool `i`
   * with `draws[i]`; the others are unchanged.
   */
  method RollPoolById(pools: seq<DicePool>, dice: seq<CustomDie>, id: string, draws: seq<Draw>) returns (r: seq<DicePool>)
    requires |draws| == |pools|
    requires forall i :: 0 <= i < |pools| && pools[i].id == id ==> RollFits(pools[i], dice, draws[i].rolls)
    ensures |r| == |pools|
    ensures forall i :: 0 <= i < |r| && pools[i].id != id ==> r[i] == pools[i]
    ensures forall i :: 0 <= i < |r| && pools[i].id == id ==>
      r[i] == Rolled(pools[i], dice, draws[i].rolls, draws[i].eventId, draws[i].now)
  {
    ghost var want := (i: nat) requires i < |pools| && (pools[i].id == id ==> RollFits(pools[i], dice, draws[i].rolls)) =>
      if pools[i].id == id then Rolled(pools[i], dice, draws[i].rolls, draws[i].eventId, draws[i].now) else pools[i];
    r := [];
    for i := 0 to |pools|
      invariant |r| == i
      invariant forall j :: 0 <= j < i ==> want.requires(j) && r[j] == want(j)
    {
      var pool := pools[i];
      if pool.id == id {
        pool := RollPool(pool, dice, draws[i].rolls, draws[i].eventId, draws[i].now);
      }
      Seqs.AppendWanted(r, pool, want);
      r := r + [pool];
    }
    forall j | 0 <= j < |pools|
      ensures r[j] == want(j)
    {
    }
  }

  predicate DistinctPoolIds(pools: seq<DicePool>) {
    forall i, j :: 0 <= i < j < |pools| ==> pools[i].id != pools[j].id
  }

  /** `rollAllPools()`: `rollPool` for each pool in turn, pool `i` with `draws[i]`. */
  method RollAllPools(pools: seq<DicePool>, dice: seq<CustomDie>, draws: seq<Draw>) returns (r: seq<DicePool>)
    requires |draws| == |pools| && DistinctPoolIds(pools)
    requires forall i :: 0 <= i < |pools| ==> RollFits(pools[i], dice, draws[i].rolls)
    ensures |r| == |pools|
    ensures forall i :: 0 <= i < |r| ==> r[i] == Rolled(pools[i], dice, draws[i].rolls, draws[i].eventId, draws[i].now)
  {
    r := pools;
    for k := 0 to |pools|
      invariant RolledUpTo(pools, dice, draws, r, k)
    {
      forall i | 0 <= i < |r| && r[i].id == pools[k].id
        ensures RollFits(r[i], dice, draws[i].rolls)
      {
        assert i == k;
      }
      var before := r;
      r := RollPoolById(r, dice, pools[k].id, draws);
      RollAllStep(pools, dice, draws, before, r, k);
    }
  }

  /** The first `k` pools have been rolled and the rest are as they were. */
  predicate RolledUpTo(pools: seq<DicePool>, dice: seq<CustomDie>, draws: seq<Draw>, r: seq<DicePool>, k: nat)
    requires |draws| == |pools|
    requires forall i :: 0 <= i < |pools| ==> RollFits(pools[i], dice, draws[i].rolls)
  {
    && k <= |pools| && |r| == |pools|
    && (forall i :: 0 <= i < k ==> r[i] == Rolled(pools[i], dice, draws[i].rolls, draws[i].eventId, draws[i].now))
    && (forall i :: k <= i < |pools| ==> r[i] == pools[i])
  }

  lemma RollAllStep(pools: seq<DicePool>, dice: seq<CustomDie>, draws: seq<Draw>, r: seq<DicePool>, r2: seq<DicePool>, k: nat)
    requires |draws| == |pools| && DistinctPoolIds(pools) && k < |pools|
    requires forall i :: 0 <= i < |pools| ==> RollFits(pools[i], dice, draws[i].rolls)
    requires RolledUpTo(pools, dice, draws, r, k)
    requires |r2| == |r|
    requires forall i :: 0 <= i < |r| && r[i].id != pools[k].id ==> r2[i] == r[i]
    requires forall i :: 0 <= i < |r| && r[i].id == pools[k].id ==>
      RollFits(r[i], dice, draws[i].rolls) && r2[i] == Rolled(r[i], dice, draws[i].rolls, draws[i].eventId, draws[i].now)
    ensures RolledUpTo(pools, dice, draws, r2, k + 1)
  {
    forall i | 0 <= i < k
      ensures r2[i] == r[i]
    {
      RolledKeepsId(pools[i], dice, draws[i].rolls, draws[i].eventId, draws[i].now);
    }
    forall i | k < i < |pools|
      ensures r2[i] == pools[i]
    {
    }
  }

  lemma RolledKeepsId(pool: DicePool, dice: seq<CustomDie>, rolls: seq<int>, eventId: string, now: int)
    requires RollFits(pool, dice, rolls)
    ensures Rolled(pool, dice, rolls, eventId, now).id == pool.id
  {
  }
}
