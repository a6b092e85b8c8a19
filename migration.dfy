/**
 * The legacy migration run on the pools read back from storage
 * (App.tsx:75-89). Older saves kept one threshold rule per pool; the
 * migration copies it into every entry that lacks its own and drops the
 * pool-level fields. Stored records are untyped, so every field the
 * migration tests for is optional here.
 */
module Migration {
  import opened Wrappers
  import opened Types

  /** A stored entry: the threshold fields may be missing. */
  datatype StoredEntry = StoredEntry(
    id: string,
    diceType: DiceType,
    count: int,
    color: Option<string>,
    thresholdType: Option<ThresholdKind>,
    threshold: Option<Value>,
    targetValues: Option<seq<Value>>)

  /** A stored pool: the entries may be missing, and a legacy save has pool-level threshold fields. */
  datatype StoredPool = StoredPool(
    id: string,
    name: string,
    mode: PoolMode,
    entries: Option<seq<StoredEntry>>,
    results: seq<RollResult>,
    lastRolledAt: Option<int>,
    history: seq<RollEvent>,
    availableColors: seq<string>,
    bagDefinition: seq<BagSlot>,
    currentBag: seq<string>,
    thresholdType: Option<ThresholdKind>,
    threshold: Option<Value>,
    targetValues: Option<seq<Value>>)

  /** JavaScript truthiness of a threshold: 0 and the empty string are false. */
  predicate Truthy(v: Value) {
    match v
    case Num(n) => n != 0
    case Text(s) => s != ""
  }

  /** The pool has the legacy shape the migration looks for. */
  predicate IsLegacy(p: StoredPool) {
    (p.threshold.Some? || p.thresholdType.Some?) && p.entries.Some?
  }

  /**
   * One entry of a legacy pool: each threshold field the entry lacks is
   * taken from the pool, and failing that from the defaults (at least 4,
   * no targets).
   */
  function MigrateEntry(e: StoredEntry, p: StoredPool): (r: StoredEntry)
    ensures r.thresholdType.Some? && r.threshold.Some? && r.targetValues.Some?
    ensures r == e.(thresholdType := r.thresholdType, threshold := r.threshold, targetValues := r.targetValues)
    ensures e.thresholdType.Some? ==> r.thresholdType == e.thresholdType
    ensures e.threshold.Some? ==> r.threshold == e.threshold
    ensures e.targetValues.Some? ==> r.targetValues == e.targetValues
    ensures e.thresholdType.None? ==> r.thresholdType == Some(p.thresholdType.GetOr(AtLeast))
    ensures e.threshold.None? ==>
      r.threshold == Some(if p.threshold.Some? && Truthy(p.threshold.value) then p.threshold.value else Num(4))
    ensures e.targetValues.None? ==> r.targetValues == Some(p.targetValues.GetOr([]))
  {
    e.(thresholdType := Some(if e.thresholdType.Some? then e.thresholdType.value
                             else if p.thresholdType.Some? then p.thresholdType.value
                             else AtLeast),
       threshold := Some(if e.threshold.Some? then e.threshold.value
                         else if p.threshold.Some? && Truthy(p.threshold.value) then p.threshold.value
                         else Num(4)),
       targetValues := Some(if e.targetValues.Some? then e.targetValues.value
                            else if p.targetValues.Some? then p.targetValues.value
                            else []))
  }

  /** The migration of one stored pool; a pool without the legacy shape is kept as it is. */
  function MigratePool(p: StoredPool): (r: StoredPool)
    ensures !IsLegacy(p) ==> r == p
    ensures IsLegacy(p) ==>
      && r == p.(entries := r.entries, thresholdType := None, threshold := None, targetValues := None)
      && r.entries.Some? && |r.entries.value| == |p.entries.value|
      && forall k :: 0 <= k < |r.entries.value| ==> r.entries.value[k] == MigrateEntry(p.entries.value[k], p)
  {
    if IsLegacy(p) then
      var entries := p.entries.value;
      p.(entries := Some(seq(|entries|, k requires 0 <= k < |entries| => MigrateEntry(entries[k], p))),
         thresholdType := None, threshold := None, targetValues := None)
    else
      p
  }

  /** `rawPools.map(...)` */
  function MigratePools(pools: seq<StoredPool>): (r: seq<StoredPool>)
    ensures |r| == |pools| && forall i :: 0 <= i < |r| ==> r[i] == MigratePool(pools[i])
  {
    seq(|pools|, i requires 0 <= i < |pools| => MigratePool(pools[i]))
  }

  /** Every entry of the pool carries its own threshold rule. */
  predicate EntriesComplete(p: StoredPool) {
    p.entries.Some? &&
    forall k :: 0 <= k < |p.entries.value| ==>
      var e := p.entries.value[k];
      e.thresholdType.Some? && e.threshold.Some? && e.targetValues.Some?
  }

  /** A migrated legacy pool has no pool-level rule left and a complete rule on every entry. */
  lemma MigratedIsComplete(p: StoredPool)
    requires IsLegacy(p)
    ensures !IsLegacy(MigratePool(p))
    ensures EntriesComplete(MigratePool(p))
  {
  }

  /** Migrating twice is migrating once: the migration removes the fields it tests for. */
  lemma MigrationIsIdempotent(pools: seq<StoredPool>)
    ensures MigratePools(MigratePools(pools)) == MigratePools(pools)
  {
    var once := MigratePools(pools);
    forall i | 0 <= i < |pools|
      ensures MigratePool(once[i]) == once[i]
    {
      if IsLegacy(pools[i]) {
        MigratedIsComplete(pools[i]);
      }
    }
  }

  /** An entry that already has its own rule comes through the migration unchanged. */
  lemma OwnRuleIsKept(p: StoredPool, k: nat)
    requires p.entries.Some? && k < |p.entries.value|
    requires p.entries.value[k].thresholdType.Some? && p.entries.value[k].threshold.Some?
    requires p.entries.value[k].targetValues.Some?
    ensures MigratePool(p).entries.value[k] == p.entries.value[k]
  {
  }
}
