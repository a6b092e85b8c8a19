/**
 * The data model of the dice roller: die types, rolled values, threshold
 * rules, dice entries, pools, roll results and events, custom dice.
 */
module Types {
  import opened Wrappers
  import opened Text

  /**
   * A die type is either a number of sides or a string. A string is meant to
   * name a custom die, but nothing stops it from holding a digit string such
   * as "6"; whether it is custom is decided by registry lookup when rolling
   * and by its shape when an entry is edited.
   */
  datatype DiceType = Standard(sides: int) | Custom(id: string)

  /** A face value, threshold or target value: a number or a piece of text. */
  datatype Value = Num(n: int) | Text(s: string)

  datatype ThresholdKind = NoThreshold | AtLeast | AtMost | Exactly | MatchAny

  datatype PoolMode = StandardMode | BlindBagMode

  datatype DiceEntry = DiceEntry(
    id: string,
    diceType: DiceType,
    count: int,
    color: Option<string>,
    thresholdType: ThresholdKind,
    threshold: Value,
    targetValues: seq<Value>)

  datatype CustomSide = CustomSide(id: string, content: string)

  datatype CustomDie = CustomDie(id: string, name: string, color: string, sides: seq<CustomSide>)

  datatype RollResult = RollResult(
    value: Value,
    isSuccess: Option<bool>,
    color: Option<string>,
    isCustom: bool,
    diceType: DiceType)

  datatype RollEvent = RollEvent(
    id: string,
    poolName: string,
    timestamp: int,
    results: seq<RollResult>,
    sum: int,
    successes: int,
    thresholdInfo: string,
    mode: PoolMode)

  /** One colour of a bag definition and how many of it the bag holds when refilled. */
  datatype BagSlot = BagSlot(color: string, qty: int)

  datatype DicePool = DicePool(
    id: string,
    name: string,
    mode: PoolMode,
    entries: seq<DiceEntry>,
    results: seq<RollResult>,
    lastRolledAt: Option<int>,
    history: seq<RollEvent>,
    availableColors: seq<string>,
    bagDefinition: seq<BagSlot>,
    currentBag: seq<string>)

  const PRESET_COLORS: seq<string> := [
    "#ef4444", "#3b82f6", "#22c55e", "#eab308", "#a855f7",
    "#f97316", "#06b6d4", "#ec4899", "#f1f5f9", "#475569"
  ]

  const STANDARD_DICE_TYPES: seq<string> := ["2", "4", "6", "8", "10", "12", "20"]

  const DEFAULT_POOL_NAME: string := "Combat Pool"
  const BLIND_BAG_POOL_NAME: string := "Logistics Bag"
  const THRESHOLD_INFO: string := "Per-entry rules"

  /** Pool histories and the global history keep this many events. */
  const HISTORY_LIMIT: nat := 30

  /** How often `for (let i = 0; i < n; i++)` runs; also `Math.max(0, n)`. */
  function Repetitions(n: int): nat {
    if n > 0 then n else 0
  }

  /** `value.toString()` */
  function ValueString(v: Value): string {
    match v
    case Num(n) => IntToString(n)
    case Text(s) => s
  }

  /** `typeof v === 'number' ? v : parseFloat(v)`; `None` is NaN. */
  function NumericValue(v: Value): Option<int> {
    match v
    case Num(n) => Some(n)
    case Text(s) => ParseNumber(s)
  }

  /** The text form of a die type: `diceType.toString()`. */
  function DiceTypeString(t: DiceType): string {
    match t
    case Standard(n) => IntToString(n)
    case Custom(id) => id
  }

  /**
   * The shape test of the entry editor: a string die type that is not one of
   * the seven standard side counts.
   */
  predicate HasCustomShape(t: DiceType) {
    t.Custom? && t.id !in STANDARD_DICE_TYPES
  }

  /** `createDefaultEntry(diceType)` with its generated id passed in. */
  function DefaultEntry(id: string, diceType: DiceType): (e: DiceEntry)
    ensures e.id == id && e.diceType == diceType && e.count == 1 && e.color.None?
    ensures e.thresholdType == AtLeast && e.threshold == Num(4) && e.targetValues == []
  {
    DiceEntry(id, diceType, 1, None, AtLeast, Num(4), [])
  }

  predicate NewestFirst(h: seq<RollEvent>) {
    forall i, j :: 0 <= i < j < |h| ==> h[i].timestamp >= h[j].timestamp
  }
}
