/**
 * The roll engine `rollPool` (App.tsx:321-380). `Math.random()` is replaced
 * by a stream of draws: each draw is the value `Math.floor(Math.random() * n)`
 * took, in the order the source asks for them. `generateId()` and `Date.now()`
 * are the parameters `eventId` and `now`.
 */
module Roll {
  import opened Wrappers
  import opened Text
  import opened Types
  import opened Registry
  import opened Threshold
  import Seqs

  /**
   * Side count of a die that is not found in the registry: a number is used
   * as is, a string goes through `parseInt` and falls back to 6.
   */
  function StandardSides(t: DiceType): (n: int)
    ensures t.Standard? ==> n == t.sides
    ensures t.Custom? && ParseNumber(t.id).None? ==> n == 6
    ensures t.Custom? && ParseNumber(t.id).Some? ==> n == ParseNumber(t.id).value
  {
    match t
    case Standard(n) => n
    case Custom(s) => ParseNumber(s).GetOr(6)
  }

  /** The values `Math.floor(Math.random() * n)` can take, for a random number in [0, 1). */
  predicate InRange(idx: int, n: int) {
    if n > 0 then 0 <= idx < n else n <= idx <= 0
  }

  /**
   * `idx` is a draw the die can take without failing: an index of one of
   * the custom die's faces, or a value in range for a standard die.
   */
  predicate Fits(idx: int, t: DiceType, die: Option<CustomDie>) {
    match die
    case Some(d) => 0 <= idx < |d.sides|
    case None => InRange(idx, StandardSides(t))
  }

  /** The face a draw shows: the face text of a custom die, or `idx + 1` for a standard one. */
  function FaceValue(t: DiceType, die: Option<CustomDie>, idx: int): (v: Value)
    requires Fits(idx, t, die)
    ensures die.Some? ==> v.Text? && exists i :: 0 <= i < |die.value.sides| && die.value.sides[i].content == v.s
    ensures IsFaceOf(v, t, die)
    ensures die.None? ==> v.Num? && InRange(v.n - 1, StandardSides(t))
    ensures die.None? ==> (StandardSides(t) > 0 ==> 1 <= v.n <= StandardSides(t)) && (StandardSides(t) <= 0 ==> v.n <= 1)
  {
    match die
    case Some(d) => Text(d.sides[idx].content)
    case None => Num(idx + 1)
  }

  /**
   * `v` is a face a throw of the die can show: the text of one of the custom
   * die's sides, or a number `k` with `k - 1` a value `Math.floor(Math.random() * sides)`
   * can take for a standard die.
   */
  predicate IsFaceOf(v: Value, t: DiceType, die: Option<CustomDie>) {
    match die
    case Some(d) => v.Text? && exists i :: 0 <= i < |d.sides| && d.sides[i].content == v.s
    case None => v.Num? && InRange(v.n - 1, StandardSides(t))
  }

  /**
   * A die type named by text whose leading digits read as `k` (leading zeros
   * included, "05ab" reads as 5) is rolled with `k` sides when no die is
   * registered under it.
   */
  lemma SidesReadLeadingDigits(digits: string, rest: string)
    requires digits != [] && AllDigits(digits)
    requires rest == [] || !IsDigit(rest[0])
    ensures StandardSides(Custom(digits + rest)) == DigitsValue(digits)
  {
    ParseNumberOfDigits(digits, rest);
  }

  /** `entry.color ?? customDie?.color` */
  function ResultColor(e: DiceEntry, die: Option<CustomDie>): (c: Option<string>)
    ensures e.color.Some? ==> c == e.color
    ensures e.color.None? && die.Some? ==> c == Some(die.value.color)
    ensures c.None? <==> e.color.None? && die.None?
  {
    if e.color.Some? then e.color
    else match die
      case Some(d) => Some(d.color)
      case None => None
  }

  /** One result of a standard-mode roll of entry `e`. */
  function StandardResult(e: DiceEntry, die: Option<CustomDie>, idx: int): RollResult
    requires Fits(idx, e.diceType, die)
  {
    var v := FaceValue(e.diceType, die, idx);
    RollResult(v, CalculateIsSuccess(v, e), ResultColor(e, die), die.Some?, e.diceType)
  }

  /** The first `n` results of a standard roll of entry `e`, throw `j` showing the face `rolls[j]` picks. */
  function EntryResults(e: DiceEntry, die: Option<CustomDie>, rolls: seq<int>, n: nat): (r: seq<RollResult>)
    requires n <= |rolls| && forall j :: 0 <= j < n ==> Fits(rolls[j], e.diceType, die)
    ensures |r| == n
    ensures forall j {:trigger r[j]} :: 0 <= j < n ==> r[j] == StandardResult(e, die, rolls[j])
  {
    if n == 0 then []
    else EntryResults(e, die, rolls, n - 1) + [StandardResult(e, die, rolls[n - 1])]
  }

  /** Number of draws a standard-mode roll makes. */
  function Consumed(entries: seq<DiceEntry>): nat {
    if entries == [] then 0 else Repetitions(entries[0].count) + Consumed(entries[1..])
  }

  /** The draws of a standard-mode roll all fit their dice. */
  predicate StandardFits(entries: seq<DiceEntry>, dice: seq<CustomDie>, rolls: seq<int>) {
    entries != [] ==>
      var e, c := entries[0], Repetitions(entries[0].count);
      && c <= |rolls|
      && (forall j :: 0 <= j < c ==> Fits(rolls[j], e.diceType, FindDie(dice, e.diceType)))
      && StandardFits(entries[1..], dice, rolls[c..])
  }

  /** Standard mode: each entry drawn `count` times, entry after entry. */
  function StandardResults(entries: seq<DiceEntry>, dice: seq<CustomDie>, rolls: seq<int>): (r: seq<RollResult>)
    requires StandardFits(entries, dice, rolls)
    ensures |r| == Consumed(entries)
  {
    if entries == [] then []
    else
      var e, c := entries[0], Repetitions(entries[0].count);
      var die := FindDie(dice, e.diceType);
      EntryResults(e, die, rolls, c) + StandardResults(entries[1..], dice, rolls[c..])
  }

  /**
   * Result `j` of entry `k` of a standard roll sits right after the results
   * of the entries before it, and is drawn with that entry's die and rule.
   */
  lemma {:induction false} StandardResultAt(entries: seq<DiceEntry>, dice: seq<CustomDie>, rolls: seq<int>, k: nat, j: nat)
    requires StandardFits(entries, dice, rolls)
    requires k < |entries| && j < Repetitions(entries[k].count)
    ensures Consumed(entries[..k]) + j < |StandardResults(entries, dice, rolls)|
    ensures Consumed(entries[..k]) + j < |rolls|
    ensures Fits(rolls[Consumed(entries[..k]) + j], entries[k].diceType, FindDie(dice, entries[k].diceType))
    ensures StandardResults(entries, dice, rolls)[Consumed(entries[..k]) + j]
         == StandardResult(entries[k], FindDie(dice, entries[k].diceType), rolls[Consumed(entries[..k]) + j])
  {
    ConsumedSplit(entries, k);
    ConsumedFits(entries, dice, rolls);
    var c := Repetitions(entries[0].count);
    var head := EntryResults(entries[0], FindDie(dice, entries[0].diceType), rolls, c);
    var tail := StandardResults(entries[1..], dice, rolls[c..]);
    assert StandardResults(entries, dice, rolls) == head + tail;
    if k == 0 {
      assert Consumed(entries[..0]) == 0;
      assert (head + tail)[j] == head[j];
    } else {
      assert entries[..k][1..] == entries[1..][..k - 1];
      var at := Consumed(entries[1..][..k - 1]) + j;
      assert Consumed(entries[..k]) + j == c + at;
      StandardResultAt(entries[1..], dice, rolls[c..], k - 1, j);
      assert (head + tail)[c + at] == tail[at];
      assert rolls[c..][at] == rolls[c + at];
    }
  }

  lemma {:induction false} ConsumedSplit(entries: seq<DiceEntry>, k: nat)
    requires k < |entries|
    ensures Consumed(entries[..k]) + Repetitions(entries[k].count) <= Consumed(entries)
  {
    if k > 0 {
      assert entries[..k][1..] == entries[1..][..k - 1];
      ConsumedSplit(entries[1..], k - 1);
    }
  }

  lemma {:induction false} ConsumedFits(entries: seq<DiceEntry>, dice: seq<CustomDie>, rolls: seq<int>)
    requires StandardFits(entries, dice, rolls)
    ensures Consumed(entries) <= |rolls|
  {
    if entries != [] {
      ConsumedFits(entries[1..], dice, rolls[Repetitions(entries[0].count)..]);
    }
  }

  /** The draw that picks the colour of pull `i` of a blind-bag roll. */
  function ColorDraw(rolls: seq<int>, i: nat): int
    requires 2 * i < |rolls|
  {
    rolls[2 * i]
  }

  /** The draw that picks the face of pull `i` of a blind-bag roll. */
  function FaceDraw(rolls: seq<int>, i: nat): int
    requires 2 * i + 1 < |rolls|
  {
    rolls[2 * i + 1]
  }

  /** The colour draws of `n` pulls fit: pull `i` indexes a bag that then holds `bagSize - i` colours. */
  predicate ColorsFit(bagSize: int, rolls: seq<int>, n: nat) {
    && 2 * n <= |rolls|
    && forall i :: 0 <= i < n ==> 0 <= ColorDraw(rolls, i) < bagSize - i
  }

  /** The draws of `n` blind-bag pulls fit: each colour draw indexes the bag and each face draw fits the die. */
  predicate BlindFits(bagSize: int, t: DiceType, die: Option<CustomDie>, rolls: seq<int>, n: nat) {
    ColorsFit(bagSize, rolls, n) && FacesFit(t, die, rolls, n)
  }

  /** The face draws of `n` pulls fit the die. */
  predicate FacesFit(t: DiceType, die: Option<CustomDie>, rolls: seq<int>, n: nat) {
    && 2 * n <= |rolls|
    && forall i :: 0 <= i < n ==> Fits(FaceDraw(rolls, i), t, die)
  }

  /**
   * The colours of `n` pulls without replacement, and what is left of the
   * bag: pull `i` splices out the colour at `ColorDraw(rolls, i)`.
   */
  function Pulls(bag: seq<string>, rolls: seq<int>, n: nat): (r: (seq<string>, seq<string>))
    requires n <= |bag| && ColorsFit(|bag|, rolls, n)
    ensures |r.0| == n && |r.1| == |bag| - n
    ensures multiset(r.0) + multiset(r.1) == multiset(bag)
    decreases n
  {
    if n == 0 then ([], bag)
    else
      var before := Pulls(bag, rolls, n - 1);
      var colorIdx := ColorDraw(rolls, n - 1);
      var left := before.1;
      MoveOne(before.0, left, RemoveAt(left, colorIdx), left[colorIdx], bag);
      (before.0 + [left[colorIdx]], RemoveAt(left, colorIdx))
  }

  /** Pull `n` appends one colour to the first `n - 1` and splices it out of the bag. */
  lemma PullsStep(bag: seq<string>, rolls: seq<int>, n: nat)
    requires 0 < n <= |bag| && ColorsFit(|bag|, rolls, n)
    ensures ColorsFit(|bag|, rolls, n - 1)
    ensures 0 <= ColorDraw(rolls, n - 1) < |Pulls(bag, rolls, n - 1).1|
    ensures var before, colorIdx := Pulls(bag, rolls, n - 1), ColorDraw(rolls, n - 1);
      Pulls(bag, rolls, n) == (before.0 + [before.1[colorIdx]], RemoveAt(before.1, colorIdx))
  {
    assert 0 <= ColorDraw(rolls, n - 1) < |bag| - (n - 1);
  }

  /** Moving one colour from what is left to what is pulled keeps the colours overall. */
  lemma MoveOne(pulled: seq<string>, left: seq<string>, rest: seq<string>, color: string, bag: seq<string>)
    requires multiset(rest) + multiset{color} == multiset(left)
    requires multiset(pulled) + multiset(left) == multiset(bag)
    ensures multiset(pulled + [color]) + multiset(rest) == multiset(bag)
  {
    assert multiset(pulled + [color]) == multiset(pulled) + multiset{color};
  }

  /** `bag.splice(idx, 1)`: the bag without the element at `idx`, which it holds one fewer of. */
  function RemoveAt(bag: seq<string>, idx: nat): (r: seq<string>)
    requires idx < |bag|
    ensures |r| == |bag| - 1
    ensures multiset(r) + multiset{bag[idx]} == multiset(bag)
  {
    if idx == 0 then
      assert bag == [bag[0]] + bag[1..];
      bag[1..]
    else
      assert bag == [bag[0]] + bag[1..];
      [bag[0]] + RemoveAt(bag[1..], idx - 1)
  }

  /** `RemoveAt` is the splice written with slices. */
  lemma {:induction false} RemoveAtSlices(bag: seq<string>, idx: nat)
    requires idx < |bag|
    ensures RemoveAt(bag, idx) == bag[..idx] + bag[idx + 1..]
  {
    if idx > 0 {
      RemoveAtSlices(bag[1..], idx - 1);
      assert bag[1..][..idx - 1] == bag[1..idx];
      assert bag[1..][idx..] == bag[idx + 1..];
      assert bag[..idx] == [bag[0]] + bag[1..idx];
    }
  }

  /** The colours of a list of results. */
  function Colors(results: seq<RollResult>): (r: seq<string>)
    ensures |r| == |results|
  {
    seq(|results|, i requires 0 <= i < |results| => results[i].color.GetOr(""))
  }

  /** Result of pull `i`: the colour drawn and a roll of the template's die. */
  function BlindResult(template: DiceEntry, die: Option<CustomDie>, faceIdx: int, color: string): RollResult
    requires Fits(faceIdx, template.diceType, die)
  {
    var value := FaceValue(template.diceType, die, faceIdx);
    RollResult(value, CalculateIsSuccess(value, template), Some(color), die.Some?, template.diceType)
  }

  /** The results of pulls that drew `colors`, pull `i` throwing the die with `FaceDraw(rolls, i)`. */
  function BlindResults(template: DiceEntry, die: Option<CustomDie>, rolls: seq<int>, colors: seq<string>)
    : (r: seq<RollResult>)
    requires FacesFit(template.diceType, die, rolls, |colors|)
    ensures |r| == |colors|
    ensures forall i {:trigger r[i]} :: 0 <= i < |colors| ==> r[i] == BlindResult(template, die, FaceDraw(rolls, i), colors[i])
  {
    if colors == [] then []
    else
      var n := |colors| - 1;
      BlindResults(template, die, rolls, colors[..n]) + [BlindResult(template, die, FaceDraw(rolls, n), colors[n])]
  }

  /** One more colour drawn appends one result. */
  lemma BlindResultsAppend(template: DiceEntry, die: Option<CustomDie>, rolls: seq<int>, colors: seq<string>, color: string)
    requires FacesFit(template.diceType, die, rolls, |colors| + 1)
    ensures FacesFit(template.diceType, die, rolls, |colors|)
    ensures Fits(FaceDraw(rolls, |colors|), template.diceType, die)
    ensures BlindResults(template, die, rolls, colors + [color])
      == BlindResults(template, die, rolls, colors) + [BlindResult(template, die, FaceDraw(rolls, |colors|), color)]
  {
    assert (colors + [color])[..|colors|] == colors;
  }

  /**
   * Blind-bag mode: `n` pulls, each removing one colour from the bag and
   * rolling the template entry's die for it. Gives the results and what is
   * left of the bag; nothing is put back.
   */
  function BlindPull(bag: seq<string>, template: DiceEntry, die: Option<CustomDie>, rolls: seq<int>, n: nat)
    : (r: (seq<RollResult>, seq<string>))
    requires n <= |bag| && BlindFits(|bag|, template.diceType, die, rolls, n)
    ensures |r.0| == n && |r.1| == |bag| - n
  {
    var pulled := Pulls(bag, rolls, n);
    (BlindResults(template, die, rolls, pulled.0), pulled.1)
  }

  /** One more pull appends one result and splices one colour out of the bag. */
  lemma BlindPullStep(bag: seq<string>, template: DiceEntry, die: Option<CustomDie>, rolls: seq<int>, n: nat)
    requires n < |bag| && BlindFits(|bag|, template.diceType, die, rolls, n + 1)
    ensures BlindFits(|bag|, template.diceType, die, rolls, n)
    ensures 0 <= ColorDraw(rolls, n) < |BlindPull(bag, template, die, rolls, n).1|
    ensures Fits(FaceDraw(rolls, n), template.diceType, die)
    ensures var before := BlindPull(bag, template, die, rolls, n);
      var colorIdx := ColorDraw(rolls, n);
      BlindPull(bag, template, die, rolls, n + 1)
        == (before.0 + [BlindResult(template, die, FaceDraw(rolls, n), before.1[colorIdx])],
            RemoveAt(before.1, colorIdx))
  {
    PullsStep(bag, rolls, n + 1);
    var p := Pulls(bag, rolls, n);
    BlindResultsAppend(template, die, rolls, p.0, p.1[ColorDraw(rolls, n)]);
  }

  /** The colours pulled are the colours of the results. */
  lemma BlindPullColors(bag: seq<string>, template: DiceEntry, die: Option<CustomDie>, rolls: seq<int>, n: nat)
    requires n <= |bag| && BlindFits(|bag|, template.diceType, die, rolls, n)
    ensures Colors(BlindPull(bag, template, die, rolls, n).0) == Pulls(bag, rolls, n).0
  {
  }

  /** The colours drawn plus what is left of the bag are the old bag, reordered. */
  lemma BlindPullPermutes(bag: seq<string>, template: DiceEntry, die: Option<CustomDie>, rolls: seq<int>, n: nat)
    requires n <= |bag| && BlindFits(|bag|, template.diceType, die, rolls, n)
    ensures var r := BlindPull(bag, template, die, rolls, n);
      multiset(Colors(r.0)) + multiset(r.1) == multiset(bag)
  {
    BlindPullColors(bag, template, die, rolls, n);
  }

  /**
   * Every blind-bag result carries a colour and the template entry's die
   * type, and is judged by the template entry's rule.
   */
  lemma BlindPullResults(bag: seq<string>, template: DiceEntry, die: Option<CustomDie>, rolls: seq<int>, n: nat)
    requires n <= |bag| && BlindFits(|bag|, template.diceType, die, rolls, n)
    ensures var r := BlindPull(bag, template, die, rolls, n);
      forall i :: 0 <= i < n ==>
        && r.0[i].color.Some?
        && r.0[i].diceType == template.diceType
        && r.0[i].isCustom == die.Some?
        && r.0[i].isSuccess == CalculateIsSuccess(r.0[i].value, template)
        && IsFaceOf(r.0[i].value, template.diceType, die)
  {
  }

  /** `pool.entries.reduce((acc, e) => acc + e.count, 0)` */
  function TotalCount(entries: seq<DiceEntry>): (total: int)
    ensures (forall k :: 0 <= k < |entries| ==> entries[k].count >= 0) ==> total == Consumed(entries)
    ensures (forall k :: 0 <= k < |entries| ==> entries[k].count >= 1) ==> total >= |entries|
  {
    if entries == [] then 0 else entries[0].count + TotalCount(entries[1..])
  }

  /** `Math.min(totalToPull, workingBag.length)`, as the number of times the pull loop runs. */
  function PullCount(pool: DicePool): (n: nat)
    ensures n <= |pool.currentBag| && n <= Repetitions(TotalCount(pool.entries))
    ensures n == |pool.currentBag| || n == Repetitions(TotalCount(pool.entries))
  {
    var total := TotalCount(pool.entries);
    Repetitions(if total < |pool.currentBag| then total else |pool.currentBag|)
  }

  /**
   * The draws suffice for a roll of the pool and each is in range. A blind-bag
   * pool without entries is rolled without failing only when there are no
   * custom dice to compare its missing template with.
   */
  predicate RollFits(pool: DicePool, dice: seq<CustomDie>, rolls: seq<int>) {
    match pool.mode
    case StandardMode => StandardFits(pool.entries, dice, rolls)
    case BlindBagMode =>
      if pool.entries == [] then dice == []
      else
        var t := pool.entries[0].diceType;
        BlindFits(|pool.currentBag|, t, FindDie(dice, t), rolls, PullCount(pool))
  }

  /** The results of a roll and the bag left afterwards. */
  function RollOutcome(pool: DicePool, dice: seq<CustomDie>, rolls: seq<int>): (seq<RollResult>, seq<string>)
    requires RollFits(pool, dice, rolls)
  {
    match pool.mode
    case StandardMode => (StandardResults(pool.entries, dice, rolls), pool.currentBag)
    case BlindBagMode =>
      if pool.entries == [] then ([], pool.currentBag)
      else
        var template := pool.entries[0];
        BlindPull(pool.currentBag, template, FindDie(dice, template.diceType), rolls, PullCount(pool))
  }

  /**
   * A standard-mode roll gives `count` results per entry, entry after entry,
   * leaves the bag alone, and result `j` of entry `k` is a face of that
   * entry's die judged by that entry's rule.
   */
  lemma StandardRollShape(pool: DicePool, dice: seq<CustomDie>, rolls: seq<int>, k: nat, j: nat)
    requires pool.mode == StandardMode && RollFits(pool, dice, rolls)
    requires k < |pool.entries| && j < Repetitions(pool.entries[k].count)
    ensures var out, e := RollOutcome(pool, dice, rolls), pool.entries[k];
      var die, at := FindDie(dice, e.diceType), Consumed(pool.entries[..k]) + j;
      && |out.0| == Consumed(pool.entries)
      && out.1 == pool.currentBag
      && at < |out.0|
      && out.0[at].diceType == e.diceType
      && out.0[at].isCustom == die.Some?
      && out.0[at].isSuccess == CalculateIsSuccess(out.0[at].value, e)
      && IsFaceOf(out.0[at].value, e.diceType, die)
      && (die.None? && StandardSides(e.diceType) > 0 ==>
            out.0[at].value.Num? && 1 <= out.0[at].value.n <= StandardSides(e.diceType))
  {
    StandardResultAt(pool.entries, dice, rolls, k, j);
  }

  /**
   * A blind-bag roll of a pool with entries pulls `min(total count, bag size)`
   * colours; the colours pulled and the bag left are the old bag reordered;
   * every result carries its colour and is rolled and judged with the first
   * entry.
   */
  lemma BlindRollDrawsFromBag(pool: DicePool, dice: seq<CustomDie>, rolls: seq<int>)
    requires pool.mode == BlindBagMode && pool.entries != [] && RollFits(pool, dice, rolls)
    ensures var out, template := RollOutcome(pool, dice, rolls), pool.entries[0];
      && |out.0| == PullCount(pool)
      && |out.1| == |pool.currentBag| - PullCount(pool)
      && multiset(Colors(out.0)) + multiset(out.1) == multiset(pool.currentBag)
      && forall i :: 0 <= i < |out.0| ==>
           && out.0[i].color.Some?
           && out.0[i].diceType == template.diceType
           && out.0[i].isCustom == FindDie(dice, template.diceType).Some?
           && out.0[i].isSuccess == CalculateIsSuccess(out.0[i].value, template)
           && IsFaceOf(out.0[i].value, template.diceType, FindDie(dice, template.diceType))
  {
    var template := pool.entries[0];
    var die := FindDie(dice, template.diceType);
    BlindPullPermutes(pool.currentBag, template, die, rolls, PullCount(pool));
    BlindPullResults(pool.currentBag, template, die, rolls, PullCount(pool));
  }

  /** `typeof v === 'number' ? v : (parseFloat(v) || 0)` */
  function FaceNumber(v: Value): int {
    match v
    case Num(n) => n
    case Text(s) => ParseNumber(s).GetOr(0)
  }

  /** The total of a roll: numeric faces summed, text faces by their numeric reading or 0. */
  function Sum(results: seq<RollResult>): (total: int)
    ensures (forall i :: 0 <= i < |results| ==> FaceNumber(results[i].value) >= 0) ==> total >= 0
    ensures (forall i :: 0 <= i < |results| ==> FaceNumber(results[i].value) == 0) ==> total == 0
  {
    if results == [] then 0 else FaceNumber(results[0].value) + Sum(results[1..])
  }

  /** A custom face written as a number adds that number to the total; other text adds nothing. */
  lemma FaceNumberOfText(n: int, s: string)
    requires ParseNumber(s).None?
    ensures FaceNumber(Text(IntToString(n))) == FaceNumber(Num(n)) == n
    ensures FaceNumber(Text(s)) == 0
  {
    ParseIntToString(n);
  }

  /** A total of faces that each read between `lo` and `hi` lies between `lo` and `hi` times their number. */
  lemma {:induction false} SumBounds(results: seq<RollResult>, lo: int, hi: int)
    requires forall i :: 0 <= i < |results| ==> lo <= FaceNumber(results[i].value) <= hi
    ensures lo * |results| <= Sum(results) <= hi * |results|
  {
    if results != [] {
      SumBounds(results[1..], lo, hi);
      assert lo * |results| == lo + lo * (|results| - 1);
      assert hi * |results| == hi + hi * (|results| - 1);
    }
  }

  /** `results.filter(r => r.isSuccess).length` */
  function Successes(results: seq<RollResult>): (s: nat)
    ensures s <= |results|
    ensures s == 0 <==> forall i :: 0 <= i < |results| ==> results[i].isSuccess != Some(true)
    ensures s == |results| <==> forall i :: 0 <= i < |results| ==> results[i].isSuccess == Some(true)
  {
    if results == [] then 0
    else
      assert forall i :: 1 <= i < |results| ==> results[i] == results[1..][i - 1];
      (if results[0].isSuccess == Some(true) then 1 else 0) + Successes(results[1..])
  }

  /** `[newEvent, ...history].slice(0, 30)` */
  function PushEvent(history: seq<RollEvent>, event: RollEvent): (h: seq<RollEvent>)
    ensures |h| == if |history| < HISTORY_LIMIT then |history| + 1 else HISTORY_LIMIT
    ensures h[0] == event
    ensures h[1..] == history[..|h| - 1]
  {
    var all := [event] + history;
    if |all| <= HISTORY_LIMIT then all else all[..HISTORY_LIMIT]
  }

  /** Records a roll into the pool: new results, time, bag and a history event. */
  function Commit(pool: DicePool, results: seq<RollResult>, bag: seq<string>, eventId: string, now: int): (p: DicePool)
    ensures p == pool.(results := results, lastRolledAt := Some(now), currentBag := bag, history := p.history)
    ensures |p.history| == if |pool.history| < HISTORY_LIMIT then |pool.history| + 1 else HISTORY_LIMIT
    ensures p.history[0] == RollEvent(eventId, pool.name, now, results, Sum(results), Successes(results), THRESHOLD_INFO, pool.mode)
    ensures p.history[1..] == pool.history[..|p.history| - 1]
  {
    var event := RollEvent(eventId, pool.name, now, results, Sum(results), Successes(results), THRESHOLD_INFO, pool.mode);
    pool.(results := results, lastRolledAt := Some(event.timestamp), currentBag := bag, history := PushEvent(pool.history, event))
  }

  /** The pool after a roll with the given draws, event identifier and time. */
  function Rolled(pool: DicePool, dice: seq<CustomDie>, rolls: seq<int>, eventId: string, now: int): DicePool
    requires RollFits(pool, dice, rolls)
  {
    var outcome := RollOutcome(pool, dice, rolls);
    Commit(pool, outcome.0, outcome.1, eventId, now)
  }

  /**
   * A roll at a time no earlier than every recorded event keeps the pool's
   * history newest first.
   */
  lemma RollKeepsNewestFirst(pool: DicePool, dice: seq<CustomDie>, rolls: seq<int>, eventId: string, now: int)
    requires RollFits(pool, dice, rolls) && NewestFirst(pool.history)
    requires forall i :: 0 <= i < |pool.history| ==> pool.history[i].timestamp <= now
    ensures NewestFirst(Rolled(pool, dice, rolls, eventId, now).history)
  {
    var outcome := RollOutcome(pool, dice, rolls);
    var event := RollEvent(eventId, pool.name, now, outcome.0, Sum(outcome.0), Successes(outcome.0), THRESHOLD_INFO, pool.mode);
    PushKeepsNewestFirst(pool.history, event);
  }

  /** Pushing an event no older than every recorded one keeps a history newest first. */
  lemma PushKeepsNewestFirst(history: seq<RollEvent>, event: RollEvent)
    requires NewestFirst(history)
    requires forall i :: 0 <= i < |history| ==> history[i].timestamp <= event.timestamp
    ensures NewestFirst(PushEvent(history, event))
  {
    var all := [event] + history;
    forall i, j | 0 <= i < j < |all|
      ensures all[i].timestamp >= all[j].timestamp
    {
      assert all[j] == history[j - 1];
      if i > 0 {
        assert all[i] == history[i - 1];
      }
    }
    var h := PushEvent(history, event);
    assert h == all[..|h|];
  }


  /** `rollPool` on one pool. */
  method RollPool(pool: DicePool, dice: seq<CustomDie>, rolls: seq<int>, eventId: string, now: int)
    returns (p: DicePool)
    requires RollFits(pool, dice, rolls)
    ensures p == Rolled(pool, dice, rolls, eventId, now)
  {
    var workingBag := pool.currentBag;
    var newResults: seq<RollResult>;
    if pool.mode == StandardMode {
      newResults := DrawStandard(pool.entries, dice, rolls);
    } else if pool.entries != [] {
      var totalToPull := TotalCount(pool.entries);
      var pullCount := if totalToPull < |workingBag| then totalToPull else |workingBag|;
      var entryTemplate := pool.entries[0];
      var customDie := FindDie(dice, entryTemplate.diceType);
      newResults, workingBag := DrawFromBag(workingBag, entryTemplate, customDie, rolls, pullCount);
    } else {
      newResults := [];
    }
    p := Commit(pool, newResults, workingBag, eventId, now);
  }

  /** The standard-mode loop of `rollPool` over the entries. */
  method DrawStandard(entries: seq<DiceEntry>, dice: seq<CustomDie>, rolls: seq<int>) returns (newResults: seq<RollResult>)
    requires StandardFits(entries, dice, rolls)
    ensures newResults == StandardResults(entries, dice, rolls)
  {
    newResults := [];
    var next: nat := 0;
    for k := 0 to |entries|
      invariant next <= |rolls|
      invariant StandardFits(entries[k..], dice, rolls[next..])
      invariant newResults + StandardResults(entries[k..], dice, rolls[next..]) == StandardResults(entries, dice, rolls)
    {
      var entry := entries[k];
      var customDie := FindDie(dice, entry.diceType);
      StandardStep(entries, k, dice, rolls, next);
      ghost var rest := StandardResults(entries[k + 1..], dice, rolls[next + Repetitions(entry.count)..]);
      var drawn := DrawEntry(entry, customDie, rolls[next..]);
      Seqs.AppendAssociates(newResults, drawn, rest);
      newResults := newResults + drawn;
      next := next + Repetitions(entry.count);
    }
  }

  /** One entry's share of a standard roll, seen from entry `k` and draw `next` on. */
  lemma StandardStep(entries: seq<DiceEntry>, k: nat, dice: seq<CustomDie>, rolls: seq<int>, next: nat)
    requires k < |entries| && next <= |rolls| && StandardFits(entries[k..], dice, rolls[next..])
    ensures var e, c := entries[k], Repetitions(entries[k].count);
      && next + c <= |rolls|
      && (forall j :: 0 <= j < c ==> Fits(rolls[next..][j], e.diceType, FindDie(dice, e.diceType)))
      && StandardFits(entries[k + 1..], dice, rolls[next + c..])
      && StandardResults(entries[k..], dice, rolls[next..])
         == EntryResults(e, FindDie(dice, e.diceType), rolls[next..], c)
            + StandardResults(entries[k + 1..], dice, rolls[next + c..])
  {
    var c := Repetitions(entries[k].count);
    assert entries[k..][1..] == entries[k + 1..];
    assert rolls[next..][c..] == rolls[next + c..];
  }

  /**
   * One throw of a die: the face text of a custom die at the drawn index, or
   * `Math.floor(Math.random() * sides) + 1` for a standard one.
   */
  method RollFace(t: DiceType, die: Option<CustomDie>, idx: int) returns (value: Value)
    requires Fits(idx, t, die)
    ensures value == FaceValue(t, die, idx)
  {
    if die.Some? {
      value := Text(die.value.sides[idx].content);
    } else {
      value := Num(idx + 1);
    }
  }

  /** The inner loop of the standard mode: `count` draws of one entry's die. */
  method DrawEntry(entry: DiceEntry, customDie: Option<CustomDie>, rolls: seq<int>) returns (drawn: seq<RollResult>)
    requires Repetitions(entry.count) <= |rolls|
    requires forall j :: 0 <= j < Repetitions(entry.count) ==> Fits(rolls[j], entry.diceType, customDie)
    ensures drawn == EntryResults(entry, customDie, rolls, Repetitions(entry.count))
  {
    drawn := [];
    var i := 0;
    while i < entry.count
      invariant 0 <= i <= Repetitions(entry.count)
      invariant drawn == EntryResults(entry, customDie, rolls, i)
    {
      var value := RollFace(entry.diceType, customDie, rolls[i]);
      var isSuccess := CalculateIsSuccess(value, entry);
      drawn := drawn + [RollResult(value, isSuccess, ResultColor(entry, customDie), customDie.Some?, entry.diceType)];
      i := i + 1;
    }
  }

  /** Pull `i` of the loop, written the way the loop body performs it on the working bag. */
  lemma PullFromWorkingBag(bag: seq<string>, template: DiceEntry, die: Option<CustomDie>, rolls: seq<int>, i: nat,
                           results: seq<RollResult>, left: seq<string>)
    requires i < |bag| && BlindFits(|bag|, template.diceType, die, rolls, i + 1)
    requires (results, left) == BlindPull(bag, template, die, rolls, i)
    ensures 2 * i + 1 < |rolls| && 0 <= rolls[2 * i] < |left|
    ensures Fits(rolls[2 * i + 1], template.diceType, die)
    ensures var c, v := rolls[2 * i], FaceValue(template.diceType, die, rolls[2 * i + 1]);
      BlindPull(bag, template, die, rolls, i + 1)
        == (results + [RollResult(v, CalculateIsSuccess(v, template), Some(left[c]), die.Some?, template.diceType)],
            left[..c] + left[c + 1..])
  {
    BlindPullStep(bag, template, die, rolls, i);
    RemoveAtSlices(left, rolls[2 * i]);
  }

  /**
   * The blind-bag loop of `rollPool`: `pullCount` times, splice a colour out
   * of the working bag and roll the template's die for it.
   */
  method DrawFromBag(bag: seq<string>, entryTemplate: DiceEntry, customDie: Option<CustomDie>, rolls: seq<int>, pullCount: int)
    returns (newResults: seq<RollResult>, workingBag: seq<string>)
    requires pullCount <= |bag|
    requires BlindFits(|bag|, entryTemplate.diceType, customDie, rolls, Repetitions(pullCount))
    ensures (newResults, workingBag) == BlindPull(bag, entryTemplate, customDie, rolls, Repetitions(pullCount))
  {
    ghost var n := Repetitions(pullCount);
    newResults, workingBag := [], bag;
    var i := 0;
    while i < pullCount
      invariant 0 <= i <= n
      invariant (newResults, workingBag) == BlindPull(bag, entryTemplate, customDie, rolls, i)
    {
      newResults, workingBag := PullOnce(bag, entryTemplate, customDie, rolls, i, n, newResults, workingBag);
      i := i + 1;
    }
  }

  /**
   * One pass of the pull loop: splice the colour at the drawn index out of
   * the working bag and roll the template's die for it.
   */
  method PullOnce(bag: seq<string>, entryTemplate: DiceEntry, customDie: Option<CustomDie>, rolls: seq<int>, i: nat, ghost n: nat,
                  results: seq<RollResult>, left: seq<string>)
    returns (newResults: seq<RollResult>, workingBag: seq<string>)
    requires i < n <= |bag| && BlindFits(|bag|, entryTemplate.diceType, customDie, rolls, n)
    requires (results, left) == BlindPull(bag, entryTemplate, customDie, rolls, i)
    ensures (newResults, workingBag) == BlindPull(bag, entryTemplate, customDie, rolls, i + 1)
  {
    assert BlindFits(|bag|, entryTemplate.diceType, customDie, rolls, i + 1);
    PullFromWorkingBag(bag, entryTemplate, customDie, rolls, i, results, left);
    var colorIdx := rolls[2 * i];
    var color := left[colorIdx];
    workingBag := left[..colorIdx] + left[colorIdx + 1..];
    var value := RollFace(entryTemplate.diceType, customDie, rolls[2 * i + 1]);
    var isSuccess := CalculateIsSuccess(value, entryTemplate);
    newResults := results + [RollResult(value, isSuccess, Some(color), customDie.Some?, entryTemplate.diceType)];
  }
}
