/**
 * The custom die registry: lookup of a die type (App.tsx:329, 347, 389) and
 * the editing operations on the list of custom dice (App.tsx:239-298).
 */
module Registry {
  import opened Wrappers
  import opened Text
  import opened Types
  import opened Seqs

  /** Index of the first die with identifier `id` (`Array.prototype.find`). */
  function FindDieIndex(dice: seq<CustomDie>, id: string): (k: Option<nat>)
    ensures k.Some? ==> k.value < |dice| && dice[k.value].id == id
    ensures k.Some? ==> forall j :: 0 <= j < k.value ==> dice[j].id != id
    ensures k.None? ==> forall j :: 0 <= j < |dice| ==> dice[j].id != id
  {
    if dice == [] then None
    else if dice[0].id == id then Some(0)
    else
      match FindDieIndex(dice[1..], id)
      case Some(k) => Some(k + 1)
      case None => None
  }

  /**
   * `customDice.find(d => d.id === diceType)`: a numeric die type never
   * equals an identifier, so only a string die type can find a die.
   */
  function FindDie(dice: seq<CustomDie>, t: DiceType): (r: Option<CustomDie>)
    ensures r.Some? ==> t.Custom? && r.value in dice && r.value.id == t.id
    ensures r.None? <==> t.Standard? || forall j :: 0 <= j < |dice| ==> dice[j].id != t.id
  {
    match t
    case Standard(_) => None
    case Custom(id) =>
      match FindDieIndex(dice, id)
      case Some(k) => Some(dice[k])
      case None => None
  }

  /** A die can be rolled: it has a face, and its faces have distinct identifiers. */
  predicate Rollable(d: CustomDie) {
    && |d.sides| >= 1
    && forall i, j :: 0 <= i < j < |d.sides| ==> d.sides[i].id != d.sides[j].id
  }

  /** The texts "1", "2", ..., "n". */
  function Numerals(n: nat): (r: seq<string>)
    ensures |r| == n
    ensures forall i :: 0 <= i < n ==> r[i] == IntToString(i + 1)
    ensures forall i :: 0 <= i < n ==> ParseNumber(r[i]) == Some(i + 1)
  {
    var r := seq(n, i requires 0 <= i < n => IntToString(i + 1));
    forall i | 0 <= i < n ensures ParseNumber(r[i]) == Some(i + 1) {
      ParseIntToString(i + 1);
    }
    r
  }

  /** Faces "1", "2", ... with the given identifiers. */
  function NumberedSides(ids: seq<string>): (r: seq<CustomSide>)
    ensures |r| == |ids|
    ensures forall i :: 0 <= i < |r| ==> r[i].id == ids[i] && r[i].content == IntToString(i + 1)
    ensures forall i :: 0 <= i < |r| ==> ParseNumber(r[i].content) == Some(i + 1)
  {
    var contents := Numerals(|ids|);
    seq(|ids|, i requires 0 <= i < |ids| => CustomSide(ids[i], contents[i]))
  }

  /**
   * `addCustomDie`: a new die named "Asset n" in the next preset colour, with
   * six faces reading 1 to 6.
   */
  function AddCustomDie(dice: seq<CustomDie>, dieId: string, sideIds: seq<string>): (r: seq<CustomDie>)
    requires |sideIds| == 6
    ensures |r| == |dice| + 1 && r[..|dice|] == dice
    ensures r[|dice|].id == dieId && r[|dice|].name == "Asset " + IntToString(|dice| + 1)
    ensures r[|dice|].color == PRESET_COLORS[|dice| % |PRESET_COLORS|]
    ensures |r[|dice|].sides| == 6
    ensures forall i :: 0 <= i < 6 ==>
      r[|dice|].sides[i].id == sideIds[i] && r[|dice|].sides[i].content == IntToString(i + 1)
    ensures forall i :: 0 <= i < 6 ==> ParseNumber(r[|dice|].sides[i].content) == Some(i + 1)
  {
    var die := CustomDie(dieId, "Asset " + IntToString(|dice| + 1),
                         PRESET_COLORS[|dice| % |PRESET_COLORS|], NumberedSides(sideIds));
    assert (dice + [die])[..|dice|] == dice;
    dice + [die]
  }

  /** The registry half of `deleteCustomDie`: every die with identifier `id` is dropped. */
  function RemoveDie(dice: seq<CustomDie>, id: string): (r: seq<CustomDie>)
    ensures forall j :: 0 <= j < |r| ==> r[j].id != id && r[j] in dice
    ensures forall j :: 0 <= j < |dice| && dice[j].id != id ==> dice[j] in r
    ensures FindDie(r, Custom(id)).None?
    ensures forall d :: multiset(r)[d] == if d.id != id then multiset(dice)[d] else 0
    ensures IsSubsequence(r, dice)
  {
    var keep := (d: CustomDie) => d.id != id;
    FilterIsSubsequence(dice, keep);
    forall d ensures multiset(Filter(dice, keep))[d] == if d.id != id then multiset(dice)[d] else 0 {
      FilterCount(dice, keep, d);
    }
    Filter(dice, keep)
  }

  /** `updateCustomDie` with the name and colour edits the editor makes. */
  function UpdateCustomDie(dice: seq<CustomDie>, id: string, name: Option<string>, color: Option<string>): (r: seq<CustomDie>)
    ensures |r| == |dice|
    ensures forall k :: 0 <= k < |r| ==> r[k].id == dice[k].id && r[k].sides == dice[k].sides
    ensures forall k :: 0 <= k < |r| && dice[k].id != id ==> r[k] == dice[k]
    ensures forall k :: 0 <= k < |r| && dice[k].id == id ==>
      r[k].name == name.GetOr(dice[k].name) && r[k].color == color.GetOr(dice[k].color)
  {
    seq(|dice|, k requires 0 <= k < |dice| =>
      if dice[k].id == id then dice[k].(name := name.GetOr(dice[k].name), color := color.GetOr(dice[k].color))
      else dice[k])
  }

  /** `updateSideContent`: rewrites the text of the faces with identifier `sideId` of die `dieId`. */
  function UpdateSideContent(dice: seq<CustomDie>, dieId: string, sideId: string, content: string): (r: seq<CustomDie>)
    ensures |r| == |dice|
    ensures forall k :: 0 <= k < |r| && dice[k].id != dieId ==> r[k] == dice[k]
    ensures forall k :: 0 <= k < |r| && dice[k].id == dieId ==>
      && r[k] == dice[k].(sides := r[k].sides)
      && |r[k].sides| == |dice[k].sides|
      && forall i :: 0 <= i < |r[k].sides| ==>
           r[k].sides[i] == if dice[k].sides[i].id == sideId then CustomSide(sideId, content) else dice[k].sides[i]
  {
    seq(|dice|, k requires 0 <= k < |dice| =>
      if dice[k].id == dieId then
        dice[k].(sides := seq(|dice[k].sides|, i requires 0 <= i < |dice[k].sides| =>
          if dice[k].sides[i].id == sideId then dice[k].sides[i].(content := content) else dice[k].sides[i]))
      else dice[k])
  }

  /** `addSideToDie`: appends a face reading the new face count. */
  function AddSideToDie(dice: seq<CustomDie>, dieId: string, sideId: string): (r: seq<CustomDie>)
    ensures |r| == |dice|
    ensures forall k :: 0 <= k < |r| && dice[k].id != dieId ==> r[k] == dice[k]
    ensures forall k :: 0 <= k < |r| && dice[k].id == dieId ==>
      && r[k] == dice[k].(sides := r[k].sides)
      && |r[k].sides| == |dice[k].sides| + 1
      && r[k].sides[..|dice[k].sides|] == dice[k].sides
      && r[k].sides[|dice[k].sides|].id == sideId
      && r[k].sides[|dice[k].sides|].content == IntToString(|dice[k].sides| + 1)
      && ParseNumber(r[k].sides[|dice[k].sides|].content) == Some(|dice[k].sides| + 1)
  {
    AddedSideParses(dice);
    seq(|dice|, k requires 0 <= k < |dice| =>
      if dice[k].id == dieId then
        dice[k].(sides := dice[k].sides + [CustomSide(sideId, IntToString(|dice[k].sides| + 1))])
      else dice[k])
  }

  lemma AddedSideParses(dice: seq<CustomDie>)
    ensures forall k :: 0 <= k < |dice| ==>
      ParseNumber(IntToString(|dice[k].sides| + 1)) == Some(|dice[k].sides| + 1)
  {
    forall k | 0 <= k < |dice| ensures ParseNumber(IntToString(|dice[k].sides| + 1)) == Some(|dice[k].sides| + 1) {
      ParseIntToString(|dice[k].sides| + 1);
    }
  }

  /**
   * `removeSideFromDie`: drops the faces with identifier `sideId` of die
   * `dieId`, unless that die has a single face.
   */
  function RemoveSideFromDie(dice: seq<CustomDie>, dieId: string, sideId: string): (r: seq<CustomDie>)
    ensures |r| == |dice|
    ensures forall k :: 0 <= k < |r| && (dice[k].id != dieId || |dice[k].sides| <= 1) ==> r[k] == dice[k]
    ensures forall k :: 0 <= k < |r| && dice[k].id == dieId && |dice[k].sides| > 1 ==>
      && r[k] == dice[k].(sides := r[k].sides)
      && (forall i :: 0 <= i < |r[k].sides| ==> r[k].sides[i].id != sideId && r[k].sides[i] in dice[k].sides)
      && (forall i :: 0 <= i < |dice[k].sides| && dice[k].sides[i].id != sideId ==> dice[k].sides[i] in r[k].sides)
      && IsSubsequence(r[k].sides, dice[k].sides)
    ensures forall k :: 0 <= k < |r| && Rollable(dice[k]) ==> Rollable(r[k])
  {
    var r := seq(|dice|, k requires 0 <= k < |dice| =>
      if dice[k].id == dieId && |dice[k].sides| > 1 then
        dice[k].(sides := Filter(dice[k].sides, (s: CustomSide) => s.id != sideId))
      else dice[k]);
    forall k | 0 <= k < |r| && dice[k].id == dieId && |dice[k].sides| > 1
      ensures IsSubsequence(r[k].sides, dice[k].sides)
    {
      FilterIsSubsequence(dice[k].sides, (s: CustomSide) => s.id != sideId);
    }
    forall k | 0 <= k < |r| && Rollable(dice[k]) ensures Rollable(r[k]) {
      if dice[k].id == dieId && |dice[k].sides| > 1 {
        RemovingOneSideKeepsRollable(dice[k], sideId);
      }
    }
    r
  }

  lemma RemovingOneSideKeepsRollable(d: CustomDie, sideId: string)
    requires Rollable(d) && |d.sides| > 1
    ensures Rollable(d.(sides := Filter(d.sides, (s: CustomSide) => s.id != sideId)))
  {
    var keep := (s: CustomSide) => s.id != sideId;
    var r := Filter(d.sides, keep);
    if k :| 0 <= k < |d.sides| && !keep(d.sides[k]) {
      FilterDropsOne(d.sides, keep, k);
    } else {
      FilterKeepsAll(d.sides, keep);
    }
    FilterKeepsDistinct(d.sides, keep);
  }

  lemma {:induction false} FilterKeepsDistinct(s: seq<CustomSide>, keep: CustomSide -> bool)
    requires forall i, j :: 0 <= i < j < |s| ==> s[i].id != s[j].id
    ensures forall i, j :: 0 <= i < j < |Filter(s, keep)| ==> Filter(s, keep)[i].id != Filter(s, keep)[j].id
  {
    if s != [] {
      FilterKeepsDistinct(s[1..], keep);
      var rest := Filter(s[1..], keep);
      assert forall j :: 0 <= j < |rest| ==> rest[j] in s[1..];
    }
  }

  /** Adding a face with a fresh identifier and removing it again restores the registry. */
  lemma AddThenRemoveSide(dice: seq<CustomDie>, dieId: string, sideId: string)
    requires forall k :: 0 <= k < |dice| && dice[k].id == dieId ==> |dice[k].sides| >= 1
    requires forall k, i :: 0 <= k < |dice| && dice[k].id == dieId && 0 <= i < |dice[k].sides| ==> dice[k].sides[i].id != sideId
    ensures RemoveSideFromDie(AddSideToDie(dice, dieId, sideId), dieId, sideId) == dice
  {
    var added := AddSideToDie(dice, dieId, sideId);
    var r := RemoveSideFromDie(added, dieId, sideId);
    forall k | 0 <= k < |dice| ensures r[k] == dice[k] {
      if dice[k].id == dieId {
        AddThenRemoveOneSide(dice[k], added[k], sideId);
      }
    }
  }

  lemma AddThenRemoveOneSide(d: CustomDie, added: CustomDie, sideId: string)
    requires forall i :: 0 <= i < |d.sides| ==> d.sides[i].id != sideId
    requires added == d.(sides := added.sides) && |added.sides| == |d.sides| + 1
    requires added.sides[..|d.sides|] == d.sides && added.sides[|d.sides|].id == sideId
    ensures added.(sides := Filter(added.sides, (s: CustomSide) => s.id != sideId)) == d
  {
    var keep := (s: CustomSide) => s.id != sideId;
    assert added.sides == d.sides + [added.sides[|d.sides|]];
    FilterAppend(d.sides, added.sides[|d.sides|], keep);
    FilterKeepsAll(d.sides, keep);
  }

  datatype Template = Numbers | Binary | Critical

  /** The faces a template writes onto a die. */
  function TemplateContents(t: Template): seq<string> {
    match t
    case Numbers => ["1", "2", "3", "4", "5", "6"]
    case Binary => ["HIT", "MISS"]
    case Critical => ["CRIT", "HIT", "HIT", "MISS", "MISS", "FUMBLE"]
  }

  /** `applyTemplate`: replaces every face of die `dieId` by the template's faces, with fresh identifiers. */
  function ApplyTemplate(dice: seq<CustomDie>, dieId: string, t: Template, ids: seq<string>): (r: seq<CustomDie>)
    requires |ids| == |TemplateContents(t)|
    ensures |r| == |dice|
    ensures forall k :: 0 <= k < |r| && dice[k].id != dieId ==> r[k] == dice[k]
    ensures forall k :: 0 <= k < |r| && dice[k].id == dieId ==>
      && r[k] == dice[k].(sides := r[k].sides)
      && |r[k].sides| == |ids|
      && forall i :: 0 <= i < |ids| ==> r[k].sides[i] == CustomSide(ids[i], TemplateContents(t)[i])
  {
    var contents := TemplateContents(t);
    var sides := seq(|ids|, i requires 0 <= i < |ids| => CustomSide(ids[i], contents[i]));
    seq(|dice|, k requires 0 <= k < |dice| => if dice[k].id == dieId then dice[k].(sides := sides) else dice[k])
  }

  /** The "numbers" template writes the same faces as a freshly added die carries. */
  lemma NumbersTemplateIsNumbered()
    ensures Numerals(6) == TemplateContents(Numbers)
  {
    assert NatToString(1) == "1" && NatToString(2) == "2" && NatToString(3) == "3";
    assert NatToString(4) == "4" && NatToString(5) == "5" && NatToString(6) == "6";
  }
}
