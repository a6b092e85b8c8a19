/**
 * The face list offered for an entry's target values, `getEntryUniqueFaces`
 * (App.tsx:387-400): the distinct faces of the entry's die, ordered by the
 * source's comparator.
 */
module Faces {
  import opened Wrappers
  import opened Text
  import opened Types
  import opened Registry
  import opened Roll

  /** `parseInt(entry.diceType.toString())` */
  function FaceCount(t: DiceType): Option<int> {
    ParseNumber(DiceTypeString(t))
  }

  /** A numeric die type reads back as its own side count. */
  lemma FaceCountOfStandard(n: int)
    ensures FaceCount(Standard(n)) == Some(n)
  {
    ParseIntToString(n);
  }

  /** The contents of a custom die's sides, in order. */
  function SideFaces(sides: seq<CustomSide>): (r: seq<Value>)
    ensures |r| == |sides| && forall i :: 0 <= i < |r| ==> r[i] == Text(sides[i].content)
  {
    seq(|sides|, i requires 0 <= i < |sides| => Text(sides[i].content))
  }

  /** The numbers 1 up to `n`. */
  function NumberFaces(n: int): (r: seq<Value>)
    ensures |r| == Repetitions(n) && forall i :: 0 <= i < |r| ==> r[i] == Num(i + 1)
    ensures forall v :: v in r <==> v.Num? && 1 <= v.n <= n
  {
    var r := seq(Repetitions(n), i requires 0 <= i < Repetitions(n) => Num(i + 1));
    assert forall k :: 1 <= k <= n ==> r[k - 1] == Num(k);
    r
  }

  /**
   * The faces in the order they are added to the set: the contents of the
   * custom die's sides, or 1 up to the parsed side count.
   */
  function RawFaces(entry: DiceEntry, dice: seq<CustomDie>): seq<Value> {
    match FindDie(dice, entry.diceType)
    case Some(d) => SideFaces(d.sides)
    case None =>
      match FaceCount(entry.diceType)
      case Some(n) => NumberFaces(n)
      case None => []
  }

  predicate Distinct(s: seq<Value>) {
    forall i, j :: 0 <= i < j < |s| ==> s[i] != s[j]
  }

  /** What a `Set` keeps of a sequence of additions: first occurrences, in order. */
  function Dedup(s: seq<Value>): (r: seq<Value>)
    ensures Distinct(r)
    ensures forall v :: v in r <==> v in s
  {
    if s == [] then []
    else
      var d := Dedup(s[..|s| - 1]);
      assert s == s[..|s| - 1] + [s[|s| - 1]];
      if s[|s| - 1] in d then d else d + [s[|s| - 1]]
  }

  /** `parseFloat(face.toString())`; `None` is NaN. */
  function SortKey(v: Value): Option<int> {
    ParseNumber(ValueString(v))
  }

  /** A numeric face is keyed by its own value. */
  lemma SortKeyOfNumber(n: int)
    ensures SortKey(Num(n)) == Some(n)
  {
    ParseIntToString(n);
  }

  /** The comparator: by number when both faces read as numbers, by text otherwise. */
  function Compare(a: Value, b: Value): (r: int)
    ensures SortKey(a).Some? && SortKey(b).Some? ==>
      && (r < 0 <==> SortKey(a).value < SortKey(b).value)
      && (r == 0 <==> SortKey(a).value == SortKey(b).value)
    ensures SortKey(a).None? || SortKey(b).None? ==>
      && (r < 0 <==> LexLess(ValueString(a), ValueString(b)))
      && (r == 0 <==> ValueString(a) == ValueString(b))
  {
    if SortKey(a).Some? && SortKey(b).Some? then SortKey(a).value - SortKey(b).value
    else LocaleCompare(ValueString(a), ValueString(b))
  }

  /** `a` sorts strictly after `b`. */
  predicate Above(a: Value, b: Value) {
    Compare(a, b) > 0
  }

  /** The comparator is antisymmetric in sign. */
  lemma CompareFlips(a: Value, b: Value)
    ensures Compare(a, b) > 0 ==> Compare(b, a) < 0
  {
    LexLessTotal(ValueString(a), ValueString(b));
  }

  /** Each face is ordered no later than the next one. */
  predicate Ordered(s: seq<Value>) {
    forall i :: 0 <= i < |s| - 1 ==> Compare(s[i], s[i + 1]) <= 0
  }

  /**
   * `Array.from(faces).sort(comparator)`, as a stable insertion sort: each
   * face goes after the last face that does not compare above it.
   */
  method SortFaces(faces: seq<Value>) returns (r: seq<Value>)
    ensures multiset(r) == multiset(faces)
    ensures Ordered(r)
  {
    r := [];
    for n := 0 to |faces|
      invariant multiset(r) == multiset(faces[..n])
      invariant Ordered(r)
    {
      assert faces[..n + 1] == faces[..n] + [faces[n]];
      r := InsertFace(r, faces[n]);
    }
    assert faces[..|faces|] == faces;
  }

  /** One step of the insertion sort: `x` goes after the last face not above it. */
  method InsertFace(r: seq<Value>, x: Value) returns (s: seq<Value>)
    requires Ordered(r)
    ensures multiset(s) == multiset(r) + multiset{x}
    ensures Ordered(s)
  {
    var k := FindSlot(r, x, Above);
    InsertOrdered(r, k, x);
    InsertKeepsFaces(r, k, x);
    s := r[..k] + [x] + r[k..];
  }

  /**
   * Scans back from the end for the last element not above `x` under the
   * comparator; `x` goes right after it.
   */
  method FindSlot<T>(r: seq<T>, x: T, above: (T, T) -> bool) returns (k: nat)
    ensures k <= |r|
    ensures k > 0 ==> !above(r[k - 1], x)
    ensures k < |r| ==> above(r[k], x)
  {
    k := |r|;
    while k > 0 && above(r[k - 1], x)
      invariant k <= |r|
      invariant k < |r| ==> above(r[k], x)
    {
      k := k - 1;
    }
  }

  lemma InsertKeepsFaces(r: seq<Value>, k: nat, x: Value)
    requires k <= |r|
    ensures multiset(r[..k] + [x] + r[k..]) == multiset(r) + multiset{x}
  {
    assert r == r[..k] + r[k..];
  }

  /** Inserting a face between a neighbour not above it and one above it keeps the order. */
  lemma InsertOrdered(r: seq<Value>, k: nat, x: Value)
    requires Ordered(r) && k <= |r|
    requires k > 0 ==> !Above(r[k - 1], x)
    requires k < |r| ==> Above(r[k], x)
    ensures Ordered(r[..k] + [x] + r[k..])
  {
    var s := r[..k] + [x] + r[k..];
    forall i | 0 <= i < |s| - 1
      ensures Compare(s[i], s[i + 1]) <= 0
    {
      if i + 1 < k {
        assert s[i] == r[i] && s[i + 1] == r[i + 1];
      } else if i + 1 == k {
        assert s[i] == r[k - 1] && s[i + 1] == x;
      } else if i == k {
        assert s[i] == x && s[i + 1] == r[k];
        CompareFlips(r[k], x);
      } else {
        assert s[i] == r[i - 1] && s[i + 1] == r[i];
      }
    }
  }

  /** `getEntryUniqueFaces(entry)`, with the registry passed in. */
  method GetEntryUniqueFaces(entry: DiceEntry, dice: seq<CustomDie>) returns (faces: seq<Value>)
    ensures multiset(faces) == multiset(Dedup(RawFaces(entry, dice)))
    ensures Ordered(faces)
  {
    var unique: seq<Value> := [];
    var customDie := FindDie(dice, entry.diceType);
    if customDie.Some? {
      unique := AddSideFaces(customDie.value.sides);
    } else {
      var sides := FaceCount(entry.diceType);
      if sides.Some? {
        unique := AddNumberFaces(sides.value);
      }
    }
    faces := SortFaces(unique);
  }

  /** `customDie.sides.forEach(s => faces.add(s.content))` on an empty set. */
  method AddSideFaces(sides: seq<CustomSide>) returns (unique: seq<Value>)
    ensures unique == Dedup(SideFaces(sides))
  {
    ghost var raw := SideFaces(sides);
    unique := [];
    for i := 0 to |sides|
      invariant unique == Dedup(raw[..i])
    {
      var face := Text(sides[i].content);
      DedupStep(raw, i);
      if face !in unique {
        unique := unique + [face];
      }
    }
    assert raw[..|raw|] == raw;
  }

  /** `for (let i = 1; i <= sides; i++) faces.add(i)` on an empty set. */
  method AddNumberFaces(sides: int) returns (unique: seq<Value>)
    ensures unique == Dedup(NumberFaces(sides))
  {
    ghost var raw := NumberFaces(sides);
    unique := [];
    var i := 1;
    while i <= sides
      invariant 1 <= i <= Repetitions(sides) + 1
      invariant unique == Dedup(raw[..i - 1])
    {
      DedupStep(raw, i - 1);
      if Num(i) !in unique {
        unique := unique + [Num(i)];
      }
      i := i + 1;
    }
    assert raw[..i - 1] == raw;
  }

  /** Adding the next face to the set. */
  lemma DedupStep(s: seq<Value>, i: nat)
    requires i < |s|
    ensures Dedup(s[..i + 1]) == if s[i] in Dedup(s[..i]) then Dedup(s[..i]) else Dedup(s[..i]) + [s[i]]
  {
    assert s[..i + 1][..i] == s[..i];
  }

  /** Faces that can come up are distinct in the list, as the set makes them. */
  lemma {:induction false} SameMultisetKeepsDistinct(a: seq<Value>, b: seq<Value>)
    requires multiset(a) == multiset(b) && Distinct(b)
    ensures Distinct(a)
  {
    forall i, j | 0 <= i < j < |a|
      ensures a[i] != a[j]
    {
      if a[i] == a[j] {
        TwiceInSequence(a, i, j);
        AtMostOnce(b, a[i]);
        assert false;
      }
    }
  }

  lemma TwiceInSequence(a: seq<Value>, i: nat, j: nat)
    requires i < j < |a| && a[i] == a[j]
    ensures multiset(a)[a[i]] >= 2
  {
    assert a == a[..i] + [a[i]] + a[i + 1..j] + [a[j]] + a[j + 1..];
  }

  lemma {:induction false} AtMostOnce(b: seq<Value>, v: Value)
    requires Distinct(b)
    ensures multiset(b)[v] <= 1
  {
    if b != [] {
      var last := b[|b| - 1];
      assert b == b[..|b| - 1] + [last];
      AtMostOnce(b[..|b| - 1], v);
      if last == v {
        assert v !in b[..|b| - 1];
      }
    }
  }

  /** The face list has no duplicates and holds exactly the faces the die has. */
  lemma FaceListIsTheFaces(entry: DiceEntry, dice: seq<CustomDie>, faces: seq<Value>)
    requires multiset(faces) == multiset(Dedup(RawFaces(entry, dice)))
    ensures Distinct(faces)
    ensures forall v :: v in faces <==> v in RawFaces(entry, dice)
  {
    SameMultisetKeepsDistinct(faces, Dedup(RawFaces(entry, dice)));
    forall v
      ensures v in faces <==> v in RawFaces(entry, dice)
    {
      assert v in faces <==> v in multiset(faces);
      assert v in Dedup(RawFaces(entry, dice)) <==> v in multiset(Dedup(RawFaces(entry, dice)));
    }
  }

  /** When every face reads as a number, the list is in ascending numeric order. */
  lemma {:induction false} NumericFacesAscend(s: seq<Value>)
    requires Ordered(s)
    requires forall i :: 0 <= i < |s| ==> SortKey(s[i]).Some?
    ensures forall i, j :: 0 <= i < j < |s| ==> SortKey(s[i]).value <= SortKey(s[j]).value
  {
    if |s| > 1 {
      NumericFacesAscend(s[1..]);
      forall j | 1 <= j < |s|
        ensures SortKey(s[0]).value <= SortKey(s[j]).value
      {
        assert s[j] == s[1..][j - 1];
        if j > 1 {
          assert SortKey(s[1]).value <= SortKey(s[1..][j - 1]).value;
        }
      }
      forall i, j | 1 <= i < j < |s|
        ensures SortKey(s[i]).value <= SortKey(s[j]).value
      {
        assert s[i] == s[1..][i - 1] && s[j] == s[1..][j - 1];
      }
    }
  }

  /** When no face reads as a number, the list is in text order. */
  lemma {:induction false} TextFacesAscend(s: seq<Value>)
    requires Ordered(s)
    requires forall i :: 0 <= i < |s| ==> SortKey(s[i]).None?
    ensures forall i, j :: 0 <= i < j < |s| ==> !LexLess(ValueString(s[j]), ValueString(s[i]))
  {
    if |s| > 1 {
      TextFacesAscend(s[1..]);
      forall j | 1 <= j < |s|
        ensures !LexLess(ValueString(s[j]), ValueString(s[0]))
      {
        assert s[j] == s[1..][j - 1];
        var a, b, c := ValueString(s[0]), ValueString(s[1]), ValueString(s[j]);
        assert a == b || LexLess(a, b);
        if j > 1 {
          assert !LexLess(c, b) by { assert s[1] == s[1..][0]; }
          LexLessTotal(b, c);
          if LexLess(c, a) {
            if a == b {
            } else if b == c {
              LexLessTransitive(a, b, a);
              LexLessIrreflexive(a);
            } else {
              LexLessTransitive(a, b, c);
              LexLessTransitive(a, c, a);
              LexLessIrreflexive(a);
            }
          }
        } else if LexLess(c, a) {
          LexLessTransitive(a, c, a);
          LexLessIrreflexive(a);
        }
      }
      forall i, j | 1 <= i < j < |s|
        ensures !LexLess(ValueString(s[j]), ValueString(s[i]))
      {
        assert s[i] == s[1..][i - 1] && s[j] == s[1..][j - 1];
      }
    }
  }

  /**
   * Every face a roll of the entry can show is in its face list, with two
   * exceptions. A die type that is neither a registered die nor a number
   * rolls as a d6 and lists no faces. A die type that reads as a side count
   * of 0 or less (a dangling identifier such as "0ab…", or "-2") rolls a face
   * of at most 1 and lists no faces either.
   */
  lemma RolledFaceIsListed(entry: DiceEntry, dice: seq<CustomDie>, idx: int)
    requires Fits(idx, entry.diceType, FindDie(dice, entry.diceType))
    ensures var die, face := FindDie(dice, entry.diceType), FaceValue(entry.diceType, FindDie(dice, entry.diceType), idx);
      && (die.Some? ==> face in RawFaces(entry, dice))
      && (die.None? && FaceCount(entry.diceType).None? ==>
            RawFaces(entry, dice) == [] && StandardSides(entry.diceType) == 6)
      && (die.None? && FaceCount(entry.diceType).Some? ==>
            FaceCount(entry.diceType).value == StandardSides(entry.diceType))
      && (die.None? && StandardSides(entry.diceType) > 0 && FaceCount(entry.diceType).Some? ==>
            face in RawFaces(entry, dice))
      && (die.None? && StandardSides(entry.diceType) <= 0 ==>
            RawFaces(entry, dice) == [] && face.Num? && face.n <= 1)
  {
    var die := FindDie(dice, entry.diceType);
    var raw := RawFaces(entry, dice);
    if entry.diceType.Standard? {
      FaceCountOfStandard(entry.diceType.sides);
    }
    if die.Some? {
      assert raw[idx] == Text(die.value.sides[idx].content);
    }
  }

  /** A dangling identifier starting with "0" rolls a 1, yet its face list is empty. */
  lemma ZeroSidedDieRollsOne(entry: DiceEntry)
    requires entry.diceType == Custom("0ab")
    ensures var die := FindDie([], entry.diceType);
      && Fits(0, entry.diceType, die)
      && FaceValue(entry.diceType, die, 0) == Num(1)
      && RawFaces(entry, []) == []
  {
    assert DigitPrefixLength("0ab") == 1 by {
      assert "0ab"[1..] == "ab";
    }
    assert "0ab"[..1] == "0";
    assert TrimStart("0ab") == "0ab";
  }

}
