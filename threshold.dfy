/** The success classifier `calculateIsSuccess` (App.tsx:300-319). */
module Threshold {
  import opened Wrappers
  import opened Text
  import opened Types

  /** The text a value is compared by as a target: `x.toString().trim().toUpperCase()`. */
  function Key(v: Value): string {
    Normalize(ValueString(v))
  }

  /** Some target value has the normalized text form `key`. */
  predicate MatchesTarget(targets: seq<Value>, key: string) {
    exists k :: 0 <= k < |targets| && Key(targets[k]) == key
  }

  /** Whether a numeric comparison kind holds between a value and a threshold. */
  predicate Compares(kind: ThresholdKind, v: int, t: int)
    requires kind in {AtLeast, AtMost, Exactly}
  {
    match kind
    case AtLeast => v >= t
    case AtMost => v <= t
    case Exactly => v == t
  }

  /**
   * Classifies a rolled value against an entry's threshold rule: `None` when
   * the entry has no rule, otherwise whether the value is a success.
   */
  function CalculateIsSuccess(value: Value, entry: DiceEntry): (r: Option<bool>)
    ensures r.None? <==> entry.thresholdType == NoThreshold
  {
    if entry.thresholdType == NoThreshold then None
    else
      var valStr := Key(value);
      if entry.thresholdType == MatchAny then
        Some(MatchesTarget(entry.targetValues, valStr))
      else
        match NumericValue(value)
        case Some(v) =>
          (match NumericValue(entry.threshold)
           case Some(t) =>
             if entry.thresholdType == AtLeast then Some(v >= t)
             else if entry.thresholdType == AtMost then Some(v <= t)
             else Some(v == t)
           case None => Some(false))
        case None =>
          Some(entry.thresholdType == Exactly && valStr == Key(entry.threshold))
  }

  /**
   * A "match any" rule succeeds exactly when some target reads the same as
   * the value once both are trimmed and upper-cased.
   */
  lemma MatchAnyMeaning(value: Value, entry: DiceEntry)
    requires entry.thresholdType == MatchAny
    ensures CalculateIsSuccess(value, entry) == Some(true) <==>
      exists t :: t in entry.targetValues && Key(t) == Key(value)
  {
    var key := Key(value);
    assert CalculateIsSuccess(value, entry) == Some(MatchesTarget(entry.targetValues, key));
    if MatchesTarget(entry.targetValues, key) {
      var k :| 0 <= k < |entry.targetValues| && Key(entry.targetValues[k]) == key;
      assert entry.targetValues[k] in entry.targetValues;
    }
    if t :| t in entry.targetValues && Key(t) == key {
      var k :| 0 <= k < |entry.targetValues| && entry.targetValues[k] == t;
    }
  }

  /**
   * The numeric rules compare numbers when the value and the threshold both
   * parse; a value that does not parse fails "at least" and "at most", and
   * "exactly" then compares the trimmed, upper-cased texts.
   */
  lemma NumericMeaning(value: Value, entry: DiceEntry)
    requires entry.thresholdType in {AtLeast, AtMost, Exactly}
    ensures NumericValue(value).Some? ==>
      CalculateIsSuccess(value, entry)
        == Some(NumericValue(entry.threshold).Some?
                && Compares(entry.thresholdType, NumericValue(value).value, NumericValue(entry.threshold).value))
    ensures entry.thresholdType != Exactly && NumericValue(value).None? ==> CalculateIsSuccess(value, entry) == Some(false)
    ensures entry.thresholdType == Exactly && NumericValue(value).None? ==>
      CalculateIsSuccess(value, entry) == Some(Key(value) == Key(entry.threshold))
  {
  }

  /**
   * On a numeric value, "at least t" and "at most t" hold together exactly
   * when "exactly t" holds.
   */
  lemma AtLeastAndAtMostIsExactly(value: Value, entry: DiceEntry)
    requires NumericValue(value).Some?
    ensures CalculateIsSuccess(value, entry.(thresholdType := AtLeast)) == Some(true)
         && CalculateIsSuccess(value, entry.(thresholdType := AtMost)) == Some(true)
        <==> CalculateIsSuccess(value, entry.(thresholdType := Exactly)) == Some(true)
  {
  }

  /**
   * A custom face whose text is the decimal form of `n` is classified exactly
   * like the standard face `n`, under every rule.
   */
  lemma NumberAndItsTextClassifyAlike(n: int, entry: DiceEntry)
    ensures CalculateIsSuccess(Text(IntToString(n)), entry) == CalculateIsSuccess(Num(n), entry)
  {
    ParseIntToString(n);
  }

  /**
   * A target typed in capitals with a trailing blank still matches the face
   * written in any case: "hit" matches the target "HIT ".
   */
  lemma MatchIgnoresCaseAndPadding(entry: DiceEntry, face: string, k: nat)
    requires face != [] && forall i :: 0 <= i < |face| ==> IsLetter(face[i])
    requires entry.thresholdType == MatchAny && k < |entry.targetValues|
    requires entry.targetValues[k] == Text(Upper(face) + [' '])
    ensures CalculateIsSuccess(Text(face), entry) == Some(true)
  {
    var up := Upper(face);
    TrimKeepsUnpadded(face);
    TrimDropsTrailingBlank(up);
    UpperKeepsCapitals(up);
    MatchAnySucceeds(Text(face), entry, k);
  }

  /** A MATCH_ANY entry accepts a value whose normalized text is that of one of its targets. */
  lemma MatchAnySucceeds(value: Value, entry: DiceEntry, k: nat)
    requires entry.thresholdType == MatchAny && k < |entry.targetValues|
    requires Key(entry.targetValues[k]) == Key(value)
    ensures CalculateIsSuccess(value, entry) == Some(true)
  {
    assert MatchesTarget(entry.targetValues, Key(value));
  }

  predicate IsLetter(c: char) {
    'a' <= c <= 'z' || 'A' <= c <= 'Z'
  }

  lemma UpperKeepsCapitals(s: string)
    requires forall i :: 0 <= i < |s| ==> 'A' <= s[i] <= 'Z'
    ensures Upper(s) == s
  {
    assert forall i :: 0 <= i < |s| ==> Upper(s)[i] == s[i];
  }
}
