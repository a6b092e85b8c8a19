/**
 * The bag of a blind-bag pool: a definition mapping each colour to a
 * quantity, expanded into a flat list of colours by `refillBag`
 * (App.tsx:134-140) and edited by `updateBagDefinition` (App.tsx:231-237).
 */
module Bag {
  import opened Wrappers
  import opened Types

  function Repeat(color: string, n: nat): (r: seq<string>)
    ensures |r| == n && forall i :: 0 <= i < n ==> r[i] == color
  {
    seq(n, _ => color)
  }

  /** The bag a definition describes: each colour repeated its quantity, colours in definition order. */
  function Expand(def: seq<BagSlot>): seq<string> {
    if def == [] then []
    else Expand(def[..|def| - 1]) + Repeat(def[|def| - 1].color, Repetitions(def[|def| - 1].qty))
  }

  /** A definition is a JavaScript object: no colour appears twice. */
  predicate DistinctColors(def: seq<BagSlot>) {
    forall i, j :: 0 <= i < j < |def| ==> def[i].color != def[j].color
  }

  /** `bagDefinition[color]` */
  function Lookup(def: seq<BagSlot>, color: string): (r: Option<int>)
    ensures r.None? <==> forall k :: 0 <= k < |def| ==> def[k].color != color
    ensures r.Some? ==> exists k :: 0 <= k < |def| && def[k] == BagSlot(color, r.value)
  {
    if def == [] then None
    else if def[|def| - 1].color == color then Some(def[|def| - 1].qty)
    else Lookup(def[..|def| - 1], color)
  }

  /** The number of copies of `color` the definition asks for. */
  function Wanted(def: seq<BagSlot>, color: string): nat {
    match Lookup(def, color)
    case Some(q) => Repetitions(q)
    case None => 0
  }

  lemma {:induction false} RepeatCount(color: string, n: nat, c: string)
    ensures multiset(Repeat(color, n))[c] == if color == c then n else 0
  {
    if n > 0 {
      assert Repeat(color, n) == Repeat(color, n - 1) + [color];
      RepeatCount(color, n - 1, c);
    }
  }

  /** A refilled bag holds exactly `max(0, qty)` copies of each colour of the definition, and nothing else. */
  lemma {:induction false} ExpandCounts(def: seq<BagSlot>, c: string)
    requires DistinctColors(def)
    ensures multiset(Expand(def))[c] == Wanted(def, c)
  {
    if def != [] {
      var init, last := def[..|def| - 1], def[|def| - 1];
      ExpandCounts(init, c);
      RepeatCount(last.color, Repetitions(last.qty), c);
      if last.color == c {
        assert forall k :: 0 <= k < |init| ==> init[k].color != c;
      }
    }
  }

  /** Sum of the quantities, each clamped at zero. */
  function TotalCopies(def: seq<BagSlot>): nat {
    if def == [] then 0 else TotalCopies(def[..|def| - 1]) + Repetitions(def[|def| - 1].qty)
  }

  lemma {:induction false} ExpandLength(def: seq<BagSlot>)
    ensures |Expand(def)| == TotalCopies(def)
  {
    if def != [] { ExpandLength(def[..|def| - 1]); }
  }

  /** `refillBag`: replaces the live bag by the expansion of the definition. */
  method RefillBag(pool: DicePool) returns (r: DicePool)
    ensures r == pool.(currentBag := Expand(pool.bagDefinition))
  {
    var def := pool.bagDefinition;
    var newBag: seq<string> := [];
    for k := 0 to |def|
      invariant newBag == Expand(def[..k])
    {
      var color, qty := def[k].color, def[k].qty;
      var i := 0;
      while i < qty
        invariant 0 <= i <= Repetitions(qty)
        invariant newBag == Expand(def[..k]) + Repeat(color, i)
      {
        newBag := newBag + [color];
        i := i + 1;
      }
      assert def[..k + 1][..k] == def[..k];
    }
    assert def[..|def|] == def;
    r := pool.(currentBag := newBag);
  }

  /**
   * The definition half of `updateBagDefinition`: sets the quantity of
   * `color` to `max(0, qty)`, adding the colour at the end when it is new.
   */
  function UpdateQuantity(def: seq<BagSlot>, color: string, qty: int): (r: seq<BagSlot>)
    ensures Lookup(r, color) == Some(Repetitions(qty))
    ensures forall c :: c != color ==> Lookup(r, c) == Lookup(def, c)
    ensures DistinctColors(def) ==> DistinctColors(r)
  {
    if exists k :: 0 <= k < |def| && def[k].color == color then
      var r := seq(|def|, k requires 0 <= k < |def| => if def[k].color == color then BagSlot(color, Repetitions(qty)) else def[k]);
      UpdatedLookup(def, r, color, qty);
      r
    else
      assert (def + [BagSlot(color, Repetitions(qty))])[..|def|] == def;
      def + [BagSlot(color, Repetitions(qty))]
  }

  lemma {:induction false} UpdatedLookup(def: seq<BagSlot>, r: seq<BagSlot>, color: string, qty: int)
    requires exists k :: 0 <= k < |def| && def[k].color == color
    requires r == seq(|def|, k requires 0 <= k < |def| => if def[k].color == color then BagSlot(color, Repetitions(qty)) else def[k])
    ensures Lookup(r, color) == Some(Repetitions(qty))
    ensures forall c :: c != color ==> Lookup(r, c) == Lookup(def, c)
  {
    var n := |def|;
    var init := def[..n - 1];
    var rinit := seq(|init|, k requires 0 <= k < |init| => if init[k].color == color then BagSlot(color, Repetitions(qty)) else init[k]);
    assert r[..n - 1] == rinit;
    forall c | c != color ensures Lookup(r, c) == Lookup(def, c) {
      UpdatedLookupOther(def, r, color, qty, c);
    }
    if def[n - 1].color != color {
      UpdatedLookup(init, rinit, color, qty);
    }
  }

  lemma {:induction false} UpdatedLookupOther(def: seq<BagSlot>, r: seq<BagSlot>, color: string, qty: int, c: string)
    requires c != color
    requires r == seq(|def|, k requires 0 <= k < |def| => if def[k].color == color then BagSlot(color, Repetitions(qty)) else def[k])
    ensures Lookup(r, c) == Lookup(def, c)
  {
    if def != [] {
      var n := |def|;
      var init := def[..n - 1];
      var rinit := seq(|init|, k requires 0 <= k < |init| => if init[k].color == color then BagSlot(color, Repetitions(qty)) else init[k]);
      assert r[..n - 1] == rinit;
      UpdatedLookupOther(init, rinit, color, qty, c);
    }
  }

  /**
   * After a quantity edit, a refill yields `max(0, qty)` copies of that colour
   * and as many of every other colour as before.
   */
  lemma RefillAfterUpdate(def: seq<BagSlot>, color: string, qty: int, c: string)
    requires DistinctColors(def)
    ensures multiset(Expand(UpdateQuantity(def, color, qty)))[color] == Repetitions(qty)
    ensures c != color ==> multiset(Expand(UpdateQuantity(def, color, qty)))[c] == multiset(Expand(def))[c]
  {
    var r := UpdateQuantity(def, color, qty);
    ExpandCounts(r, color);
    ExpandCounts(r, c);
    ExpandCounts(def, c);
  }
}
