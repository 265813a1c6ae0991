/** Splitting a quantity over the lots of one cell, oldest first. Quantities are thousandths. */
module FifoSplit {
  import opened Basics

  datatype Portion = Portion(lot: nat, quantity: int)

  datatype SplitError = NotEnough

  /** What a lot can give: nothing when it is empty or over-reserved. */
  function Usable(available: int): nat {
    Max(available, 0)
  }

  function TotalUsable(available: seq<int>): nat {
    if available == [] then 0 else TotalUsable(available[..|available| - 1]) + Usable(available[|available| - 1])
  }

  /** The reference: lot i gives what the earlier lots leave over, up to what it has. */
  function Share(available: seq<int>, quantity: int, i: nat): nat
    requires i < |available|
  {
    Max(0, Min(Usable(available[i]), quantity - TotalUsable(available[..i])))
  }

  /** The non-empty shares of the first n lots, in order. */
  function Portions(available: seq<int>, quantity: int, n: nat): (portions: seq<Portion>)
    requires n <= |available|
    ensures forall k :: 0 <= k < |portions| ==> portions[k].lot < n && portions[k].quantity > 0
  {
    if n == 0 then []
    else
      Portions(available, quantity, n - 1)
      + if Share(available, quantity, n - 1) > 0 then [Portion(n - 1, Share(available, quantity, n - 1))] else []
  }

  /** Each portion is the share of its lot. */
  lemma {:induction false} PortionIsShare(available: seq<int>, quantity: int, n: nat, k: nat)
    requires n <= |available| && k < |Portions(available, quantity, n)|
    ensures Portions(available, quantity, n)[k].quantity == Share(available, quantity, Portions(available, quantity, n)[k].lot)
  {
    if k < |Portions(available, quantity, n - 1)| {
      PortionIsShare(available, quantity, n - 1, k);
    }
  }

  /** The lots come in order. */
  lemma {:induction false} LotsInOrder(available: seq<int>, quantity: int, n: nat, j: nat, k: nat)
    requires n <= |available| && j < k < |Portions(available, quantity, n)|
    ensures Portions(available, quantity, n)[j].lot < Portions(available, quantity, n)[k].lot
  {
    var before := Portions(available, quantity, n - 1);
    assert Portions(available, quantity, n)[j] == before[j];
    if k < |before| {
      LotsInOrder(available, quantity, n - 1, j, k);
    }
  }

  function SumPortions(portions: seq<Portion>): int {
    if portions == [] then 0 else SumPortions(portions[..|portions| - 1]) + portions[|portions| - 1].quantity
  }

  lemma PrefixUsable(available: seq<int>, i: nat)
    requires i < |available|
    ensures TotalUsable(available[..i + 1]) == TotalUsable(available[..i]) + Usable(available[i])
  {
    assert available[..i + 1][..i] == available[..i];
  }

  lemma {:induction false} UsableGrows(available: seq<int>, i: nat, j: nat)
    requires i <= j <= |available|
    ensures TotalUsable(available[..i]) <= TotalUsable(available[..j])
  {
    if i < j {
      UsableGrows(available, i, j - 1);
      PrefixUsable(available, j - 1);
    }
  }

  lemma SumWithShare(portions: seq<Portion>, lot: nat, share: nat)
    ensures SumPortions(portions + if share > 0 then [Portion(lot, share)] else []) == SumPortions(portions) + share
  {
    if share > 0 {
      assert (portions + [Portion(lot, share)])[..|portions|] == portions;
    } else {
      assert portions + [] == portions;
    }
  }

  lemma ShareFillsUp(quantity: int, before: nat, usable: nat)
    ensures Covered(quantity, before) + Max(0, Min(usable, quantity - before)) == Covered(quantity, before + usable)
  {
  }

  lemma PortionsGrow(available: seq<int>, quantity: int, n: nat)
    requires 0 < n <= |available|
    ensures SumPortions(Portions(available, quantity, n))
         == SumPortions(Portions(available, quantity, n - 1)) + Share(available, quantity, n - 1)
  {
    SumWithShare(Portions(available, quantity, n - 1), n - 1, Share(available, quantity, n - 1));
  }

  function Covered(quantity: int, usable: nat): nat {
    Max(0, Min(quantity, usable))
  }

  lemma {:induction false} PortionsTotal(available: seq<int>, quantity: int, n: nat)
    requires n <= |available|
    ensures SumPortions(Portions(available, quantity, n)) == Covered(quantity, TotalUsable(available[..n]))
  {
    if n == 0 {
      assert available[..0] == [];
    } else {
      PortionsTotal(available, quantity, n - 1);
      PortionsGrow(available, quantity, n);
      PrefixUsable(available, n - 1);
      ShareFillsUp(quantity, TotalUsable(available[..n - 1]), Usable(available[n - 1]));
    }
  }

  /** Once the earlier lots cover the quantity, the rest give nothing. */
  lemma {:induction false} NothingLeft(available: seq<int>, quantity: int, i: nat, n: nat)
    requires i <= n <= |available| && quantity <= TotalUsable(available[..i])
    ensures Portions(available, quantity, n) == Portions(available, quantity, i)
  {
    if i < n {
      NothingLeft(available, quantity, i, n - 1);
      UsableGrows(available, i, n - 1);
    }
  }

  /** The loop over the lots: fails exactly when the usable total is short. */
  method SplitQuantityOverLots(available: seq<int>, quantity: int) returns (result: Result<seq<Portion>, SplitError>)
    ensures result.Ok? <==> quantity <= TotalUsable(available)
    ensures result.Ok? ==> result.value == Portions(available, quantity, |available|)
  {
    var portions: seq<Portion> := [];
    var remaining := quantity;
    var i := 0;
    assert available[..|available|] == available;
    while i < |available|
      invariant 0 <= i <= |available|
      invariant portions == Portions(available, quantity, i)
      invariant remaining == quantity - Max(0, Min(quantity, TotalUsable(available[..i])))
    {
      PrefixUsable(available, i);
      if remaining <= 0 {
        NothingLeft(available, quantity, i, |available|);
        UsableGrows(available, i, |available|);
        break;
      }
      if available[i] > 0 {
        var portion := Min(available[i], remaining);
        portions := portions + [Portion(i, portion)];
        remaining := remaining - portion;
      }
      i := i + 1;
    }
    if remaining > 0 {
      return Err(NotEnough);
    }
    result := Ok(portions);
  }

  // ---------------------------------------------------------------- what the split means

  /** Portions as one amount a lot, in lot order. */
  function AmountOf(portions: seq<Portion>, lot: nat): int {
    if portions == [] then 0
    else AmountOf(portions[..|portions| - 1], lot)
         + if portions[|portions| - 1].lot == lot then portions[|portions| - 1].quantity else 0
  }

  function Total(amounts: seq<int>): int {
    if amounts == [] then 0 else Total(amounts[..|amounts| - 1]) + amounts[|amounts| - 1]
  }

  /** Oldest first: within availability, complete, and nothing from a lot while an older one has some left. */
  ghost predicate OldestFirst(available: seq<int>, quantity: int, amounts: seq<int>) {
    && |amounts| == |available|
    && Total(amounts) == quantity
    && (forall i :: 0 <= i < |amounts| ==> 0 <= amounts[i] <= Usable(available[i]))
    && (forall i, j :: 0 <= i < j < |amounts| && amounts[j] > 0 ==> amounts[i] == Usable(available[i]))
  }

  function Shares(available: seq<int>, quantity: int): seq<int> {
    seq(|available|, i requires 0 <= i < |available| => Share(available, quantity, i))
  }

  lemma {:induction false} SharesTotal(available: seq<int>, quantity: int, n: nat)
    requires n <= |available| && 0 <= quantity
    ensures Total(Shares(available, quantity)[..n]) == Min(quantity, TotalUsable(available[..n]))
  {
    if n > 0 {
      SharesTotal(available, quantity, n - 1);
      PrefixUsable(available, n - 1);
      assert Shares(available, quantity)[..n][..n - 1] == Shares(available, quantity)[..n - 1];
    }
  }

  lemma AmountAppend(portions: seq<Portion>, last: Portion, lot: nat)
    ensures AmountOf(portions + [last], lot) == AmountOf(portions, lot) + if last.lot == lot then last.quantity else 0
  {
    assert (portions + [last])[..|portions|] == portions;
  }

  lemma AmountWithShare(portions: seq<Portion>, at: nat, share: nat, lot: nat)
    ensures AmountOf(portions + if share > 0 then [Portion(at, share)] else [], lot)
         == AmountOf(portions, lot) + if lot == at then share else 0
  {
    if share > 0 {
      AmountAppend(portions, Portion(at, share), lot);
    } else {
      assert portions + [] == portions;
    }
  }

  lemma AddShare(available: seq<int>, quantity: int, n: nat, lot: nat)
    requires 0 < n <= |available|
    ensures AmountOf(Portions(available, quantity, n), lot)
         == AmountOf(Portions(available, quantity, n - 1), lot) + if lot == n - 1 then Share(available, quantity, n - 1) else 0
  {
    AmountWithShare(Portions(available, quantity, n - 1), n - 1, Share(available, quantity, n - 1), lot);
  }

  lemma {:induction false} AmountIsShare(available: seq<int>, quantity: int, n: nat, lot: nat)
    requires n <= |available| && lot < |available|
    ensures AmountOf(Portions(available, quantity, n), lot) == if lot < n then Share(available, quantity, lot) else 0
  {
    if n == 0 {
      assert Portions(available, quantity, n) == [];
    } else {
      AmountIsShare(available, quantity, n - 1, lot);
      AddShare(available, quantity, n, lot);
    }
  }

  /** The portions of a feasible split are the oldest-first one. */
  lemma SplitIsOldestFirst(available: seq<int>, quantity: int)
    requires 0 <= quantity <= TotalUsable(available)
    ensures OldestFirst(available, quantity, Shares(available, quantity))
    ensures forall lot :: 0 <= lot < |available| ==>
              AmountOf(Portions(available, quantity, |available|), lot) == Shares(available, quantity)[lot]
  {
    var amounts := Shares(available, quantity);
    SharesTotal(available, quantity, |available|);
    assert amounts[..|amounts|] == amounts && available[..|available|] == available;
    forall i, j | 0 <= i < j < |amounts| && amounts[j] > 0 ensures amounts[i] == Usable(available[i]) {
      PrefixUsable(available, i);
      UsableGrows(available, i + 1, j);
    }
    forall lot | 0 <= lot < |available|
      ensures AmountOf(Portions(available, quantity, |available|), lot) == amounts[lot]
    {
      AmountIsShare(available, quantity, |available|, lot);
    }
  }

  lemma {:induction false} NothingAfter(amounts: seq<int>, n: nat)
    requires n <= |amounts| && forall k :: n <= k < |amounts| ==> amounts[k] == 0
    ensures Total(amounts) == Total(amounts[..n])
    decreases |amounts| - n
  {
    if n < |amounts| {
      NothingAfter(amounts, n + 1);
      assert amounts[..n + 1][..n] == amounts[..n];
    } else {
      assert amounts[..n] == amounts;
    }
  }

  /** Up to the first lot that is not emptied, an oldest-first split gives everything there is. */
  lemma {:induction false} EmptiedPrefix(available: seq<int>, quantity: int, amounts: seq<int>, n: nat)
    requires OldestFirst(available, quantity, amounts) && n <= |amounts|
    ensures Total(amounts[..n]) == Min(quantity, TotalUsable(available[..n]))
  {
    if n == 0 {
      TotalIsNotNegative(amounts);
    } else {
      EmptiedPrefix(available, quantity, amounts, n - 1);
      PrefixUsable(available, n - 1);
      assert amounts[..n][..n - 1] == amounts[..n - 1];
      if amounts[n - 1] < Usable(available[n - 1]) {
        assert forall k :: n <= k < |amounts| ==> amounts[k] == 0;
        NothingAfter(amounts, n);
      } else {
        RestIsNotNegative(amounts, n);
      }
    }
  }

  lemma {:induction false} TotalIsNotNegative(amounts: seq<int>)
    requires forall k :: 0 <= k < |amounts| ==> 0 <= amounts[k]
    ensures 0 <= Total(amounts)
  {
    if amounts != [] {
      TotalIsNotNegative(amounts[..|amounts| - 1]);
    }
  }

  lemma {:induction false} RestIsNotNegative(amounts: seq<int>, n: nat)
    requires n <= |amounts| && forall k :: 0 <= k < |amounts| ==> 0 <= amounts[k]
    ensures Total(amounts[..n]) <= Total(amounts)
    decreases |amounts| - n
  {
    if n < |amounts| {
      RestIsNotNegative(amounts, n + 1);
      assert amounts[..n + 1][..n] == amounts[..n];
    } else {
      assert amounts[..n] == amounts;
    }
  }

  /** There is only one oldest-first split. */
  lemma OldestFirstIsUnique(available: seq<int>, quantity: int, amounts: seq<int>)
    requires OldestFirst(available, quantity, amounts)
    ensures amounts == Shares(available, quantity)
  {
    TotalIsNotNegative(amounts);
    forall i | 0 <= i < |amounts| ensures amounts[i] == Share(available, quantity, i) {
      EmptiedPrefix(available, quantity, amounts, i);
      EmptiedPrefix(available, quantity, amounts, i + 1);
      PrefixUsable(available, i);
      assert amounts[..i + 1][..i] == amounts[..i];
    }
  }
}
