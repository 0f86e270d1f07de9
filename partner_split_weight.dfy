/**
 * Weighted split of an amount among partners (model `partner_split_weight`).
 * A weight record names a partner and an integer weight; `compute_split_parts`
 * gives each partner `weight * (amount / total)`, where `total` is the sum of
 * the absolute values of all weights.
 */
module PartnerSplitWeight {
  import opened Sums

  type PartnerId = nat

  datatype Weight = Weight(partner: PartnerId, weight: int)

  /** No partner occurs twice: the key order of a dict keyed by partner. */
  predicate Distinct(ps: seq<PartnerId>)
  {
    forall i, j :: 0 <= i < j < |ps| ==> ps[i] != ps[j]
  }

  function Abs(x: int): nat
  {
    if x < 0 then -x else x
  }

  /** `sum(map(abs, weights))`. */
  function AbsWeightTotal(ws: seq<Weight>): nat
  {
    if ws == [] then 0 else AbsWeightTotal(ws[..|ws| - 1]) + Abs(ws[|ws| - 1].weight)
  }

  /** No weight is negative. */
  predicate NonNegative(ws: seq<Weight>)
  {
    forall i :: 0 <= i < |ws| ==> ws[i].weight >= 0
  }

  /** The signed sum of the weights. */
  function WeightTotal(ws: seq<Weight>): int
  {
    if ws == [] then 0 else WeightTotal(ws[..|ws| - 1]) + ws[|ws| - 1].weight
  }

  function PartnerColumn(ws: seq<Weight>): (ps: seq<PartnerId>)
    ensures |ps| == |ws| && forall i :: 0 <= i < |ws| ==> ps[i] == ws[i].partner
  {
    seq(|ws|, i requires 0 <= i < |ws| => ws[i].partner)
  }

  /** The share of each weight record, in record order. */
  function Shares(ws: seq<Weight>, part: real): (r: seq<real>)
    ensures |r| == |ws| && forall i :: 0 <= i < |ws| ==> r[i] == ws[i].weight as real * part
  {
    seq(|ws|, i requires 0 <= i < |ws| => ws[i].weight as real * part)
  }

  /**
   * The division is only defined when some weight is non-zero (or there is no weight):
   * with records whose weights are all 0 the source divides by zero.
   */
  predicate Splittable(ws: seq<Weight>)
  {
    ws == [] || AbsWeightTotal(ws) > 0
  }

  /** `amount_part`: the amount carried by one unit of weight. */
  function AmountPart(ws: seq<Weight>, amount: real): (part: real)
    requires AbsWeightTotal(ws) > 0
    ensures AbsWeightTotal(ws) as real * part == amount
  {
    amount / AbsWeightTotal(ws) as real
  }

  /** Each partner gets the sum of the shares of its records, `part` per unit of weight. */
  function SplitBy(ws: seq<Weight>, part: real): map<PartnerId, real>
  {
    GroupSum(PartnerColumn(ws), Shares(ws, part))
  }

  /** Closed form of the split. */
  function SplitParts(ws: seq<Weight>, amount: real): map<PartnerId, real>
    requires Splittable(ws)
  {
    if ws == [] then map[] else SplitBy(ws, AmountPart(ws, amount))
  }

  /** `compute_split_parts`: accumulates each record's share into a per-partner counter. */
  method ComputeSplitParts(ws: seq<Weight>, amount: real) returns (parts: map<PartnerId, real>)
    requires Splittable(ws)
    ensures parts == SplitParts(ws, amount)
    ensures parts.Keys == KeySet(PartnerColumn(ws))
  {
    parts := map[];
    if ws != [] {
      var total := AbsWeightTotal(ws);
      var part := amount / total as real;
      ghost var ps, shares := PartnerColumn(ws), Shares(ws, part);
      for i := 0 to |ws|
        invariant parts == GroupSum(ps[..i], shares[..i])
      {
        var partner := ws[i].partner;
        var share := ws[i].weight as real * part;
        // Counter.update adds to the existing count and keeps negative results
        var existing := if partner in parts then parts[partner] else 0.0;
        GroupSumSnoc(ps[..i], shares[..i], partner, share);
        assert ps[..i + 1] == ps[..i] + [partner] && shares[..i + 1] == shares[..i] + [share];
        parts := parts[partner := existing + share];
      }
      assert ps[..|ws|] == ps && shares[..|ws|] == shares;
    }
  }

  lemma {:induction false} SharesSum(ws: seq<Weight>, part: real)
    ensures Sum(Shares(ws, part)) == WeightTotal(ws) as real * part
    decreases |ws|
  {
    if ws != [] {
      var n := |ws| - 1;
      SharesPrefix(ws, part, n);
      SharesSum(ws[..n], part);
    }
  }

  lemma {:induction false} SharesPrefix(ws: seq<Weight>, part: real, n: nat)
    requires n <= |ws|
    ensures Shares(ws, part)[..n] == Shares(ws[..n], part)
  {
    assert forall i :: 0 <= i < n ==> Shares(ws, part)[..n][i] == Shares(ws[..n], part)[i];
  }

  /** With no negative weight the shares add up to the absolute total times the unit part. */
  lemma {:induction false} NonNegativeSharesSum(ws: seq<Weight>, part: real)
    requires NonNegative(ws)
    ensures Sum(Shares(ws, part)) == AbsWeightTotal(ws) as real * part
    decreases |ws|
  {
    if ws != [] {
      var n := |ws| - 1;
      SharesPrefix(ws, part, n);
      NonNegativeSharesSum(ws[..n], part);
      Distributes(AbsWeightTotal(ws[..n]), ws[n].weight, part);
    }
  }

  lemma Distributes(a: int, w: int, part: real)
    ensures (a + w) as real * part == a as real * part + w as real * part
  {
  }

  /** The shares add up to the signed total of the weights times the unit part. */
  lemma {:induction false} SplitBySum(ws: seq<Weight>, part: real)
    ensures MapSum(SplitBy(ws, part)) == WeightTotal(ws) as real * part
  {
    GroupSumTotal(PartnerColumn(ws), Shares(ws, part));
    SharesSum(ws, part);
  }

  /** With no negative weight the shares add up to exactly `amount`: the split conserves it. */
  lemma SplitConservesAmount(ws: seq<Weight>, amount: real)
    requires ws != [] && AbsWeightTotal(ws) > 0
    requires NonNegative(ws)
    ensures MapSum(SplitParts(ws, amount)) == amount
  {
    SplitByConserves(ws, AmountPart(ws, amount), amount);
  }

  lemma SplitByConserves(ws: seq<Weight>, part: real, amount: real)
    requires NonNegative(ws)
    requires AbsWeightTotal(ws) as real * part == amount
    ensures MapSum(SplitBy(ws, part)) == amount
  {
    GroupSumTotal(PartnerColumn(ws), Shares(ws, part));
    NonNegativeSharesSum(ws, part);
  }

  /** A partner listed in several records receives the sum of their shares. */
  lemma {:induction false} RepeatedPartnerShare(ws: seq<Weight>, amount: real, p: PartnerId)
    requires AbsWeightTotal(ws) > 0
    requires p in KeySet(PartnerColumn(ws))
    ensures p in SplitParts(ws, amount)
    ensures SplitParts(ws, amount)[p] == PartnerWeight(ws, p) as real * (AmountPart(ws, amount))
  {
    assert ws != [];
    SplitByShare(ws, AmountPart(ws, amount), p);
  }

  /** Each listed partner's entry of the split is its total weight times the unit part. */
  lemma SplitByShare(ws: seq<Weight>, part: real, p: PartnerId)
    requires p in KeySet(PartnerColumn(ws))
    ensures p in SplitBy(ws, part) && SplitBy(ws, part)[p] == PartnerWeight(ws, p) as real * part
  {
    ShareForPartner(ws, part, p);
  }

  /** Sum of the weights of the records naming `p`. */
  function PartnerWeight(ws: seq<Weight>, p: PartnerId): int
  {
    if ws == [] then 0
    else PartnerWeight(ws[..|ws| - 1], p) + (if ws[|ws| - 1].partner == p then ws[|ws| - 1].weight else 0)
  }

  lemma {:induction false} ShareForPartner(ws: seq<Weight>, part: real, p: PartnerId)
    ensures SumFor(PartnerColumn(ws), Shares(ws, part), p) == PartnerWeight(ws, p) as real * part
    decreases |ws|
  {
    if ws != [] {
      var n := |ws| - 1;
      assert PartnerColumn(ws)[..n] == PartnerColumn(ws[..n]);
      SharesPrefix(ws, part, n);
      ShareForPartner(ws[..n], part, p);
    }
  }

  /** Negative weights give negative shares of a positive amount, and the partner is kept. */
  lemma {:induction false} NegativeWeightKept(ws: seq<Weight>, amount: real, p: PartnerId)
    requires AbsWeightTotal(ws) > 0 && amount > 0.0
    requires p in KeySet(PartnerColumn(ws)) && PartnerWeight(ws, p) < 0
    ensures p in SplitParts(ws, amount) && SplitParts(ws, amount)[p] < 0.0
  {
    RepeatedPartnerShare(ws, amount, p);
    var part := AmountPart(ws, amount);
    assert part > 0.0;
    assert PartnerWeight(ws, p) as real * part < 0.0;
  }

  /** 100 shared with weights 1, 1 and 2 gives 25, 25 and 50. */
  lemma OneOneTwoSplit()
    ensures SplitParts([Weight(1, 1), Weight(2, 1), Weight(3, 2)], 100.0) == map[1 := 25.0, 2 := 25.0, 3 := 50.0]
  {
    OneOneTwoPart();
    OneOneTwoShares();
  }

  lemma OneOneTwoPart()
    ensures AbsWeightTotal([Weight(1, 1), Weight(2, 1), Weight(3, 2)]) == 4
    ensures AmountPart([Weight(1, 1), Weight(2, 1), Weight(3, 2)], 100.0) == 25.0
  {
    var ws := [Weight(1, 1), Weight(2, 1), Weight(3, 2)];
    assert ws[..2] == [Weight(1, 1), Weight(2, 1)];
    assert ws[..2][..1] == [Weight(1, 1)];
    assert [Weight(1, 1)][..0] == [];
  }

  lemma OneOneTwoShares()
    ensures SplitBy([Weight(1, 1), Weight(2, 1), Weight(3, 2)], 25.0) == map[1 := 25.0, 2 := 25.0, 3 := 50.0]
  {
    var ws := [Weight(1, 1), Weight(2, 1), Weight(3, 2)];
    var none, p1, p12, p123: seq<PartnerId> := [], [1], [1, 2], [1, 2, 3];
    assert PartnerColumn(ws) == p123;
    assert Shares(ws, 25.0) == [25.0, 25.0, 50.0];
    assert GroupSum(p1, [25.0]) == map[1 := 25.0] by {
      GroupSumSnoc<PartnerId>(none, [], 1, 25.0);
      assert none + [1] == p1 && [] + [25.0] == [25.0];
    }
    assert GroupSum(p12, [25.0, 25.0]) == map[1 := 25.0, 2 := 25.0] by {
      GroupSumSnoc<PartnerId>(p1, [25.0], 2, 25.0);
      assert p1 + [2] == p12 && [25.0] + [25.0] == [25.0, 25.0];
    }
    assert GroupSum(p123, [25.0, 25.0, 50.0]) == map[1 := 25.0, 2 := 25.0, 3 := 50.0] by {
      GroupSumSnoc<PartnerId>(p12, [25.0, 25.0], 3, 50.0);
      assert 3 !in GroupSum(p12, [25.0, 25.0]);
      assert p12 + [3] == p123 && [25.0, 25.0] + [50.0] == [25.0, 25.0, 50.0];
    }
  }
}
