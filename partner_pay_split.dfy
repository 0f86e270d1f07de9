/**
 * Paying partners of a line (model `partner_pay_split`): each record says that a
 * partner paid an amount; `_get_amount_by_partner` totals what each partner paid.
 */
module PartnerPaySplit {
  import opened Sums
  import opened PartnerSplitWeight

  datatype PaySplit = PaySplit(partner: PartnerId, amount: real)

  function Payers(pays: seq<PaySplit>): (ps: seq<PartnerId>)
    ensures |ps| == |pays| && forall i :: 0 <= i < |pays| ==> ps[i] == pays[i].partner
  {
    seq(|pays|, i requires 0 <= i < |pays| => pays[i].partner)
  }

  function PaidAmounts(pays: seq<PaySplit>): (r: seq<real>)
    ensures |r| == |pays| && forall i :: 0 <= i < |pays| ==> r[i] == pays[i].amount
  {
    seq(|pays|, i requires 0 <= i < |pays| => pays[i].amount)
  }

  /** What each paying partner paid in total. */
  function PaidByPartner(pays: seq<PaySplit>): map<PartnerId, real>
  {
    GroupSum(Payers(pays), PaidAmounts(pays))
  }

  /** `_get_amount_by_partner`: adds each record's amount to its partner's running total. */
  method AmountByPartner(pays: seq<PaySplit>) returns (paid: map<PartnerId, real>)
    ensures paid == PaidByPartner(pays)
    ensures paid.Keys == KeySet(Payers(pays))
  {
    paid := map[];
    ghost var ps, amounts := Payers(pays), PaidAmounts(pays);
    for i := 0 to |pays|
      invariant paid == GroupSum(ps[..i], amounts[..i])
    {
      var partner := pays[i].partner;
      var existing := if partner in paid then paid[partner] else 0.0;
      GroupSumSnoc(ps[..i], amounts[..i], partner, pays[i].amount);
      assert ps[..i + 1] == ps[..i] + [partner] && amounts[..i + 1] == amounts[..i] + [pays[i].amount];
      paid := paid[partner := existing + pays[i].amount];
    }
    assert ps[..|pays|] == ps && amounts[..|pays|] == amounts;
  }

  /** A partner is a key exactly when it has at least one paying record. */
  lemma PaidByPartnerKeys(pays: seq<PaySplit>, p: PartnerId)
    ensures p in PaidByPartner(pays) <==> exists i :: 0 <= i < |pays| && pays[i].partner == p
  {
    if p in PaidByPartner(pays) {
      var i :| 0 <= i < |pays| && Payers(pays)[i] == p;
      assert pays[i].partner == p;
    }
    if exists i :: 0 <= i < |pays| && pays[i].partner == p {
      var i :| 0 <= i < |pays| && pays[i].partner == p;
      assert Payers(pays)[i] == p;
    }
  }

  /** Grouping conserves money: the per-partner totals add up to all the amounts paid. */
  lemma PaidByPartnerConserves(pays: seq<PaySplit>)
    ensures MapSum(PaidByPartner(pays)) == Sum(PaidAmounts(pays))
  {
    GroupSumTotal(Payers(pays), PaidAmounts(pays));
  }

  /** One payer's total is the sum of the amounts of its own records. */
  lemma {:induction false} PaidByOnePartner(pays: seq<PaySplit>, p: PartnerId)
    requires p in PaidByPartner(pays)
    ensures PaidByPartner(pays)[p] == Sum(PaidAmounts(OwnPays(pays, p)))
  {
    PaidForIsOwnSum(pays, p);
  }

  /** The records of partner `p`, in order. */
  function OwnPays(pays: seq<PaySplit>, p: PartnerId): (r: seq<PaySplit>)
    ensures forall i :: 0 <= i < |r| ==> r[i].partner == p
  {
    if pays == [] then []
    else OwnPays(pays[..|pays| - 1], p) + (if pays[|pays| - 1].partner == p then [pays[|pays| - 1]] else [])
  }

  lemma {:induction false} PaidForIsOwnSum(pays: seq<PaySplit>, p: PartnerId)
    ensures SumFor(Payers(pays), PaidAmounts(pays), p) == Sum(PaidAmounts(OwnPays(pays, p)))
    decreases |pays|
  {
    if pays != [] {
      var n := |pays| - 1;
      assert Payers(pays)[..n] == Payers(pays[..n]);
      assert PaidAmounts(pays)[..n] == PaidAmounts(pays[..n]);
      PaidForIsOwnSum(pays[..n], p);
      var last := if pays[n].partner == p then [pays[n]] else [];
      assert PaidAmounts(OwnPays(pays[..n], p) + last) == PaidAmounts(OwnPays(pays[..n], p)) + PaidAmounts(last);
      SumAppend(PaidAmounts(OwnPays(pays[..n], p)), PaidAmounts(last));
      if pays[n].partner == p {
        assert PaidAmounts(last) == [pays[n].amount];
        assert Sum([pays[n].amount]) == Sum([pays[n].amount][..0]) + pays[n].amount;
      } else {
        assert PaidAmounts(last) == [];
      }
    }
  }
}
