/**
 * A proposed payment between two partners of an account (model `partner_payment`).
 * Executing it (`generate_payment`) writes an internal-payment line on the account:
 * the giving partner is its only payer and the receiving partner its only weight.
 */
module PartnerPayment {
  import opened Sums
  import opened PartnerSplitWeight
  import PartnerPaySplit
  import opened SplitAccountLine

  datatype Proposal = Proposal(from: PartnerId, to: PartnerId, amount: real)

  /** The line written by `generate_payment`: nothing to pay, `from` pays the amount, `to` weighs 1. */
  function PaymentLine(p: Proposal): Line
  {
    Line([Weight(p.to, 1)], [PartnerPaySplit.PaySplit(p.from, p.amount)], 0.0, true, [])
  }

  /** The payment line credits `from` with the amount and debits `to` with all of it. */
  lemma PaymentLineBreakdown(p: Proposal)
    requires p.from != p.to
    ensures Breakdown(PaymentLine(p)) == map[p.from := CreditDebit(p.amount, 0.0), p.to := CreditDebit(0.0, p.amount)]
  {
    PaymentLineSides(p);
  }

  /** A partner paying itself is both credited and debited with the amount. */
  lemma PaymentToSelf(p: Proposal)
    requires p.from == p.to
    ensures Breakdown(PaymentLine(p)) == map[p.from := CreditDebit(p.amount, p.amount)]
  {
    PaymentLineSides(p);
  }

  lemma PaymentLineSides(p: Proposal)
    ensures Splittable(PaymentLine(p).weights)
    ensures Credits(PaymentLine(p)) == map[p.from := p.amount]
    ensures Debits(PaymentLine(p)) == map[p.to := p.amount]
  {
    PaymentCredits(p);
    SingleWeight(p.to, p.amount);
  }

  lemma PaymentCredits(p: Proposal)
    ensures Credits(PaymentLine(p)) == map[p.from := p.amount]
    ensures AmountToShare(PaymentLine(p)) == p.amount
  {
    var line := PaymentLine(p);
    assert PartnerPaySplit.Payers(line.pays) == [p.from] && PartnerPaySplit.PaidAmounts(line.pays) == [p.amount];
    assert Credits(line) == map[p.from := p.amount] by {
      GroupSumSingle(p.from, p.amount);
    }
    assert Sum([p.amount]) == p.amount by {
      assert [p.amount][..0] == [];
    }
  }

  /** The whole amount goes to the only weighted partner. */
  lemma SingleWeight(q: PartnerId, amount: real)
    ensures AbsWeightTotal([Weight(q, 1)]) == 1
    ensures SplitParts([Weight(q, 1)], amount) == map[q := amount]
  {
    var ws := [Weight(q, 1)];
    assert ws[..0] == [];
    var column, none: seq<PartnerId> := [q], [];
    assert PartnerColumn(ws) == column;
    assert Shares(ws, AmountPart(ws, amount)) == [amount];
    GroupSumSnoc(none, [], q, amount);
    assert none + [q] == column && [] + [amount] == [amount];
  }
}
