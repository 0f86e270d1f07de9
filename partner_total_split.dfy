/**
 * A partner's total on a line or on an account (model `partner_total_split`):
 * what the partner paid (credit) and what it owes (debit).
 */
module PartnerTotalSplit {
  import opened PartnerSplitWeight

  type TotalId = nat

  datatype Total = Total(id: TotalId, partner: PartnerId, credit: real, debit: real)

  /** `_compute_amount`: positive when the partner is owed money, negative when it owes. */
  function Amount(t: Total): (r: real)
    ensures r > 0.0 <==> t.credit > t.debit
    ensures r < 0.0 <==> t.debit > t.credit
  {
    t.credit - t.debit
  }

  /** `_compute_abs_amount`. */
  function AbsAmount(t: Total): (r: real)
    ensures r >= 0.0
    ensures r == Amount(t) || r == -Amount(t)
    ensures r == 0.0 <==> t.credit == t.debit
  {
    if Amount(t) < 0.0 then -Amount(t) else Amount(t)
  }

  /**
   * `name_get`: "{partner} {amount}". The partner's display name and the rounded
   * amount's text are inputs; the text is split back into them by `DisplayParts`.
   */
  function DisplayName(partnerName: string, amountText: string): (r: string)
    ensures |r| == |partnerName| + 1 + |amountText|
  {
    partnerName + " " + amountText
  }

  /** Recovers the amount's text from a display name, given the partner's name. */
  function AmountTextOf(display: string, partnerName: string): string
    requires |partnerName| < |display|
  {
    display[|partnerName| + 1..]
  }

  lemma DisplayRoundTrip(partnerName: string, amountText: string)
    ensures DisplayName(partnerName, amountText)[..|partnerName|] == partnerName
    ensures DisplayName(partnerName, amountText)[|partnerName|] == ' '
    ensures AmountTextOf(DisplayName(partnerName, amountText), partnerName) == amountText
  {
    var r := DisplayName(partnerName, amountText);
    assert r[..|partnerName|] == partnerName;
    assert r[|partnerName| + 1..] == amountText;
  }
}
