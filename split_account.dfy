/**
 * Greedy debt netting of a split account (`generate_payment_proposals`): every
 * creditor, in turn, is paid by the debtors in order, each transfer being the smaller
 * of what the creditor is still owed and what the debtor still owes.
 */
module Netting {
  import opened Sums
  import opened PartnerSplitWeight

  /** One proposed transfer: `from` (a debtor) gives `amount` to `to` (a creditor). */
  datatype Transfer = Transfer(from: PartnerId, to: PartnerId, amount: real)

  /** What `p` receives over the transfers. */
  function Received(ts: seq<Transfer>, p: PartnerId): real
  {
    if ts == [] then 0.0
    else Received(ts[..|ts| - 1], p) + (if ts[|ts| - 1].to == p then ts[|ts| - 1].amount else 0.0)
  }

  /** What `p` gives over the transfers. */
  function Given(ts: seq<Transfer>, p: PartnerId): real
  {
    if ts == [] then 0.0
    else Given(ts[..|ts| - 1], p) + (if ts[|ts| - 1].from == p then ts[|ts| - 1].amount else 0.0)
  }

  /** Position of `p` in a key order. */
  function IndexOf(ps: seq<PartnerId>, p: PartnerId): (r: nat)
    requires p in ps
    ensures r < |ps| && ps[r] == p
  {
    if ps[0] == p then 0 else 1 + IndexOf(ps[1..], p)
  }

  lemma IndexOfDistinct(ps: seq<PartnerId>, i: nat)
    requires Distinct(ps) && i < |ps|
    ensures IndexOf(ps, ps[i]) == i
  {
  }

  /** `a` is emitted before `b`: an earlier creditor, or the same creditor and an earlier debtor. */
  predicate Before(cs: seq<PartnerId>, ds: seq<PartnerId>, a: Transfer, b: Transfer)
    requires a.to in cs && b.to in cs && a.from in ds && b.from in ds
  {
    || IndexOf(cs, a.to) < IndexOf(cs, b.to)
    || (IndexOf(cs, a.to) == IndexOf(cs, b.to) && IndexOf(ds, a.from) < IndexOf(ds, b.from))
  }

  /** Every transfer goes from a debtor to a creditor, moves a positive amount, and they come in order. */
  predicate WellFormed(cs: seq<PartnerId>, ds: seq<PartnerId>, ts: seq<Transfer>)
  {
    && (forall t :: 0 <= t < |ts| ==> ts[t].amount > 0.0 && ts[t].from in ds && ts[t].to in cs)
    && (forall a, b :: 0 <= a < b < |ts| ==> Before(cs, ds, ts[a], ts[b]))
  }

  /** The remainders are what is left of the amounts once the transfers are counted. */
  predicate Remainders(cs: seq<PartnerId>, credits: seq<real>, credit: seq<real>,
                       ds: seq<PartnerId>, debts: seq<real>, debt: seq<real>, ts: seq<Transfer>)
    requires |credits| == |credit| == |cs| && |debts| == |debt| == |ds|
  {
    && (forall c :: 0 <= c < |cs| ==> 0.0 <= credit[c] <= credits[c] && credit[c] == credits[c] - Received(ts, cs[c]))
    && (forall k :: 0 <= k < |ds| ==> 0.0 <= debt[k] <= debts[k] && debt[k] == debts[k] - Given(ts, ds[k]))
    && Sum(credits) - Sum(credit) == Sum(debts) - Sum(debt)
  }

  /** Transfers so far come from creditors before `i`, or from creditor `i` and debtors before `k`. */
  predicate Ordered(cs: seq<PartnerId>, ds: seq<PartnerId>, ts: seq<Transfer>, i: nat, k: nat)
    requires forall t :: 0 <= t < |ts| ==> ts[t].from in ds && ts[t].to in cs
  {
    forall t :: 0 <= t < |ts| ==>
      || IndexOf(cs, ts[t].to) < i
      || (IndexOf(cs, ts[t].to) == i && IndexOf(ds, ts[t].from) < k)
  }

  /** Once creditor `i` is through, either it is paid in full or every debtor has paid in full. */
  predicate SettledUpTo(credit: seq<real>, debt: seq<real>, i: nat)
    requires i <= |credit|
  {
    (forall c :: 0 <= c < i ==> credit[c] == 0.0) || (forall k :: 0 <= k < |debt| ==> debt[k] == 0.0)
  }

  /** The state of the netting: what each creditor is still owed, what each debtor still owes, the transfers so far. */
  datatype NetState = NetState(credit: seq<real>, debt: seq<real>, transfers: seq<Transfer>)

  /** What debtor `k` pays creditor `i`: the smaller of the two remainders. */
  function Paid(st: NetState, i: nat, k: nat): (paid: real)
    requires i < |st.credit| && k < |st.debt|
    ensures paid <= st.credit[i] && paid <= st.debt[k]
    ensures paid == st.credit[i] || paid == st.debt[k]
  {
    if st.credit[i] < st.debt[k] then st.credit[i] else st.debt[k]
  }

  /** Debtor `k` pays creditor `i` the smaller remainder when that is positive, which lowers both remainders by it. */
  function PayDebtor(cs: seq<PartnerId>, ds: seq<PartnerId>, i: nat, k: nat, st: NetState): (r: NetState)
    requires i < |cs| == |st.credit| && k < |ds| == |st.debt|
    ensures |r.credit| == |cs| && |r.debt| == |ds|
  {
    var paid := Paid(st, i, k);
    if paid > 0.0 then
      NetState(st.credit[i := st.credit[i] - paid], st.debt[k := st.debt[k] - paid],
               st.transfers + [Transfer(ds[k], cs[i], paid)])
    else st
  }

  /** The inner loop from debtor `k` on, for creditor `i`: each debtor in turn pays it. */
  function PayFrom(cs: seq<PartnerId>, ds: seq<PartnerId>, i: nat, k: nat, st: NetState): (r: NetState)
    requires i < |cs| == |st.credit| && k <= |ds| == |st.debt|
    ensures |r.credit| == |cs| && |r.debt| == |ds|
    decreases |ds| - k
  {
    if k == |ds| then st else PayFrom(cs, ds, i, k + 1, PayDebtor(cs, ds, i, k, st))
  }

  /** The outer loop from creditor `i` on: each creditor in turn goes through the inner loop. */
  function NetFrom(cs: seq<PartnerId>, ds: seq<PartnerId>, i: nat, st: NetState): (r: NetState)
    requires i <= |cs| == |st.credit| && |ds| == |st.debt|
    ensures |r.credit| == |cs| && |r.debt| == |ds|
    decreases |cs| - i
  {
    if i == |cs| then st else NetFrom(cs, ds, i + 1, PayFrom(cs, ds, i, 0, st))
  }

  /** The transfers the greedy netting proposes for the creditor and debtor counters. */
  function GreedyNet(cs: seq<PartnerId>, credits: seq<real>, ds: seq<PartnerId>, debts: seq<real>): seq<Transfer>
    requires |cs| == |credits| && |ds| == |debts|
  {
    NetFrom(cs, ds, 0, NetState(credits, debts, [])).transfers
  }

  /**
   * The nested loop over the two counters. `cs`/`credits` is the creditor counter
   * (what each creditor is owed) and `ds`/`debts` the debtor counter (what each debtor
   * owes), both in their insertion order. The transfers are the greedy ones; what
   * `GreedyNetSettles` proves of them holds.
   */
  method Net(cs: seq<PartnerId>, credits: seq<real>, ds: seq<PartnerId>, debts: seq<real>)
    returns (transfers: seq<Transfer>)
    requires |cs| == |credits| && |ds| == |debts| && Distinct(cs) && Distinct(ds)
    requires forall c :: 0 <= c < |cs| ==> credits[c] >= 0.0
    requires forall k :: 0 <= k < |ds| ==> debts[k] >= 0.0
    ensures transfers == GreedyNet(cs, credits, ds, debts)
    ensures WellFormed(cs, ds, transfers)
    ensures forall c :: 0 <= c < |cs| ==> 0.0 <= Received(transfers, cs[c]) <= credits[c]
    ensures forall k :: 0 <= k < |ds| ==> 0.0 <= Given(transfers, ds[k]) <= debts[k]
    ensures || (forall c :: 0 <= c < |cs| ==> Received(transfers, cs[c]) == credits[c])
            || (forall k :: 0 <= k < |ds| ==> Given(transfers, ds[k]) == debts[k])
    ensures Sum(credits) == Sum(debts) ==>
              && (forall c :: 0 <= c < |cs| ==> Received(transfers, cs[c]) == credits[c])
              && (forall k :: 0 <= k < |ds| ==> Given(transfers, ds[k]) == debts[k])
  {
    var credit, debt := credits, debts;
    transfers := [];
    for i := 0 to |cs|
      invariant |credit| == |cs| && |debt| == |ds|
      invariant NetFrom(cs, ds, i, NetState(credit, debt, transfers)) == NetFrom(cs, ds, 0, NetState(credits, debts, []))
    {
      credit, debt, transfers := PayCreditor(cs, ds, i, credit, debt, transfers);
    }
    GreedyNetSettles(cs, credits, ds, debts);
  }

  /**
   * The inner loop, for creditor `i`: each debtor in turn pays the smaller of what the
   * creditor is still owed and what it still owes, when that is positive.
   */
  method PayCreditor(cs: seq<PartnerId>, ds: seq<PartnerId>, i: nat,
                     credit: seq<real>, debt: seq<real>, transfers: seq<Transfer>)
    returns (credit': seq<real>, debt': seq<real>, transfers': seq<Transfer>)
    requires |cs| == |credit| && |ds| == |debt| && i < |cs|
    ensures NetState(credit', debt', transfers') == PayFrom(cs, ds, i, 0, NetState(credit, debt, transfers))
  {
    credit', debt', transfers' := credit, debt, transfers;
    for k := 0 to |ds|
      invariant |credit'| == |cs| && |debt'| == |ds|
      invariant PayFrom(cs, ds, i, k, NetState(credit', debt', transfers')) == PayFrom(cs, ds, i, 0, NetState(credit, debt, transfers))
    {
      var paid := if credit'[i] < debt'[k] then credit'[i] else debt'[k];
      if paid > 0.0 {
        transfers' := transfers' + [Transfer(ds[k], cs[i], paid)];
        credit' := credit'[i := credit'[i] - paid];
        debt' := debt'[k := debt'[k] - paid];
      }
    }
  }

  /**
   * What the greedy netting promises: every transfer goes from a debtor to a creditor in
   * order, no creditor receives more than it is owed, no debtor gives more than it owes,
   * and either every creditor has been paid in full or every debtor has paid in full;
   * when the two sides balance, both.
   */
  lemma GreedyNetSettles(cs: seq<PartnerId>, credits: seq<real>, ds: seq<PartnerId>, debts: seq<real>)
    requires |cs| == |credits| && |ds| == |debts| && Distinct(cs) && Distinct(ds)
    requires forall c :: 0 <= c < |cs| ==> credits[c] >= 0.0
    requires forall k :: 0 <= k < |ds| ==> debts[k] >= 0.0
    ensures var transfers := GreedyNet(cs, credits, ds, debts);
      && WellFormed(cs, ds, transfers)
      && (forall c :: 0 <= c < |cs| ==> 0.0 <= Received(transfers, cs[c]) <= credits[c])
      && (forall k :: 0 <= k < |ds| ==> 0.0 <= Given(transfers, ds[k]) <= debts[k])
      && (|| (forall c :: 0 <= c < |cs| ==> Received(transfers, cs[c]) == credits[c])
          || (forall k :: 0 <= k < |ds| ==> Given(transfers, ds[k]) == debts[k]))
      && (Sum(credits) == Sum(debts) ==>
            && (forall c :: 0 <= c < |cs| ==> Received(transfers, cs[c]) == credits[c])
            && (forall k :: 0 <= k < |ds| ==> Given(transfers, ds[k]) == debts[k]))
  {
    var r := NetFromKeeps(cs, credits, ds, debts, 0, NetState(credits, debts, []));
    Settles(r.credit, r.debt, credits, debts);
  }

  /** The outer loop keeps the remainders in step and extends the settled prefix to every creditor. */
  lemma {:induction false} NetFromKeeps(cs: seq<PartnerId>, credits: seq<real>, ds: seq<PartnerId>, debts: seq<real>,
                                        i: nat, st: NetState)
    returns (r: NetState)
    requires |cs| == |credits| == |st.credit| && |ds| == |debts| == |st.debt| && Distinct(cs) && Distinct(ds) && i <= |cs|
    requires Remainders(cs, credits, st.credit, ds, debts, st.debt, st.transfers)
    requires WellFormed(cs, ds, st.transfers) && Ordered(cs, ds, st.transfers, i, 0)
    requires SettledUpTo(st.credit, st.debt, i)
    ensures r == NetFrom(cs, ds, i, st)
    ensures |r.credit| == |cs| && |r.debt| == |ds|
    ensures Remainders(cs, credits, r.credit, ds, debts, r.debt, r.transfers)
    ensures WellFormed(cs, ds, r.transfers) && SettledUpTo(r.credit, r.debt, |cs|)
    decreases |cs| - i
  {
    if i == |cs| {
      r := st;
    } else {
      var p := PayFromCreditor(cs, credits, ds, debts, i, st);
      SettleStep(p.credit, p.debt, st.credit, st.debt, i);
      r := NetFromKeeps(cs, credits, ds, debts, i + 1, p);
    }
  }

  /**
   * After the inner loop for creditor `i`: the remainders are in step, only creditor `i`
   * was paid, no debt grew, and either `i` is paid in full or every debtor has paid in full.
   */
  lemma PayFromCreditor(cs: seq<PartnerId>, credits: seq<real>, ds: seq<PartnerId>, debts: seq<real>, i: nat, st: NetState)
    returns (r: NetState)
    requires |cs| == |credits| == |st.credit| && |ds| == |debts| == |st.debt| && Distinct(cs) && Distinct(ds) && i < |cs|
    requires Remainders(cs, credits, st.credit, ds, debts, st.debt, st.transfers)
    requires WellFormed(cs, ds, st.transfers) && Ordered(cs, ds, st.transfers, i, 0)
    ensures r == PayFrom(cs, ds, i, 0, st)
    ensures |r.credit| == |cs| && |r.debt| == |ds|
    ensures Remainders(cs, credits, r.credit, ds, debts, r.debt, r.transfers)
    ensures WellFormed(cs, ds, r.transfers) && Ordered(cs, ds, r.transfers, i + 1, 0)
    ensures forall c :: 0 <= c < |cs| && c != i ==> r.credit[c] == st.credit[c]
    ensures forall d :: 0 <= d < |ds| ==> r.debt[d] <= st.debt[d]
    ensures r.credit[i] == 0.0 || forall d :: 0 <= d < |ds| ==> r.debt[d] == 0.0
  {
    r := PayFromKeeps(cs, credits, ds, debts, i, 0, st.credit, st.debt, st);
    NextCreditor(cs, ds, r.transfers, i);
  }

  /** The inner loop from debtor `k` on keeps its invariant to the last debtor. */
  lemma {:induction false} PayFromKeeps(cs: seq<PartnerId>, credits: seq<real>, ds: seq<PartnerId>, debts: seq<real>,
                                        i: nat, k: nat, credit: seq<real>, debt: seq<real>, st: NetState)
    returns (r: NetState)
    requires Distinct(cs) && Distinct(ds) && k <= |ds|
    requires Paying(cs, credits, ds, debts, i, k, credit, debt, st.credit, st.debt, st.transfers)
    ensures r == PayFrom(cs, ds, i, k, st)
    ensures Paying(cs, credits, ds, debts, i, |ds|, credit, debt, r.credit, r.debt, r.transfers)
    decreases |ds| - k
  {
    if k == |ds| {
      r := st;
    } else {
      var next := PayDebtorKeeps(cs, credits, ds, debts, i, k, credit, debt, st);
      r := PayFromKeeps(cs, credits, ds, debts, i, k + 1, credit, debt, next);
    }
  }

  /** One debtor paying creditor `i` keeps the inner loop's invariant for the next debtor. */
  lemma PayDebtorKeeps(cs: seq<PartnerId>, credits: seq<real>, ds: seq<PartnerId>, debts: seq<real>,
                       i: nat, k: nat, credit: seq<real>, debt: seq<real>, st: NetState)
    returns (r: NetState)
    requires Distinct(cs) && Distinct(ds) && k < |ds|
    requires Paying(cs, credits, ds, debts, i, k, credit, debt, st.credit, st.debt, st.transfers)
    ensures r == PayDebtor(cs, ds, i, k, st)
    ensures Paying(cs, credits, ds, debts, i, k + 1, credit, debt, r.credit, r.debt, r.transfers)
  {
    var paid := Paid(st, i, k);
    if paid > 0.0 {
      PayingStep(cs, credits, ds, debts, i, k, credit, debt, st.credit, st.debt, st.transfers, paid);
      r := NetState(st.credit[i := st.credit[i] - paid], st.debt[k := st.debt[k] - paid],
                    st.transfers + [Transfer(ds[k], cs[i], paid)]);
    } else {
      SkipStep(cs, credits, ds, debts, i, k, credit, debt, st.credit, st.debt, st.transfers);
      r := st;
    }
  }

  /** The counters of the example: two creditors and two debtors each owed or owing 5. */
  lemma GreedyNetPairs()
    ensures GreedyNet([1, 2], [5.0, 5.0], [3, 4], [5.0, 5.0]) == [Transfer(3, 1, 5.0), Transfer(4, 2, 5.0)]
  {
  }

  /** The invariant of the inner loop, after the debtors before `k`. */
  predicate Paying(cs: seq<PartnerId>, credits: seq<real>, ds: seq<PartnerId>, debts: seq<real>, i: nat, k: nat,
                   credit: seq<real>, debt: seq<real>, credit': seq<real>, debt': seq<real>, transfers': seq<Transfer>)
  {
    && |cs| == |credits| == |credit| == |credit'| && |ds| == |debts| == |debt| == |debt'| && i < |cs|
    && Remainders(cs, credits, credit', ds, debts, debt', transfers')
    && WellFormed(cs, ds, transfers') && Ordered(cs, ds, transfers', i, k)
    && Progress(i, k, credit, debt, credit', debt')
  }

  /** Only creditor `i` has been paid, no debt grew, and unless `i` is paid in full the debtors before `k` are. */
  predicate Progress(i: nat, k: nat, credit: seq<real>, debt: seq<real>, credit': seq<real>, debt': seq<real>)
  {
    && |credit'| == |credit| && |debt'| == |debt| && i < |credit|
    && (forall c :: 0 <= c < |credit| && c != i ==> credit'[c] == credit[c])
    && (forall d :: 0 <= d < |debt| ==> debt'[d] <= debt[d])
    && (credit'[i] == 0.0 || forall d :: 0 <= d < k && d < |debt| ==> debt'[d] == 0.0)
  }

  /** Debtor `k` paying creditor `i` the smaller remainder keeps the invariant for the next debtor. */
  lemma PayingStep(cs: seq<PartnerId>, credits: seq<real>, ds: seq<PartnerId>, debts: seq<real>, i: nat, k: nat,
                   credit: seq<real>, debt: seq<real>, credit': seq<real>, debt': seq<real>, transfers': seq<Transfer>, paid: real)
    requires k < |ds| && Distinct(cs) && Distinct(ds)
    requires Paying(cs, credits, ds, debts, i, k, credit, debt, credit', debt', transfers')
    requires paid == (if credit'[i] < debt'[k] then credit'[i] else debt'[k]) && paid > 0.0
    ensures Paying(cs, credits, ds, debts, i, k + 1, credit, debt, credit'[i := credit'[i] - paid], debt'[k := debt'[k] - paid],
                   transfers' + [Transfer(ds[k], cs[i], paid)])
  {
    PayAndOrder(cs, credits, credit', ds, debts, debt', transfers', i, k, paid);
    ProgressStep(i, k, credit, debt, credit', debt', paid);
  }

  /** A debtor with nothing left to pay, or a creditor already paid in full, moves the loop on unchanged. */
  lemma SkipStep(cs: seq<PartnerId>, credits: seq<real>, ds: seq<PartnerId>, debts: seq<real>, i: nat, k: nat,
                 credit: seq<real>, debt: seq<real>, credit': seq<real>, debt': seq<real>, transfers': seq<Transfer>)
    requires k < |ds|
    requires Paying(cs, credits, ds, debts, i, k, credit, debt, credit', debt', transfers')
    requires (if credit'[i] < debt'[k] then credit'[i] else debt'[k]) <= 0.0
    ensures Paying(cs, credits, ds, debts, i, k + 1, credit, debt, credit', debt', transfers')
  {
    assert credit'[i] == 0.0 || debt'[k] == 0.0;
  }

  lemma ProgressStep(i: nat, k: nat, credit: seq<real>, debt: seq<real>, credit': seq<real>, debt': seq<real>, paid: real)
    requires Progress(i, k, credit, debt, credit', debt') && k < |debt|
    requires paid == (if credit'[i] < debt'[k] then credit'[i] else debt'[k]) && paid > 0.0
    ensures Progress(i, k + 1, credit, debt, credit'[i := credit'[i] - paid], debt'[k := debt'[k] - paid])
  {
  }

  lemma PayAndOrder(cs: seq<PartnerId>, credits: seq<real>, credit: seq<real>,
                    ds: seq<PartnerId>, debts: seq<real>, debt: seq<real>, ts: seq<Transfer>,
                    i: nat, k: nat, paid: real)
    requires |credits| == |credit| == |cs| && |debts| == |debt| == |ds| && Distinct(cs) && Distinct(ds)
    requires i < |cs| && k < |ds| && 0.0 < paid <= credit[i] && paid <= debt[k]
    requires Remainders(cs, credits, credit, ds, debts, debt, ts)
    requires WellFormed(cs, ds, ts) && Ordered(cs, ds, ts, i, k)
    ensures Remainders(cs, credits, credit[i := credit[i] - paid], ds, debts, debt[k := debt[k] - paid],
                       ts + [Transfer(ds[k], cs[i], paid)])
    ensures WellFormed(cs, ds, ts + [Transfer(ds[k], cs[i], paid)]) && Ordered(cs, ds, ts + [Transfer(ds[k], cs[i], paid)], i, k + 1)
  {
    PayStep(cs, credits, credit, ds, debts, debt, ts, i, k, paid);
    OrderStep(cs, ds, ts, i, k, Transfer(ds[k], cs[i], paid));
  }

  /** Appending the transfer from debtor `k` to creditor `i` keeps the transfers in order. */
  lemma OrderStep(cs: seq<PartnerId>, ds: seq<PartnerId>, ts: seq<Transfer>, i: nat, k: nat, t: Transfer)
    requires Distinct(cs) && Distinct(ds) && i < |cs| && k < |ds|
    requires t.from == ds[k] && t.to == cs[i] && t.amount > 0.0
    requires WellFormed(cs, ds, ts) && Ordered(cs, ds, ts, i, k)
    ensures WellFormed(cs, ds, ts + [t]) && Ordered(cs, ds, ts + [t], i, k + 1)
  {
    IndexOfDistinct(cs, i);
    IndexOfDistinct(ds, k);
    var ts' := ts + [t];
    assert forall a :: 0 <= a < |ts| ==> ts'[a] == ts[a];
  }

  lemma NextCreditor(cs: seq<PartnerId>, ds: seq<PartnerId>, ts: seq<Transfer>, i: nat)
    requires forall t :: 0 <= t < |ts| ==> ts[t].from in ds && ts[t].to in cs
    requires Ordered(cs, ds, ts, i, |ds|)
    ensures Ordered(cs, ds, ts, i + 1, 0)
  {
  }

  /** Closing creditor `i` extends the settled prefix. */
  lemma SettleStep(credit: seq<real>, debt: seq<real>, creditBefore: seq<real>, debtBefore: seq<real>, i: nat)
    requires i < |credit| == |creditBefore| && |debt| == |debtBefore|
    requires SettledUpTo(creditBefore, debtBefore, i)
    requires forall c :: 0 <= c < |credit| && c != i ==> credit[c] == creditBefore[c]
    requires forall d :: 0 <= d < |debt| ==> 0.0 <= debt[d] <= debtBefore[d]
    requires credit[i] == 0.0 || forall d :: 0 <= d < |debt| ==> debt[d] == 0.0
    ensures SettledUpTo(credit, debt, i + 1)
  {
  }

  /** One transfer keeps the remainders in step with the transfers. */
  lemma PayStep(cs: seq<PartnerId>, credits: seq<real>, credit: seq<real>,
                ds: seq<PartnerId>, debts: seq<real>, debt: seq<real>, ts: seq<Transfer>,
                i: nat, k: nat, paid: real)
    requires |credits| == |credit| == |cs| && |debts| == |debt| == |ds| && Distinct(cs) && Distinct(ds)
    requires i < |cs| && k < |ds| && 0.0 < paid <= credit[i] && paid <= debt[k]
    requires Remainders(cs, credits, credit, ds, debts, debt, ts)
    ensures Remainders(cs, credits, credit[i := credit[i] - paid], ds, debts, debt[k := debt[k] - paid],
                       ts + [Transfer(ds[k], cs[i], paid)])
  {
    var t := Transfer(ds[k], cs[i], paid);
    CreditsStep(cs, credits, credit, ts, i, t);
    DebtsStep(ds, debts, debt, ts, k, t);
    assert Sum(credit[i := credit[i] - paid]) == Sum(credit) - paid by {
      SumUpdate(credit, i, credit[i] - paid);
    }
    assert Sum(debt[k := debt[k] - paid]) == Sum(debt) - paid by {
      SumUpdate(debt, k, debt[k] - paid);
    }
  }

  /** A transfer to creditor `i` lowers its remainder by the amount and no other creditor's. */
  lemma CreditsStep(cs: seq<PartnerId>, credits: seq<real>, credit: seq<real>, ts: seq<Transfer>, i: nat, t: Transfer)
    requires |credits| == |credit| == |cs| && Distinct(cs) && i < |cs|
    requires t.to == cs[i] && 0.0 < t.amount <= credit[i]
    requires forall c :: 0 <= c < |cs| ==> 0.0 <= credit[c] <= credits[c] && credit[c] == credits[c] - Received(ts, cs[c])
    ensures forall c :: 0 <= c < |cs| ==>
              0.0 <= credit[i := credit[i] - t.amount][c] <= credits[c] &&
              credit[i := credit[i] - t.amount][c] == credits[c] - Received(ts + [t], cs[c])
  {
    assert (ts + [t])[..|ts + [t]| - 1] == ts;
    forall c | 0 <= c < |cs|
      ensures Received(ts + [t], cs[c]) == Received(ts, cs[c]) + (if c == i then t.amount else 0.0)
    {
      assert cs[c] == cs[i] ==> c == i;
    }
  }

  /** A transfer from debtor `k` lowers its remainder by the amount and no other debtor's. */
  lemma DebtsStep(ds: seq<PartnerId>, debts: seq<real>, debt: seq<real>, ts: seq<Transfer>, k: nat, t: Transfer)
    requires |debts| == |debt| == |ds| && Distinct(ds) && k < |ds|
    requires t.from == ds[k] && 0.0 < t.amount <= debt[k]
    requires forall d :: 0 <= d < |ds| ==> 0.0 <= debt[d] <= debts[d] && debt[d] == debts[d] - Given(ts, ds[d])
    ensures forall d :: 0 <= d < |ds| ==>
              0.0 <= debt[k := debt[k] - t.amount][d] <= debts[d] &&
              debt[k := debt[k] - t.amount][d] == debts[d] - Given(ts + [t], ds[d])
  {
    assert (ts + [t])[..|ts + [t]| - 1] == ts;
    forall d | 0 <= d < |ds|
      ensures Given(ts + [t], ds[d]) == Given(ts, ds[d]) + (if d == k then t.amount else 0.0)
    {
      assert ds[d] == ds[k] ==> d == k;
    }
  }

  /** At the end one side is all zero; with equal sides both are. */
  lemma Settles(credit: seq<real>, debt: seq<real>, credits: seq<real>, debts: seq<real>)
    requires forall c :: 0 <= c < |credit| ==> credit[c] >= 0.0
    requires forall k :: 0 <= k < |debt| ==> debt[k] >= 0.0
    requires (forall c :: 0 <= c < |credit| ==> credit[c] == 0.0) || (forall k :: 0 <= k < |debt| ==> debt[k] == 0.0)
    requires Sum(credits) - Sum(credit) == Sum(debts) - Sum(debt)
    ensures Sum(credits) == Sum(debts) ==>
              (forall c :: 0 <= c < |credit| ==> credit[c] == 0.0) && (forall k :: 0 <= k < |debt| ==> debt[k] == 0.0)
  {
    NonNegativeSumZero(credit);
    NonNegativeSumZero(debt);
  }
}

/**
 * The split account (model `account_partner_split.account`): its lines, its per-partner
 * totals and its payment proposals.
 */
module SplitAccount {
  import opened Sums
  import opened PartnerSplitWeight
  import opened PartnerTotalSplit
  import opened TotalCommands
  import opened SplitAccountLine
  import opened Netting
  import opened PartnerPayment

  /** `line_ids.filtered(lambda line: not line.is_payment)`: the lines that are not internal payments, in order. */
  function NonPayments(lines: seq<Line>): (r: seq<Line>)
    ensures forall i :: 0 <= i < |r| ==> !r[i].isPayment && r[i] in lines
  {
    if lines == [] then []
    else NonPayments(lines[..|lines| - 1]) + (if lines[|lines| - 1].isPayment then [] else [lines[|lines| - 1]])
  }

  /** `mapped("amount")`. */
  function LineAmounts(lines: seq<Line>): (r: seq<real>)
    ensures |r| == |lines| && forall i :: 0 <= i < |lines| ==> r[i] == SplitAccountLine.Amount(lines[i])
  {
    seq(|lines|, i requires 0 <= i < |lines| => SplitAccountLine.Amount(lines[i]))
  }

  /**
   * `_compute_total_amount`, line after line: each line that is not an internal payment
   * adds its amount. It is the sum of the amounts of the filtered lines.
   */
  function TotalAmount(lines: seq<Line>): (r: real)
    ensures r == Sum(LineAmounts(NonPayments(lines)))
  {
    if lines == [] then 0.0
    else
      var front, last := lines[..|lines| - 1], lines[|lines| - 1];
      var kept := NonPayments(front);
      assert NonPayments(lines) == kept + (if last.isPayment then [] else [last]);
      assert LineAmounts(kept + [last])[..|kept|] == LineAmounts(kept);
      assert kept + [] == kept;
      TotalAmount(front) + (if last.isPayment then 0.0 else SplitAccountLine.Amount(last))
  }

  lemma {:induction false} TotalAmountAppend(a: seq<Line>, b: seq<Line>)
    ensures TotalAmount(a + b) == TotalAmount(a) + TotalAmount(b)
    decreases |b|
  {
    if b == [] {
      assert a + b == a;
    } else {
      assert (a + b)[..|a + b| - 1] == a + b[..|b| - 1];
      TotalAmountAppend(a, b[..|b| - 1]);
    }
  }

  /** Internal payments never count towards the account total. */
  lemma {:induction false} PaymentsNotCounted(lines: seq<Line>)
    requires forall i :: 0 <= i < |lines| ==> lines[i].isPayment
    ensures TotalAmount(lines) == 0.0
    decreases |lines|
  {
    if lines != [] {
      PaymentsNotCounted(lines[..|lines| - 1]);
    }
  }

  /** The totals of all the lines (`line_ids.total_partner_split_ids`), line after line. */
  function LineTotals(lines: seq<Line>): seq<Total>
  {
    if lines == [] then [] else LineTotals(lines[..|lines| - 1]) + lines[|lines| - 1].totals
  }

  function PartnersOf(ts: seq<Total>): (ps: seq<PartnerId>)
    ensures |ps| == |ts| && forall i :: 0 <= i < |ts| ==> ps[i] == ts[i].partner
  {
    seq(|ts|, i requires 0 <= i < |ts| => ts[i].partner)
  }

  /** Which amount of a total a column holds. */
  datatype Side = CreditSide | DebitSide

  function Value(t: Total, side: Side): real
  {
    if side == CreditSide then t.credit else t.debit
  }

  /** `mapped("credit_amount")` or `mapped("debit_amount")`. */
  function Column(ts: seq<Total>, side: Side): (r: seq<real>)
    ensures |r| == |ts| && forall i :: 0 <= i < |ts| ==> r[i] == Value(ts[i], side)
  {
    seq(|ts|, i requires 0 <= i < |ts| => Value(ts[i], side))
  }

  /** Per partner of the line totals, the sums of its credits and of its debits. */
  function AccountBreakdown(ts: seq<Total>): map<PartnerId, CreditDebit>
  {
    map p | p in KeySet(PartnersOf(ts)) ::
      CreditDebit(SumFor(PartnersOf(ts), Column(ts, CreditSide), p), SumFor(PartnersOf(ts), Column(ts, DebitSide), p))
  }

  /**
   * `_get_amount_by_partner` of the account: for each partner of the line totals, sums
   * the credits and the debits of that partner's totals.
   */
  method AccountAmountByPartner(ts: seq<Total>) returns (accountTotal: map<PartnerId, CreditDebit>)
    ensures accountTotal == AccountBreakdown(ts)
  {
    var partners := set i | 0 <= i < |ts| :: ts[i].partner;
    assert partners == KeySet(PartnersOf(ts));
    accountTotal := map[];
    var todo := partners;
    while todo != {}
      invariant todo <= partners
      invariant accountTotal.Keys == partners - todo
      invariant forall p :: p in accountTotal ==> accountTotal[p] == AccountBreakdown(ts)[p]
      decreases todo
    {
      var partner :| partner in todo;
      var partnerTotals := TotalsOf(ts, partner);
      var credit := Sum(Column(partnerTotals, CreditSide));
      var debit := Sum(Column(partnerTotals, DebitSide));
      FilteredSum(ts, partner, CreditSide);
      FilteredSum(ts, partner, DebitSide);
      accountTotal := accountTotal[partner := CreditDebit(credit, debit)];
      todo := todo - {partner};
    }
  }

  /** Summing a partner's filtered totals is the grouped sum of that partner. */
  lemma {:induction false} FilteredSum(ts: seq<Total>, p: PartnerId, side: Side)
    ensures Sum(Column(TotalsOf(ts, p), side)) == SumFor(PartnersOf(ts), Column(ts, side), p)
    decreases |ts|
  {
    if ts != [] {
      var n := |ts| - 1;
      FilteredSum(ts[..n], p, side);
      FilteredSumLast(ts, p, side);
      assert PartnersOf(ts)[..n] == PartnersOf(ts[..n]);
      assert Column(ts, side)[..n] == Column(ts[..n], side);
    }
  }

  lemma FilteredSumLast(ts: seq<Total>, p: PartnerId, side: Side)
    requires ts != []
    ensures Sum(Column(TotalsOf(ts, p), side))
         == Sum(Column(TotalsOf(ts[..|ts| - 1], p), side)) + (if ts[|ts| - 1].partner == p then Value(ts[|ts| - 1], side) else 0.0)
  {
    var n := |ts| - 1;
    var own, mine := TotalsOf(ts[..n], p), if ts[n].partner == p then [ts[n]] else [];
    TotalsOfLast(ts, p);
    ColumnAppend(own, mine, side);
    SumAppend(Column(own, side), Column(mine, side));
    SumColumnAtMostOne(mine, side);
  }

  lemma ColumnAppend(a: seq<Total>, b: seq<Total>, side: Side)
    ensures Column(a + b, side) == Column(a, side) + Column(b, side)
  {
  }

  lemma SumColumnAtMostOne(s: seq<Total>, side: Side)
    requires |s| <= 1
    ensures Sum(Column(s, side)) == if s == [] then 0.0 else Value(s[0], side)
  {
    if s != [] {
      var c := Column(s, side);
      assert c[..0] == [];
    }
  }

  /** Aggregating per partner conserves money: the credits (debits) add up to all the line credits (debits). */
  lemma AccountBreakdownConserves(ts: seq<Total>)
    ensures MapSum(CreditColumn(AccountBreakdown(ts))) == Sum(Column(ts, CreditSide))
    ensures MapSum(DebitColumn(AccountBreakdown(ts))) == Sum(Column(ts, DebitSide))
  {
    assert CreditColumn(AccountBreakdown(ts)) == GroupSum(PartnersOf(ts), Column(ts, CreditSide));
    assert DebitColumn(AccountBreakdown(ts)) == GroupSum(PartnersOf(ts), Column(ts, DebitSide));
    GroupSumTotal(PartnersOf(ts), Column(ts, CreditSide));
    GroupSumTotal(PartnersOf(ts), Column(ts, DebitSide));
  }

  /** `float_compare(t.amount, 0, …) < 0`: with exact arithmetic, a negative amount. */
  predicate IsDebtor(t: Total)
  {
    PartnerTotalSplit.Amount(t) < 0.0
  }

  /** The totals that owe money, in the totals' order. */
  function Debtors(ts: seq<Total>): (r: seq<Total>)
    ensures forall i :: 0 <= i < |r| ==> IsDebtor(r[i]) && r[i] in ts
  {
    if ts == [] then [] else (if IsDebtor(ts[0]) then [ts[0]] else []) + Debtors(ts[1..])
  }

  /** `totals - debtors`: every other total, including those at zero, in the totals' order. */
  function Creditors(ts: seq<Total>): (r: seq<Total>)
    ensures forall i :: 0 <= i < |r| ==> !IsDebtor(r[i]) && r[i] in ts
  {
    if ts == [] then [] else (if IsDebtor(ts[0]) then [] else [ts[0]]) + Creditors(ts[1..])
  }

  /** Inserting before the first element whose key is not smaller keeps equal keys in their order. */
  function Insert(t: Total, s: seq<Total>, key: Total -> real): seq<Total>
  {
    if s == [] then [t]
    else if key(t) <= key(s[0]) then [t] + s
    else [s[0]] + Insert(t, s[1..], key)
  }

  /** `sorted(key=…)`. */
  function SortBy(s: seq<Total>, key: Total -> real): seq<Total>
  {
    if s == [] then [] else Insert(s[0], SortBy(s[1..], key), key)
  }

  predicate SortedBy(s: seq<Total>, key: Total -> real)
  {
    forall i, j :: 0 <= i < j < |s| ==> key(s[i]) <= key(s[j])
  }

  lemma {:induction false} InsertSorted(t: Total, s: seq<Total>, key: Total -> real)
    requires SortedBy(s, key)
    ensures SortedBy(Insert(t, s, key), key)
    decreases |s|
  {
    if s != [] {
      if key(t) <= key(s[0]) {
        ConsSorted(t, s, key);
      } else {
        InsertSorted(t, s[1..], key);
        InsertAfterHead(t, s, key);
      }
    }
  }

  lemma InsertAfterHead(t: Total, s: seq<Total>, key: Total -> real)
    requires s != [] && key(s[0]) < key(t) && SortedBy(s, key)
    requires SortedBy(Insert(t, s[1..], key), key)
    ensures SortedBy([s[0]] + Insert(t, s[1..], key), key)
  {
    var rest := Insert(t, s[1..], key);
    InsertPermutes(t, s[1..], key);
    forall i | 0 <= i < |rest| ensures key(s[0]) <= key(rest[i]) {
      assert rest[i] in multiset(rest);
      if rest[i] != t {
        var j :| 0 <= j < |s[1..]| && s[1..][j] == rest[i];
        assert s[j + 1] == rest[i];
      }
    }
    ConsSorted(s[0], rest, key);
  }

  lemma {:induction false} InsertPermutes(t: Total, s: seq<Total>, key: Total -> real)
    ensures multiset(Insert(t, s, key)) == multiset(s) + multiset{t}
    decreases |s|
  {
    if s != [] && key(s[0]) < key(t) {
      InsertPermutes(t, s[1..], key);
      assert s == [s[0]] + s[1..];
    }
  }

  lemma ConsSorted(x: Total, s: seq<Total>, key: Total -> real)
    requires SortedBy(s, key)
    requires s != [] ==> key(x) <= key(s[0])
    requires forall i :: 0 <= i < |s| ==> key(x) <= key(s[i])
    ensures SortedBy([x] + s, key)
  {
    forall i, j | 0 <= i < j < |s| + 1 ensures key(([x] + s)[i]) <= key(([x] + s)[j]) {
      assert ([x] + s)[j] == s[j - 1];
      if i > 0 {
        assert ([x] + s)[i] == s[i - 1];
      }
    }
  }

  /** The sort orders by the key and is a permutation. */
  lemma SortBySorted(s: seq<Total>, key: Total -> real)
    ensures SortedBy(SortBy(s, key), key)
    ensures multiset(SortBy(s, key)) == multiset(s)
  {
    SortOrders(s, key);
    SortPermutes(s, key);
  }

  lemma {:induction false} SortOrders(s: seq<Total>, key: Total -> real)
    ensures SortedBy(SortBy(s, key), key)
    decreases |s|
  {
    if s != [] {
      SortOrders(s[1..], key);
      InsertSorted(s[0], SortBy(s[1..], key), key);
    }
  }

  lemma {:induction false} SortPermutes(s: seq<Total>, key: Total -> real)
    ensures multiset(SortBy(s, key)) == multiset(s)
    decreases |s|
  {
    if s != [] {
      SortPermutes(s[1..], key);
      InsertPermutes(s[0], SortBy(s[1..], key), key);
      assert s == [s[0]] + s[1..];
    }
  }

  /** The sort keeps the same totals. */
  lemma SortWithin(s: seq<Total>, key: Total -> real)
    ensures Within(SortBy(s, key), s) && Within(s, SortBy(s, key))
  {
    SortPermutes(s, key);
    var r := SortBy(s, key);
    forall i | 0 <= i < |r| ensures r[i] in s {
      assert r[i] in multiset(r);
    }
    forall i | 0 <= i < |s| ensures s[i] in r {
      assert s[i] in multiset(s);
    }
  }

  lemma ConsDistinct(x: Total, s: seq<Total>)
    requires DistinctPartners(s) && forall i :: 0 <= i < |s| ==> s[i].partner != x.partner
    ensures DistinctPartners([x] + s)
  {
    forall i, j | 0 <= i < j < |s| + 1 ensures ([x] + s)[i].partner != ([x] + s)[j].partner {
      assert ([x] + s)[j] == s[j - 1];
      if i > 0 {
        assert ([x] + s)[i] == s[i - 1];
      }
    }
  }

  /** Every element of `a` is an element of `b`. */
  predicate Within(a: seq<Total>, b: seq<Total>)
  {
    forall i :: 0 <= i < |a| ==> a[i] in b
  }

  lemma {:induction false} InsertDistinct(t: Total, s: seq<Total>, key: Total -> real)
    requires DistinctPartners(s) && forall i :: 0 <= i < |s| ==> s[i].partner != t.partner
    ensures DistinctPartners(Insert(t, s, key))
    ensures forall i :: 0 <= i < |Insert(t, s, key)| ==> Insert(t, s, key)[i] == t || Insert(t, s, key)[i] in s
    decreases |s|
  {
    if s == [] {
    } else if key(t) <= key(s[0]) {
      ConsDistinct(t, s);
    } else {
      InsertDistinct(t, s[1..], key);
      var rest := Insert(t, s[1..], key);
      forall i | 0 <= i < |rest| ensures rest[i].partner != s[0].partner {
        if rest[i] != t {
          var j :| 0 <= j < |s[1..]| && s[1..][j] == rest[i];
          assert s[j + 1] == rest[i];
        }
      }
      ConsDistinct(s[0], rest);
      assert forall i :: 1 <= i < |rest| + 1 ==> ([s[0]] + rest)[i] == rest[i - 1];
    }
  }

  /** Sorting totals with distinct partners keeps them distinct, and keeps the same totals. */
  lemma SortDistinct(s: seq<Total>, key: Total -> real)
    requires DistinctPartners(s)
    ensures DistinctPartners(SortBy(s, key)) && Within(SortBy(s, key), s) && Within(s, SortBy(s, key))
  {
    SortApart(s, key);
    SortWithin(s, key);
  }

  lemma {:induction false} SortApart(s: seq<Total>, key: Total -> real)
    requires DistinctPartners(s)
    ensures DistinctPartners(SortBy(s, key))
    decreases |s|
  {
    if s != [] {
      SortApart(s[1..], key);
      SortWithin(s[1..], key);
      var rest := SortBy(s[1..], key);
      forall i | 0 <= i < |rest| ensures rest[i].partner != s[0].partner {
        var j :| 0 <= j < |s[1..]| && s[1..][j] == rest[i];
        assert s[j + 1] == rest[i];
      }
      InsertDistinct(s[0], rest, key);
    }
  }

  /** The debtors with distinct partners, and each debtor of the totals among them. */
  lemma DebtorsDistinct(ts: seq<Total>)
    requires DistinctPartners(ts)
    ensures DistinctPartners(Debtors(ts)) && DistinctPartners(Creditors(ts))
    ensures forall i :: 0 <= i < |ts| && IsDebtor(ts[i]) ==> ts[i] in Debtors(ts)
    ensures forall i :: 0 <= i < |ts| && !IsDebtor(ts[i]) ==> ts[i] in Creditors(ts)
  {
    DebtorsApart(ts);
    CreditorsApart(ts);
    SidesCover(ts);
  }

  lemma {:induction false} DebtorsApart(ts: seq<Total>)
    requires DistinctPartners(ts)
    ensures DistinctPartners(Debtors(ts))
    decreases |ts|
  {
    if ts != [] {
      DebtorsApart(ts[1..]);
      if IsDebtor(ts[0]) {
        HeadApart(ts, Debtors(ts[1..]));
        ConsDistinct(ts[0], Debtors(ts[1..]));
      }
    }
  }

  lemma {:induction false} CreditorsApart(ts: seq<Total>)
    requires DistinctPartners(ts)
    ensures DistinctPartners(Creditors(ts))
    decreases |ts|
  {
    if ts != [] {
      CreditorsApart(ts[1..]);
      if !IsDebtor(ts[0]) {
        HeadApart(ts, Creditors(ts[1..]));
        ConsDistinct(ts[0], Creditors(ts[1..]));
      }
    }
  }

  /** Totals taken from the tail of distinct totals have another partner than the head. */
  lemma HeadApart(ts: seq<Total>, s: seq<Total>)
    requires DistinctPartners(ts) && ts != []
    requires forall i :: 0 <= i < |s| ==> s[i] in ts[1..]
    ensures forall i :: 0 <= i < |s| ==> s[i].partner != ts[0].partner
  {
    forall i | 0 <= i < |s| ensures s[i].partner != ts[0].partner {
      var j :| 0 <= j < |ts[1..]| && ts[1..][j] == s[i];
      assert ts[j + 1] == s[i];
    }
  }

  lemma {:induction false} SidesCover(ts: seq<Total>)
    ensures forall i :: 0 <= i < |ts| && IsDebtor(ts[i]) ==> ts[i] in Debtors(ts)
    ensures forall i :: 0 <= i < |ts| && !IsDebtor(ts[i]) ==> ts[i] in Creditors(ts)
    decreases |ts|
  {
    if ts != [] {
      SidesCover(ts[1..]);
      forall i | 1 <= i < |ts| ensures ts[i] == ts[1..][i - 1] {
      }
    }
  }

  /** `-t.amount`, the debtors' sort key and the debtor counter's value. */
  function DebtKey(t: Total): real
  {
    -PartnerTotalSplit.Amount(t)
  }

  /** `t.amount`, the creditors' sort key and the creditor counter's value. */
  function CreditKey(t: Total): real
  {
    PartnerTotalSplit.Amount(t)
  }

  /** `debtors.sorted(key=lambda t: -t.amount)`: the smallest debt first. */
  function DebtorOrder(ts: seq<Total>): seq<Total>
  {
    SortBy(Debtors(ts), DebtKey)
  }

  /** `creditors.sorted(key=lambda t: t.amount)`: the smallest credit first. */
  function CreditorOrder(ts: seq<Total>): seq<Total>
  {
    SortBy(Creditors(ts), CreditKey)
  }

  function Values(ts: seq<Total>, key: Total -> real): (r: seq<real>)
    ensures |r| == |ts| && forall i :: 0 <= i < |ts| ==> r[i] == key(ts[i])
  {
    seq(|ts|, i requires 0 <= i < |ts| => key(ts[i]))
  }

  /** The counters' keys and values: partner to what it is owed, partner to what it owes. */
  function CreditorKeys(ts: seq<Total>): seq<PartnerId> { PartnersOf(CreditorOrder(ts)) }
  function CreditorAmounts(ts: seq<Total>): seq<real> { Values(CreditorOrder(ts), CreditKey) }
  function DebtorKeys(ts: seq<Total>): seq<PartnerId> { PartnersOf(DebtorOrder(ts)) }
  function DebtorAmounts(ts: seq<Total>): seq<real> { Values(DebtorOrder(ts), DebtKey) }

  /** The sum of `key` over the totals. */
  function KeySum(ts: seq<Total>, key: Total -> real): real
  {
    if ts == [] then 0.0 else key(ts[0]) + KeySum(ts[1..], key)
  }

  /** The sum of the totals' amounts. */
  function Balance(ts: seq<Total>): real
  {
    KeySum(ts, CreditKey)
  }

  lemma {:induction false} ValuesSum(ts: seq<Total>, key: Total -> real)
    ensures Sum(Values(ts, key)) == KeySum(ts, key)
    decreases |ts|
  {
    if ts != [] {
      ValuesSum(ts[1..], key);
      assert Values(ts, key) == [key(ts[0])] + Values(ts[1..], key);
      SumAppend([key(ts[0])], Values(ts[1..], key));
      assert Sum([key(ts[0])]) == Sum([key(ts[0])][..0]) + key(ts[0]);
    }
  }

  lemma {:induction false} DebtSum(ts: seq<Total>)
    ensures KeySum(ts, DebtKey) == -KeySum(ts, CreditKey)
    decreases |ts|
  {
    if ts != [] {
      DebtSum(ts[1..]);
    }
  }

  lemma {:induction false} InsertSum(t: Total, s: seq<Total>, order: Total -> real, key: Total -> real)
    ensures KeySum(Insert(t, s, order), key) == key(t) + KeySum(s, key)
    decreases |s|
  {
    if s != [] && order(s[0]) < order(t) {
      InsertSum(t, s[1..], order, key);
      assert ([s[0]] + Insert(t, s[1..], order))[1..] == Insert(t, s[1..], order);
    } else if s != [] {
      assert ([t] + s)[1..] == s;
    }
  }

  lemma {:induction false} SortSum(s: seq<Total>, order: Total -> real, key: Total -> real)
    ensures KeySum(SortBy(s, order), key) == KeySum(s, key)
    decreases |s|
  {
    if s != [] {
      SortSum(s[1..], order, key);
      InsertSum(s[0], SortBy(s[1..], order), order, key);
    }
  }

  lemma {:induction false} PartitionSum(ts: seq<Total>, key: Total -> real)
    ensures KeySum(Debtors(ts), key) + KeySum(Creditors(ts), key) == KeySum(ts, key)
    decreases |ts|
  {
    if ts != [] {
      PartitionSum(ts[1..], key);
      var ds, cs := Debtors(ts[1..]), Creditors(ts[1..]);
      if IsDebtor(ts[0]) {
        assert ([ts[0]] + ds)[1..] == ds && [] + cs == cs;
      } else {
        assert ([ts[0]] + cs)[1..] == cs && [] + ds == ds;
      }
    }
  }

  /** What the creditors are owed exceeds what the debtors owe by the totals' balance. */
  lemma CounterSums(ts: seq<Total>)
    ensures Sum(CreditorAmounts(ts)) - Sum(DebtorAmounts(ts)) == Balance(ts)
  {
    ValuesSum(CreditorOrder(ts), CreditKey);
    ValuesSum(DebtorOrder(ts), DebtKey);
    SortSum(Creditors(ts), CreditKey, CreditKey);
    SortSum(Debtors(ts), DebtKey, DebtKey);
    DebtSum(Debtors(ts));
    PartitionSum(ts, CreditKey);
  }

  /** The counters hold non-negative amounts for distinct partners. */
  lemma CountersValid(ts: seq<Total>)
    requires DistinctPartners(ts)
    ensures Distinct(CreditorKeys(ts)) && Distinct(DebtorKeys(ts))
    ensures |CreditorKeys(ts)| == |CreditorAmounts(ts)| && |DebtorKeys(ts)| == |DebtorAmounts(ts)|
    ensures forall c :: 0 <= c < |CreditorAmounts(ts)| ==> CreditorAmounts(ts)[c] >= 0.0
    ensures forall k :: 0 <= k < |DebtorAmounts(ts)| ==> DebtorAmounts(ts)[k] > 0.0
  {
    DebtorsDistinct(ts);
    SortDistinct(Debtors(ts), DebtKey);
    SortDistinct(Creditors(ts), CreditKey);
  }

  lemma {:induction false} ReceivedNone(ts: seq<Transfer>, p: PartnerId)
    requires forall j :: 0 <= j < |ts| ==> ts[j].to != p
    ensures Received(ts, p) == 0.0
    decreases |ts|
  {
    if ts != [] {
      ReceivedNone(ts[..|ts| - 1], p);
    }
  }

  lemma {:induction false} GivenNone(ts: seq<Transfer>, p: PartnerId)
    requires forall j :: 0 <= j < |ts| ==> ts[j].from != p
    ensures Given(ts, p) == 0.0
    decreases |ts|
  {
    if ts != [] {
      GivenNone(ts[..|ts| - 1], p);
    }
  }

  /** Where a debtor total sits in the debtor counter; its partner is no creditor. */
  lemma DebtorPlace(ts: seq<Total>, i: nat) returns (k: nat)
    requires DistinctPartners(ts) && i < |ts| && IsDebtor(ts[i])
    ensures k < |DebtorOrder(ts)| && DebtorOrder(ts)[k] == ts[i]
    ensures ts[i].partner !in CreditorKeys(ts)
  {
    SidesCover(ts);
    SortWithin(Debtors(ts), DebtKey);
    k :| 0 <= k < |DebtorOrder(ts)| && DebtorOrder(ts)[k] == ts[i];
    OtherSide(ts, i, Creditors(ts), CreditKey);
  }

  /** Where a creditor total sits in the creditor counter; its partner is no debtor. */
  lemma CreditorPlace(ts: seq<Total>, i: nat) returns (c: nat)
    requires DistinctPartners(ts) && i < |ts| && !IsDebtor(ts[i])
    ensures c < |CreditorOrder(ts)| && CreditorOrder(ts)[c] == ts[i]
    ensures ts[i].partner !in DebtorKeys(ts)
  {
    SidesCover(ts);
    SortWithin(Creditors(ts), CreditKey);
    c :| 0 <= c < |CreditorOrder(ts)| && CreditorOrder(ts)[c] == ts[i];
    OtherSide(ts, i, Debtors(ts), DebtKey);
  }

  /** No total from the other side, sorted or not, shares the partner of total `i`. */
  lemma OtherSide(ts: seq<Total>, i: nat, side: seq<Total>, key: Total -> real)
    requires DistinctPartners(ts) && i < |ts|
    requires forall j :: 0 <= j < |side| ==> side[j] in ts && IsDebtor(side[j]) != IsDebtor(ts[i])
    ensures ts[i].partner !in PartnersOf(SortBy(side, key))
  {
    SortWithin(side, key);
    var sorted := SortBy(side, key);
    forall k | 0 <= k < |sorted| ensures sorted[k].partner != ts[i].partner {
      var j :| 0 <= j < |side| && side[j] == sorted[k];
      var l :| 0 <= l < |ts| && ts[l] == side[j];
    }
  }

  /**
   * Read back on the totals, the netting bounds say: a debtor receives nothing and gives
   * at most its debt; a creditor gives nothing and receives at most its credit.
   */
  lemma ProposalBounds(ts: seq<Total>, transfers: seq<Transfer>)
    requires DistinctPartners(ts)
    requires WellFormed(CreditorKeys(ts), DebtorKeys(ts), transfers)
    requires forall c :: 0 <= c < |CreditorOrder(ts)| ==> Received(transfers, CreditorKeys(ts)[c]) <= CreditorAmounts(ts)[c]
    requires forall k :: 0 <= k < |DebtorOrder(ts)| ==> Given(transfers, DebtorKeys(ts)[k]) <= DebtorAmounts(ts)[k]
    ensures forall i :: 0 <= i < |ts| && IsDebtor(ts[i]) ==>
              Received(transfers, ts[i].partner) == 0.0 && Given(transfers, ts[i].partner) <= -PartnerTotalSplit.Amount(ts[i])
    ensures forall i :: 0 <= i < |ts| && !IsDebtor(ts[i]) ==>
              Given(transfers, ts[i].partner) == 0.0 && Received(transfers, ts[i].partner) <= PartnerTotalSplit.Amount(ts[i])
  {
    forall i | 0 <= i < |ts| && IsDebtor(ts[i])
      ensures Received(transfers, ts[i].partner) == 0.0 && Given(transfers, ts[i].partner) <= -PartnerTotalSplit.Amount(ts[i])
    {
      var k := DebtorPlace(ts, i);
      ReceivedNone(transfers, ts[i].partner);
    }
    forall i | 0 <= i < |ts| && !IsDebtor(ts[i])
      ensures Given(transfers, ts[i].partner) == 0.0 && Received(transfers, ts[i].partner) <= PartnerTotalSplit.Amount(ts[i])
    {
      var c := CreditorPlace(ts, i);
      GivenNone(transfers, ts[i].partner);
    }
  }

  /**
   * What the proposals promise on the totals: a debtor only gives, at most its debt; a
   * creditor only receives, at most its credit; and when the totals balance, executing
   * the transfers brings every partner's amount to zero.
   */
  ghost predicate Proposes(ts: seq<Total>, transfers: seq<Transfer>)
  {
    && WellFormed(CreditorKeys(ts), DebtorKeys(ts), transfers)
    && (forall i :: 0 <= i < |ts| && IsDebtor(ts[i]) ==>
          Received(transfers, ts[i].partner) == 0.0 && Given(transfers, ts[i].partner) <= -PartnerTotalSplit.Amount(ts[i]))
    && (forall i :: 0 <= i < |ts| && !IsDebtor(ts[i]) ==>
          Given(transfers, ts[i].partner) == 0.0 && Received(transfers, ts[i].partner) <= PartnerTotalSplit.Amount(ts[i]))
    && (Balance(ts) == 0.0 ==>
          forall i :: 0 <= i < |ts| ==>
            PartnerTotalSplit.Amount(ts[i]) + Given(transfers, ts[i].partner) - Received(transfers, ts[i].partner) == 0.0)
  }

  /** Netting the counters of distinct totals yields transfers that keep the promise above. */
  lemma NetProposes(ts: seq<Total>, transfers: seq<Transfer>)
    requires DistinctPartners(ts)
    requires |CreditorKeys(ts)| == |CreditorAmounts(ts)| && |DebtorKeys(ts)| == |DebtorAmounts(ts)|
    requires WellFormed(CreditorKeys(ts), DebtorKeys(ts), transfers)
    requires forall c :: 0 <= c < |CreditorKeys(ts)| ==> 0.0 <= Received(transfers, CreditorKeys(ts)[c]) <= CreditorAmounts(ts)[c]
    requires forall k :: 0 <= k < |DebtorKeys(ts)| ==> 0.0 <= Given(transfers, DebtorKeys(ts)[k]) <= DebtorAmounts(ts)[k]
    requires Sum(CreditorAmounts(ts)) == Sum(DebtorAmounts(ts)) ==>
               && (forall c :: 0 <= c < |CreditorKeys(ts)| ==> Received(transfers, CreditorKeys(ts)[c]) == CreditorAmounts(ts)[c])
               && (forall k :: 0 <= k < |DebtorKeys(ts)| ==> Given(transfers, DebtorKeys(ts)[k]) == DebtorAmounts(ts)[k])
    ensures Proposes(ts, transfers)
  {
    ProposalBounds(ts, transfers);
    if Balance(ts) == 0.0 {
      CounterSums(ts);
      ProposalsSettle(ts, transfers);
    }
  }

  /** When both sides are settled in full, every partner's balance after the payments is zero. */
  lemma ProposalsSettle(ts: seq<Total>, transfers: seq<Transfer>)
    requires DistinctPartners(ts)
    requires WellFormed(CreditorKeys(ts), DebtorKeys(ts), transfers)
    requires forall c :: 0 <= c < |CreditorOrder(ts)| ==> Received(transfers, CreditorKeys(ts)[c]) == CreditorAmounts(ts)[c]
    requires forall k :: 0 <= k < |DebtorOrder(ts)| ==> Given(transfers, DebtorKeys(ts)[k]) == DebtorAmounts(ts)[k]
    ensures forall i :: 0 <= i < |ts| ==>
              PartnerTotalSplit.Amount(ts[i]) + Given(transfers, ts[i].partner) - Received(transfers, ts[i].partner) == 0.0
  {
    forall i | 0 <= i < |ts|
      ensures PartnerTotalSplit.Amount(ts[i]) + Given(transfers, ts[i].partner) - Received(transfers, ts[i].partner) == 0.0
    {
      if IsDebtor(ts[i]) {
        var k := DebtorPlace(ts, i);
        ReceivedNone(transfers, ts[i].partner);
      } else {
        var c := CreditorPlace(ts, i);
        GivenNone(transfers, ts[i].partner);
      }
    }
  }

  /** The proposals recorded for the transfers (`Command.create` of each), in order. */
  function ProposalsOf(transfers: seq<Transfer>): (r: seq<Proposal>)
    ensures |r| == |transfers|
  {
    seq(|transfers|, t requires 0 <= t < |transfers| => Proposal(transfers[t].from, transfers[t].to, transfers[t].amount))
  }

  /** Executing a payment adds a line that does not count towards the account total. */
  lemma PaymentKeepsTotal(lines: seq<Line>, p: Proposal)
    ensures TotalAmount(lines + [PaymentLine(p)]) == TotalAmount(lines)
  {
    assert (lines + [PaymentLine(p)])[..|lines|] == lines;
  }

  /**
   * What partner `q` is owed over the totals, negative when it owes: the sum of its
   * credits less the sum of its debits.
   */
  function PartnerBalance(ts: seq<Total>, q: PartnerId): real
  {
    Sum(Column(TotalsOf(ts, q), CreditSide)) - Sum(Column(TotalsOf(ts, q), DebitSide))
  }

  /** The balance is the amount of the partner's account total, and 0 for a partner without one. */
  lemma BalanceOfBreakdown(ts: seq<Total>, q: PartnerId)
    ensures q in AccountBreakdown(ts) ==> PartnerBalance(ts, q) == AccountBreakdown(ts)[q].credit - AccountBreakdown(ts)[q].debit
    ensures q !in AccountBreakdown(ts) ==> PartnerBalance(ts, q) == 0.0
  {
    FilteredSum(ts, q, CreditSide);
    FilteredSum(ts, q, DebitSide);
    if q !in AccountBreakdown(ts) {
      SumForAbsent(PartnersOf(ts), Column(ts, CreditSide), q);
      SumForAbsent(PartnersOf(ts), Column(ts, DebitSide), q);
    }
  }

  lemma BalanceAppend(a: seq<Total>, b: seq<Total>, q: PartnerId)
    ensures PartnerBalance(a + b, q) == PartnerBalance(a, q) + PartnerBalance(b, q)
  {
    var ta, tb := TotalsOf(a, q), TotalsOf(b, q);
    TotalsOfAppend(a, b, q);
    ColumnAppend(ta, tb, CreditSide);
    ColumnAppend(ta, tb, DebitSide);
    SumAppend(Column(ta, CreditSide), Column(tb, CreditSide));
    SumAppend(Column(ta, DebitSide), Column(tb, DebitSide));
  }

  /** The line `generate_payment` writes for `p`, once its totals are computed. */
  ghost predicate PaidIn(line: Line, p: Proposal)
  {
    line == PaymentLine(p).(totals := line.totals) && Reconciled(line.totals, [], Breakdown(PaymentLine(p)))
  }

  /** A payment line credits the giving partner and debits the receiving one with the amount; nobody else moves. */
  lemma PaymentLineBalance(line: Line, p: Proposal, q: PartnerId)
    requires PaidIn(line, p)
    ensures PartnerBalance(line.totals, q) == (if q == p.from then p.amount else 0.0) - (if q == p.to then p.amount else 0.0)
  {
    var m := Breakdown(PaymentLine(p));
    if p.from == p.to {
      PaymentToSelf(p);
    } else {
      PaymentLineBreakdown(p);
    }
    if q in m {
      assert SettledFor(line.totals, [], m, q);
      SumColumnAtMostOne(TotalsOf(line.totals, q), CreditSide);
      SumColumnAtMostOne(TotalsOf(line.totals, q), DebitSide);
    } else {
      assert TotalsOf(line.totals, q) == [];
    }
  }

  /** One payment line per transfer, in order, each with its totals computed. */
  ghost predicate PaidAll(payments: seq<Line>, transfers: seq<Transfer>)
  {
    |payments| == |transfers| && forall t :: 0 <= t < |transfers| ==> PaidIn(payments[t], ProposalsOf(transfers)[t])
  }

  /** Paying the transfers raises each partner's balance by what it gives and lowers it by what it receives. */
  lemma {:induction false} PaymentsBalance(lines: seq<Line>, payments: seq<Line>, transfers: seq<Transfer>, q: PartnerId)
    requires PaidAll(payments, transfers)
    ensures PartnerBalance(LineTotals(lines + payments), q)
         == PartnerBalance(LineTotals(lines), q) + Given(transfers, q) - Received(transfers, q)
    decreases |payments|
  {
    if payments == [] {
      assert lines + payments == lines;
    } else {
      var n := |payments| - 1;
      assert PaidAll(payments[..n], transfers[..n]) by {
        forall t | 0 <= t < n ensures ProposalsOf(transfers[..n])[t] == ProposalsOf(transfers)[t] {
        }
      }
      PaymentsBalance(lines, payments[..n], transfers[..n], q);
      assert (lines + payments)[..|lines + payments| - 1] == lines + payments[..n];
      BalanceAppend(LineTotals(lines + payments[..n]), payments[n].totals, q);
      PaymentLineBalance(payments[n], ProposalsOf(transfers)[n], q);
    }
  }

  /** A partner without a total is neither a creditor nor a debtor of the counters. */
  lemma NoTotalNoCounter(ts: seq<Total>, q: PartnerId)
    requires TotalsOf(ts, q) == []
    ensures q !in CreditorKeys(ts) && q !in DebtorKeys(ts)
  {
    SortWithin(Creditors(ts), CreditKey);
    SortWithin(Debtors(ts), DebtKey);
    forall i | 0 <= i < |ts| ensures ts[i].partner != q {
      TotalsOfPresent(ts, i);
    }
  }

  /**
   * The flow of paying every proposal: when the account totals balance and the proposals
   * keep their promise, once a payment line per proposal is written and its totals
   * computed, every partner of the lines has credits equal to its debits, so the account
   * totals computed again are all zero.
   */
  lemma PaymentsSettleAccount(lines: seq<Line>, totals: seq<Total>, stored: seq<Total>, transfers: seq<Transfer>,
                              payments: seq<Line>, q: PartnerId)
    requires Reconciled(totals, stored, AccountBreakdown(LineTotals(lines)))
    requires Proposes(totals, transfers) && Balance(totals) == 0.0
    requires PaidAll(payments, transfers)
    requires q in AccountBreakdown(LineTotals(lines + payments))
    ensures AccountBreakdown(LineTotals(lines + payments))[q].credit == AccountBreakdown(LineTotals(lines + payments))[q].debit
  {
    var m := AccountBreakdown(LineTotals(lines));
    PaymentsBalance(lines, payments, transfers, q);
    BalanceOfBreakdown(LineTotals(lines + payments), q);
    BalanceOfBreakdown(LineTotals(lines), q);
    if q in m {
      ProposedPartnerSettles(totals, stored, m, transfers, q);
    } else {
      ProposedOutsider(totals, stored, m, transfers, q);
    }
  }

  /** A partner with an account total ends at zero once it has given and received what is proposed. */
  lemma ProposedPartnerSettles(totals: seq<Total>, stored: seq<Total>, m: map<PartnerId, CreditDebit>,
                               transfers: seq<Transfer>, q: PartnerId)
    requires Reconciled(totals, stored, m) && q in m
    requires Proposes(totals, transfers) && Balance(totals) == 0.0
    ensures m[q].credit - m[q].debit + Given(transfers, q) - Received(transfers, q) == 0.0
  {
    assert SettledFor(totals, stored, m, q);
    var t := TotalsOf(totals, q)[0];
    var i :| 0 <= i < |totals| && totals[i] == t;
    assert PartnerTotalSplit.Amount(totals[i]) + Given(transfers, q) - Received(transfers, q) == 0.0;
  }

  /** A partner without an account total takes no part in the proposals. */
  lemma ProposedOutsider(totals: seq<Total>, stored: seq<Total>, m: map<PartnerId, CreditDebit>,
                         transfers: seq<Transfer>, q: PartnerId)
    requires Reconciled(totals, stored, m) && q !in m
    requires WellFormed(CreditorKeys(totals), DebtorKeys(totals), transfers)
    ensures Given(transfers, q) == 0.0 && Received(transfers, q) == 0.0
  {
    NoTotalNoCounter(totals, q);
    GivenNone(transfers, q);
    ReceivedNone(transfers, q);
  }

  /** Totals as they are stored: distinct ids below the next free one, one total per partner. */
  predicate StoredTotals(ts: seq<Total>, nextId: TotalId)
  {
    DistinctIds(ts) && IdsBelow(ts, nextId) && DistinctPartners(ts)
  }

  class Account {
    var lines: seq<Line>
    /** `total_partner_split_ids`, the account's per-partner totals. */
    var totals: seq<Total>
    /** `partner_payment_ids`, the proposed payments not yet executed. */
    var proposals: seq<Proposal>
    /** The id the totals table hands out next. */
    var nextTotalId: TotalId

    ghost predicate Valid()
      reads this
    {
      && StoredTotals(totals, nextTotalId)
      && forall i :: 0 <= i < |lines| ==> StoredTotals(lines[i].totals, nextTotalId)
    }

    constructor ()
      ensures Valid() && lines == [] && totals == [] && proposals == []
    {
      lines, totals, proposals, nextTotalId := [], [], [], 0;
    }

    /**
     * The line's `_compute_total_partner_split_ids`: its stored totals are replaced by
     * one total per partner of its breakdown. `keys` is the order of the breakdown dict.
     */
    method ComputeLineTotals(i: nat, keys: seq<PartnerId>)
      requires Valid() && i < |lines| && Splittable(lines[i].weights)
      requires KeySet(keys) == Breakdown(lines[i]).Keys && Distinct(keys)
      modifies this
      ensures Valid()
      ensures totals == old(totals) && proposals == old(proposals) && |lines| == |old(lines)|
      ensures forall j :: 0 <= j < |lines| && j != i ==> lines[j] == old(lines)[j]
      ensures lines[i] == old(lines)[i].(totals := lines[i].totals)
      ensures Reconciled(lines[i].totals, old(lines)[i].totals, Breakdown(old(lines)[i]))
    {
      var line := lines[i];
      var byPartner := SplitAccountLine.AmountByPartner(line);
      WrittenTotals(line.totals, byPartner, keys, nextTotalId);
      var r := UpdatedTotals(line.totals, byPartner, keys);
      var commands := r.value;
      assert commands == TotalsCommands(line.totals, byPartner, keys);
      var written := Apply(line.totals, commands, nextTotalId);
      ghost var before := nextTotalId;
      nextTotalId := NextIdAfter(commands, nextTotalId);
      lines := lines[i := line.(totals := written)];
      forall j | 0 <= j < |lines| ensures StoredTotals(lines[j].totals, nextTotalId) {
        if j != i {
          assert StoredTotals(old(lines)[j].totals, before);
        }
      }
    }

    /**
     * The account's `_compute_total_partner_split_ids`: its stored totals are replaced by
     * one total per partner of the lines' totals, holding that partner's sums. `keys` is
     * the order of the dict `_get_amount_by_partner` builds.
     */
    method ComputeTotalPartnerSplits(keys: seq<PartnerId>)
      requires Valid()
      requires KeySet(keys) == AccountBreakdown(LineTotals(lines)).Keys && Distinct(keys)
      modifies this
      ensures Valid()
      ensures lines == old(lines) && proposals == old(proposals)
      ensures Reconciled(totals, old(totals), AccountBreakdown(LineTotals(lines)))
    {
      var accountTotal := AccountAmountByPartner(LineTotals(lines));
      WrittenTotals(totals, accountTotal, keys, nextTotalId);
      var r := UpdatedTotals(totals, accountTotal, keys);
      var commands := r.value;
      assert commands == TotalsCommands(totals, accountTotal, keys);
      ghost var before := nextTotalId;
      totals := Apply(totals, commands, nextTotalId);
      nextTotalId := NextIdAfter(commands, nextTotalId);
      forall j | 0 <= j < |lines| ensures StoredTotals(lines[j].totals, nextTotalId) {
        assert StoredTotals(lines[j].totals, before);
      }
    }

    /**
     * `generate_payment_proposals`: nets the debtors against the creditors greedily and
     * records one proposal per transfer; the transfers keep the promise of `Proposes` on
     * the totals.
     */
    method GeneratePaymentProposals() returns (transfers: seq<Transfer>)
      requires Valid()
      modifies this
      ensures Valid()
      ensures lines == old(lines) && totals == old(totals) && nextTotalId == old(nextTotalId)
      ensures transfers == GreedyNet(CreditorKeys(totals), CreditorAmounts(totals), DebtorKeys(totals), DebtorAmounts(totals))
      ensures proposals == old(proposals) + ProposalsOf(transfers)
      ensures Proposes(totals, transfers)
    {
      CountersValid(totals);
      var creditors, creditAmounts := CreditorKeys(totals), CreditorAmounts(totals);
      var debtors, debtAmounts := DebtorKeys(totals), DebtorAmounts(totals);
      transfers := Net(creditors, creditAmounts, debtors, debtAmounts);
      NetProposes(totals, transfers);
      if transfers != [] {
        proposals := proposals + ProposalsOf(transfers);
      } else {
        assert ProposalsOf(transfers) == [];
      }
    }

    /**
     * `generate_payment` of proposal `i`: adds the internal-payment line to the account and
     * drops the proposal. The account total does not change.
     */
    method GeneratePayment(i: nat)
      requires Valid() && i < |proposals|
      modifies this
      ensures Valid()
      ensures lines == old(lines) + [PaymentLine(old(proposals)[i])]
      ensures proposals == old(proposals)[..i] + old(proposals)[i + 1..]
      ensures totals == old(totals) && nextTotalId == old(nextTotalId)
      ensures TotalAmount(lines) == TotalAmount(old(lines))
    {
      var proposal := proposals[i];
      PaymentKeepsTotal(lines, proposal);
      lines := lines + [PaymentLine(proposal)];
      proposals := proposals[..i] + proposals[i + 1..];
    }
  }

  /** The night-out account's totals: partner 1 is owed 17.5, partner 2 owes 72.5, partner 3 is owed 55. */
  function NightOutTotals(): seq<Total>
  {
    [Total(0, 1, 90.0, 72.5), Total(1, 2, 0.0, 72.5), Total(2, 3, 200.0, 145.0)]
  }

  /** The counters of the night out: creditors 1 then 3 (smaller credit first), debtor 2. */
  lemma NightOutCounters()
    ensures CreditorKeys(NightOutTotals()) == [1, 3] && CreditorAmounts(NightOutTotals()) == [17.5, 55.0]
    ensures DebtorKeys(NightOutTotals()) == [2] && DebtorAmounts(NightOutTotals()) == [72.5]
    ensures Balance(NightOutTotals()) == 0.0
  {
    var ts := NightOutTotals();
    assert ts[1..][1..][1..] == [];
    assert Creditors(ts) == [ts[0], ts[2]];
    assert Debtors(ts) == [ts[1]];
    assert CreditorOrder(ts) == [ts[0], ts[2]];
  }

  lemma NightOutStored()
    ensures StoredTotals(NightOutTotals(), 3)
  {
  }

  /** Transfers from debtor 2 that pay creditors 1 and 3 in full, in order, can only be these two. */
  lemma NightOutTransfers(transfers: seq<Transfer>)
    requires WellFormed([1, 3], [2], transfers)
    requires Received(transfers, 1) == 17.5 && Received(transfers, 3) == 55.0
    ensures transfers == [Transfer(2, 1, 17.5), Transfer(2, 3, 55.0)]
  {
    var cs: seq<PartnerId> := [1, 3];
    if transfers != [] {
      OneDebtorIndexes(cs, 2, transfers, |transfers| - 1);
    }
    assert |transfers| != 0;
    assert |transfers| != 1;
    assert Before(cs, [2], transfers[0], transfers[1]);
    assert transfers[0].to == 1 && transfers[1].to == 3;
    assert transfers[..1][..0] == [] && transfers[..1] == [transfers[0]];
    assert Received(transfers[..1], 1) == transfers[0].amount && Received(transfers[..1], 3) == 0.0;
    assert Received(transfers, 1) == Received(transfers[..1], 1);
    assert Received(transfers, 3) == transfers[1].amount;
  }

  /** With a single debtor, the `t`-th transfer goes to the `t`-th creditor or a later one. */
  lemma {:induction false} OneDebtorIndexes(cs: seq<PartnerId>, d: PartnerId, ts: seq<Transfer>, t: nat)
    requires WellFormed(cs, [d], ts) && t < |ts|
    ensures IndexOf(cs, ts[t].to) >= t
    decreases t
  {
    if t > 0 {
      OneDebtorIndexes(cs, d, ts, t - 1);
      assert Before(cs, [d], ts[t - 1], ts[t]);
    }
  }

  /** What generating the proposals promises on the night-out totals pins the transfers down. */
  lemma NightOutSettled(ts: seq<Total>, transfers: seq<Transfer>)
    requires ts == NightOutTotals()
    requires Proposes(ts, transfers)
    ensures transfers == [Transfer(2, 1, 17.5), Transfer(2, 3, 55.0)]
    ensures ProposalsOf(transfers) == [Proposal(2, 1, 17.5), Proposal(2, 3, 55.0)]
  {
    NightOutCounters();
    assert !IsDebtor(ts[0]) && !IsDebtor(ts[2]);
    assert PartnerTotalSplit.Amount(ts[0]) + Given(transfers, 1) - Received(transfers, 1) == 0.0;
    assert PartnerTotalSplit.Amount(ts[2]) + Given(transfers, 3) - Received(transfers, 3) == 0.0;
    NightOutTransfers(transfers);
  }

  /**
   * The night out of the flow test: generating the proposals on its totals proposes that
   * partner 2 gives 17.5 to partner 1 and then 55 to partner 3, which settles everyone.
   */
  method NightOut() returns (proposed: seq<Proposal>)
    ensures proposed == [Proposal(2, 1, 17.5), Proposal(2, 3, 55.0)]
  {
    var account := new Account();
    account.totals, account.nextTotalId := NightOutTotals(), 3;
    NightOutStored();
    var before := account.proposals;
    var transfers := account.GeneratePaymentProposals();
    NightOutSettled(account.totals, transfers);
    proposed := account.proposals;
    assert before == [];
  }
}
