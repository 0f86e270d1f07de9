/**
 * An expense line of a split account (model `account.line`): who paid what,
 * how the amount to share is weighted among partners, and the per-partner
 * totals the line stores.
 */
module SplitAccountLine {
  import opened Wrappers
  import opened Sums
  import opened PartnerSplitWeight
  import PartnerPaySplit
  import opened PartnerTotalSplit
  import opened TotalCommands

  datatype Line = Line(
    weights: seq<Weight>,
    pays: seq<PartnerPaySplit.PaySplit>,
    toPay: real,
    isPayment: bool,
    totals: seq<Total>)

  /** The `{"credit_amount": …, "debit_amount": …}` entry of one partner. */
  datatype CreditDebit = CreditDebit(credit: real, debit: real)

  /** `_compute_paid_amount`: the sum of the paying records' amounts, 0 without any. */
  function PaidAmount(line: Line): (r: real)
    ensures r == MapSum(PartnerPaySplit.PaidByPartner(line.pays))
  {
    PartnerPaySplit.PaidByPartnerConserves(line.pays);
    if line.pays == [] then 0.0 else Sum(PartnerPaySplit.PaidAmounts(line.pays))
  }

  /** `_compute_amount`. */
  function Amount(line: Line): (r: real)
    ensures r + line.toPay == PaidAmount(line)
  {
    PaidAmount(line) - line.toPay
  }

  /** `_get_amount_to_share`: what is owed if set, else what was paid, else 0. */
  function AmountToShare(line: Line): (r: real)
    ensures line.toPay != 0.0 ==> r == line.toPay
    ensures line.toPay == 0.0 ==> r == PaidAmount(line)
  {
    if line.toPay != 0.0 then line.toPay
    else if PaidAmount(line) != 0.0 then PaidAmount(line)
    else 0.0
  }

  function Get(m: map<PartnerId, real>, p: PartnerId): real
  {
    if p in m then m[p] else 0.0
  }

  /** What each partner owes on the line: its weighted share of the amount to share. */
  function Debits(line: Line): map<PartnerId, real>
    requires Splittable(line.weights)
  {
    SplitParts(line.weights, AmountToShare(line))
  }

  /** What each partner paid on the line. */
  function Credits(line: Line): map<PartnerId, real>
  {
    PartnerPaySplit.PaidByPartner(line.pays)
  }

  /** The per-partner breakdown: every weighted or paying partner, a missing side being 0. */
  function Breakdown(line: Line): map<PartnerId, CreditDebit>
    requires Splittable(line.weights)
  {
    map p | p in Debits(line).Keys + Credits(line).Keys :: CreditDebit(Get(Credits(line), p), Get(Debits(line), p))
  }

  /** `_get_amount_by_partner`: builds the breakdown one partner of the union at a time. */
  method AmountByPartner(line: Line) returns (byPartner: map<PartnerId, CreditDebit>)
    requires Splittable(line.weights)
    ensures byPartner == Breakdown(line)
  {
    var toShare := AmountToShare(line);
    var toPayByPartner := ComputeSplitParts(line.weights, toShare);
    var paidByPartner := PartnerPaySplit.AmountByPartner(line.pays);
    var partners := toPayByPartner.Keys + paidByPartner.Keys;
    byPartner := map[];
    var todo := partners;
    while todo != {}
      invariant todo <= partners
      invariant byPartner.Keys == partners - todo
      invariant forall p :: p in byPartner ==> byPartner[p] == CreditDebit(Get(paidByPartner, p), Get(toPayByPartner, p))
      decreases todo
    {
      var partner :| partner in todo;
      var debit := if partner in toPayByPartner then toPayByPartner[partner] else 0.0;
      var credit := if partner in paidByPartner then paidByPartner[partner] else 0.0;
      byPartner := byPartner[partner := CreditDebit(credit, debit)];
      todo := todo - {partner};
    }
  }

  function CreditColumn(b: map<PartnerId, CreditDebit>): map<PartnerId, real>
  {
    map p | p in b :: b[p].credit
  }

  function DebitColumn(b: map<PartnerId, CreditDebit>): map<PartnerId, real>
  {
    map p | p in b :: b[p].debit
  }

  /** The breakdown names exactly the weighted partners and the paying partners. */
  lemma BreakdownKeys(line: Line)
    requires Splittable(line.weights)
    ensures Breakdown(line).Keys == KeySet(PartnerColumn(line.weights)) + KeySet(PartnerPaySplit.Payers(line.pays))
  {
    if line.weights == [] {
      assert KeySet(PartnerColumn(line.weights)) == {};
    } else {
      assert Debits(line).Keys == KeySet(PartnerColumn(line.weights));
    }
  }

  /** The credits of the breakdown add up to what was paid on the line. */
  lemma BreakdownCredits(line: Line)
    requires Splittable(line.weights)
    ensures MapSum(CreditColumn(Breakdown(line))) == PaidAmount(line)
  {
    MapSumZeroExtension(Credits(line), CreditColumn(Breakdown(line)));
  }

  /** With no negative weight, the debits of the breakdown add up to the amount to share. */
  lemma BreakdownDebits(line: Line)
    requires line.weights != [] && AbsWeightTotal(line.weights) > 0
    requires NonNegative(line.weights)
    ensures MapSum(DebitColumn(Breakdown(line))) == AmountToShare(line)
  {
    MapSumZeroExtension(Debits(line), DebitColumn(Breakdown(line)));
    SplitConservesAmount(line.weights, AmountToShare(line));
  }

  /**
   * With no negative weight and a non-zero amount owed, the line's totals net to its
   * amount; a line with nothing owed shares what was paid, so its totals net to 0.
   */
  lemma BreakdownNet(line: Line)
    requires line.weights != [] && AbsWeightTotal(line.weights) > 0
    requires NonNegative(line.weights)
    ensures MapSum(CreditColumn(Breakdown(line))) - MapSum(DebitColumn(Breakdown(line)))
         == if line.toPay != 0.0 then Amount(line) else 0.0
  {
    BreakdownCredits(line);
    BreakdownDebits(line);
  }

  /** The test line: 100 owed, shared 1:1:2 among partners 1, 2 and 3, of which partner 3 paid 75. */
  function PartialPaymentLine(): Line
  {
    Line([Weight(1, 1), Weight(2, 1), Weight(3, 2)], [PartnerPaySplit.PaySplit(3, 75.0)], 100.0, false, [])
  }

  /** Partners 1 and 2 owe 25 each and partner 3 is owed 25; the line's amount is -25. */
  lemma PartialPaymentBreakdown()
    ensures Breakdown(PartialPaymentLine())
         == map[1 := CreditDebit(0.0, 25.0), 2 := CreditDebit(0.0, 25.0), 3 := CreditDebit(75.0, 50.0)]
    ensures Amount(PartialPaymentLine()) == -25.0
  {
    var line := PartialPaymentLine();
    PartialPaymentDebits();
    PartialPaymentCredits();
    var b := Breakdown(line);
    assert b.Keys == {1, 2, 3};
    assert b[1] == CreditDebit(0.0, 25.0) && b[2] == CreditDebit(0.0, 25.0) && b[3] == CreditDebit(75.0, 50.0);
  }

  lemma PartialPaymentDebits()
    ensures Debits(PartialPaymentLine()) == map[1 := 25.0, 2 := 25.0, 3 := 50.0]
  {
    OneOneTwoSplit();
  }

  lemma PartialPaymentCredits()
    ensures Credits(PartialPaymentLine()) == map[3 := 75.0] && PaidAmount(PartialPaymentLine()) == 75.0
  {
    var line := PartialPaymentLine();
    var payers: seq<PartnerId> := [3];
    assert PartnerPaySplit.Payers(line.pays) == payers;
    assert PartnerPaySplit.PaidAmounts(line.pays) == [75.0];
    assert Credits(line) == map[3 := 75.0] by {
      var none: seq<PartnerId> := [];
      GroupSumSnoc<PartnerId>(none, [], 3, 75.0);
      assert none + [3] == payers && [] + [75.0] == [75.0];
    }
    assert Sum([75.0]) == Sum([75.0][..0]) + 75.0;
  }

  /** The weight commands of `onchange_split_account_id`. */
  datatype WeightCommand = ClearWeights | CreateWeight(partner: PartnerId, weight: int)

  /** Changing the line's account: drop the line's weights, then copy each of the account's defaults. */
  function AccountWeightCommands(defaults: seq<Weight>): (r: seq<WeightCommand>)
    ensures |r| == |defaults| + 1 && r[0] == ClearWeights
    ensures forall i :: 0 <= i < |defaults| ==> r[i + 1] == CreateWeight(defaults[i].partner, defaults[i].weight)
  {
    [ClearWeights] + seq(|defaults|, i requires 0 <= i < |defaults| => CreateWeight(defaults[i].partner, defaults[i].weight))
  }

  function ApplyWeightCommand(ws: seq<Weight>, c: WeightCommand): seq<Weight>
  {
    match c
    case ClearWeights => []
    case CreateWeight(p, w) => ws + [Weight(p, w)]
  }

  function ApplyWeightCommands(ws: seq<Weight>, cs: seq<WeightCommand>): seq<Weight>
    decreases |cs|
  {
    if cs == [] then ws else ApplyWeightCommands(ApplyWeightCommand(ws, cs[0]), cs[1..])
  }

  /** Whatever weights the line had, after the account changes they are the account's defaults. */
  lemma AccountWeightsCopied(ws: seq<Weight>, defaults: seq<Weight>)
    ensures ApplyWeightCommands(ws, AccountWeightCommands(defaults)) == defaults
  {
    var cs := AccountWeightCommands(defaults);
    CreatesCopy([], defaults, cs[1..]);
  }

  lemma {:induction false} CreatesCopy(ws: seq<Weight>, defaults: seq<Weight>, cs: seq<WeightCommand>)
    requires |cs| == |defaults|
    requires forall i :: 0 <= i < |defaults| ==> cs[i] == CreateWeight(defaults[i].partner, defaults[i].weight)
    ensures ApplyWeightCommands(ws, cs) == ws + defaults
    decreases |cs|
  {
    if cs == [] {
      assert ws + defaults == ws;
    } else {
      CreatesCopy(ws + [defaults[0]], defaults[1..], cs[1..]);
      assert ws + [defaults[0]] + defaults[1..] == ws + defaults;
    }
  }

  /** `Command.unlink` for each stored total whose partner is not a key, in the stored totals' order. */
  function Unlinks(stored: seq<Total>, keys: set<PartnerId>): seq<TotalCommand>
  {
    if stored == [] then []
    else (if stored[0].partner !in keys then [UnlinkTotal(stored[0].id)] else []) + Unlinks(stored[1..], keys)
  }

  /** The ids of the stored totals whose partner is not a key. */
  function RemovedIds(stored: seq<Total>, keys: set<PartnerId>): set<TotalId>
  {
    set i | 0 <= i < |stored| && stored[i].partner !in keys :: stored[i].id
  }

  /** The command for one key: update the partner's existing total, or create one. */
  function CommandFor(stored: seq<Total>, p: PartnerId, amounts: CreditDebit): TotalCommand
  {
    var existing := TotalsOf(stored, p);
    if existing == [] then CreateTotal(p, amounts.credit, amounts.debit)
    else UpdateTotal(existing[0].id, amounts.credit, amounts.debit)
  }

  function KeyCommands(stored: seq<Total>, keys: seq<PartnerId>, m: map<PartnerId, CreditDebit>): (r: seq<TotalCommand>)
    requires forall i :: 0 <= i < |keys| ==> keys[i] in m
    ensures |r| == |keys|
  {
    seq(|keys|, i requires 0 <= i < |keys| => CommandFor(stored, keys[i], m[keys[i]]))
  }

  /** Some key has several stored totals: reading the `id` of that recordset raises. */
  predicate Ambiguous(stored: seq<Total>, m: map<PartnerId, CreditDebit>)
  {
    exists p :: p in m && |TotalsOf(stored, p)| > 1
  }

  /**
   * `_get_updated_totals`: the commands that turn the stored totals into one total per
   * key of `m`. `keys` is the order in which the dict `m` is iterated.
   */
  method UpdatedTotals(stored: seq<Total>, m: map<PartnerId, CreditDebit>, keys: seq<PartnerId>)
    returns (r: Result<seq<TotalCommand>, string>)
    requires KeySet(keys) == m.Keys
    ensures m == map[] ==> r == Ok([ClearTotals])
    ensures m != map[] ==> (r.Err? <==> Ambiguous(stored, m))
    ensures m != map[] && r.Ok? ==> r.value == Unlinks(stored, m.Keys) + KeyCommands(stored, keys, m)
  {
    if m == map[] {
      return Ok([ClearTotals]);
    }
    var unlinks := UnlinkCommands(stored, m.Keys);
    KeysInMap(keys, m);
    var keyed := KeyCommandsOf(stored, m, keys);
    if keyed.Err? {
      var k :| 0 <= k < |keys| && |TotalsOf(stored, keys[k])| > 1;
      assert keys[k] in m;
      return Err(keyed.error);
    }
    assert !Ambiguous(stored, m) by {
      forall p | p in m ensures |TotalsOf(stored, p)| <= 1 {
        var k :| 0 <= k < |keys| && keys[k] == p;
      }
    }
    return Ok(unlinks + keyed.value);
  }

  /** The first loop of `_get_updated_totals`: unlink every stored total whose partner is not a key. */
  method UnlinkCommands(stored: seq<Total>, keys: set<PartnerId>) returns (commands: seq<TotalCommand>)
    ensures commands == Unlinks(stored, keys)
  {
    commands := [];
    for i := 0 to |stored|
      invariant commands + Unlinks(stored[i..], keys) == Unlinks(stored, keys)
    {
      assert stored[i..][1..] == stored[i + 1..];
      if stored[i].partner !in keys {
        commands := commands + [UnlinkTotal(stored[i].id)];
      }
    }
    assert stored[|stored|..] == [];
  }

  /**
   * The second loop of `_get_updated_totals`: one command per key, in the keys' order;
   * a key with several stored totals raises "Expected singleton".
   */
  method KeyCommandsOf(stored: seq<Total>, m: map<PartnerId, CreditDebit>, keys: seq<PartnerId>)
    returns (r: Result<seq<TotalCommand>, string>)
    requires forall i :: 0 <= i < |keys| ==> keys[i] in m
    ensures r.Ok? <==> forall k :: 0 <= k < |keys| ==> |TotalsOf(stored, keys[k])| <= 1
    ensures r.Ok? ==> r.value == KeyCommands(stored, keys, m)
    ensures r.Err? ==> r.error == "Expected singleton"
  {
    var commands := [];
    for j := 0 to |keys|
      invariant commands == KeyCommands(stored, keys[..j], m)
      invariant forall k :: 0 <= k < j ==> |TotalsOf(stored, keys[k])| <= 1
    {
      var partner := keys[j];
      var amounts := m[partner];
      var existing := TotalsOf(stored, partner);
      if |existing| > 1 {
        return Err("Expected singleton");
      }
      var command;
      if existing == [] {
        command := CreateTotal(partner, amounts.credit, amounts.debit);
      } else {
        command := UpdateTotal(existing[0].id, amounts.credit, amounts.debit);
      }
      KeyCommandsPrefix(stored, keys, m, j);
      commands := commands + [command];
    }
    assert keys[..|keys|] == keys;
    return Ok(commands);
  }

  /**
   * Writing the reconciliation commands leaves exactly one total per key, holding that
   * key's amounts, and no total for any other partner; an existing total is updated in
   * place and keeps its id.
   */
  lemma ReconciledTotals(stored: seq<Total>, m: map<PartnerId, CreditDebit>, keys: seq<PartnerId>, nextId: TotalId)
    requires DistinctIds(stored) && IdsBelow(stored, nextId)
    requires KeySet(keys) == m.Keys && Distinct(keys)
    requires m != map[] && !Ambiguous(stored, m)
    ensures forall i :: 0 <= i < |keys| ==> keys[i] in m
    ensures
      var result := Apply(stored, Unlinks(stored, m.Keys) + KeyCommands(stored, keys, m), nextId);
      && Reconciled(result, stored, m)
      && IdsBelow(result, NextIdAfter(Unlinks(stored, m.Keys) + KeyCommands(stored, keys, m), nextId))
  {
    KeysInMap(keys, m);
    var kept := WithoutIds(stored, RemovedIds(stored, m.Keys));
    var keyed := KeyCommands(stored, keys, m);
    assert Apply(stored, Unlinks(stored, m.Keys) + keyed, nextId) == Apply(kept, keyed, nextId)
        && NextIdAfter(Unlinks(stored, m.Keys) + keyed, nextId) == NextIdAfter(keyed, nextId) by {
      ApplyAppend(stored, Unlinks(stored, m.Keys), keyed, nextId);
      ApplyUnlinks(stored, stored, m.Keys, nextId);
    }
    UnlinkedSettled(stored, m, nextId);
    KeysPhase(stored, kept, m, keys, nextId);
    SettledReconciled(Apply(kept, keyed, nextId), stored, kept, m, keys, NextIdAfter(keyed, nextId));
  }

  /** The keys of a dict's iteration order are its keys. */
  lemma KeysInMap<V>(keys: seq<PartnerId>, m: map<PartnerId, V>)
    requires KeySet(keys) == m.Keys
    ensures forall i :: 0 <= i < |keys| ==> keys[i] in m
  {
    forall i | 0 <= i < |keys| ensures keys[i] in m {
      assert keys[i] in KeySet(keys);
    }
  }

  /** After the unlinks, no key is settled yet, the keys keep their stored totals and no other partner has any. */
  lemma UnlinkedSettled(stored: seq<Total>, m: map<PartnerId, CreditDebit>, nextId: TotalId)
    requires DistinctIds(stored) && IdsBelow(stored, nextId)
    ensures var kept := WithoutIds(stored, RemovedIds(stored, m.Keys));
      && Settled(kept, stored, kept, m, [], nextId)
      && (forall p :: p in m ==> TotalsOf(kept, p) == TotalsOf(stored, p))
      && (forall p :: p !in m ==> TotalsOf(kept, p) == [])
  {
    WithoutIdsKeepsDistinct(stored, RemovedIds(stored, m.Keys), nextId);
    AfterUnlinks(stored, m.Keys);
  }

  /** The per-key commands, from the state after the unlinks, settle every key. */
  lemma KeysPhase(stored: seq<Total>, kept: seq<Total>, m: map<PartnerId, CreditDebit>, keys: seq<PartnerId>, nextId: TotalId)
    requires Distinct(keys) && (forall i :: 0 <= i < |keys| ==> keys[i] in m) && !Ambiguous(stored, m)
    requires forall p :: p in m ==> TotalsOf(kept, p) == TotalsOf(stored, p)
    requires Settled(kept, stored, kept, m, [], nextId)
    ensures Settled(Apply(kept, KeyCommands(stored, keys, m), nextId), stored, kept, m, keys,
                    NextIdAfter(KeyCommands(stored, keys, m), nextId))
  {
    KeyPhase(stored, kept, m, keys, kept, [], nextId);
    assert [] + keys == keys;
  }

  /** Once every key is settled and no other partner has a total left, the totals are reconciled. */
  lemma SettledReconciled(result: seq<Total>, stored: seq<Total>, kept: seq<Total>, m: map<PartnerId, CreditDebit>,
                          keys: seq<PartnerId>, id: TotalId)
    requires KeySet(keys) == m.Keys
    requires Settled(result, stored, kept, m, keys, id)
    requires forall p :: p !in m ==> TotalsOf(kept, p) == []
    ensures Reconciled(result, stored, m) && IdsBelow(result, id)
  {
    forall p | p in m ensures SettledFor(result, stored, m, p) {
      var k :| 0 <= k < |keys| && keys[k] == p;
      assert p in keys;
    }
    forall p | p !in m ensures TotalsOf(result, p) == [] {
      assert p !in KeySet(keys);
    }
  }

  /** The commands of `_get_updated_totals` when no key is ambiguous. */
  function TotalsCommands(stored: seq<Total>, m: map<PartnerId, CreditDebit>, keys: seq<PartnerId>): seq<TotalCommand>
    requires forall i :: 0 <= i < |keys| ==> keys[i] in m
  {
    if m == map[] then [ClearTotals] else Unlinks(stored, m.Keys) + KeyCommands(stored, keys, m)
  }

  /** `result` holds one total per key of `m`, with that key's amounts, and nothing else. */
  ghost predicate Reconciled(result: seq<Total>, stored: seq<Total>, m: map<PartnerId, CreditDebit>)
  {
    && DistinctIds(result)
    && (forall p :: p !in m ==> TotalsOf(result, p) == [])
    && (forall p :: p in m ==> SettledFor(result, stored, m, p))
  }

  /**
   * Stored totals with one total per partner are never ambiguous, and writing the
   * commands computed for them leaves again one total per partner, reconciled with `m`.
   */
  lemma WrittenTotals(stored: seq<Total>, m: map<PartnerId, CreditDebit>, keys: seq<PartnerId>, nextId: TotalId)
    requires DistinctIds(stored) && IdsBelow(stored, nextId) && DistinctPartners(stored)
    requires KeySet(keys) == m.Keys && Distinct(keys)
    ensures !Ambiguous(stored, m)
    ensures forall i :: 0 <= i < |keys| ==> keys[i] in m
    ensures var result := Apply(stored, TotalsCommands(stored, m, keys), nextId);
      && Reconciled(result, stored, m) && DistinctPartners(result)
      && IdsBelow(result, NextIdAfter(TotalsCommands(stored, m, keys), nextId))
      && NextIdAfter(TotalsCommands(stored, m, keys), nextId) >= nextId
  {
    forall p | p in m ensures |TotalsOf(stored, p)| <= 1 {
      DistinctPartnersSingle(stored, p);
    }
    KeysInMap(keys, m);
    var commands := TotalsCommands(stored, m, keys);
    var result := Apply(stored, commands, nextId);
    NextIdGrows(commands, nextId);
    if m == map[] {
      assert commands == [ClearTotals] && commands[1..] == [];
      assert result == Apply([], [], nextId) == [];
    } else {
      ReconciledTotals(stored, m, keys, nextId);
    }
    forall p ensures |TotalsOf(result, p)| <= 1 {
      if p in m {
        assert SettledFor(result, stored, m, p);
      }
    }
    SingleDistinctPartners(result);
  }

  /** Writing the unlink commands drops exactly the totals with the removed ids. */
  lemma {:induction false} ApplyUnlinks(ts: seq<Total>, rest: seq<Total>, keys: set<PartnerId>, nextId: TotalId)
    ensures Apply(ts, Unlinks(rest, keys), nextId) == WithoutIds(ts, RemovedIds(rest, keys))
    ensures NextIdAfter(Unlinks(rest, keys), nextId) == nextId
    decreases |rest|
  {
    if rest == [] {
      assert RemovedIds(rest, keys) == {};
      WithoutAbsentIds(ts, {});
    } else {
      var head := if rest[0].partner !in keys then [UnlinkTotal(rest[0].id)] else [];
      ApplyAppend(ts, head, Unlinks(rest[1..], keys), nextId);
      var afterHead := if rest[0].partner !in keys then WithoutIds(ts, {rest[0].id}) else ts;
      assert Apply(ts, head, nextId) == afterHead && NextIdAfter(head, nextId) == nextId by {
        if head != [] { assert head[1..] == []; }
      }
      ApplyUnlinks(afterHead, rest[1..], keys, nextId);
      RemovedIdsCons(rest, keys);
      assert Unlinks(rest, keys) == head + Unlinks(rest[1..], keys);
      if rest[0].partner !in keys {
        WithoutIdsUnion(ts, rest[0].id, RemovedIds(rest[1..], keys));
        assert Unlinks(rest, keys)[1..] == Unlinks(rest[1..], keys);
      } else {
        assert RemovedIds(rest, keys) == RemovedIds(rest[1..], keys);
        assert Unlinks(rest, keys) == Unlinks(rest[1..], keys);
      }
    }
  }

  lemma RemovedIdsCons(rest: seq<Total>, keys: set<PartnerId>)
    requires rest != []
    ensures RemovedIds(rest, keys)
         == RemovedIds(rest[1..], keys) + (if rest[0].partner !in keys then {rest[0].id} else {})
  {
    var tail := rest[1..];
    forall x | x in RemovedIds(rest, keys)
      ensures x in RemovedIds(tail, keys) + (if rest[0].partner !in keys then {rest[0].id} else {})
    {
      var i :| 0 <= i < |rest| && rest[i].partner !in keys && rest[i].id == x;
      if i > 0 {
        assert tail[i - 1] == rest[i];
      }
    }
    forall x | x in RemovedIds(tail, keys) ensures x in RemovedIds(rest, keys) {
      var i :| 0 <= i < |tail| && tail[i].partner !in keys && tail[i].id == x;
      assert rest[i + 1] == tail[i];
    }
  }

  /** After the unlinks, a key keeps its stored totals and any other partner has none. */
  lemma AfterUnlinks(stored: seq<Total>, keys: set<PartnerId>)
    requires DistinctIds(stored)
    ensures forall p :: TotalsOf(WithoutIds(stored, RemovedIds(stored, keys)), p)
                     == if p in keys then TotalsOf(stored, p) else []
  {
    var removed := RemovedIds(stored, keys);
    forall p
      ensures TotalsOf(WithoutIds(stored, removed), p) == if p in keys then TotalsOf(stored, p) else []
    {
      TotalsOfWithoutIds(stored, removed, p);
      var own := TotalsOf(stored, p);
      if p in keys {
        forall k | 0 <= k < |own| ensures own[k].id !in removed {
          var j :| 0 <= j < |stored| && stored[j] == own[k];
        }
        WithoutAbsentIds(own, removed);
      } else {
        forall k | 0 <= k < |own| ensures own[k].id in removed {
          var j :| 0 <= j < |stored| && stored[j] == own[k];
        }
        WithoutAllIds(own, removed);
      }
    }
  }

  /** Partner `p`, a key, has exactly one total, with its amounts and, if it had one, its old id. */
  predicate SettledFor(state: seq<Total>, stored: seq<Total>, m: map<PartnerId, CreditDebit>, p: PartnerId)
    requires p in m
  {
    && |TotalsOf(state, p)| == 1
    && TotalsOf(state, p)[0].credit == m[p].credit
    && TotalsOf(state, p)[0].debit == m[p].debit
    && (TotalsOf(stored, p) != [] ==> TotalsOf(state, p)[0].id == TotalsOf(stored, p)[0].id)
  }

  /** The keys in `done` are settled; every other partner still has the totals it was left with. */
  ghost predicate Settled(state: seq<Total>, stored: seq<Total>, kept: seq<Total>, m: map<PartnerId, CreditDebit>,
                    done: seq<PartnerId>, nextId: TotalId)
  {
    && DistinctIds(state) && IdsBelow(state, nextId)
    && (forall p :: p !in done ==> TotalsOf(state, p) == TotalsOf(kept, p))
    && (forall p :: p in done ==> p in m && SettledFor(state, stored, m, p))
  }

  /**
   * The per-key commands, written one after the other, settle one key at a time: from a
   * state where the keys in `done` are settled, the commands of the remaining keys settle
   * those too.
   */
  lemma {:induction false} KeyPhase(stored: seq<Total>, kept: seq<Total>, m: map<PartnerId, CreditDebit>,
                                    rest: seq<PartnerId>, state: seq<Total>, done: seq<PartnerId>, id: TotalId)
    requires Distinct(rest)
    requires forall i :: 0 <= i < |rest| ==> rest[i] in m && rest[i] !in done
    requires !Ambiguous(stored, m)
    requires forall p :: p in m ==> TotalsOf(kept, p) == TotalsOf(stored, p)
    requires Settled(state, stored, kept, m, done, id)
    ensures Settled(Apply(state, KeyCommands(stored, rest, m), id), stored, kept, m, done + rest,
                    NextIdAfter(KeyCommands(stored, rest, m), id))
    decreases |rest|
  {
    if rest == [] {
      assert KeyCommands(stored, rest, m) == [] && done + rest == done;
    } else {
      var after, idAfter := KeyPhaseHead(stored, kept, m, rest, state, done, id);
      RestAfterHead(m, rest, done);
      KeyPhase(stored, kept, m, rest[1..], after, done + [rest[0]], idAfter);
      AppendFirst(done, rest);
    }
  }

  /** The command of the first remaining key settles it. */
  lemma KeyPhaseHead(stored: seq<Total>, kept: seq<Total>, m: map<PartnerId, CreditDebit>,
                     rest: seq<PartnerId>, state: seq<Total>, done: seq<PartnerId>, id: TotalId)
    returns (after: seq<Total>, idAfter: TotalId)
    requires rest != [] && forall i :: 0 <= i < |rest| ==> rest[i] in m
    requires rest[0] !in done && !Ambiguous(stored, m)
    requires TotalsOf(kept, rest[0]) == TotalsOf(stored, rest[0])
    requires Settled(state, stored, kept, m, done, id)
    ensures Settled(after, stored, kept, m, done + [rest[0]], idAfter)
    ensures Apply(state, KeyCommands(stored, rest, m), id) == Apply(after, KeyCommands(stored, rest[1..], m), idAfter)
    ensures NextIdAfter(KeyCommands(stored, rest, m), id) == NextIdAfter(KeyCommands(stored, rest[1..], m), idAfter)
  {
    var k := rest[0];
    var command := CommandFor(stored, k, m[k]);
    after := ApplyCommand(state, command, id);
    idAfter := NextId(command, id);
    KeyCommandsHead(stored, rest, m, state, id);
    assert |TotalsOf(stored, k)| <= 1;
    KeyStep(stored, kept, m, done, k, state, id, after, done + [k], idAfter);
  }

  /** Writing the commands of several keys writes the first key's command, then the others'. */
  lemma KeyCommandsHead(stored: seq<Total>, rest: seq<PartnerId>, m: map<PartnerId, CreditDebit>, state: seq<Total>, id: TotalId)
    requires rest != [] && forall i :: 0 <= i < |rest| ==> rest[i] in m
    ensures var command := CommandFor(stored, rest[0], m[rest[0]]);
      && Apply(state, KeyCommands(stored, rest, m), id)
         == Apply(ApplyCommand(state, command, id), KeyCommands(stored, rest[1..], m), NextId(command, id))
      && NextIdAfter(KeyCommands(stored, rest, m), id) == NextIdAfter(KeyCommands(stored, rest[1..], m), NextId(command, id))
  {
    var commands := KeyCommands(stored, rest, m);
    assert commands[0] == CommandFor(stored, rest[0], m[rest[0]]);
    assert commands[1..] == KeyCommands(stored, rest[1..], m);
  }

  lemma RestAfterHead(m: map<PartnerId, CreditDebit>, rest: seq<PartnerId>, done: seq<PartnerId>)
    requires rest != [] && Distinct(rest)
    requires forall i :: 0 <= i < |rest| ==> rest[i] in m && rest[i] !in done
    ensures Distinct(rest[1..])
    ensures forall i :: 0 <= i < |rest[1..]| ==> rest[1..][i] in m && rest[1..][i] !in done + [rest[0]]
  {
    forall i | 0 <= i < |rest[1..]|
      ensures rest[1..][i] in m && rest[1..][i] !in done + [rest[0]]
    {
      assert rest[1..][i] == rest[i + 1] != rest[0];
    }
  }

  lemma AppendFirst(done: seq<PartnerId>, rest: seq<PartnerId>)
    requires rest != []
    ensures done + [rest[0]] + rest[1..] == done + rest
  {
    assert rest == [rest[0]] + rest[1..];
  }

  lemma KeyCommandsPrefix(stored: seq<Total>, keys: seq<PartnerId>, m: map<PartnerId, CreditDebit>, j: nat)
    requires j < |keys|
    requires forall i :: 0 <= i < |keys| ==> keys[i] in m
    ensures KeyCommands(stored, keys[..j + 1], m) == KeyCommands(stored, keys[..j], m) + [CommandFor(stored, keys[j], m[keys[j]])]
  {
  }

  /** Writing the command of one more key settles it and leaves every other partner as it was. */
  lemma KeyStep(stored: seq<Total>, kept: seq<Total>, m: map<PartnerId, CreditDebit>,
                done: seq<PartnerId>, k: PartnerId, state: seq<Total>, id: TotalId,
                after: seq<Total>, doneAfter: seq<PartnerId>, idAfter: TotalId)
    requires Settled(state, stored, kept, m, done, id)
    requires k in m && k !in done && |TotalsOf(stored, k)| <= 1
    requires TotalsOf(kept, k) == TotalsOf(stored, k)
    requires after == ApplyCommand(state, CommandFor(stored, k, m[k]), id)
    requires doneAfter == done + [k] && idAfter == NextId(CommandFor(stored, k, m[k]), id)
    ensures Settled(after, stored, kept, m, doneAfter, idAfter)
  {
    if TotalsOf(stored, k) == [] {
      CreateStep(state, k, m[k].credit, m[k].debit, id);
    } else {
      var t := TotalsOf(stored, k)[0];
      assert TotalsOf(state, k) == [t];
      UpdateStep(state, k, t, m[k].credit, m[k].debit);
    }
    OthersUnchanged(stored, kept, m, done, k, state, id, after, idAfter);
  }

  /** A key that has just been settled, while no other partner's totals changed, joins the settled keys. */
  lemma OthersUnchanged(stored: seq<Total>, kept: seq<Total>, m: map<PartnerId, CreditDebit>,
                        done: seq<PartnerId>, k: PartnerId, state: seq<Total>, id: TotalId,
                        after: seq<Total>, idAfter: TotalId)
    requires Settled(state, stored, kept, m, done, id)
    requires k in m && k !in done && SettledFor(after, stored, m, k)
    requires DistinctIds(after) && IdsBelow(after, idAfter)
    requires forall p :: p != k ==> TotalsOf(after, p) == TotalsOf(state, p)
    ensures Settled(after, stored, kept, m, done + [k], idAfter)
  {
    forall p | p in done + [k] ensures p in m && SettledFor(after, stored, m, p) {
      if p != k {
        assert p in done;
      }
    }
  }

  /** Creating a total for `k` with a created id adds it to `k`'s totals and to no one else's. */
  lemma CreateStep(state: seq<Total>, k: PartnerId, credit: real, debit: real, id: TotalId)
    requires DistinctIds(state) && IdsBelow(state, id)
    ensures var after := state + [Total(id, k, credit, debit)];
      && DistinctIds(after) && IdsBelow(after, id + 1)
      && TotalsOf(after, k) == TotalsOf(state, k) + [Total(id, k, credit, debit)]
      && forall p :: p != k ==> TotalsOf(after, p) == TotalsOf(state, p)
  {
    var created := Total(id, k, credit, debit);
    assert [created][1..] == [];
    forall p
      ensures TotalsOf(state + [created], p) == TotalsOf(state, p) + (if p == k then [created] else [])
    {
      TotalsOfAppend(state, [created], p);
      assert TotalsOf([created], p) == (if p == k then [created] else []) + TotalsOf([], p);
    }
  }

  /** Updating the one total `t` of `k` changes its amounts and no other partner's totals. */
  lemma UpdateStep(state: seq<Total>, k: PartnerId, t: Total, credit: real, debit: real)
    requires DistinctIds(state) && TotalsOf(state, k) == [t]
    ensures var after := Updated(state, t.id, credit, debit);
      && DistinctIds(after)
      && (forall n :: IdsBelow(state, n) ==> IdsBelow(after, n))
      && TotalsOf(after, k) == [t.(credit := credit, debit := debit)]
      && forall p :: p != k ==> TotalsOf(after, p) == TotalsOf(state, p)
  {
    var after := Updated(state, t.id, credit, debit);
    TotalsOfUpdated(state, t.id, credit, debit, k);
    assert t in state && t.partner == k by {
      assert TotalsOf(state, k)[0] == t;
    }
    var i :| 0 <= i < |state| && state[i] == t;
    forall p | p != k ensures TotalsOf(after, p) == TotalsOf(state, p) {
      TotalsOfUpdated(state, t.id, credit, debit, p);
      var own := TotalsOf(state, p);
      forall q | 0 <= q < |own| ensures own[q].id != t.id {
        var j :| 0 <= j < |state| && state[j] == own[q];
      }
      UpdatedAbsent(own, t.id, credit, debit);
    }
  }
}
