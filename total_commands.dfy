/**
 * The write commands the ledger issues on a one2many of partner totals
 * (`Command.create`, `Command.update`, `Command.unlink`, `Command.clear`) and
 * what writing them does to the stored sequence of totals.
 */
module TotalCommands {
  import opened PartnerSplitWeight
  import opened PartnerTotalSplit

  datatype TotalCommand =
    | CreateTotal(partner: PartnerId, credit: real, debit: real)
    | UpdateTotal(id: TotalId, credit: real, debit: real)
    | UnlinkTotal(id: TotalId)
    | ClearTotals

  /** The totals of partner `p`, in order (`filtered(lambda t: t.partner_id == p)`). */
  function TotalsOf(ts: seq<Total>, p: PartnerId): (r: seq<Total>)
    ensures forall i :: 0 <= i < |r| ==> r[i].partner == p && r[i] in ts
  {
    if ts == [] then []
    else (if ts[0].partner == p then [ts[0]] else []) + TotalsOf(ts[1..], p)
  }

  /** The totals whose id is not in `ids`. */
  function WithoutIds(ts: seq<Total>, ids: set<TotalId>): (r: seq<Total>)
    ensures forall i :: 0 <= i < |r| ==> r[i].id !in ids && r[i] in ts
  {
    if ts == [] then []
    else (if ts[0].id in ids then [] else [ts[0]]) + WithoutIds(ts[1..], ids)
  }

  /** The totals with the amounts of the one whose id is `x` replaced. */
  function Updated(ts: seq<Total>, x: TotalId, credit: real, debit: real): (r: seq<Total>)
    ensures |r| == |ts|
    ensures forall i :: 0 <= i < |ts| ==> r[i] == if ts[i].id == x then ts[i].(credit := credit, debit := debit) else ts[i]
  {
    seq(|ts|, i requires 0 <= i < |ts| => if ts[i].id == x then ts[i].(credit := credit, debit := debit) else ts[i])
  }

  /** Writing one command; a created total takes the next free id. */
  function ApplyCommand(ts: seq<Total>, c: TotalCommand, nextId: TotalId): seq<Total>
  {
    match c
    case CreateTotal(p, credit, debit) => ts + [Total(nextId, p, credit, debit)]
    case UpdateTotal(x, credit, debit) => Updated(ts, x, credit, debit)
    case UnlinkTotal(x) => WithoutIds(ts, {x})
    case ClearTotals => []
  }

  function NextId(c: TotalCommand, nextId: TotalId): TotalId
  {
    if c.CreateTotal? then nextId + 1 else nextId
  }

  /** Writing a command list in order. */
  function Apply(ts: seq<Total>, cs: seq<TotalCommand>, nextId: TotalId): seq<Total>
    decreases |cs|
  {
    if cs == [] then ts else Apply(ApplyCommand(ts, cs[0], nextId), cs[1..], NextId(cs[0], nextId))
  }

  function NextIdAfter(cs: seq<TotalCommand>, nextId: TotalId): TotalId
    decreases |cs|
  {
    if cs == [] then nextId else NextIdAfter(cs[1..], NextId(cs[0], nextId))
  }

  predicate DistinctIds(ts: seq<Total>)
  {
    forall i, j :: 0 <= i < j < |ts| ==> ts[i].id != ts[j].id
  }

  predicate IdsBelow(ts: seq<Total>, n: TotalId)
  {
    forall i :: 0 <= i < |ts| ==> ts[i].id < n
  }

  /** At most one total per partner. */
  predicate DistinctPartners(ts: seq<Total>)
  {
    forall i, j :: 0 <= i < j < |ts| ==> ts[i].partner != ts[j].partner
  }

  /** Ids are only ever handed out upwards. */
  lemma {:induction false} NextIdGrows(cs: seq<TotalCommand>, nextId: TotalId)
    ensures NextIdAfter(cs, nextId) >= nextId
    decreases |cs|
  {
    if cs != [] {
      NextIdGrows(cs[1..], NextId(cs[0], nextId));
    }
  }

  /** Writing one more command after a list. */
  lemma {:induction false} ApplySnoc(ts: seq<Total>, cs: seq<TotalCommand>, c: TotalCommand, nextId: TotalId)
    ensures Apply(ts, cs + [c], nextId) == ApplyCommand(Apply(ts, cs, nextId), c, NextIdAfter(cs, nextId))
    ensures NextIdAfter(cs + [c], nextId) == NextId(c, NextIdAfter(cs, nextId))
    decreases |cs|
  {
    if cs == [] {
      assert [c][1..] == [];
    } else {
      assert (cs + [c])[1..] == cs[1..] + [c];
      ApplySnoc(ApplyCommand(ts, cs[0], nextId), cs[1..], c, NextId(cs[0], nextId));
    }
  }

  /** Writing two command lists one after the other. */
  lemma {:induction false} ApplyAppend(ts: seq<Total>, a: seq<TotalCommand>, b: seq<TotalCommand>, nextId: TotalId)
    ensures Apply(ts, a + b, nextId) == Apply(Apply(ts, a, nextId), b, NextIdAfter(a, nextId))
    ensures NextIdAfter(a + b, nextId) == NextIdAfter(b, NextIdAfter(a, nextId))
    decreases |a|
  {
    if a == [] {
      assert a + b == b;
    } else {
      assert (a + b)[1..] == a[1..] + b;
      ApplyAppend(ApplyCommand(ts, a[0], nextId), a[1..], b, NextId(a[0], nextId));
    }
  }

  lemma {:induction false} TotalsOfAppend(a: seq<Total>, b: seq<Total>, p: PartnerId)
    ensures TotalsOf(a + b, p) == TotalsOf(a, p) + TotalsOf(b, p)
    decreases |a|
  {
    if a == [] {
      assert a + b == b;
    } else {
      assert (a + b)[1..] == a[1..] + b;
      TotalsOfAppend(a[1..], b, p);
    }
  }

  /** The last total joins the partner's totals when it is the partner's. */
  lemma TotalsOfLast(ts: seq<Total>, p: PartnerId)
    requires ts != []
    ensures TotalsOf(ts, p) == TotalsOf(ts[..|ts| - 1], p) + (if ts[|ts| - 1].partner == p then [ts[|ts| - 1]] else [])
  {
    var n := |ts| - 1;
    assert ts == ts[..n] + [ts[n]];
    TotalsOfAppend(ts[..n], [ts[n]], p);
    assert [ts[n]][1..] == [];
  }

  lemma {:induction false} TotalsOfWithoutIds(ts: seq<Total>, ids: set<TotalId>, p: PartnerId)
    ensures TotalsOf(WithoutIds(ts, ids), p) == WithoutIds(TotalsOf(ts, p), ids)
    decreases |ts|
  {
    if ts != [] {
      TotalsOfWithoutIds(ts[1..], ids, p);
      var head := if ts[0].id in ids then [] else [ts[0]];
      TotalsOfAppend(head, WithoutIds(ts[1..], ids), p);
      var own := if ts[0].partner == p then [ts[0]] else [];
      WithoutIdsAppend(own, TotalsOf(ts[1..], p), ids);
      assert TotalsOf(head, p) == WithoutIds(own, ids) by {
        if head != [] { assert head[1..] == []; }
        if own != [] { assert own[1..] == []; }
      }
    }
  }

  lemma {:induction false} WithoutIdsAppend(a: seq<Total>, b: seq<Total>, ids: set<TotalId>)
    ensures WithoutIds(a + b, ids) == WithoutIds(a, ids) + WithoutIds(b, ids)
    decreases |a|
  {
    if a == [] {
      assert a + b == b;
    } else {
      assert (a + b)[1..] == a[1..] + b;
      WithoutIdsAppend(a[1..], b, ids);
    }
  }

  lemma {:induction false} WithoutIdsUnion(ts: seq<Total>, x: TotalId, ids: set<TotalId>)
    ensures WithoutIds(WithoutIds(ts, {x}), ids) == WithoutIds(ts, ids + {x})
    decreases |ts|
  {
    if ts != [] {
      WithoutIdsUnion(ts[1..], x, ids);
      var head := if ts[0].id in {x} then [] else [ts[0]];
      WithoutIdsAppend(head, WithoutIds(ts[1..], {x}), ids);
      if head != [] { assert head[1..] == []; }
    }
  }

  /** Removing ids that no total carries changes nothing. */
  lemma {:induction false} WithoutAbsentIds(ts: seq<Total>, ids: set<TotalId>)
    requires forall i :: 0 <= i < |ts| ==> ts[i].id !in ids
    ensures WithoutIds(ts, ids) == ts
    decreases |ts|
  {
    if ts != [] {
      WithoutAbsentIds(ts[1..], ids);
      assert ts == [ts[0]] + ts[1..];
    }
  }

  /** Removing the ids of all the totals leaves none. */
  lemma {:induction false} WithoutAllIds(ts: seq<Total>, ids: set<TotalId>)
    requires forall i :: 0 <= i < |ts| ==> ts[i].id in ids
    ensures WithoutIds(ts, ids) == []
    decreases |ts|
  {
    if ts != [] {
      WithoutAllIds(ts[1..], ids);
    }
  }

  lemma {:induction false} TotalsOfUpdated(ts: seq<Total>, x: TotalId, credit: real, debit: real, p: PartnerId)
    ensures TotalsOf(Updated(ts, x, credit, debit), p) == Updated(TotalsOf(ts, p), x, credit, debit)
    decreases |ts|
  {
    if ts != [] {
      assert Updated(ts, x, credit, debit)[1..] == Updated(ts[1..], x, credit, debit);
      TotalsOfUpdated(ts[1..], x, credit, debit, p);
      var own := if ts[0].partner == p then [ts[0]] else [];
      UpdatedAppend(own, TotalsOf(ts[1..], p), x, credit, debit);
      var ownUpdated := Updated([ts[0]], x, credit, debit);
      assert Updated(ts, x, credit, debit) == ownUpdated + Updated(ts[1..], x, credit, debit);
      TotalsOfAppend(ownUpdated, Updated(ts[1..], x, credit, debit), p);
      assert ownUpdated[1..] == [];
      if own != [] { assert own[1..] == []; }
    }
  }

  lemma UpdatedAppend(a: seq<Total>, b: seq<Total>, x: TotalId, credit: real, debit: real)
    ensures Updated(a + b, x, credit, debit) == Updated(a, x, credit, debit) + Updated(b, x, credit, debit)
  {
    var l, r := Updated(a + b, x, credit, debit), Updated(a, x, credit, debit) + Updated(b, x, credit, debit);
    assert |l| == |r|;
    forall i | 0 <= i < |l| ensures l[i] == r[i] {
      if i < |a| {
        assert (a + b)[i] == a[i];
      } else {
        assert (a + b)[i] == b[i - |a|];
      }
    }
  }

  lemma {:induction false} WithoutIdsKeepsDistinct(ts: seq<Total>, ids: set<TotalId>, n: TotalId)
    requires DistinctIds(ts) && IdsBelow(ts, n)
    ensures DistinctIds(WithoutIds(ts, ids)) && IdsBelow(WithoutIds(ts, ids), n)
    decreases |ts|
  {
    if ts != [] {
      WithoutIdsKeepsDistinct(ts[1..], ids, n);
      var rest := WithoutIds(ts[1..], ids);
      forall k | 0 <= k < |rest| ensures rest[k].id != ts[0].id {
        assert rest[k] in ts[1..];
        var j :| 0 <= j < |ts[1..]| && ts[1..][j] == rest[k];
        assert ts[0].id != ts[j + 1].id;
      }
    }
  }

  /** Updating an id that no total carries changes nothing. */
  lemma UpdatedAbsent(ts: seq<Total>, x: TotalId, credit: real, debit: real)
    requires forall i :: 0 <= i < |ts| ==> ts[i].id != x
    ensures Updated(ts, x, credit, debit) == ts
  {
  }

  /** A partner none of whose totals is listed has no totals. */
  lemma {:induction false} TotalsOfAbsent(ts: seq<Total>, p: PartnerId)
    requires forall i :: 0 <= i < |ts| ==> ts[i].partner != p
    ensures TotalsOf(ts, p) == []
    decreases |ts|
  {
    if ts != [] {
      TotalsOfAbsent(ts[1..], p);
    }
  }

  /** A partner with a listed total has at least one. */
  lemma {:induction false} TotalsOfPresent(ts: seq<Total>, i: nat)
    requires i < |ts|
    ensures TotalsOf(ts, ts[i].partner) != []
    decreases i
  {
    if i > 0 {
      TotalsOfPresent(ts[1..], i - 1);
    }
  }

  /** Distinct partners means that every partner has at most one total. */
  lemma {:induction false} DistinctPartnersSingle(ts: seq<Total>, p: PartnerId)
    requires DistinctPartners(ts)
    ensures |TotalsOf(ts, p)| <= 1
    decreases |ts|
  {
    if ts != [] {
      DistinctPartnersSingle(ts[1..], p);
      if ts[0].partner == p {
        assert forall i :: 0 <= i < |ts[1..]| ==> ts[1..][i] == ts[i + 1];
        TotalsOfAbsent(ts[1..], p);
      }
    }
  }

  /** Conversely, at most one total for every partner means distinct partners. */
  lemma {:induction false} SingleDistinctPartners(ts: seq<Total>)
    requires forall p :: |TotalsOf(ts, p)| <= 1
    ensures DistinctPartners(ts)
    decreases |ts|
  {
    if ts != [] {
      forall p ensures |TotalsOf(ts[1..], p)| <= 1 {
        assert |TotalsOf(ts, p)| <= 1;
      }
      SingleDistinctPartners(ts[1..]);
      forall j | 0 < j < |ts| ensures ts[0].partner != ts[j].partner {
        TotalsOfPresent(ts[1..], j - 1);
        assert |TotalsOf(ts, ts[j].partner)| <= 1;
      }
      forall i, j | 0 <= i < j < |ts| ensures ts[i].partner != ts[j].partner {
        if i > 0 {
          assert ts[i] == ts[1..][i - 1] && ts[j] == ts[1..][j - 1];
        }
      }
    }
  }
}
