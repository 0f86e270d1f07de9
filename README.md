# Shared expenses and tournament scoring, modelled in Dafny

This project models the core of two Odoo add-ons and their website controller.

**account_partner_split** is a ledger of shared expenses:

- A split account holds lines.
- Each line records who paid what (`partner_pay_split`) and how the amount to share is weighted among partners (`partner_split_weight`).
- From these, each line stores one credit/debit total per partner (`partner_total_split`).
- The account aggregates the line totals per partner.
- Greedy debt netting (`generate_payment_proposals`) proposes payments (`partner_payment`). Executing a payment writes an internal-payment line back on the account.

**event_tournament** scores tournament matches:

- A match mode is a table from a won–lost count of sets to tournament points.
- Matches, teams and set results are checked by constraints.
- Each set computes its tie-break flag, its winner and its result records.
- Per-team statistics (points done and taken, sets won and lost, ratios) are derived from the sets.

**website_event_tournament** adds team fields to the registration form:

- It reads the team names an attendee typed.
- It stores them on the registration values.
- After the attendees are created, it groups them by tournament and team name, and it completes or creates the teams.

How the model is built:

- Every module lives in the `.dfy` file of the same name.
- Pure computations are functions, and their properties are lemmas.
- Loops in the source are methods with loop invariants. Each method is proved equal to a specification function.
- The records whose fields the source rewrites are classes: the split account and the match.
- ORM reads (a team's components, a registration's event, the order in which a dict is iterated) are parameters of the functions that use them.
- Python exceptions are `Result`/`Outcome` values.
- The one2many write commands are datatypes, and functions define what writing them does.
- Money is `real`, so every sum and split is exact. `float_compare(x, 0, rounding)` is read as the exact comparison of `x` with 0.

## Model

| member | source | states |
|---|---|---|
| PartnerSplitWeight.ComputeSplitParts | account_partner_split/models/partner_split_weight.py:34-54 | The counter has exactly one key per partner of the weight records. Each key maps to the sum of that partner's weights times `amount / sum(abs(weights))`. |
| PartnerSplitWeight.AmountPart | account_partner_split/models/partner_split_weight.py:41-42 | The unit part times the absolute weight total gives back the amount. |
| PartnerSplitWeight.SplitConservesAmount | account_partner_split/models/partner_split_weight.py:34-54 | With no negative weight, the per-partner parts add up to exactly the amount split. |
| PartnerSplitWeight.SplitByConserves | account_partner_split/models/partner_split_weight.py:41-53 | Any unit part with `total * part == amount` makes the non-negative split add up to the amount. |
| PartnerSplitWeight.NonNegativeSharesSum | account_partner_split/models/partner_split_weight.py:43-46 | With no negative weight, the record shares add up to the absolute weight total times the unit part. |
| PartnerSplitWeight.SharesSum | account_partner_split/models/partner_split_weight.py:43-46 | The record shares add up to the signed weight total times the unit part. |
| PartnerSplitWeight.SplitBySum | account_partner_split/models/partner_split_weight.py:43-53 | The per-partner parts add up to the signed weight total times the unit part. With a negative weight, the split therefore does not conserve the amount. |
| PartnerSplitWeight.RepeatedPartnerShare | account_partner_split/models/partner_split_weight.py:47-53 | A partner named by several records gets its summed weight times the unit part (`Counter.update` adds). |
| PartnerSplitWeight.SplitByShare | account_partner_split/models/partner_split_weight.py:47-53 | Each listed partner's entry is its total weight times the unit part. |
| PartnerSplitWeight.ShareForPartner | account_partner_split/models/partner_split_weight.py:43-53 | The shares of one partner's records add up to its total weight times the unit part. |
| PartnerSplitWeight.NegativeWeightKept | account_partner_split/models/partner_split_weight.py:52-53 | A partner with a negative total weight keeps its key with a negative part, as `update` keeps negative values. |
| PartnerSplitWeight.OneOneTwoSplit | account_partner_split/tests/test_account_partner_split.py:12-31 | 100 shared with weights 1, 1 and 2 gives 25, 25 and 50. |
| PartnerPaySplit.AmountByPartner | account_partner_split/models/partner_pay_split.py:34-42 | The running totals are each paying partner's total, and the keys are exactly the paying partners. |
| PartnerPaySplit.PaidByPartnerKeys | account_partner_split/models/partner_pay_split.py:34-42 | A partner is a key if and only if some record names it. |
| PartnerPaySplit.PaidByPartnerConserves | account_partner_split/models/partner_pay_split.py:34-42 | The per-partner totals add up to all the amounts paid. |
| PartnerPaySplit.PaidByOnePartner | account_partner_split/models/partner_pay_split.py:36-41 | One partner's total is the sum of its own records' amounts. |
| PartnerTotalSplit.Amount | account_partner_split/models/partner_total_split.py:67-69 | The amount is positive exactly when the credit exceeds the debit, and negative exactly when the debit exceeds the credit. |
| PartnerTotalSplit.AbsAmount | account_partner_split/models/partner_total_split.py:82-84 | The result is non-negative and equals the amount or its negation. It is zero exactly when credit equals debit. |
| PartnerTotalSplit.DisplayName | account_partner_split/models/partner_total_split.py:86-101 | The display name is one character longer than the partner's name and the amount's text together. |
| PartnerTotalSplit.DisplayRoundTrip | account_partner_split/models/partner_total_split.py:86-101 | The display name starts with the partner's name followed by a space. The amount's text can be read back from what follows. |
| PartnerPayment.PaymentLineBreakdown | account_partner_split/models/partner_payment.py:36-75 | Between two partners, the payment line credits the giver with the amount and debits the receiver with all of it. |
| PartnerPayment.PaymentToSelf | account_partner_split/models/partner_payment.py:55-71 | A partner paying itself is credited and debited with the same amount. |
| PartnerPayment.PaymentLineSides | account_partner_split/models/partner_payment.py:55-71 | The line's only payer is the giver, for the amount, and its only weighted partner is the receiver, for all of the amount. |
| PartnerPayment.PaymentCredits | account_partner_split/models/partner_payment.py:55-62 | The payment line credits the giver and has the payment's amount to share. |
| PartnerPayment.SingleWeight | account_partner_split/models/partner_payment.py:63-71 | A single weight of 1 gives the whole amount to its partner. |
| SplitAccountLine.PaidAmount | account_partner_split/models/split_account_line.py:75-83 | The paid amount is the sum of the per-partner paid totals, 0 without payers. |
| SplitAccountLine.Amount | account_partner_split/models/split_account_line.py:89-91 | Amount plus amount to pay equals the paid amount. |
| SplitAccountLine.AmountToShare | account_partner_split/models/split_account_line.py:93-102 | The amount to pay when it is set, else the paid amount. |
| SplitAccountLine.AmountByPartner | account_partner_split/models/split_account_line.py:104-129 | The breakdown has every weighted or paying partner, with its paid total as credit and its weighted share as debit. A missing side is 0. |
| SplitAccountLine.BreakdownKeys | account_partner_split/models/split_account_line.py:118-127 | The breakdown's partners are exactly the union of the weighted and the paying partners. |
| SplitAccountLine.BreakdownCredits | account_partner_split/models/split_account_line.py:104-129 | The credits add up to the paid amount. |
| SplitAccountLine.BreakdownDebits | account_partner_split/models/split_account_line.py:104-129 | With no negative weight, the debits add up to the amount to share. |
| SplitAccountLine.BreakdownNet | account_partner_split/models/split_account_line.py:89-129 | With no negative weight, credits minus debits equal the line's amount when something is owed, and 0 otherwise. |
| SplitAccountLine.PartialPaymentBreakdown | account_partner_split/tests/test_account_partner_split.py:54-73 | 100 owed, shared 1:1:2, with 75 paid by partner 3: partners 1 and 2 owe 25 each, partner 3 is owed 25, and the line's amount is -25. |
| SplitAccountLine.AccountWeightCommands | account_partner_split/models/split_account_line.py:194-212 | One clear command, then one create per default weight of the account, in order and with the same partner and weight. |
| SplitAccountLine.AccountWeightsCopied | account_partner_split/models/split_account_line.py:194-212 | Whatever weights the line had, writing the commands leaves exactly the account's defaults. |
| SplitAccountLine.UpdatedTotals | account_partner_split/models/split_account_line.py:132-173 | An empty dict gives a single clear. Otherwise: the result is an error exactly when some key has several stored totals; on success, it unlinks every total of a partner that is not a key, then gives one update-or-create per key in dict order. |
| SplitAccountLine.UnlinkCommands | account_partner_split/models/split_account_line.py:135-141 | One unlink per stored total whose partner is not a key, in the stored order. |
| SplitAccountLine.KeyCommandsOf | account_partner_split/models/split_account_line.py:144-168 | Succeeds exactly when no key has more than one stored total, and then gives one update-or-create per key. Otherwise fails with "Expected singleton". |
| SplitAccountLine.ReconciledTotals | account_partner_split/models/split_account_line.py:132-173 | Writing the commands leaves exactly one total per key, with that key's amounts, and none for any other partner. An existing total keeps its id. |
| SplitAccountLine.WrittenTotals | account_partner_split/models/split_account_line.py:132-189 | Stored totals with one total per partner are never ambiguous. Writing the commands keeps one total per partner, reconciled with the new amounts. Ids only grow. |
| SplitAccountLine.AfterUnlinks | account_partner_split/models/split_account_line.py:135-141 | After the unlinks, a key keeps its stored totals and any other partner has none. |
| SplitAccountLine.KeyPhase | account_partner_split/models/split_account_line.py:144-168 | The per-key commands, written in order, settle one key at a time without touching the others. |
| SplitAccountLine.CreateStep | account_partner_split/models/split_account_line.py:150-158 | Creating a total with a fresh id adds it to that partner's totals only. |
| SplitAccountLine.UpdateStep | account_partner_split/models/split_account_line.py:159-167 | Updating a partner's single total changes its amounts and no other partner's totals. |
| TotalCommands.ApplyAppend | account_partner_split/models/split_account_line.py:132-173 | Writing two command lists one after the other is writing their concatenation. |
| TotalCommands.TotalsOfWithoutIds | account_partner_split/models/split_account_line.py:135-141 | Removing ids and then selecting a partner's totals is selecting and then removing. |
| TotalCommands.DistinctPartnersSingle | account_partner_split/models/split_account_line.py:144-149 | Distinct partners means at most one total per partner. |
| TotalCommands.SingleDistinctPartners | account_partner_split/models/split_account_line.py:144-149 | At most one total per partner means distinct partners, the converse. |
| SplitAccount.TotalAmount | account_partner_split/models/split_account.py:54-62 | The line-by-line total is the sum of the amounts of the lines that are not internal payments. |
| SplitAccount.TotalAmountAppend | account_partner_split/models/split_account.py:54-62 | The account total over two runs of lines is the sum of their totals. |
| SplitAccount.PaymentsNotCounted | account_partner_split/models/split_account.py:56-61 | Lines that are all internal payments give a total of 0. |
| SplitAccount.AccountAmountByPartner | account_partner_split/models/split_account.py:64-92 | One entry per partner of the line totals, holding the sums of that partner's credits and of its debits. |
| SplitAccount.AccountBreakdownConserves | account_partner_split/models/split_account.py:64-92 | The per-partner credits (debits) add up to all the line credits (debits). |
| SplitAccount.Debtors | account_partner_split/models/split_account.py:117-119 | Keeps exactly the totals with a negative amount. |
| SplitAccount.Creditors | account_partner_split/models/split_account.py:121 | Keeps every other total, zeros included. |
| SplitAccount.SortBySorted | account_partner_split/models/split_account.py:120-122 | `sorted` orders by its key and is a permutation. |
| SplitAccount.SortDistinct | account_partner_split/models/split_account.py:120-127 | Sorting totals with distinct partners keeps them distinct and keeps the same totals. |
| SplitAccount.DebtorsDistinct | account_partner_split/models/split_account.py:117-127 | Debtors and creditors have distinct partners, and every total lands on one side. |
| SplitAccount.CounterSums | account_partner_split/models/split_account.py:124-127 | The creditor counter's sum minus the debtor counter's sum is the balance of the totals. |
| SplitAccount.CountersValid | account_partner_split/models/split_account.py:124-127 | The counters have distinct keys. Credits are non-negative and debts are positive. |
| Netting.Net | account_partner_split/models/split_account.py:129-138 | The transfers are the greedy ones of `GreedyNet`: creditor by creditor, each debtor pays the smaller of the two remainders when positive. They also keep every promise of `GreedyNetSettles`. |
| Netting.PayCreditor | account_partner_split/models/split_account.py:131-138 | The inner loop ends in the state `PayFrom` gives: each debtor in turn pays the creditor the smaller remainder when positive, lowering both. |
| Netting.GreedyNetSettles | account_partner_split/models/split_account.py:129-138 | Of the greedy transfers: each goes from a debtor to a creditor, is positive, and comes in loop order. No creditor receives more than it is owed, and no debtor gives more than it owes. At the end, every creditor is paid in full or every debtor has paid in full; both when the sides balance. |
| Netting.NetFromKeeps | account_partner_split/models/split_account.py:129-138 | The outer loop keeps the remainders equal to the amounts less what was received or given. It ends with every creditor paid or every debt cleared. |
| Netting.PayFromCreditor | account_partner_split/models/split_account.py:131-138 | After one creditor's inner loop, only that creditor was paid, no debt grew, and the creditor is paid in full or every debt is cleared. |
| Netting.PayFromKeeps | account_partner_split/models/split_account.py:131-138 | The inner loop keeps its invariant from any debtor to the last. |
| Netting.PayDebtorKeeps | account_partner_split/models/split_account.py:132-138 | One debtor paying the smaller remainder, or skipping when it is 0, keeps the inner loop's invariant. |
| Netting.GreedyNetPairs | account_partner_split/models/split_account.py:129-138 | Two creditors and two debtors, all at 5: the first debtor pays the first creditor 5, then the second pays the second 5. |
| Netting.Settles | account_partner_split/models/split_account.py:129-138 | When the sides balance and one side is cleared, so is the other. |
| SplitAccount.ProposalBounds | account_partner_split/models/split_account.py:117-138 | On the totals: a debtor receives nothing and gives at most its debt; a creditor gives nothing and receives at most its credit. |
| SplitAccount.NetProposes | account_partner_split/models/split_account.py:107-151 | The transfers the netting gives keep those bounds. When the totals balance, paying them brings every partner's amount to zero. |
| SplitAccount.ProposalsSettle | account_partner_split/models/split_account.py:129-138 | With both sides paid in full, every partner's amount plus what it gives minus what it receives is zero. |
| SplitAccount.PaymentKeepsTotal | account_partner_split/models/partner_payment.py:36-75 | Executing a payment adds a line that leaves the account total unchanged. |
| SplitAccount.Account.ComputeLineTotals | account_partner_split/models/split_account_line.py:182-189 | One line's stored totals become one total per partner of its breakdown, with those amounts. Nothing else changes. |
| SplitAccount.Account.ComputeTotalPartnerSplits | account_partner_split/models/split_account.py:98-105 | The account's totals become one total per partner of the line totals, with its summed credit and debit. |
| SplitAccount.Account.GeneratePaymentProposals | account_partner_split/models/split_account.py:107-151 | The transfers are the greedy netting of the sorted counters. One proposal per transfer is appended, and the transfers keep the netting promise on the totals. |
| SplitAccount.Account.GeneratePayment | account_partner_split/models/partner_payment.py:36-75 | Appends the payment line, drops the proposal, and leaves the totals and the account total unchanged. |
| SplitAccount.NightOutCounters | account_partner_split/tests/test_flows.py:59-68 | Night out: creditors 1 (17.5) then 3 (55), debtor 2 (72.5), balance 0. |
| SplitAccount.NightOutSettled | account_partner_split/tests/test_flows.py:71-82 | Any transfers meeting the netting promise on the night-out totals are exactly "2 gives 17.5 to 1, then 55 to 3". |
| SplitAccount.NightOut | account_partner_split/tests/test_flows.py:70-90 | Generating the proposals on the night out proposes those two payments. |
| SplitAccount.BalanceOfBreakdown | account_partner_split/models/split_account.py:64-92 | A partner's credits less its debits over the totals is the amount of its account total, and 0 without one. |
| SplitAccount.BalanceAppend | account_partner_split/models/split_account.py:64-92 | A partner's balance over two runs of totals is the sum of its balances. |
| SplitAccount.PaymentLineBalance | account_partner_split/models/partner_payment.py:36-75 | The totals of a payment line raise the giver's balance by the amount and lower the receiver's by it. Every other partner is unchanged. |
| SplitAccount.PaymentsBalance | account_partner_split/models/partner_payment.py:36-75 | Paying the transfers in order changes each partner's balance by what it gives minus what it receives. |
| SplitAccount.NoTotalNoCounter | account_partner_split/models/split_account.py:117-127 | A partner with no total is in neither counter. |
| SplitAccount.ProposedPartnerSettles | account_partner_split/models/split_account.py:107-151 | When the totals balance, a partner's account amount plus what it gives minus what it receives is zero. |
| SplitAccount.ProposedOutsider | account_partner_split/models/split_account.py:107-151 | A partner without an account total neither gives nor receives. |
| SplitAccount.PaymentsSettleAccount | account_partner_split/tests/test_flows.py:84-90 | With balanced totals, once every proposal is paid and its line's totals are computed, each partner's credits equal its debits, so the account totals are all zero. |
| MatchMode.RowPoints | event_tournament/models/event_tournament_match_mode.py:44-50 | No points exactly when no row matches the result, read straight or mirrored. |
| MatchMode.FirstRowDecides | event_tournament/models/event_tournament_match_mode.py:44-50 | The first matching row decides, whatever rows come after it. |
| MatchMode.MirrorExpected | event_tournament/models/event_tournament_match_mode.py:44-50 | A result is expected if and only if its mirror image is. |
| MatchMode.WinnerAndLoser | event_tournament/models/event_tournament_match_mode.py:44-50 | For a row written from the winner's side, the winner gets its win points and the loser its lose points. |
| MatchMode.Counter | event_tournament/models/event_tournament_match_mode.py:37 | Every team of the match starts at 1. |
| MatchMode.GetPoints | event_tournament/models/event_tournament_match_mode.py:30-64 | The nested loop with `break` and `for … else` computes the points specification. |
| MatchMode.ScoredError | event_tournament/models/event_tournament_match_mode.py:51-63 | Fails exactly when some team's result is unexpected. The error names the first such team's result. |
| MatchMode.ScoredValues | event_tournament/models/event_tournament_match_mode.py:40-50 | On success, each team of the sets info gets its first matching row's points, and the others keep theirs. |
| MatchMode.PointsValues | event_tournament/models/event_tournament_match_mode.py:30-64 | With every result expected, each team of the sets info gets its row's points, and each other team of the match keeps 1. |
| MatchMode.TwoOneMatch | event_tournament/tests/test_event_tournament_match_mode.py:9-20 | A 2–1 match: the loser gets 1 and the winner gets 2. |
| TournamentMatch.ConstrainTeams | event_tournament/models/event_tournament_match.py:29-36 | Fails, with the common-components error, exactly when one attendee is a component of every team. |
| TournamentMatch.PairwiseSharingPasses | event_tournament/models/event_tournament_match.py:30-36 | Three teams that each share a different attendee with each other pass. |
| TournamentMatch.OneTeamWithComponents | event_tournament/models/event_tournament_match.py:30-36 | A single-team match fails exactly when the team has a component. |
| TournamentMatch.ConstrainTournament | event_tournament/models/event_tournament_match.py:38-47 | Passes exactly when every team is in the match's tournament. Teams from two tournaments fail with the first error, otherwise the second error applies. |
| TournamentMatch.ConstrainWinner | event_tournament/models/event_tournament_match.py:49-55 | Passes exactly when there is no winner or the winner is a team of the match. |
| TournamentMatch.MatchDisplayName | event_tournament/models/event_tournament_match.py:63-68 | One team shows its name, and two teams show "A vs B". |
| TournamentMatch.Match.ActionDone | event_tournament/models/event_tournament_match.py:58-60 | The state becomes done, and nothing else changes. |
| TournamentTeam.CheckEvents | event_tournament/models/event_tournament_team.py:36-53 | Passes exactly when every event is the tournament's. Two different events give the "different" error. |
| TournamentTeam.ConstrainTournament | event_tournament/models/event_tournament_team.py:36-53 | Passes exactly when every component and every match with a tournament belongs to the tournament's event. The four errors come in source order. |
| TournamentTeam.EmptyTeamPasses | event_tournament/models/event_tournament_team.py:36-53 | A team without components or matches passes. |
| TournamentTeam.OnchangeTournament | event_tournament/models/event_tournament_team.py:27-34 | The components are restricted to the tournament's event, and the matches to the tournament. |
| TournamentIds.SetOfOneOrMore | event_tournament/models/event_tournament_match.py:41-47 | A mapped recordset has more than one element exactly when two values differ. |
| MatchSet.IsTieBreak | event_tournament/models/event_tournament_match_set.py:51-60 | Python indexing of the sets: a positive number names that 1-based set, 0 names the last, and a too-negative index raises IndexError. |
| MatchSet.OneTieBreak | event_tournament/models/event_tournament_match_set.py:51-60 | At most one set of a match is its tie-break. |
| MatchSet.SetWinner | event_tournament/models/event_tournament_match_set.py:71-79 | The mode's winner once the match is done, no winner before. |
| MatchSet.ComputeResultIds | event_tournament/models/event_tournament_match_set.py:84-115 | The loop's commands are the deletions, then one creation per team still needing a result. |
| MatchSet.DeletedIdsMembers | event_tournament/models/event_tournament_match_set.py:90-101 | A result is deleted exactly when the match is saved and its team left the match. |
| MatchSet.ResultsAfterCompute | event_tournament/models/event_tournament_match_set.py:84-115 | Every team of the match ends with exactly one result, and an existing one is kept. Results of removed teams are dropped once the match is saved. One score per team is preserved. |
| MatchSet.ResultsOfNew | event_tournament/models/event_tournament_match_set.py:105-114 | Fresh results for distinct teams give each team exactly one. |
| MatchSet.SetDisplayName | event_tournament/models/event_tournament_match_set.py:117-125 | The name is the set's name followed by ": ". |
| MatchSet.SetDisplayOneScore | event_tournament/models/event_tournament_match_set.py:117-125 | With one result, the text after the name reads back as its score. |
| TeamStats.CreateFromMatchesPairs | event_tournament/models/event_tournament_match_team_stats.py:66-78 | One record for exactly each (match, team of the match), with no pair twice. |
| TeamStats.DonePoints | event_tournament/models/event_tournament_match_team_stats.py:92-95 | With no negative score, the team's points are between 0 and all the match's points. |
| TeamStats.ResultsOfBounded | event_tournament/models/event_tournament_match_team_stats.py:89-95 | One team's scores, none negative, sum to between 0 and the sum of all the scores. |
| TeamStats.TakenPoints | event_tournament/models/event_tournament_match_team_stats.py:83-96 | Done plus taken points are all the match's points. |
| TeamStats.PointsConserved | event_tournament/models/event_tournament_match_team_stats.py:83-96 | The done points of the match's teams add up to the match's points. |
| TeamStats.TwoTeamsTaken | event_tournament/models/event_tournament_match_team_stats.py:83-96 | In a two-team match, one team's taken points are the other's done points. |
| TeamStats.Played | event_tournament/models/event_tournament_match_team_stats.py:134-136 | Keeps exactly the sets whose scores do not sum to 0. |
| TeamStats.ComputeSets | event_tournament/models/event_tournament_match_team_stats.py:126-147 | On a done match, played sets go to won when the team is the winner and to lost otherwise. Both are empty on other matches. |
| TeamStats.WonLostSplit | event_tournament/models/event_tournament_match_team_stats.py:126-147 | Won plus lost counts are the played sets. A set is won if and only if the team is its winner, and lost otherwise. |
| TeamStats.TournamentPoints | event_tournament/models/event_tournament_match_team_stats.py:108-119 | 0 unless the match is done and has a mode. An error only comes from the mode's points. |
| TeamStats.TournamentPointsOfTeam | event_tournament/models/event_tournament_match_team_stats.py:108-119 | A listed team gets its row's points, an unlisted team of the match gets 1, and any other team gets 0. |
| TeamStats.CalculateRatio | event_tournament/models/event_tournament_match_team_stats.py:150-151 | The ratio times lost gives won. A lost count of 0 is replaced by 0.1. |
| TeamStats.PointsRatio | event_tournament/models/event_tournament_match_team_stats.py:153-157 | The ratio of the summed done points to the summed taken points. |
| TeamStats.SetsRatio | event_tournament/models/event_tournament_match_team_stats.py:159-163 | The ratio of the summed won sets to the summed lost sets. |
| TeamStats.RatioOfSums | event_tournament/models/event_tournament_match_team_stats.py:153-157 | The ratio is taken of sums, not averaged: 1–1 and 0–3 give 1/4. |
| TeamNames.Scan | website_event_tournament/controllers/main.py:14-18 | The captured names contain no double quote, and the rest is no longer than the text. |
| TeamNames.Unquoted | website_event_tournament/controllers/main.py:19-24 | Every kept unquoted name is non-empty and stripped. |
| TeamNames.GetTeamNames | website_event_tournament/controllers/main.py:12-27 | The quoted names come first, without double quotes. The rest are non-empty, stripped and comma-free. |
| TeamNames.QuotedRoundTrip | website_event_tournament/controllers/main.py:12-27 | Quoting names and reading them back gives them back, as typed. |
| TeamNames.CommaRoundTrip | website_event_tournament/controllers/main.py:12-27 | Clean names joined with commas read back as the same names. |
| TeamNames.QuotedFirst | website_event_tournament/controllers/main.py:26 | A quoted name is listed before an unquoted one that precedes it in the text. |
| Py.PyIndex | website_event_tournament/controllers/main.py:56 | A Python list index succeeds exactly within minus length to length. |
| Py.Strip | website_event_tournament/controllers/main.py:47 | The result has no outer whitespace and is no longer than the input. |
| Py.StripSlice | website_event_tournament/controllers/main.py:47 | What `strip` keeps is one slice, with only whitespace around it. |
| Py.StripBlank | website_event_tournament/controllers/main.py:47-49 | A whitespace-only value strips to empty. |
| Py.StripNonBlank | website_event_tournament/controllers/main.py:47-49 | A value with a non-space character strips to non-empty. |
| Py.JoinSplit | website_event_tournament/controllers/main.py:39 | Splitting and joining back gives the text. |
| Py.SplitJoin | website_event_tournament/controllers/main.py:39 | Joining separator-free parts and splitting gives the parts. |
| Py.ParseIntToString | website_event_tournament/controllers/main.py:41 | `int(str(n)) == n`. |
| RegistrationForm.AddEntry | website_event_tournament/controllers/main.py:57-59 | `setdefault(...).append` adds the entry at the end of the registration's entries. |
| RegistrationForm.Position | website_event_tournament/controllers/main.py:56 | The index reaches a registration exactly within minus count to count, counting from the end when negative. |
| RegistrationForm.FormStep | website_event_tournament/controllers/main.py:38-59 | A key not starting with "team_name" is skipped, and a key that does not split into three parts is a ValueError. On success, the number of registrations is unchanged. |
| RegistrationForm.ProcessAttendeesForm | website_event_tournament/controllers/main.py:29-61 | The loop processes the fields in order and stops at the first error. |
| RegistrationForm.TeamKeyParts | website_event_tournament/controllers/main.py:33-39 | The form's key splits back into "team_name", the attendee number and the tournament. |
| RegistrationForm.TeamFieldAppends | website_event_tournament/controllers/main.py:38-59 | A non-blank field for attendee n appends (tournament, stripped name) to registration n-1 only. |
| RegistrationForm.BlankTeamFieldSkipped | website_event_tournament/controllers/main.py:47-49 | A blank value changes nothing. |
| RegistrationForm.OtherFieldSkipped | website_event_tournament/controllers/main.py:43-45 | A "team_names-…" key is skipped. |
| RegistrationForm.ProcessFormKeeps | website_event_tournament/controllers/main.py:37-61 | Processing only appends: every registration keeps its earlier entries, in order. |
| RegistrationForm.FormStepKeeps | website_event_tournament/controllers/main.py:56-59 | One field removes no entry from any registration. |
| AttendeeTeams.PopTeams | website_event_tournament/controllers/main.py:64-69 | The saved entries are collected by position, and the key `tournament_team_ids` is removed from every registration. |
| AttendeeTeams.Joined | website_event_tournament/controllers/main.py:88-94 | Adds the attendee to that team of that tournament, creating either level, and changes nothing else. |
| AttendeeTeams.AddAttendee | website_event_tournament/controllers/main.py:86-94 | The inner loop adds one attendee's entries. |
| AttendeeTeams.AddEntriesOk | website_event_tournament/controllers/main.py:86-87 | Succeeds exactly when every tournament id parses, and otherwise raises ValueError. |
| AttendeeTeams.AddEntriesMembers | website_event_tournament/controllers/main.py:86-94 | The attendee joins exactly the teams its entries name. |
| AttendeeTeams.GroupAttendeeTeams | website_event_tournament/controllers/main.py:81-94 | The grouping loops as written. |
| AttendeeTeams.AsWrittenAgrees | website_event_tournament/controllers/main.py:84-86 | When every attendee saved an entry, the code as written equals the corrected grouping. |
| AttendeeTeams.NoTeamsKeyError | website_event_tournament/controllers/main.py:84-86 | With no team entry at all, the code as written raises KeyError, while the corrected code groups nobody. |
| AttendeeTeams.SecondAttendeeKeyError | website_event_tournament/controllers/main.py:84-86 | If only the first of two attendees names a team, the code as written fails on the second. |
| AttendeeTeams.GroupCorrectedMembers | website_event_tournament/controllers/main.py:81-94 | The corrected grouping puts an attendee in a team exactly when one of its entries names that team and tournament. |
| AttendeeTeams.GroupCorrectedOk | website_event_tournament/controllers/main.py:81-94 | The corrected grouping fails only with ValueError, on a non-integer tournament id. |
| AttendeeTeams.FindTeam | website_event_tournament/controllers/main.py:98-103 | The earliest team of that tournament with that name, or none exactly when no team has it. |
| AttendeeTeams.CreateOrExtend | website_event_tournament/controllers/main.py:100-118 | Afterwards some team of that tournament and name holds the components. An existing team only grows; otherwise exactly one team is created. |
| AttendeeTeams.CreateOrUpdateTeams | website_event_tournament/controllers/main.py:96-118 | The teams are those `CreateOrUpdateFrom` gives, group after group. Every group has a team holding all its attendees. Existing teams only grow, and new teams get consecutive ids. A team is created only for a group with no team of that name yet. A team gains only attendees of the groups of its tournament and name. |
| AttendeeTeams.FoldStep | website_event_tournament/controllers/main.py:97-118 | The loop from group `i` on is group `i` handled by `CreateOrExtend`, then the loop from the next group with the next id when a team was created. |
| AttendeeTeams.CreateOrUpdateGrows | website_event_tournament/controllers/main.py:97-118 | Over the loop, existing teams keep their id, tournament and name and only gain components. Created teams get consecutive ids, at most one per group. |
| AttendeeTeams.GrowStep | website_event_tournament/controllers/main.py:108-118 | Handling one group only grows the existing teams, and a created team takes the next consecutive id. |
| AttendeeTeams.CreateOrUpdateCovers | website_event_tournament/controllers/main.py:97-118 | After the loop, every group has a team of its tournament and name that holds all its attendees. |
| AttendeeTeams.CoverStep | website_event_tournament/controllers/main.py:100-118 | Handling one group covers it and keeps the earlier groups covered. |
| AttendeeTeams.CreateOrUpdateCreates | website_event_tournament/controllers/main.py:97-118 | After the loop, each created team is for one of the groups and is the first team of its tournament and name. Every component was already there or is an attendee of a group of that tournament and name. |
| AttendeeTeams.ExtendKeeps | website_event_tournament/controllers/main.py:100-118 | Handling one group keeps each created team the first of its name, and every component from a matching group. |

## Left out

- Floating point: amounts are exact reals throughout: the split, the totals, the netting and the payment lines. The currency rounding (`float_compare` and `float_round`, default 0.01) is not modelled: comparisons with 0 are exact, and amounts within the rounding of 0 are not treated as zero.
- `_compute_line_tag_ids` of the partner totals (partner_total_split.py:74-77) is left out. It only copies tags for reporting, and no property of the ledger depends on it.
- The `name_get` of `partner_split_weight` and `partner_pay_split` are left out. They only format a partner's name with a number.
- The name of the payment line that `generate_payment` writes (partner_payment.py:48-52) is left out. It is display text only.
- `PartnerTotalSplit.DisplayName`: the partner's display name and the rounded amount's text are inputs. Float-to-text formatting is not modelled.
- ORM recomputation: `@api.depends` triggers are not modelled. Each compute is a method or function called explicitly.
- `super()` calls in the controller are inputs: the registrations they return and the attendees they create. So are `request.env`, `sudo()`, `browse` and reads of related records (a team's components, events, tournaments).
- Dict iteration order is a parameter `keys` with the dict's key set. Recordset order is the sequence order.
- `get_sets_info` and `get_set_winner` are not part of this model. The sets info and the mode's set winner are inputs, and so is the match mode's data file. `MatchMode.TwoOneRows` is a table with a 2–1 row, not the shipped beach-volley table.
- Match generation and scheduling are not part of this model.
- `Py.ParseInt` accepts an optional sign and ASCII digits with surrounding whitespace. It omits the underscores and non-ASCII digits that `int` also accepts.
- `AttendeeTeams.CreateOrUpdateTeams`: `tournament.team_ids` is read once per tournament in the source. The model reads the current teams instead, which is the same because team names within a tournament are distinct dict keys. Created teams get consecutive ids.
- `PartnerSplitWeight.ComputeSplitParts` requires a non-zero weight when there are weights. With every weight 0, the source divides by zero and raises; the model does not represent that exception.
- `PartnerSplitWeight.SplitConservesAmount`: the conservation is stated only for non-negative weights. With a negative weight the parts sum to the signed total times the unit part (`SplitBySum`), not to the amount.
- `SplitAccountLine.BreakdownDebits`: for the same reason, stated only for non-negative weights.
- The team-uniqueness constraint `unique_set_team` is a database constraint. The model proves that `_compute_result_ids` preserves it (`MatchSet.ResultsAfterCompute`) rather than enforcing it.
- Notes on the code's behaviour:
  - The netting sorts debtors by increasing debt (`key=-amount`) and creditors by increasing credit, and walks the creditors smallest first.
  - Paying the transfers zeroes every balance only when the balances sum to zero. Otherwise one side keeps a remainder, as `Netting.Net` states.
  - Disjointness of components across the teams of a tournament is not checked by the modelled constraints.

## Findings

| source | as written | input that shows it | evidently intended | confidence | as-written member | corrected member |
|---|---|---|---|---|---|---|
| website_event_tournament/controllers/main.py:84-86 | `attendees_teams[attendee_index]` indexes a dict that only has the registrations that saved team names | a registration of one attendee who typed no team name, on any event: `attendees_teams` is empty and the lookup raises KeyError | `attendees_teams.get(attendee_index, [])`: an attendee without team names joins no team | not executed | AttendeeTeams.NoTeamsKeyError | AttendeeTeams.GroupCorrectedMembers |
