# Verified model of the Ballast lending protocol

This project models the on-chain contracts of the Ballast protocol and the two small concurrent protocols of its
services, and proves what they promise over whole runs.

`dafny verify dfyconfig.toml` checks everything.

## How it is built

A transaction is a function from the whole state to the next state or `Revert`; a panic is a revert and leaves the
state as it was. A run is any sequence of such steps, mixed with transactions of the rest of the world on the tokens
and with the passing of time. The theorems speak of all runs from an empty contract.

| part | specification | proofs | contract objects, updated in place |
|---|---|---|---|
| repo | `RepoSpec` | `RepoEscrow`, `RepoAllowance`, `RepoDue`, `RepoRestore`, `RepoWitness`, `RepoMargin`, `RepoLifecycle`, `RepoRules` | `RepoContract` |
| credit line and pledge vault, as one system | `CreditSpec` | `CreditFunds`, `CreditCollateral`, `CreditLiveness`, `CreditLiquidation`, `CreditInterest`, `CreditRules` | `CreditContract` |
| price guard | `GuardSpec`, `Medians` | `GuardPrices`, `GuardOrder`, `GuardRuns`, `GuardCapacity`, `GuardNav`, `GuardWitness`, `GuardHalting`, `GuardNine`, `GuardRules`, `Decimals` | `GuardContract`, `Medians.SortBuf` |
| exit desk | `ExitDesk` | `ExitDesk`, `ExitWitness`, `ExitRules` | `ExitContract` |
| registry, asset policy, timelock | `Registry` | `Registry`, `RegistryRules` | `Registry.RegistryContract` |
| keeper lane, its promises, and lock | `KeeperLane`, `KeeperPromises`, `KeeperLock` | same, `KeeperWitness` | `KeeperPromises.JobQueue`, `KeeperLock.LockServer` |
| issuer idempotency | `Idempotency` | same | `Idempotency.ClaimTable` |
| shared arithmetic, tokens | `Prelude`, `Risk`, `Tokens` | same, `Measures` | `TokenLedger` |

The contract objects follow the source statement by statement: read an entry, change it, write it back, move tokens.
Each method commits exactly the transaction its specification gives, or leaves everything as it was. The theorems are
then proved about the specification.

Beside the theorems on runs, the `...Rules` modules say of every entry point when it succeeds in a reachable state and
what it leaves, in plain arithmetic: amounts, values and dates by the inequality each has to meet, with the numbers
written out.

What the environment decides is a parameter: the price a guard answers (`Quote`), which messages a signature is valid
for and under which key, the time and ledger of a transaction, which database statements go through, and when a job
finishes. Roles are fixed: a transaction carries who signed it where that is a party to it, and a contract never signs
as a party.

## Where the code and its documentation part

- The price guard documents that disabling the signature requirement waits 48 hours. While the flag was never set,
  signatures are required by default and can still be switched off at once, by that first setting only (`GuardRuns.SwitchingOffWaits`).
- The repo contract approves the sum of a borrower's dues so that one settled trade cannot strand another. A proposal
  the borrower makes as a lender replaces that sum and its expiry, and settling that proposal spends what replaced it.
  Cancelling its latest proposal as a lender leaves nothing either (`RepoRestore.CancellingClearsAllowance`). What
  remains then decides, trade by trade (`RepoAllowance.LendingReplacesAllowance`,
  `RepoAllowance.SettledProposalLeavesNothing`), and a run strands a matured trade of a borrower who has the money
  (`RepoWitness.LendingStrandsATrade`). The allowance theorem is therefore about borrowers who never lend, and
  `RepoAllowance.UnwindNeedsExactly` about all of them. The borrower's own next settlement restores the whole sum
  (`RepoRestore.OwnSettlementRestores`).
- `default_at_maturity`, unlike the other two closings, does not take the trade's ceiling out of the tracked due. The
  tracked due is the sum of the open trades' ceilings plus exactly what such closings left behind
  (`RepoDue.DueIsExact`, `RepoWitness.DefaultLeavesDueBehind`).
- With more than eight fresh sources every evaluation of a non-halted asset reverts, publishes and reads alike. The
  publish of a ninth fresh reading itself reverts, so nine come together only by publishing during a halt that is then
  lifted, or by loosening the staleness (`GuardCapacity.NeverMoreThanEight`), and both happen
  (`GuardNine.NineFreshReadings`, `GuardNine.NineAfterLoosening`).
- The order in which the same readings are published can decide whether the asset is halted (`GuardHalting.OrderHalts`),
  and among orders that end in an Ok price, at which reference (`GuardWitness.OrderShows`). What each order leaves
  follows from its readings and the configuration (`GuardOrder.PublishingLeaves`, `GuardOrder.OrdersLeaveAlike`).
- What an issuer signs names an asset code of the publisher's choice, not the asset the reading is stored for
  (`GuardNav.OneSignatureTwoAssets`).
- An exit of the payout token itself adds to the inventory what it pays out again, so that token's inventory can
  exceed what the desk holds (`ExitDesk.ExitStaysBacked`, `ExitWitness.UsdcInventoryUnbacked`).
- The exit desk's daily cap is per calendar day, so a day-long interval can hold twice the cap (`ExitDesk.WindowLimit`), and
  nothing less than twice bounds it (`ExitWitness.WindowLimitIsReached`).

## Model

| member | source | states |
|---|---|---|
| `Risk.LtvReaches` | contracts/common/src/risk.rs:30-42 | The rounded, 32-bit-clamped ratio reaches a threshold exactly when `debt * 10000 >= threshold * collateral`; rounding never moves a position across a band. |
| `Risk.HealthyExactly` | contracts/common/src/margin.rs:56-66 | Healthy means exactly: nothing owed, or debt strictly below the warning fraction of a positive collateral value. |
| `Risk.CallOpenUpToTarget` | contracts/repo-dvp/src/lib.rs:867-876 | With positive exposure and valid thresholds, a position is at a margin call or worse exactly when its collateral is at most the call target. |
| `Risk.MoreCollateralNeverWorse` | contracts/common/src/margin.rs:56-66 | The margin state is monotone in the collateral value. |
| `Risk.MoreUnitsWorthMore` | contracts/common/src/risk.rs:13-26 | The haircut value is monotone in the units, through both floors. |
| `Measures.ValueExact` | contracts/common/src/risk.rs:13-26 | Collateral has a value exactly when the haircut is at most 10,000 basis points, and it is the units times the price cut to whole stroops, times what the haircut leaves, cut again. |
| `Measures.ValueOnce` | contracts/common/src/risk.rs:13-26 | Only one number is that value. |
| `Measures.ValueBounds` | contracts/common/src/risk.rs:13-26 | It never exceeds units times price times what the haircut leaves, and falls short by less than one stroop plus one price step of what is kept. |
| `Measures.JudgeExact` | contracts/common/src/margin.rs:56-66 | Each of the four margin states is a pair of exact inequalities between debt times 10,000 and a threshold times the value. |
| `Measures.YearlyInterest` | contracts/repo-dvp/src/lib.rs:361-369 | The two cuts of simple interest are one cut of cash times rate times seconds by 315,360,000,000. |
| `RepoEscrow.SettleExchanges` | contracts/repo-dvp/src/lib.rs:708-783 | Leg 1 is one exchange: units into escrow against cash from lender to borrower, no other balance moves, and the contract still grants nobody an allowance. |
| `RepoEscrow.UnwindExchanges` | contracts/repo-dvp/src/lib.rs:787-840 | An unwind returns every unit to the borrower against exactly principal plus interest to the lender; no other balance moves. |
| `RepoRules.ReachableStands` | contracts/repo-dvp/src/lib.rs:597-1078 | Every reachable state is one the rules below speak of. |
| `RepoRules.ExpiryExact` | contracts/repo-dvp/src/lib.rs:345-358 | An approval expires two whole days of 17,280 ledgers after the day the term and its grace end in, or on the last whole day the host allows; no saturation shows. |
| `RepoRules.ProposeRule` | contracts/repo-dvp/src/lib.rs:597-660 | When a proposal is accepted; its terms are stored as given under the next id, and the lender's allowance is the cash until its expiry. |
| `RepoRules.CancelRule` | contracts/repo-dvp/src/lib.rs:669-701 | Who cancels what, and when that withdraws the lender's allowance. |
| `RepoRules.SettleRule` | contracts/repo-dvp/src/lib.rs:708-783 | In every reachable state a trade settles exactly when neither pause, asset, moment nor either leg stands against it, and the tracked due and allowance grow by cash plus the exact interest of the whole term from the proposal. |
| `RepoRules.UnwindRule` | contracts/repo-dvp/src/lib.rs:787-840 | In every reachable state an unwind works exactly for the three callers from maturity on while the cash can be taken, and moves cash plus the interest from settling to maturity, exact to the stroop, against every unit; nothing else moves. |
| `RepoRules.CallMarginRule` | contracts/repo-dvp/src/lib.rs:853-890 | A call is evaluated exactly on a settled trade and an Ok price; it is open exactly when cash plus exact interest reaches the threshold of the value, asks for the exact gap, and runs for the stored window or a day. |
| `RepoRules.TopUpRule` | contracts/repo-dvp/src/lib.rs:896-936 | A top-up is taken exactly from the borrower's own units, and clears a pending call exactly when the enlarged position no longer reaches the threshold on an Ok price. |
| `RepoRules.DefaultCloseRule` | contracts/repo-dvp/src/lib.rs:948-1005 | An expired call ends in default exactly when the position still reaches the threshold on a positive Ok price; the lender gets the least units worth cash plus exact interest so far, the borrower the rest. |
| `RepoRules.DefaultAtMaturityRule` | contracts/repo-dvp/src/lib.rs:1012-1078 | The same at maturity and past its grace, for cash plus the exact interest of the term. |
| `RepoRules.SettingsRule` | contracts/repo-dvp/src/lib.rs:435-590 | What each setting accepts, and the one thing it changes. |
| `RepoEscrow.EscrowConserved` | contracts/repo-dvp/src/lib.rs:708-1078 | Over every run the contract holds at least the units of all settled trades in each asset, and exactly those when nobody pays it outside a trade. |
| `RepoEscrow.LenderShareIsLeast` | contracts/repo-dvp/src/lib.rs:974-983 | The defaulted share is the least number of units worth at least what is owed at the price, or all units when there are fewer. |
| `RepoEscrow.DefaultCloseSplit` | contracts/repo-dvp/src/lib.rs:948-1005 | A default on a call sends every unit of the trade to its two parties in that split and touches no other balance. |
| `RepoEscrow.DefaultAtMaturitySplit` | contracts/repo-dvp/src/lib.rs:1012-1078 | The same for a default at maturity, measured against the full term's due. |
| `RepoEscrow.PayOutEmpties` | contracts/repo-dvp/src/lib.rs:985-997 | Paying out a default takes exactly the trade's units out of escrow, whoever its two parties are. |
| `RepoAllowance.DueWithinCeiling` | contracts/repo-dvp/src/lib.rs:283-290 | What a trade owes at unwind never exceeds the ceiling computed as if it had settled when proposed. |
| `RepoAllowance.CeilingWithinDue` | contracts/repo-dvp/src/lib.rs:338-343 | A settled trade's ceiling is part of its borrower's tracked due, so releasing it never clamps at zero. |
| `RepoAllowance.OwedWithinClaimed` | contracts/repo-dvp/src/lib.rs:283-290 | The sum a borrower's settled trades will owe is at most the sum of their ceilings. |
| `RepoAllowance.AllowanceAlwaysSuffices` | contracts/repo-dvp/src/lib.rs:308-343 | In every reachable state, for a borrower who never lends and approves nothing outside: allowance >= tracked due >= sum of ceilings >= sum owed, and the allowance's expiry is no earlier than any settled trade's settlement asked for. |
| `RepoAllowance.NonBorrowerUnwindOnlyNeedsFunds` | contracts/repo-dvp/src/lib.rs:787-840 | Under that invariant an unwind by the lender or keeper at or after maturity succeeds exactly when the borrower has the money. |
| `RepoAllowance.ReachableUnwindOnlyNeedsFunds` | contracts/repo-dvp/src/lib.rs:787-840 | The same from genesis, for every run and any order of settling and closing. |
| `RepoAllowance.LendingReplacesAllowance` | contracts/repo-dvp/src/lib.rs:597-660 | Where the allowance theorem stops: after a borrower has itself proposed as a lender, each of its matured trades can be unwound by its lender or the keeper exactly when what it owes is at most the new proposal's cash, the ledger is at most the new proposal's expiry, and the borrower has the money. |
| `RepoAllowance.UnwindNeedsExactly` | contracts/repo-dvp/src/lib.rs:787-840 | For any borrower, lending or not: while the contract holds its units, an unwind of a matured trade by its lender or the keeper succeeds exactly when allowance, expiry and balance all suffice at that moment. |
| `RepoAllowance.ProposalReplaces` | contracts/repo-dvp/src/lib.rs:597-660 | A proposal replaces its lender's leg-2 allowance, figure and expiry both, and leaves its tracked due and every balance as they were. |
| `RepoAllowance.SettlingSpendsAllowance` | contracts/repo-dvp/src/lib.rs:729-742 | Settling a proposal takes its cash back out of its lender's allowance and nothing out of that lender's tracked due. |
| `RepoAllowance.SettledProposalLeavesNothing` | contracts/repo-dvp/src/lib.rs:597-783 | So once the counterparty settles the proposal that replaced it, the allowance is zero while the tracked due is unchanged. |
| `RepoWitness.LendingStrandsATrade` | contracts/repo-dvp/src/lib.rs:597-840 | For every amount, a run from genesis after which a borrower's matured trade is refused to lender and keeper alike although the borrower has the money, and only the borrower can close it. |
| `RepoDue.DueIsExact` | contracts/repo-dvp/src/lib.rs:308-343 | Over every run, whatever anybody does, the tracked due is the sum of the settled trades' ceilings plus the ceilings of the trades defaulted at maturity, and equals that sum exactly when none was. |
| `RepoWitness.DefaultLeavesDueBehind` | contracts/repo-dvp/src/lib.rs:1012-1078 | For every amount, a run from genesis after which a borrower without any open trade is still tracked as owing all of it. |
| `RepoRestore.CancellingClearsAllowance` | contracts/repo-dvp/src/lib.rs:669-701 | Cancelling its latest proposal as a lender leaves an address no allowance whatever its own trades need, any other cancellation leaves the allowance alone, and its tracked due stays. |
| `RepoRestore.OwnSettlementRestores` | contracts/repo-dvp/src/lib.rs:708-783 | Over every run, however a borrower lent, cancelled or approved before, its own next settlement sets the allowance to exactly its tracked due, and every open trade of it is covered again in amount and expiry. |
| `RepoRestore.DefaultAtMaturityExactly` | contracts/repo-dvp/src/lib.rs:1012-1078 | In every reachable state a settled trade can be defaulted at maturity exactly by its lender or the keeper, past grace, on a positive Ok price: never refused for want of collateral, settlement record or configuration. |
| `RepoAllowance.ExpiryOutlivesMaturity` | contracts/repo-dvp/src/lib.rs:345-358 | At every ledger and for every horizon, the allowance outlives maturity and its grace exactly when the host's cap does; uncapped, by between one and two buckets. The 32-bit saturations never show. |
| `RepoAllowance.SimulationAgrees` | contracts/repo-dvp/src/lib.rs:345-358 | Two ledgers compute the same expiry exactly when it falls on the same bucket, capped or not; uncapped, exactly when no bucket boundary falls between them. |
| `RepoMargin.CallAmountExact` | contracts/repo-dvp/src/lib.rs:867-890 | An open call asks for exactly the missing value: that much more collateral leaves it open, one unit of value more cures it, and the clamp at zero never bites. |
| `RepoMargin.TopUpNeverWorsens` | contracts/repo-dvp/src/lib.rs:896-936 | Adding collateral at a fixed price leaves exposure alone and never worsens the margin state. |
| `RepoMargin.PendingCallHasOrigin` | contracts/repo-dvp/src/lib.rs:853-890 | Every pending call was opened by one evaluation on an Ok price and has kept that evaluation's deadline, through every later evaluation and top-up. |
| `RepoMargin.NoEarlyDefault` | contracts/repo-dvp/src/lib.rs:948-971 | Over every run a default on a call needs a call opened earlier and never cleared or re-timed, its whole window of at least 60 seconds elapsed, and the position still at the threshold on an Ok price. |
| `RepoLifecycle.TradesMoveForward` | contracts/repo-dvp/src/lib.rs:597-1078 | Over every run a trade keeps its terms, its status only moves forward, collateral only grows while it is settled, and a final trade never changes. |
| `RepoLifecycle.ClosesOnce` | contracts/repo-dvp/src/lib.rs:669-1078 | After any closing no transaction on that trade ever succeeds again, so its collateral is paid out at most once. |
| `RepoLifecycle.SettlesOnce` | contracts/repo-dvp/src/lib.rs:708-783 | A trade settles at most once. |
| `RepoContract.RepoDvp.ProposeTrade` | contracts/repo-dvp/src/lib.rs:597-660 | Updating storage and tokens in place commits exactly the specified transaction or changes nothing: proposal checks, leg-1 approval, next id, stored trade. |
| `RepoContract.RepoDvp.Cancel` | contracts/repo-dvp/src/lib.rs:669-701 | Updating storage and tokens in place commits exactly the specified transaction or changes nothing: who may cancel, and when the leg-1 allowance is reset. |
| `RepoContract.RepoDvp.MoveLegs` | contracts/repo-dvp/src/lib.rs:729-774 | Updating storage and tokens in place commits exactly the specified transaction or changes nothing: both token legs and the leg-2 approval, all or nothing. |
| `RepoContract.RepoDvp.Accept` | contracts/repo-dvp/src/lib.rs:708-783 | Updating storage and tokens in place commits exactly the specified transaction or changes nothing: settlement: checks, legs, tracked due, stored trade. |
| `RepoContract.RepoDvp.PayBack` | contracts/repo-dvp/src/lib.rs:810-832 | Updating storage and tokens in place commits exactly the specified transaction or changes nothing: cash back by signature or allowance, then collateral back, all or nothing. |
| `RepoContract.RepoDvp.UnwindTrade` | contracts/repo-dvp/src/lib.rs:787-840 | Updating storage and tokens in place commits exactly the specified transaction or changes nothing: who may unwind, when, and what it stores. |
| `RepoContract.RepoDvp.Call` | contracts/repo-dvp/src/lib.rs:853-890 | Updating storage and tokens in place commits exactly the specified transaction or changes nothing: a call opened, re-measured or cleared, never re-timed. |
| `RepoContract.RepoDvp.AddCollateral` | contracts/repo-dvp/src/lib.rs:896-936 | Updating storage and tokens in place commits exactly the specified transaction or changes nothing: a top-up, and the call it may clear. |
| `RepoContract.RepoDvp.PayOutUnits` | contracts/repo-dvp/src/lib.rs:985-997 | Updating storage and tokens in place commits exactly the specified transaction or changes nothing: lender units then any borrower units, all or nothing. |
| `RepoContract.RepoDvp.CloseDefaulted` | contracts/repo-dvp/src/lib.rs:948-1005 | Updating storage and tokens in place commits exactly the specified transaction or changes nothing: a default on an expired call. |
| `RepoContract.RepoDvp.CloseUnpaid` | contracts/repo-dvp/src/lib.rs:1012-1078 | Updating storage and tokens in place commits exactly the specified transaction or changes nothing: a default at maturity, which leaves the tracked due as it was. |
| `RepoContract.RepoDvp.StoreDue` | contracts/repo-dvp/src/lib.rs:315-331 | The tracked due and its expiry are written together or removed together, and nothing else stored changes. |
| `RepoContract.RepoDvp.Release` | contracts/repo-dvp/src/lib.rs:338-343 | A closed trade's ceiling leaves the tracked due, never below zero, the expiry stays, and nothing else stored changes. |
| `CreditFunds.RepaymentSplits` | contracts/credit-line/src/lib.rs:534-556 | A repayment always splits exactly into interest and principal, so its bookkeeping check never fails. |
| `CreditFunds.FundsConserved` | contracts/credit-line/src/lib.rs:376-397 | Over every authorised run with one USDC token the contract holds at least undrawn funding plus unclaimed interest over all lines, exactly that when no payout names it, and 0 <= drawn <= min(funded, limit) on every line. |
| `CreditRules.AlwaysSolvent` | contracts/credit-line/src/lib.rs:301-771 | Every reachable state has the money it owes, and thresholds in order: the states the rules below speak of. |
| `CreditRules.OpenRule` | contracts/credit-line/src/lib.rs:325-372 | A line is opened with the terms given and nothing on it. |
| `CreditRules.FundRule` | contracts/credit-line/src/lib.rs:376-397 | When funding is taken, from whom, and what it adds. |
| `CreditRules.WithdrawRule` | contracts/credit-line/src/lib.rs:725-771 | What a withdrawal of undrawn funding or of repaid interest takes out and pays. |
| `CreditRules.DrawRule` | contracts/credit-line/src/lib.rs:464-520 | In every reachable state a draw is paid exactly when draws are open, the line has room and, with exact interest to the second and the exact value of the counted units less the haircut, stays under the warning threshold on an Ok price. |
| `CreditRules.DrawCovered` | contracts/credit-line/src/lib.rs:464-520 | After a draw, debt times 10^15 is strictly below the warning threshold times units times price times what the haircut leaves. |
| `CreditRules.RepayRule` | contracts/credit-line/src/lib.rs:529-569 | A repayment takes at most what is owed with exact interest, settles interest before principal and makes the interest claimable. |
| `CreditRules.PokeRule` | contracts/credit-line/src/lib.rs:580-608 | What a poke stores: the state of this read by exact inequalities, since when a call is open, and the first ledger and ratio of a breach on an Ok price. |
| `CreditRules.LiquidateRule` | contracts/credit-line/src/lib.rs:613-662 | A line is liquidated exactly when a breach flagged in an earlier ledger is confirmed on an Ok price; the record holds its counted units, that price and the exact debt. |
| `CreditRules.CloseRule` | contracts/credit-line/src/lib.rs:674-721 | A liquidation is closed exactly by its lender, who pays the borrower what the frozen units were worth beyond the frozen debt; no other balance moves. |
| `CreditRules.CloseSettlesTheRead` | contracts/credit-line/src/lib.rs:613-721 | Over every run, that payment is the value of the units counted by one earlier liquidating read at its Ok price, less the exact debt of that moment, or nothing. |
| `CreditLiveness.UndrawnAlwaysPaid` | contracts/credit-line/src/lib.rs:725-746 | In every reachable state undrawn funding is paid out exactly when its lender asks for at most what is undrawn: never refused for want of money. |
| `CreditLiveness.InterestAlwaysPaid` | contracts/credit-line/src/lib.rs:750-771 | The same for repaid interest. |
| `CreditLiveness.DrawAlwaysPaid` | contracts/credit-line/src/lib.rs:464-520 | In every reachable state a draw is paid exactly when draws are open, the line has room and stays healthy on an Ok price. |
| `CreditCollateral.CollateralAgrees` | contracts/pledge-vault/src/lib.rs:186-193 | Over every run in which the keeper reconciles to the vault's own figure, a line that is not Closed counts exactly its vault position's units, and the vault's token balance is at least the sum of escrowed units, equal when no other transfer names the vault. |
| `CreditCollateral.ReconcileAgreesExactly` | contracts/credit-line/src/lib.rs:452-460 | The keeper's reconciliation keeps the two contracts in agreement if and only if it reports the vault's own figure. |
| `CreditCollateral.DrawLeavesCovered` | contracts/credit-line/src/lib.rs:464-520 | Right after a draw, debt is strictly below the warning fraction of the value of the units the vault holds. |
| `CreditCollateral.ReleaseLeavesCovered` | contracts/pledge-vault/src/lib.rs:339-394 | Right after a release with debt owed, what stays in the vault covers the debt, and under equal configurations the credit line reads itself as healthy. |
| `CreditRules.AlwaysBacked` | contracts/pledge-vault/src/lib.rs:230-477 | Every reachable state has the two contracts in agreement and the tokens of every escrowed unit: the states the vault rules speak of. |
| `CreditRules.PledgeRule` | contracts/pledge-vault/src/lib.rs:280-324 | When a pledge is taken; escrowed units come in and count, units under a lien only wait. |
| `CreditRules.RecordLienRule` | contracts/pledge-vault/src/lib.rs:403-439 | A confirmation is taken exactly from the gateway and for at most the pending units, and turns exactly those into counted ones. |
| `CreditRules.ReleaseRule` | contracts/pledge-vault/src/lib.rs:339-394 | Units are released exactly when the position has them and, while anything is owed, the rest keeps the exact debt under the vault's warning threshold on an Ok price. |
| `CreditRules.ReleaseCovered` | contracts/pledge-vault/src/lib.rs:339-394 | While anything is owed, debt times 10^15 stays strictly below the warning threshold times the remaining units times price times what the haircut leaves. |
| `CreditRules.SeizeRule` | contracts/pledge-vault/src/lib.rs:447-477 | Units move out on a liquidation exactly while the position has them, with their tokens from escrow only. |
| `CreditRules.PositionIsNetPledged` | contracts/pledge-vault/src/lib.rs:280-477 | Over every run, a position's units, counted and pending, are those pledged to it less those released and seized: no confirmation or report ever adds one. |
| `CreditRules.ReportRule` | contracts/credit-line/src/lib.rs:427-446 | A line takes over a reported figure exactly from its vault, for its own asset and if it is not negative. |
| `CreditRules.SettingsRule` | contracts/credit-line/src/lib.rs:301-460 | What each setting and report accepts, and the one thing it changes. |
| `CreditLiveness.ReleaseAlwaysWorks` | contracts/pledge-vault/src/lib.rs:339-394 | In every reachable state a borrower gets units back exactly when the position has them and the rest covers the debt: never refused for want of tokens or of the link to the line. |
| `CreditLiveness.SeizureAlwaysWorks` | contracts/pledge-vault/src/lib.rs:447-477 | In every reachable state units can be moved out exactly while the position has them. |
| `CreditLiquidation.PokeFlag` | contracts/credit-line/src/lib.rs:580-608 | A poke leaves the breach flag up exactly when it saw a liquidation-level breach on an Ok price, and never re-dates one already up. |
| `CreditLiquidation.TwoReadsBeforeLiquidation` | contracts/credit-line/src/lib.rs:613-641 | Over every run a line is liquidated only after a poke at a strictly earlier ledger saw the breach on an Ok price, every later poke saw it too, and the liquidating read confirms it. |
| `CreditLiquidation.RecordHasOrigin` | contracts/credit-line/src/lib.rs:643-661 | Over every run, every liquidation record goes back to a liquidating read that saw the breach, and still holds the whole collateral that read counted, the Ok price it confirmed and the debt it found. |
| `CreditLiquidation.OutcomeNeverMoves` | contracts/credit-line/src/lib.rs:613-721 | Between any two moments of a run the status only moves Open, Liquidating, Closed; frozen figures never change; a booked outcome never changes, and its recovered minus the frozen debt is surplus minus shortfall with one of them zero. |
| `CreditLiquidation.ClosedOwesNothing` | contracts/credit-line/src/lib.rs:674-712 | A closed line stays closed and owes nothing at any later time. |
| `CreditInterest.DeltaRoundsDown` | contracts/credit-line/src/lib.rs:235-238 | A checkpoint books the pending interest, short of the exact figure by less than one stroop. |
| `CreditInterest.InterestWithinAStroopPerCheckpoint` | contracts/credit-line/src/lib.rs:481-555 | Interest charged to any moment, accrued or repaid, never exceeds the exact piecewise sum over the run and falls short by less than one stroop per checkpoint, plus one for the moment itself. |
| `CreditContract.CreditLine.Open` | contracts/credit-line/src/lib.rs:325-372 | In place, commits exactly the specified transaction or changes nothing: a new line under the next id. |
| `CreditContract.CreditLine.AddFunds` | contracts/credit-line/src/lib.rs:376-397 | In place, commits exactly the specified transaction or changes nothing: funding. |
| `CreditContract.CreditLine.Sync` | contracts/credit-line/src/lib.rs:427-446 | In place, commits exactly the specified transaction or changes nothing: the vault's report. |
| `CreditContract.CreditLine.Reconcile` | contracts/credit-line/src/lib.rs:452-460 | In place, commits exactly the specified transaction or changes nothing: the keeper's report. |
| `CreditContract.CreditLine.DrawFunds` | contracts/credit-line/src/lib.rs:464-520 | In place, commits exactly the specified transaction or changes nothing: a draw, accrual first. |
| `CreditContract.CreditLine.Pay` | contracts/credit-line/src/lib.rs:529-569 | In place, commits exactly the specified transaction or changes nothing: a repayment capped at what is owed; also says how much was applied. |
| `CreditContract.CreditLine.PokeLine` | contracts/credit-line/src/lib.rs:580-608 | In place, commits exactly the specified transaction or changes nothing: margin state, unhealthy-since and breach flag. |
| `CreditContract.CreditLine.Liquidate` | contracts/credit-line/src/lib.rs:613-662 | In place, commits exactly the specified transaction or changes nothing: the frozen record and the status. |
| `CreditContract.CreditLine.Close` | contracts/credit-line/src/lib.rs:674-721 | In place, commits exactly the specified transaction or changes nothing: the outcome booked and the line zeroed. |
| `CreditContract.CreditLine.TakeUndrawn` | contracts/credit-line/src/lib.rs:725-746 | In place, commits exactly the specified transaction or changes nothing: undrawn funding out, undone if the transfer fails. |
| `CreditContract.CreditLine.TakeInterest` | contracts/credit-line/src/lib.rs:750-771 | In place, commits exactly the specified transaction or changes nothing: repaid interest out, undone if the transfer fails. |
| `CreditContract.CreditLine.Book` | contracts/credit-line/src/lib.rs:540-557 | The step-by-step split of a payment leaves the interest part, the principal part and the remainder the specification gives. |
| `CreditContract.PledgeVault.Store` | contracts/pledge-vault/src/lib.rs:176-193 | In place across both contracts and the tokens, commits exactly the specified transaction or changes nothing: the position written and reported, the write undone when the report is refused. |
| `CreditContract.PledgeVault.PledgeUnits` | contracts/pledge-vault/src/lib.rs:280-324 | In place across both contracts and the tokens, commits exactly the specified transaction or changes nothing: escrowed or pending units. |
| `CreditContract.PledgeVault.TakeIn` | contracts/pledge-vault/src/lib.rs:312-320 | In place across both contracts and the tokens, commits exactly the specified transaction or changes nothing: units in by mode, position stored. |
| `CreditContract.PledgeVault.TakeOut` | contracts/pledge-vault/src/lib.rs:466-473 | In place across both contracts and the tokens, commits exactly the specified transaction or changes nothing: units out in escrow mode only, position stored. |
| `CreditContract.PledgeVault.ReleaseUnits` | contracts/pledge-vault/src/lib.rs:339-394 | In place across both contracts and the tokens, commits exactly the specified transaction or changes nothing: a release and its health check. |
| `CreditContract.PledgeVault.ConfirmLien` | contracts/pledge-vault/src/lib.rs:403-439 | In place across both contracts and the tokens, commits exactly the specified transaction or changes nothing: pending units turned into counted ones. |
| `CreditContract.PledgeVault.Seize` | contracts/pledge-vault/src/lib.rs:447-477 | In place across both contracts and the tokens, commits exactly the specified transaction or changes nothing: units moved out on liquidation. |
| `Medians.SortUpSorts` | contracts/price-guard/src/lib.rs:331-341 | Insertion sort yields the ascending permutation. |
| `Medians.AscendingUnique` | contracts/price-guard/src/lib.rs:331-341 | There is only one ascending permutation. |
| `Medians.MedianOrderFree` | contracts/price-guard/src/lib.rs:448-456 | The median depends on the readings as a multiset only. |
| `Medians.MedianBetween` | contracts/price-guard/src/lib.rs:448-456 | The median lies between the two middles of the sorted readings, hence between lowest and highest. |
| `Medians.BandBoundsDistance` | contracts/price-guard/src/lib.rs:356-367 | Readings within the band are within `band + 1` basis points of themselves from anything between lowest and highest. |
| `Medians.SortBuf.Place` | contracts/price-guard/src/lib.rs:332-340 | One round of shifting puts the key where insertion puts it and leaves the rest of the buffer alone. |
| `Medians.SortBuf.Sort` | contracts/price-guard/src/lib.rs:331-341 | The in-place sort leaves the buffer holding the specified ascending permutation of its contents. |
| `GuardPrices.OkPriceIsCloseToEverySource` | contracts/price-guard/src/lib.rs:399-472 | An Ok price rests on at least two readings of different sources, each unstale, at most 60 seconds ahead and no older than configured, and on every listed reading that is so; it is the median of their ascending permutation, and differs from every one by less than (band + 1) basis points of it. |
| `GuardPrices.CountedExactly` | contracts/price-guard/src/lib.rs:281-289 | The readings used are exactly those unstale, at most 60 seconds ahead and no older than configured, one for each name. |
| `GuardRules.EvaluateRule` | contracts/price-guard/src/lib.rs:399-565 | What an evaluation answers and stores in every reachable state, by exact inequalities: halted, degraded for fewer than two usable readings or for disagreement, halted by a move beyond either band, or Ok at the median; it refuses only more than eight. |
| `GuardRules.MedianExactly` | contracts/price-guard/src/lib.rs:448-456 | The median is the middle reading, or the mean of the two middle ones rounded down. |
| `GuardRules.MedianOnce` | contracts/price-guard/src/lib.rs:448-456 | Only one number is. |
| `GuardRules.PublishRule` | contracts/price-guard/src/lib.rs:1032-1055 | A reading is taken exactly for a configured asset, a positive value and a date at most 60 seconds ahead, if it can be evaluated; it is filed under its name and nothing else of the asset changes before the evaluation. |
| `GuardRules.NavRule` | contracts/price-guard/src/lib.rs:985-1027 | The same for an issuer's reading, with a signature under the asset's key for code, time and value unless signatures were switched off. |
| `GuardRules.RemoveRule` | contracts/price-guard/src/lib.rs:794-808 | Removing a source takes its reading and the first mention of its name. |
| `GuardRules.ConfirmRule` | contracts/price-guard/src/lib.rs:1084-1124 | A confirmation makes the pending value both baselines as of now. |
| `GuardRules.ConfigureRule` | contracts/price-guard/src/lib.rs:676-730 | Configuring is refused exactly when one of five rules of a configured asset would get looser. |
| `GuardRules.KeyRule` | contracts/price-guard/src/lib.rs:735-790 | A key is set once, and the signature flag is not switched off once on. |
| `GuardRules.QueueRule` | contracts/price-guard/src/lib.rs:812-849 | A change waits 172,800 seconds under the next id and can be dropped meanwhile. |
| `GuardRules.ExecuteRule` | contracts/price-guard/src/lib.rs:853-948 | A queued change is executed exactly from its date on while its asset is configured, sets its own field, leaves every other as it was, and is used up. |
| `GuardPrices.PriceIsOrderFree` | contracts/price-guard/src/lib.rs:399-472 | One evaluation at one stored baseline: listing the same sources in another order changes neither the answer nor what is stored. |
| `GuardPrices.FreshPermuted` | contracts/price-guard/src/lib.rs:403-410 | Permuting the listed names permutes the fresh values: the same multiset. |
| `GuardOrder.PublishingLeaves` | contracts/price-guard/src/lib.rs:399-565 | For every guard not halted and every sequence of readings published at one moment: all publishes succeed exactly when, as long as nothing jumped, each finds room; and what they leave is given by the readings, the configuration and the figures stored before: the medians of the agreeing prefixes up to the first that jumps, which halts. |
| `GuardOrder.EndsOkExactly` | contracts/price-guard/src/lib.rs:399-565 | A sequence of publishes ends in an Ok price exactly when there is room, no median on the way moves beyond the daily band of the one before it or the window band of the reference, and all readings together agree. |
| `GuardOrder.OrdersLeaveAlike` | contracts/price-guard/src/lib.rs:399-565 | For any two orders of the same readings of different sources: each halts the asset exactly when one of its medians jumps, and both leave the same exactly when their medians do. |
| `GuardOrder.OrderShowsInReference` | contracts/price-guard/src/lib.rs:399-565 | When the readings agree as a whole and no median of either order jumps, both end Ok with the same last good value, and the same stored state exactly when the window is zero, the reference was not due, or the first agreeing medians are equal. |
| `GuardOrder.HaltedOrderNeverShows` | contracts/price-guard/src/lib.rs:424-434 | While halted, any sequence of publishes stores the readings and changes nothing else, so their order never shows. |
| `GuardOrder.PublishingStores` | contracts/price-guard/src/lib.rs:1032-1055 | In any run, a stretch of publishes of one asset stores exactly what the two results above speak of. |
| `GuardWitness.OrderShows` | contracts/price-guard/src/lib.rs:399-565 | Two runs from genesis that publish the same three readings in opposite orders and end with the same price but references 100 and 101. |
| `GuardHalting.OrderHalts` | contracts/price-guard/src/lib.rs:474-539 | Two runs from genesis that differ in the order of their last two publishes: one halts the asset, the other ends Ok at 100. |
| `GuardPrices.EvaluateIdempotent` | contracts/price-guard/src/lib.rs:399-565 | Evaluating twice at one timestamp gives the same answer and state. |
| `GuardPrices.HaltedStaysPut` | contracts/price-guard/src/lib.rs:424-434 | While halted, evaluation over any readings moves neither baseline, reference nor pending value. |
| `GuardPrices.ConfirmingYieldsOk` | contracts/price-guard/src/lib.rs:1084-1124 | After a confirmation, with the configuration and fresh readings that caused the halt, the next evaluation is Ok at exactly the confirmed value. |
| `GuardPrices.HaltHasMedian` | contracts/price-guard/src/lib.rs:474-539 | A halt comes from agreeing readings and the value awaiting confirmation is their median. |
| `GuardCapacity.NeverMoreThanEight` | contracts/price-guard/src/lib.rs:315-329 | Over every run, an asset for which nothing was published during a halt and whose staleness was never loosened has at most eight fresh readings, its price can always be read, and a well-formed publish reverts exactly when the asset is not halted and its reading would be the ninth fresh one. |
| `GuardNine.NineFreshReadings` | contracts/price-guard/src/lib.rs:315-329 | A run from genesis in which seven readings published during a halt make nine fresh ones, and after the confirmation every read reverts. |
| `GuardNine.NineAfterLoosening` | contracts/price-guard/src/lib.rs:315-329 | A run from genesis, never halted, in which loosening the staleness makes nine stale readings fresh and every read reverts. |
| `GuardRuns.AlwaysSound` | contracts/price-guard/src/lib.rs:399-565 | Over every run halted holds exactly when a value is pending; last good value and reference are present together and positive. |
| `GuardRuns.HaltLatched` | contracts/price-guard/src/lib.rs:424-434 | Over any stretch without a confirmation, no publish, read, removal or configuration moves a halted asset's baseline, reference or pending value. |
| `GuardRuns.PriceSpeedLimit` | contracts/price-guard/src/lib.rs:500-553 | With a fixed configuration and no confirmation, counted from any moment at which the last good value is the reference r, T seconds after that reference was set the last good price is at most r((10001+w)/10000)^(floor(T/window)+1), and at least the matching lower bound for w < 9999. |
| `GuardRuns.SpeedLimitSinceFirst` | contracts/price-guard/src/lib.rs:500-553 | The same bound from the first reference an asset ever gets. |
| `GuardRuns.SpeedLimitSinceConfirmation` | contracts/price-guard/src/lib.rs:1084-1124 | The same bound from every confirmation of a halt, around the confirmed value. |
| `GuardRuns.LooseningWaits` | contracts/price-guard/src/lib.rs:676-948 | Over every run no configured band, staleness, window, issuer key or signature requirement is loosened except by executing a change about that asset or about the signature requirement, queued at least 48 hours earlier and not cancelled since; and the loosening step is exactly that change applied as it was queued. |
| `GuardRuns.SwitchingOffWaits` | contracts/price-guard/src/lib.rs:765-790 | Over every run signatures stop being required only by a change queued at least 48 hours earlier and not cancelled since, or by the very first setting of the flag ever. |
| `GuardContract.Collect` | contracts/price-guard/src/lib.rs:403-410 | The filter loop collects exactly the fresh readings in publication order. |
| `GuardContract.Agree` | contracts/price-guard/src/lib.rs:356-367 | The lowest-and-highest scan decides the band exactly. |
| `GuardContract.SortedMedian` | contracts/price-guard/src/lib.rs:448-461 | Sorting in the fixed buffer gives the median and the ascending readings. |
| `GuardContract.PriceGuard.EvaluateNow` | contracts/price-guard/src/lib.rs:399-565 | In place, commits exactly the specified transaction or changes nothing: every branch of the rules and what it writes; also gives the answer. |
| `GuardContract.PriceGuard.Publish` | contracts/price-guard/src/lib.rs:1032-1055 | In place, commits exactly the specified transaction or changes nothing: an independent reading. |
| `GuardContract.PriceGuard.PublishIssuerNav` | contracts/price-guard/src/lib.rs:985-1027 | In place, commits exactly the specified transaction or changes nothing: an issuer reading; the signature must be valid for the message built from the given code, time and value. |
| `GuardContract.PriceGuard.Remove` | contracts/price-guard/src/lib.rs:794-808 | In place, commits exactly the specified transaction or changes nothing: a source and its name removed. |
| `GuardContract.PriceGuard.Confirm` | contracts/price-guard/src/lib.rs:1084-1124 | In place, commits exactly the specified transaction or changes nothing: the pending value promoted. |
| `GuardContract.PriceGuard.Configure` | contracts/price-guard/src/lib.rs:676-730 | In place, commits exactly the specified transaction or changes nothing: tightening at once, loosening refused. |
| `GuardContract.PriceGuard.RegisterKey` | contracts/price-guard/src/lib.rs:735-761 | In place, commits exactly the specified transaction or changes nothing: first key at once, rotation refused. |
| `GuardContract.PriceGuard.RequireSignatures` | contracts/price-guard/src/lib.rs:765-790 | In place, commits exactly the specified transaction or changes nothing: the signature flag. |
| `GuardContract.PriceGuard.Queue` | contracts/price-guard/src/lib.rs:812-833 | In place, commits exactly the specified transaction or changes nothing: a change under the next id, 48 hours out. |
| `GuardContract.PriceGuard.Cancel` | contracts/price-guard/src/lib.rs:836-849 | In place, commits exactly the specified transaction or changes nothing: a pending change dropped. |
| `GuardContract.PriceGuard.Execute` | contracts/price-guard/src/lib.rs:853-948 | In place, commits exactly the specified transaction or changes nothing: a ready change applied and consumed. |
| `GuardContract.PriceGuard.Adopt` | contracts/price-guard/src/lib.rs:474-556 | The daily-move check, the window check, the reference refresh and the new last good value, in that order, leave what the specification gives. |
| `GuardContract.PriceGuard.Forget` | contracts/price-guard/src/lib.rs:248-256 | The copying loop drops the first matching name and no other. |
| `Decimals.FillDigits` | contracts/price-guard/src/lib.rs:146-160 | The backward digit loop writes exactly the canonical decimal and touches nothing behind it. |
| `Decimals.U64ToBytes` | contracts/price-guard/src/lib.rs:146-160 | Twenty bytes hold every 64-bit value, printed canonically. |
| `Decimals.I128ToBytes` | contracts/price-guard/src/lib.rs:162-181 | Forty bytes hold every 128-bit signed value and its sign, printed canonically. |
| `Decimals.BuildNavMessage` | contracts/price-guard/src/lib.rs:187-195 | The message is code, colon, time, colon, value. |
| `Decimals.NavMessageReadsBack` | contracts/price-guard/src/lib.rs:187-195 | Parsing from the right recovers code, time and value, whatever colons the code contains. |
| `Decimals.NavMessageInjective` | contracts/price-guard/src/lib.rs:187-195 | Equal messages mean equal code, time and value. |
| `GuardNav.OneReadingPerSignature` | contracts/price-guard/src/lib.rs:985-1027 | While signatures are required, a signature valid for one message under a key lets through one code, time and value only, for all assets registered with that key. |
| `GuardNav.OneSignatureTwoAssets` | contracts/price-guard/src/lib.rs:985-1027 | The message does not name the asset: for every key, code and value, a run from genesis in which one signature, valid for one message only, puts the same reading into two assets registered with that key. |
| `Decimals.DecCanonical` | contracts/price-guard/src/lib.rs:146-160 | Every printed number is free of superfluous zeros. |
| `Decimals.DecParse` | contracts/price-guard/src/lib.rs:146-160 | Printing undoes parsing on strings without superfluous zeros. |
| `Decimals.DecimalMeans` | packages/domain-types/src/money.ts:21-28 | A dotted decimal means its whole part scaled plus its first seven fractional digits, negated as a whole under a minus sign. |
| `Decimals.WholeMeans` | packages/domain-types/src/money.ts:21-28 | A decimal without a dot is all whole part, negated under a minus sign. |
| `Decimals.MoneyRoundTrip` | packages/domain-types/src/money.ts:13-28 | Every amount n >= 0 survives the trip through its decimal string. |
| `Decimals.StringRoundTrip` | packages/domain-types/src/money.ts:13-28 | Every canonical string with seven fractional digits survives the trip through its amount. |
| `ExitDesk.ExitSwaps` | contracts/exit-desk/src/lib.rs:344-411 | An exit is one swap on an Ok price: units in, at least min_usdc_out and more than zero out, no other balance or allowance moves. |
| `ExitDesk.ExitCounts` | contracts/exit-desk/src/lib.rs:369-405 | An exit adds exactly its units to one day's counter and to the inventory, within the cap, and changes nothing else stored. |
| `ExitRules.ExitRule` | contracts/exit-desk/src/lib.rs:344-411 | An exit happens exactly when pause, asset, price, minimum, both caps and both balances allow it, at the price less the spread and the units at that price, each cut once; and what it leaves. |
| `ExitRules.QuoteRule` | contracts/exit-desk/src/lib.rs:136-164 | When the desk quotes, and the price, payout and the 60 seconds of the quote. |
| `ExitRules.WithdrawRule` | contracts/exit-desk/src/lib.rs:304-328 | A withdrawal pays out of what the desk holds; a configured asset's inventory falls by the smaller of the amount and what it was. |
| `ExitRules.SettingsRule` | contracts/exit-desk/src/lib.rs:198-295 | What each setting and funding accepts, and the one thing it changes. |
| `ExitDesk.PayoutBounds` | contracts/exit-desk/src/lib.rs:147-155 | The two floors never overpay, and fall short of the exact value by less than one stroop plus one price step per unit. |
| `ExitDesk.SplittingPaysNoMore` | contracts/exit-desk/src/lib.rs:152-155 | At one price k partial exits pay no more than one, and lose less than k stroops. |
| `ExitDesk.DailyCountIsExact` | contracts/exit-desk/src/lib.rs:369-377 | The day's counter equals the units actually exited that day over the run, and never exceeds the cap. |
| `ExitDesk.WindowLimit` | contracts/exit-desk/src/lib.rs:369-377 | In any interval of 86,400 seconds a holder exits at most twice the daily cap. |
| `ExitWitness.WindowLimitIsReached` | contracts/exit-desk/src/lib.rs:369-377 | For every cap a run reaches exactly twice the cap within one second around midnight, so that bound is the least. |
| `ExitDesk.InventoryIsBacked` | contracts/exit-desk/src/lib.rs:304-405 | Over every run recorded inventory is non-negative and at most the desk's balance of that asset, for every asset but USDC. |
| `ExitDesk.ExitStaysBacked` | contracts/exit-desk/src/lib.rs:379-405 | Why USDC is excluded: after an exit of any asset the inventory is within the desk's balance if and only if the balance exceeded the inventory before by at least what was paid out of that same asset. |
| `ExitWitness.UsdcInventoryUnbacked` | contracts/exit-desk/src/lib.rs:344-411 | For every amount, a run from genesis after which the desk records that much USDC as inventory and holds none. |
| `ExitContract.Desk.Configure` | contracts/exit-desk/src/lib.rs:198-231 | In place, commits exactly the specified transaction or changes nothing: caps and spread. |
| `ExitContract.Desk.FundDesk` | contracts/exit-desk/src/lib.rs:277-295 | In place, commits exactly the specified transaction or changes nothing: float in. |
| `ExitContract.Desk.WithdrawTo` | contracts/exit-desk/src/lib.rs:304-328 | In place, commits exactly the specified transaction or changes nothing: assets out, inventory freed. |
| `ExitContract.Desk.Settle` | contracts/exit-desk/src/lib.rs:388-400 | In place, commits exactly the specified transaction or changes nothing: both transfers or neither. |
| `ExitContract.Desk.ExitNow` | contracts/exit-desk/src/lib.rs:344-411 | In place, commits exactly the specified transaction or changes nothing: the whole exit; also says what was paid. |
| `Registry.AcceptedExactly` | contracts/common/src/asset.rs:57-86 | The ordered checks accept a config exactly when its combined haircut is at most 100%, both bands are 1 to 10000, it names its own address and its status is known. |
| `RegistryRules.RegisterRule` | contracts/registry/src/lib.rs:132-146 | An asset is registered exactly once and within the whole policy. |
| `RegistryRules.QueueRule` | contracts/registry/src/lib.rs:160-201 | A change of a registered asset waits 172,800 seconds under the next id and can be dropped meanwhile. |
| `RegistryRules.ExecuteRule` | contracts/registry/src/lib.rs:205-245 | A queued change is executed exactly from its date on when the config with just that field set passes the whole policy. |
| `RegistryRules.RaiseRule` | contracts/registry/src/lib.rs:250-270 | The brake adds to the base haircut, at most up to all of the value with the other haircut, and touches nothing else. |
| `Registry.AlwaysAccepted` | contracts/registry/src/lib.rs:132-270 | Every config stored in any reachable state passes the whole policy, although the emergency brake re-checks only the total haircut. |
| `Registry.ConfigChangesWait` | contracts/registry/src/lib.rs:205-270 | A registered config changes only by the brake raising its base haircut, or by applying, exactly as queued, a change queued for it at least 172,800 seconds earlier and not cancelled since. |
| `Registry.LoweringWaits` | contracts/registry/src/lib.rs:205-245 | No base or FX haircut gets lower except by such an executed change of a haircut. |
| `Registry.ExecutesOnce` | contracts/registry/src/lib.rs:188-240 | An executed or cancelled id can never be executed or cancelled again. |
| `Registry.RegistryContract.Register` | contracts/registry/src/lib.rs:132-146 | In place, commits exactly the specified transaction or changes nothing: a new asset. |
| `Registry.RegistryContract.Queue` | contracts/registry/src/lib.rs:160-184 | In place, commits exactly the specified transaction or changes nothing: a change under the next id. |
| `Registry.RegistryContract.Cancel` | contracts/registry/src/lib.rs:188-201 | In place, commits exactly the specified transaction or changes nothing: a change dropped. |
| `Registry.RegistryContract.Execute` | contracts/registry/src/lib.rs:205-245 | In place, commits exactly the specified transaction or changes nothing: a ready change applied, re-validated and consumed. |
| `Registry.RegistryContract.Raise` | contracts/registry/src/lib.rs:250-270 | In place, commits exactly the specified transaction or changes nothing: the emergency brake. |
| `Registry.RegistryContract.MintId` | contracts/common/src/timelock.rs:34-39 | Mints consecutive ids. |
| `KeeperLane.FirstComeFirstServed` | services/keeper/src/jobQueue.ts:60-81 | Over every sequence of ticks, starts and settlements, the t-th accepted job starts as the t-th or still waits in its place, the running one is the first not settled, and no two running or waiting jobs have the same name. |
| `KeeperPromises.RunsAsLane` | services/keeper/src/jobQueue.ts:59-81 | Every run of the promise chain is a run of that lane: a callback called is the next job started, a name freed is the turn settled, everything else changes nothing seen from outside. |
| `KeeperPromises.NoLinkEverRejects` | services/keeper/src/jobQueue.ts:67-79 | Over every run, whatever jobs and alerts do, no link of the chain is ever rejected; a result is rejected only when its own turn failed. |
| `KeeperPromises.NextIsCallable` | services/keeper/src/jobQueue.ts:67-79 | Once a result has settled, fulfilled or rejected, the next callback can be called, at once or after the one link between, and it is called, not skipped. |
| `KeeperPromises.InFlightExactly` | services/keeper/src/jobQueue.ts:60-72 | A name is in flight exactly while a job of that name is queued or its turn is not over, and no two such jobs have one name. |
| `KeeperPromises.TurnsEndForAReason` | services/keeper/src/jobQueue.ts:41-57 | Over every run a turn times out only after its own deadline fired, completes only once its job has completed, and fails only once its job has failed. |
| `KeeperPromises.LateSettlementIsIgnored` | services/keeper/src/jobQueue.ts:47-53 | A job that settles after its turn is over changes nothing ever after, for any continuation: results, links, names in flight and what can happen next stay the same. |
| `KeeperPromises.NeverJams` | services/keeper/src/jobQueue.ts:41-80 | Over every run with any ticks interleaved: once the lane has moved as often as the jobs up to the t-th have moves left, at most seven each, the t-th has been called and its promise settled. |
| `KeeperPromises.AlwaysAMove` | services/keeper/src/jobQueue.ts:41-80 | Until then some move is always possible that needs no job to settle: a deadline, a race, a result, a link or a call. |
| `KeeperPromises.JobQueue.Run` | services/keeper/src/jobQueue.ts:60-81 | In place, a tick is dropped and counted exactly when its name is in flight, else its job is chained last. |
| `KeeperPromises.JobQueue.CallBack` | services/keeper/src/jobQueue.ts:67-69 | In place, the callback is called whenever its link has settled: it races its deadline, or is over at once if it threw. |
| `KeeperPromises.JobQueue.EndRace` | services/keeper/src/jobQueue.ts:46-53 | In place, the turn ends as completed, failed or timed out, by whichever settled first. |
| `KeeperPromises.JobQueue.Free` | services/keeper/src/jobQueue.ts:70-72 | In place, however the turn ended its name is taken out of those in flight. |
| `KeeperPromises.JobQueue.SettleResult` | services/keeper/src/jobQueue.ts:67-73 | In place, the caller's promise rejects exactly when the turn failed or its alert threw. |
| `KeeperPromises.JobQueue.SettleTail` | services/keeper/src/jobQueue.ts:76-79 | In place, the link is fulfilled whatever the result was. |
| `KeeperLock.LockKeysAgree` | services/keeper/src/lock.ts:5-8 | Two names share a lock key exactly when they are equal or the scope is global. |
| `KeeperLock.BodiesNeverOverlap` | services/keeper/src/lock.ts:22-96 | Over every interleaving, two running bodies of one name, or any two under the global scope, never overlap across processes or after abandonment unless the connection holding a lock broke under its body. |
| `KeeperWitness.LostConnectionOverlaps` | services/keeper/src/lock.ts:22-96 | That exception is real: for every job name, a run of two processes in which the connection behind the first body's lock breaks and both bodies run. |
| `KeeperLock.OnePerProcess` | services/keeper/src/jobQueue.ts:60-81 | At most one execution per process is not yet abandoned, and it is the lane's current one. |
| `KeeperLock.GivenUpByDeadline` | services/keeper/src/jobQueue.ts:41-57 | Over every run a lane gives a turn up before its execution has finished only by the deadline of that very turn. |
| `KeeperLock.StartedInOrder` | services/keeper/src/jobQueue.ts:60-81 | Executions come into being in the order their ticks were accepted. |
| `KeeperLock.HangingNeverBlocks` | services/keeper/src/jobQueue.ts:41-80 | From every reachable state and for every continuation with any interleaving, once the lane has passed its deadline and called its next job as often as there are jobs up to the t-th, the t-th has been started. |
| `KeeperLock.LockServer.Acquire` | services/keeper/src/lock.ts:22-46 | The session is kept exactly when the lock was obtained. |
| `KeeperLock.LockServer.Execute` | services/keeper/src/lock.ts:54-96 | The body runs only under the lock; on every path the session returns to the pool, and the lock table is restored unless the unlock itself fails. |
| `KeeperLock.Uninterrupted` | services/keeper/src/lock.ts:54-96 | The interleaved steps of one execution, taken alone, leave the lock table and the pool that `LockServer.Execute` promises. |
| `Idempotency.CallsNeverOverlap` | services/issuer-gateway/src/idempotency.ts:63-115 | Under every interleaving, lost answer and crash, two issuer calls for a key never overlap, and the claim row carries the caller's parameters while its call is under way. |
| `Idempotency.OneSuccess` | services/issuer-gateway/src/idempotency.ts:63-126 | At most one issuer call ever succeeds, and every result given out, replayed or not, is that success's for the same parameters. |
| `Idempotency.NoCallAfterSuccess` | services/issuer-gateway/src/idempotency.ts:117-126 | After a success the issuer is never called again, even when storing the result failed. |
| `Idempotency.AnsweredAfterSuccess` | services/issuer-gateway/src/idempotency.ts:83-102 | After a success a reader gets the stored result, a conflict until it is stored, or a refusal for other parameters. |
| `Idempotency.ReleasedKeyIsFree` | services/issuer-gateway/src/idempotency.ts:104-115 | A released claim leaves the key as if never used. |
| `Idempotency.Uninterrupted` | services/issuer-gateway/src/idempotency.ts:63-126 | Without interference, the interleaved steps of one request end in the row and outcome of the whole run. |
| `Idempotency.ClaimTable.Run` | services/issuer-gateway/src/idempotency.ts:63-126 | The whole function run alone: when the issuer is called, what is returned or thrown, and what the row holds, for every combination of failures. |
| `Tokens.Transfer` | contracts/repo-dvp/src/lib.rs:729-734 | A transfer succeeds exactly when the balance covers it and moves exactly the amount. |
| `Tokens.TransferFrom` | contracts/repo-dvp/src/lib.rs:737-742 | Spending an allowance succeeds exactly within balance, figure and expiry, and lowers the figure by the amount. |
| `Tokens.Approve` | contracts/repo-dvp/src/lib.rs:768-773 | An approval replaces the (owner, spender) figure and no other. |
| `Tokens.OthersCannotTake` | contracts/repo-dvp/src/lib.rs:729-742 | Nobody else's token operation lowers the holdings of an address that grants no allowance. |
| `TokenLedger.Ledger.Send` | contracts/repo-dvp/src/lib.rs:729-734 | Moving tokens in place commits exactly the specified token operation or changes nothing. |
| `TokenLedger.Ledger.Grant` | contracts/repo-dvp/src/lib.rs:768-773 | Moving tokens in place commits exactly the specified token operation or changes nothing. |
| `TokenLedger.Ledger.Pull` | contracts/repo-dvp/src/lib.rs:737-742 | Moving tokens in place commits exactly the specified token operation or changes nothing. |

## Left out

- Integer widths: amounts, times and ids are unbounded; a checked overflow of the original is a revert that the model does not have. The 32-bit saturation of `allowance_expiry`, of `ltv_bps` and of the emergency brake is modelled.
- Storage lifetimes, archival and time-to-live extension, events, `LastStatus` and the stored audit record of an issuer reading: no effect on the properties proved.
- Roles, role rotation, admin transfer, contract upgrades, and the timelocks on unpausing: only their use of the id counter they share with trades and queued changes appears.
- Ed25519 itself: a signature is the set of key and message pairs it verifies for.
- Price guards called by the other contracts answer with arbitrary quotes; their own behaviour is proved separately.
- Tokens are plain balances and allowances: no transfer fees, clawback, freezing or authorisation checks of an issuer.
- The vault's per-asset credit-line address: every configured asset names the one credit line modelled.
- The credit line's vault address: only ever set to the one vault modelled.
- `agreement_hash`, `cure_s` and the liquidation route: stored or ignored by the original, never read again by it.
- The lender's leg-1 allowance: a later proposal deliberately replaces an earlier one, so there is no such invariant.
- Units delivered on liquidation against the units recorded as seized: repayment and release stay possible while a line is being liquidated.
- `PostgreSQL` hashing of lock keys is an arbitrary function; processes that use different lock scopes exclude each other only where their keys coincide.
- An issuer call that reaches the issuer and still fails for the caller counts as failed: de-duplicating it is the issuer's part.
- The request fingerprint stands for the parameters themselves, and header checking of the idempotency key is not modelled.
- Decimal strings with anything but digits, one minus sign and dots: the original accepts hexadecimal and blank forms through `BigInt`, the model refuses them.
- Unhandled rejections of a job's promise, logging and the alert sent about a deadline; only that the alert may throw appears.
- `KeeperLock.LockServer.Execute`: describes one execution without interference; interleavings are `KeeperLock.BodiesNeverOverlap`.
- `Idempotency.ClaimTable.Run`: describes one request without interference; interleavings are the theorems on runs.
- Exactly-once settlement in the API service, session and key handling, indexers, alerting and user interfaces.
