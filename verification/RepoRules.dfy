/** The rules of the repo contract, entry point by entry point, in plain arithmetic: when each succeeds in a
    reachable state, and what it leaves. */
module RepoRules {
  import opened Prelude
  import opened Tokens
  import opened Risk
  import opened Measures
  import opened RepoSpec
  import RepoEscrow
  import RepoAllowance
  import RepoRestore

  // ----- what every reachable state has

  ghost predicate Standing(w: World) {
    && RepoEscrow.WellFormed(w)
    && (forall asset :: RepoEscrow.Surplus(w, asset) >= 0)
    && (forall id | id in w.repo.trades :: RepoRestore.SoundTrade(w, id))
    && (forall b :: DueOf(w.repo, b) >= 0)
  }

  lemma ReachableStands(ws: seq<World>, acts: seq<Action>, n: nat)
    requires IsRun(ws, acts) && IsGenesis(ws[0]) && n <= |acts|
    requires GrantsNothing(ws[0].bank, ws[0].host.self) && forall asset :: RepoEscrow.Held(ws[0], asset) >= 0
    requires forall a | a in acts :: Authorised(ws[0].host, a)
    ensures Standing(ws[n])
  {
    RepoEscrow.EscrowConserved(ws, acts, n);
    RepoRestore.AlwaysKept(ws, acts, n, 0);
    RepoRestore.DueAt(ws, acts, n);
  }

  // ----- figures

  /** The last ledger the host lets an entry made at `ledger` live to. */
  function HostLast(ledger: nat, maxTtl: nat): nat {
    Max(Min(ledger + maxTtl, 4_294_967_295) - 1, 0)
  }

  /** Two whole days of ledgers after the day the trade and its grace end in, if the host allows, else its last
      whole day. */
  function Expiry(ledger: nat, maxTtl: nat, seconds: nat, grace: nat): nat {
    Min(((ledger + seconds / 5 + grace) / 17_280 + 2) * 17_280, HostLast(ledger, maxTtl) / 17_280 * 17_280)
  }

  /** No saturation ever shows in an approval's expiry. */
  lemma ExpiryExact(ledger: nat, maxTtl: nat, seconds: nat, grace: nat)
    ensures AllowanceExpiry(ledger, maxTtl, seconds, grace) == Expiry(ledger, maxTtl, seconds, grace)
    ensures FurthestExpiry(ledger, maxTtl) == HostLast(ledger, maxTtl)
  {
    RepoAllowance.ExpiryIsABucket(ledger, maxTtl, seconds, grace);
  }

  function After(from: nat, to: nat): nat {
    if from < to then to - from else 0
  }

  /** What the trade owes when it is unwound, and what it was at most going to owe when proposed. */
  lemma DueExact(t: Trade, from: nat)
    requires t.cash > 0
    ensures IsInterest(TotalDue(t, from) - t.cash, t.cash, t.rateBps, After(from, t.maturityAt))
  {
    YearlyInterest(t.cash, t.rateBps, After(from, t.maturityAt));
  }

  lemma ExposureExact(t: Trade, now: nat)
    requires t.cash > 0
    ensures IsInterest(Exposure(t, now) - t.cash, t.cash, t.rateBps, After(t.settledAt.GetOr(now), now))
  {
    YearlyInterest(t.cash, t.rateBps, After(t.settledAt.GetOr(now), now));
  }

  function Granted(w: World, owner: Address): Allowance
    requires w.repo.usdc.Some?
  {
    AllowanceOf(w.bank, w.repo.usdc.value, owner, w.host.self)
  }

  function Cash(w: World, who: Address): int
    requires w.repo.usdc.Some?
  {
    BalanceOf(w.bank, w.repo.usdc.value, who)
  }

  /** The two states differ in tokens and storage only. */
  predicate SameMoment(w: World, w': World) {
    w' == w.(bank := w'.bank, repo := w'.repo)
  }

  ghost predicate SameBalances(w: World, w': World) {
    forall token, who :: BalanceOf(w'.bank, token, who) == BalanceOf(w.bank, token, who)
  }

  ghost predicate SameGrants(w: World, w': World) {
    forall token, owner, spender :: AllowanceOf(w'.bank, token, owner, spender) == AllowanceOf(w.bank, token, owner, spender)
  }

  // ----- proposing and cancelling

  /** A proposal is stored under the next id with exactly the terms given, and its lender's allowance is set to
      the cash until a day after the day it matures in. */
  lemma ProposeRule(w: World, lender: Address, borrower: Address, asset: Address, units: int, cash: int, rate: nat, k: Kind, m: nat)
    ensures Propose(w, lender, borrower, asset, units, cash, rate, k, m).Done? <==>
            && asset in w.repo.configs && asset !in w.repo.disabled && units > 0 && cash > 0 && m > w.now
            && w.repo.usdc.Some? && w.repo.usdc.value in w.bank && w.ledger <= Expiry(w.ledger, w.host.maxTtl, m - w.now, 0)
    ensures Propose(w, lender, borrower, asset, units, cash, rate, k, m).Done? ==>
              var w' := Propose(w, lender, borrower, asset, units, cash, rate, k, m).value;
              var id := w.repo.nextId;
              && SameMoment(w, w') && SameBalances(w, w')
              && w'.repo == w.repo.(nextId := id + 1, latest := w.repo.latest[lender := id], trades := w'.repo.trades)
              && w'.repo.trades == w.repo.trades[id :=
                   Trade(lender, borrower, asset, units, cash, rate, k, m, w.now, Proposed, None, None, false, 0, None)]
              && Granted(w', lender) == Allowance(cash, Expiry(w.ledger, w.host.maxTtl, m - w.now, 0))
              && forall x | x != lender :: Granted(w', x) == Granted(w, x)
  {
    if m > w.now {
      ExpiryExact(w.ledger, w.host.maxTtl, m - w.now, 0);
    }
  }

  lemma CancelRule(w: World, caller: Address, id: nat)
    ensures CancelProposal(w, caller, id).Done? <==>
            && id in w.repo.trades && w.repo.trades[id].status.Proposed?
            && (caller == w.repo.trades[id].borrower || caller == w.repo.trades[id].lender)
            && (WithdrawsOffer(w, caller, id) ==> w.repo.usdc.Some? && w.repo.usdc.value in w.bank)
    ensures CancelProposal(w, caller, id).Done? ==>
              var w' := CancelProposal(w, caller, id).value;
              && SameMoment(w, w') && SameBalances(w, w')
              && w'.repo == w.repo.(trades := w.repo.trades[id := w.repo.trades[id].(status := Cancelled)])
              && (!WithdrawsOffer(w, caller, id) ==> w'.bank == w.bank)
              && (WithdrawsOffer(w, caller, id) ==>
                    && Granted(w', caller) == Allowance(0, Expiry(w.ledger, w.host.maxTtl, 0, 0))
                    && forall x | x != caller :: Granted(w', x) == Granted(w, x))
  {
    ExpiryExact(w.ledger, w.host.maxTtl, 0, 0);
  }

  /** The lender takes back its latest offer. */
  predicate WithdrawsOffer(w: World, caller: Address, id: nat) {
    id in w.repo.trades && caller == w.repo.trades[id].lender && caller in w.repo.latest && w.repo.latest[caller] == id
  }

  // ----- settling

  /** Until when the borrower's allowance must live once the trade settles. */
  function SettledExpiry(w: World, t: Trade): nat {
    Max(Expiry(w.ledger, w.host.maxTtl, After(w.now, t.maturityAt), 120_960), DueExpiryOf(w.repo, t.borrower))
  }

  /** Both legs can be moved, one after the other, and the borrower's approval is one the host accepts. */
  predicate LegsCovered(w: World, t: Trade)
    requires w.repo.usdc.Some?
  {
    && t.units <= BalanceOf(w.bank, t.asset, t.borrower)
    && t.cash <= Cash(w, t.lender) + (if t.asset == w.repo.usdc.value then Delta(t.borrower, w.host.self, t.units, t.lender) else 0)
    && t.cash <= Granted(w, t.lender).amount && w.ledger <= Granted(w, t.lender).expiry
    && w.ledger <= SettledExpiry(w, t) <= HostLast(w.ledger, w.host.maxTtl)
  }

  predicate MaySettle(w: World, borrower: Address, id: nat) {
    && !w.repo.paused && id in w.repo.trades
    && var t := w.repo.trades[id];
    && t.status.Proposed? && t.borrower == borrower && t.asset !in w.repo.disabled && w.now < t.maturityAt
    && w.repo.usdc.Some? && LegsCovered(w, t)
  }

  lemma SettleLegsRule(w: World, t: Trade, due: int)
    requires w.repo.usdc.Some? && t.units > 0 && t.cash > 0 && due > 0
    ensures SettleLegs(w.bank, w.host, t, t.borrower, w.repo.usdc.value, due, SettledExpiry(w, t), w.ledger).Done? <==> LegsCovered(w, t)
  {
    ExpiryExact(w.ledger, w.host.maxTtl, 0, 0);
    var escrowed := Transfer(w.bank, t.asset, t.borrower, w.host.self, t.units);
    if escrowed.Done? {
      var paid := TransferFrom(escrowed.value, w.repo.usdc.value, w.host.self, t.lender, t.borrower, t.cash, w.ledger);
      assert paid.Done? <==> && t.cash <= BalanceOf(escrowed.value, w.repo.usdc.value, t.lender)
                             && t.cash <= Granted(w, t.lender).amount && w.ledger <= Granted(w, t.lender).expiry;
    }
  }

  /** In a standing state a trade settles exactly when it may: its terms stay, the moment is stored, and the
      borrower's tracked due and allowance grow by cash plus the interest of the whole time from the proposal. */
  lemma SettleRule(w: World, borrower: Address, id: nat) returns (i: int)
    requires Standing(w)
    ensures AcceptAndSettle(w, borrower, id).Done? <==> MaySettle(w, borrower, id)
    ensures AcceptAndSettle(w, borrower, id).Done? ==>
              var w', t := AcceptAndSettle(w, borrower, id).value, w.repo.trades[id];
              && IsInterest(i, t.cash, t.rateBps, After(t.proposedAt, t.maturityAt))
              && SameMoment(w, w')
              && w'.repo == w.repo.(trades := w'.repo.trades, due := w'.repo.due, dueExpiry := w'.repo.dueExpiry)
              && w'.repo.trades == w.repo.trades[id := t.(status := Settled, leg1Ledger := Some(w.ledger), settledAt := Some(w.now))]
              && DueOf(w'.repo, borrower) == DueOf(w.repo, borrower) + t.cash + i
              && DueExpiryOf(w'.repo, borrower) == SettledExpiry(w, t)
              && Granted(w', borrower) == Allowance(DueOf(w.repo, borrower) + t.cash + i, SettledExpiry(w, t))
  {
    i := 0;
    if id in w.repo.trades {
      var t := w.repo.trades[id];
      assert RepoRestore.SoundTrade(w, id) && RepoEscrow.WellFormedTrade(w.host, t);
      ExpiryExact(w.ledger, w.host.maxTtl, After(w.now, t.maturityAt), 120_960);
      DueExact(t, t.proposedAt);
      i := TotalDue(t, t.proposedAt) - t.cash;
      assert SettledExpiry(w, t) == ExpiryAfter(w, t);
      if w.repo.usdc.Some? {
        SettleLegsRule(w, t, OutstandingAfter(w, t));
      }
      if AcceptAndSettle(w, borrower, id).Done? {
        SettledFigures(w, borrower, id);
      }
    }
  }

  lemma SettledFigures(w: World, borrower: Address, id: nat)
    requires AcceptAndSettle(w, borrower, id).Done? && OutstandingAfter(w, w.repo.trades[id]) > 0
    ensures var w', t := AcceptAndSettle(w, borrower, id).value, w.repo.trades[id];
            && SameMoment(w, w')
            && w'.repo == w.repo.(trades := w'.repo.trades, due := w'.repo.due, dueExpiry := w'.repo.dueExpiry)
            && w'.repo.trades == w.repo.trades[id := t.(status := Settled, leg1Ledger := Some(w.ledger), settledAt := Some(w.now))]
            && DueOf(w'.repo, borrower) == OutstandingAfter(w, t) && DueExpiryOf(w'.repo, borrower) == ExpiryAfter(w, t)
            && Granted(w', borrower) == Allowance(OutstandingAfter(w, t), ExpiryAfter(w, t))
  {
  }

  // ----- unwinding

  /** The cash can be taken from the borrower: by its own signature from its balance, by anybody else's out of
      its allowance as well. */
  predicate CanPay(w: World, caller: Address, t: Trade, total: int) {
    && w.repo.usdc.Some? && total <= Cash(w, t.borrower)
    && (caller != t.borrower ==> total <= Granted(w, t.borrower).amount && w.ledger <= Granted(w, t.borrower).expiry)
  }

  predicate MayUnwind(w: World, caller: Address, id: nat, total: int) {
    && id in w.repo.trades
    && var t := w.repo.trades[id];
    && t.status.Settled? && w.now >= t.maturityAt
    && (caller == t.borrower || caller == t.lender || caller == w.host.keeper)
    && CanPay(w, caller, t, total)
  }

  /** In a standing state an unwind works exactly when it may, and moves the cash and the interest from settling
      to maturity, exact to the stroop, against every unit. */
  lemma UnwindRule(w: World, caller: Address, id: nat) returns (i: int)
    requires Standing(w)
    ensures Unwind(w, caller, id).Done? ==> id in w.repo.trades && w.repo.trades[id].status.Settled?
    ensures id in w.repo.trades && w.repo.trades[id].status.Settled? ==>
              var t := w.repo.trades[id];
              && t.settledAt.Some? && IsInterest(i, t.cash, t.rateBps, After(t.settledAt.value, t.maturityAt))
              && (Unwind(w, caller, id).Done? <==> MayUnwind(w, caller, id, t.cash + i))
    ensures Unwind(w, caller, id).Done? ==>
              var w', t := Unwind(w, caller, id).value, w.repo.trades[id];
              && SameMoment(w, w')
              && w'.repo.trades == w.repo.trades[id := t.(status := Unwound)]
              && w'.repo == w.repo.(trades := w'.repo.trades, due := w'.repo.due, dueExpiry := w'.repo.dueExpiry)
              && w.repo.usdc.Some?
              && (forall token, who :: BalanceOf(w'.bank, token, who) == BalanceOf(w.bank, token, who)
                    + (if token == t.asset then Delta(w.host.self, t.borrower, t.units, who) else 0)
                    + (if token == w.repo.usdc.value then Delta(t.borrower, t.lender, t.cash + i, who) else 0))
  {
    i := 0;
    if id in w.repo.trades && w.repo.trades[id].status.Settled? {
      var t := w.repo.trades[id];
      assert RepoRestore.SoundTrade(w, id) && RepoEscrow.WellFormedTrade(w.host, t);
      DueExact(t, t.settledAt.value);
      i := TotalDue(t, t.settledAt.value) - t.cash;
      RepoAllowance.EscrowCoversTrade(w, id);
      if w.repo.usdc.Some? {
        UnwindLegsRule(w, t, caller, t.cash + i);
      }
      if Unwind(w, caller, id).Done? {
        RepoEscrow.UnwindExchanges(w, caller, id);
        UnwindStores(w, caller, id);
      }
    }
  }

  lemma UnwindLegsRule(w: World, t: Trade, caller: Address, total: int)
    requires w.repo.usdc.Some? && total > 0 && t.borrower != w.host.self && t.lender != w.host.self
    requires 0 < t.units <= BalanceOf(w.bank, t.asset, w.host.self)
    ensures UnwindLegs(w.bank, w.host, t, caller, w.repo.usdc.value, total, w.ledger).Done? <==> CanPay(w, caller, t, total)
  {
    var usdc := w.repo.usdc.value;
    var paid := if caller == t.borrower then Transfer(w.bank, usdc, t.borrower, t.lender, total)
                else TransferFrom(w.bank, usdc, w.host.self, t.borrower, t.lender, total, w.ledger);
    assert paid.Done? <==> CanPay(w, caller, t, total);
    if paid.Done? {
      assert BalanceOf(paid.value, t.asset, w.host.self) == BalanceOf(w.bank, t.asset, w.host.self);
      assert Transfer(paid.value, t.asset, w.host.self, t.borrower, t.units).Done?;
    }
  }

  lemma UnwindStores(w: World, caller: Address, id: nat)
    requires Unwind(w, caller, id).Done?
    ensures var w' := Unwind(w, caller, id).value;
            && SameMoment(w, w')
            && w'.repo.trades == w.repo.trades[id := w.repo.trades[id].(status := Unwound)]
            && w'.repo == w.repo.(trades := w'.repo.trades, due := w'.repo.due, dueExpiry := w'.repo.dueExpiry)
  {
    var closed := w.repo.trades[id].(status := Unwound);
    var stored := w.repo.(trades := w.repo.trades[id := closed]);
    assert Unwind(w, caller, id).value.repo == ReleaseDue(stored, closed);
    RepoAllowance.ReleaseEffect(stored, closed, 0);
  }

  // ----- margin

  /** The exposure and the value a margin evaluation measures: cash and interest since settling, against the
      units at the price less the haircut. */
  ghost predicate Measured(w: World, t: Trade, price: int, exposure: int, value: int) {
    && t.asset in w.repo.configs
    && IsInterest(exposure - t.cash, t.cash, t.rateBps, After(t.settledAt.GetOr(w.now), w.now))
    && IsValue(value, t.units, price, w.repo.configs[t.asset].haircutBps)
  }

  lemma MeasuredOnce(w: World, t: Trade, q: Quote) returns (exposure: int, value: int)
    requires Standing(w) && t.cash > 0 && t.asset in w.repo.configs && q.status.Ok?
    ensures exposure > 0 && Measured(w, t, q.value, exposure, value)
    ensures var c := w.repo.configs[t.asset];
            var r := EvaluateMargin(t, c, q, w.now);
            && r.Done? && r.value.Some? && c.thresholds.Valid()
            && r.value.value.exposure == exposure && r.value.value.collateral == value && r.value.value.price == q.value
            && (r.value.value.state.AtCall() <==> Reaches(exposure, value, c.thresholds.callBps))
  {
    var c := w.repo.configs[t.asset];
    ValueExact(t.units, q.value, c.haircutBps);
    ExposureExact(t, w.now);
    exposure, value := Exposure(t, w.now), CollateralValue(t.units, q.value, c.haircutBps).value;
    JudgeExact(exposure, value, c.thresholds);
  }

  /** What an evaluation makes of the call: opened with the stored or the default window, re-measured without a
      new window, or cleared. */
  ghost predicate CallBecomes(w: World, t: Trade, t': Trade, exposure: int, value: int)
    requires t.asset in w.repo.configs
  {
    var call := w.repo.configs[t.asset].thresholds.callBps;
    if Reaches(exposure, value, call) then
      && t' == t.(callPending := true, callAmount := t'.callAmount, cureDeadline := t'.cureDeadline)
      && t'.callAmount >= 0 && Truncates(exposure * 10_000, call, t'.callAmount + value)
      && t'.cureDeadline == if t.callPending then t.cureDeadline else Some(w.now + w.repo.cureGrace.GetOr(86_400))
    else t' == if t.callPending then t.(callPending := false, callAmount := 0, cureDeadline := None) else t
  }

  /** In a standing state a margin call is evaluated exactly on a settled trade and an Ok price. */
  lemma CallMarginRule(w: World, id: nat, q: Quote) returns (exposure: int, value: int)
    requires Standing(w)
    ensures CallMargin(w, id, q).Done? <==> id in w.repo.trades && w.repo.trades[id].status.Settled? && q.status.Ok?
    ensures CallMargin(w, id, q).Done? ==>
              var w', t := CallMargin(w, id, q).value, w.repo.trades[id];
              && Measured(w, t, q.value, exposure, value) && id in w'.repo.trades
              && w' == w.(repo := w.repo.(trades := w.repo.trades[id := w'.repo.trades[id]]))
              && CallBecomes(w, t, w'.repo.trades[id], exposure, value)
  {
    exposure, value := 0, 0;
    if id in w.repo.trades && q.status.Ok? {
      assert RepoRestore.SoundTrade(w, id);
      exposure, value := MeasuredOnce(w, w.repo.trades[id], q);
      if CallMargin(w, id, q).Done? {
        RepoEscrow.CallMarginStorage(w, id, q);
        CallMarginBecomes(w, id, q, exposure, value);
      }
    }
  }

  lemma CallMarginBecomes(w: World, id: nat, q: Quote, exposure: int, value: int)
    requires Standing(w) && CallMargin(w, id, q).Done? && id in CallMargin(w, id, q).value.repo.trades
    requires exposure > 0 && EvaluateMargin(w.repo.trades[id], w.repo.configs[w.repo.trades[id].asset], q, w.now).Done?
    requires var r := EvaluateMargin(w.repo.trades[id], w.repo.configs[w.repo.trades[id].asset], q, w.now).value;
             && r.Some? && r.value.exposure == exposure && r.value.collateral == value
             && (r.value.state.AtCall() <==> Reaches(exposure, value, w.repo.configs[w.repo.trades[id].asset].thresholds.callBps))
    ensures CallBecomes(w, w.repo.trades[id], CallMargin(w, id, q).value.repo.trades[id], exposure, value)
  {
    var c := w.repo.configs[w.repo.trades[id].asset];
    if Reaches(exposure, value, c.thresholds.callBps) {
      QuotAtLeast(exposure * BPS, c.thresholds.callBps, value);
      assert c.thresholds.callBps * value == value * c.thresholds.callBps;
    }
  }

  /** In a standing state the borrower of a settled trade tops it up exactly with units it has; a pending call is
      cleared exactly when, at an Ok price, the enlarged position no longer reaches the call threshold. */
  lemma TopUpRule(w: World, borrower: Address, id: nat, extra: int, q: Quote) returns (exposure: int, value: int)
    requires Standing(w)
    ensures TopUp(w, borrower, id, extra, q).Done? <==>
            && id in w.repo.trades && w.repo.trades[id].status.Settled? && w.repo.trades[id].borrower == borrower
            && 0 < extra <= BalanceOf(w.bank, w.repo.trades[id].asset, borrower)
    ensures TopUp(w, borrower, id, extra, q).Done? ==>
              var w', t := TopUp(w, borrower, id, extra, q).value, w.repo.trades[id];
              var more := t.(units := t.units + extra);
              && t.asset in w.repo.configs
              && (q.status.Ok? ==> Measured(w, more, q.value, exposure, value))
              && w' == w.(bank := w'.bank, repo := w.repo.(trades := w.repo.trades[id :=
                   if t.callPending && q.status.Ok? && !Reaches(exposure, value, w.repo.configs[t.asset].thresholds.callBps)
                   then more.(callPending := false, callAmount := 0, cureDeadline := None) else more]))
              && (forall token, who :: BalanceOf(w'.bank, token, who) == BalanceOf(w.bank, token, who)
                    + if token == t.asset then Delta(borrower, w.host.self, extra, who) else 0)
              && SameGrants(w, w')
  {
    exposure, value := 0, 0;
    if id in w.repo.trades {
      var t := w.repo.trades[id];
      assert RepoRestore.SoundTrade(w, id);
      if q.status.Ok? {
        exposure, value := MeasuredOnce(w, t.(units := t.units + extra), q);
      }
    }
  }

  // ----- defaults

  /** The defaulted units go to the two parties: the lender gets the least number worth what is owed at the
      price, or all of them, and the borrower the rest. */
  ghost predicate Split(w: World, w': World, t: Trade, owed: int, price: int, share: int) {
    && 0 <= share <= t.units
    && (share < t.units ==> share * price >= owed * 10_000_000)
    && (share > 0 ==> (share - 1) * price < owed * 10_000_000)
    && SameGrants(w, w')
    && forall token, who :: BalanceOf(w'.bank, token, who) == BalanceOf(w.bank, token, who)
         + if token == t.asset then Delta(w.host.self, t.lender, share, who) + Delta(w.host.self, t.borrower, t.units - share, who) else 0
  }

  lemma PayOutSplits(w: World, w': World, t: Trade, owed: int, price: int) returns (share: int)
    requires owed > 0 && price > 0 && t.units > 0 && PayOut(w, t, LenderUnits(owed, price, t.units)) == Done(w'.bank)
    ensures Split(w, w', t, owed, price, share)
  {
    share := LenderUnits(owed, price, t.units);
    RepoEscrow.LenderShareIsLeast(owed, price, t.units);
    PayOutMoves(w, t, share);
  }

  lemma PayOutMoves(w: World, t: Trade, share: int)
    requires 0 <= share <= t.units && PayOut(w, t, share).Done?
    ensures var bank := PayOut(w, t, share).value;
            && (forall token, owner, spender :: AllowanceOf(bank, token, owner, spender) == AllowanceOf(w.bank, token, owner, spender))
            && forall token, who :: BalanceOf(bank, token, who) == BalanceOf(w.bank, token, who)
                 + if token == t.asset then Delta(w.host.self, t.lender, share, who) + Delta(w.host.self, t.borrower, t.units - share, who) else 0
  {
    var paid := Transfer(w.bank, t.asset, w.host.self, t.lender, share);
    assert paid.Done?;
  }

  predicate CallExpired(w: World, id: nat) {
    && id in w.repo.trades && w.repo.trades[id].status.Settled? && w.repo.trades[id].callPending
    && w.repo.trades[id].cureDeadline.Some? && w.now >= w.repo.trades[id].cureDeadline.value
  }

  /** In a standing state an expired call ends in default exactly when, on a positive Ok price, the position
      still reaches the call threshold; the units then split for the exposure of that moment. */
  lemma DefaultCloseRule(w: World, id: nat, q: Quote) returns (exposure: int, value: int, share: int)
    requires Standing(w)
    ensures DefaultClose(w, id, q).Done? <==>
            && CallExpired(w, id) && q.status.Ok? && q.value > 0
            && Reaches(exposure, value, w.repo.configs[w.repo.trades[id].asset].thresholds.callBps)
    ensures CallExpired(w, id) ==> w.repo.trades[id].asset in w.repo.configs
    ensures CallExpired(w, id) && q.status.Ok? ==> Measured(w, w.repo.trades[id], q.value, exposure, value)
    ensures DefaultClose(w, id, q).Done? ==>
              var w', t := DefaultClose(w, id, q).value, w.repo.trades[id];
              && SameMoment(w, w') && Split(w, w', t, exposure, q.value, share)
              && w'.repo.trades == w.repo.trades[id := t.(status := Defaulted)]
              && w'.repo == w.repo.(trades := w'.repo.trades, due := w'.repo.due, dueExpiry := w'.repo.dueExpiry)
  {
    exposure, value, share := 0, 0, 0;
    if CallExpired(w, id) {
      var t := w.repo.trades[id];
      assert RepoRestore.SoundTrade(w, id) && RepoEscrow.WellFormedTrade(w.host, t);
      if q.status.Ok? {
        exposure, value := MeasuredOnce(w, t, q);
        if q.value > 0 {
          RepoAllowance.EscrowCoversTrade(w, id);
          RepoEscrow.LenderShareIsLeast(exposure, q.value, t.units);
          RepoRestore.PayOutWorks(w, t, LenderUnits(exposure, q.value, t.units));
        }
      }
      if DefaultClose(w, id, q).Done? {
        DefaultCloseStores(w, id, q);
        share := PayOutSplits(w, DefaultClose(w, id, q).value, t, exposure, q.value);
      }
    }
  }

  lemma DefaultCloseStores(w: World, id: nat, q: Quote)
    requires DefaultClose(w, id, q).Done?
    ensures var w' := DefaultClose(w, id, q).value;
            && SameMoment(w, w')
            && w'.repo.trades == w.repo.trades[id := w.repo.trades[id].(status := Defaulted)]
            && w'.repo == w.repo.(trades := w'.repo.trades, due := w'.repo.due, dueExpiry := w'.repo.dueExpiry)
  {
    var closed := w.repo.trades[id].(status := Defaulted);
    var stored := w.repo.(trades := w.repo.trades[id := closed]);
    assert DefaultClose(w, id, q).value.repo == ReleaseDue(stored, closed);
    RepoAllowance.ReleaseEffect(stored, closed, 0);
  }

  predicate GraceOver(w: World, caller: Address, id: nat) {
    && id in w.repo.trades && w.repo.trades[id].status.Settled?
    && (caller == w.repo.trades[id].lender || caller == w.host.keeper)
    && w.now >= w.repo.trades[id].maturityAt + w.repo.maturityGrace.GetOr(86_400)
  }

  /** In a standing state an unpaid trade is defaulted exactly by its lender or the keeper, past its grace, on a
      positive Ok price; the units split for cash and the interest of its term. */
  lemma DefaultAtMaturityRule(w: World, caller: Address, id: nat, q: Quote) returns (i: int, share: int)
    requires Standing(w)
    ensures DefaultAtMaturity(w, caller, id, q).Done? <==> GraceOver(w, caller, id) && q.status.Ok? && q.value > 0
    ensures DefaultAtMaturity(w, caller, id, q).Done? ==>
              var w', t := DefaultAtMaturity(w, caller, id, q).value, w.repo.trades[id];
              && t.settledAt.Some? && IsInterest(i, t.cash, t.rateBps, After(t.settledAt.value, t.maturityAt))
              && Split(w, w', t, t.cash + i, q.value, share)
              && w' == w.(bank := w'.bank, repo := w.repo.(trades := w.repo.trades[id := t.(status := Defaulted)]))
  {
    i, share := 0, 0;
    if GraceOver(w, caller, id) {
      var t := w.repo.trades[id];
      assert RepoRestore.SoundTrade(w, id) && RepoEscrow.WellFormedTrade(w.host, t);
      DueExact(t, t.settledAt.value);
      i := TotalDue(t, t.settledAt.value) - t.cash;
      if q.value > 0 {
        RepoAllowance.EscrowCoversTrade(w, id);
        RepoEscrow.LenderShareIsLeast(t.cash + i, q.value, t.units);
        RepoRestore.PayOutWorks(w, t, LenderUnits(t.cash + i, q.value, t.units));
      }
      DefaultAtMaturityStores(w, caller, id, q);
      if DefaultAtMaturity(w, caller, id, q).Done? {
        share := PayOutSplits(w, DefaultAtMaturity(w, caller, id, q).value, t, t.cash + i, q.value);
      }
    }
  }

  lemma DefaultAtMaturityStores(w: World, caller: Address, id: nat, q: Quote)
    requires GraceOver(w, caller, id) && w.repo.trades[id].settledAt.Some? && w.repo.trades[id].asset in w.repo.configs
    ensures var t, r := w.repo.trades[id], DefaultAtMaturity(w, caller, id, q);
            && (r.Done? <==>
                  (q.status.Ok? && q.value > 0 && PayOut(w, t, LenderUnits(TotalDue(t, t.settledAt.value), q.value, t.units)).Done?))
            && (r.Done? ==>
                  && PayOut(w, t, LenderUnits(TotalDue(t, t.settledAt.value), q.value, t.units)) == Done(r.value.bank)
                  && r.value == w.(bank := r.value.bank, repo := w.repo.(trades := w.repo.trades[id := t.(status := Defaulted)])))
  {
  }

  // ----- settings

  /** What each setting accepts and the one thing it changes. */
  lemma SettingsRule(w: World, a: Action)
    requires MovesNoTrade(a)
    ensures Apply(w, a).Done? <==>
            match a
            case DoSetCureGrace(s) => s >= 60
            case DoSetMaturityGrace(s) => s >= 60
            case DoConfigure(_, c) => c.haircutBps <= 10_000 && 1 <= c.thresholds.warningBps
                                      && c.thresholds.warningBps <= c.thresholds.callBps
                                      && c.thresholds.callBps <= c.thresholds.liquidationBps && c.thresholds.liquidationBps <= 10_000
            case DoSetEnabled(asset, _) => asset in w.repo.configs
            case Outside(op) => op.Apply(w.bank, w.ledger, w.host.maxTtl).Done?
            case _ => true
    ensures Apply(w, a).Done? ==>
              var w' := Apply(w, a).value;
              match a
              case DoSetUsdc(usdc) => w' == w.(repo := w.repo.(usdc := Some(usdc)))
              case DoSetCureGrace(s) => w' == w.(repo := w.repo.(cureGrace := Some(s)))
              case DoSetMaturityGrace(s) => w' == w.(repo := w.repo.(maturityGrace := Some(s)))
              case DoConfigure(asset, c) => w' == w.(repo := w.repo.(configs := w.repo.configs[asset := c]))
              case DoSetEnabled(asset, enabled) =>
                w' == w.(repo := w.repo.(disabled := w'.repo.disabled))
                && forall x :: x in w'.repo.disabled <==> if x == asset then !enabled else x in w.repo.disabled
              case DoSetPaused(paused) => w' == w.(repo := w.repo.(paused := paused))
              case Outside(op) => w' == w.(bank := op.Apply(w.bank, w.ledger, w.host.maxTtl).value)
              case Elapse(seconds, ledgers) => w' == w.(now := w.now + seconds, ledger := w.ledger + ledgers)
              case _ => w' == w.(repo := w.repo.(nextId := w.repo.nextId + 1))
  {
  }
}
