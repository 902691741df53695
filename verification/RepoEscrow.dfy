/** Where the pledged collateral of repo trades is, over every run. */
module RepoEscrow {
  import opened Prelude
  import opened Tokens
  import opened Risk
  import opened RepoSpec

  ghost function Lock(t: Trade, asset: Address): int {
    if t.status.Settled? && t.asset == asset then t.units else 0
  }

  ghost function Locks(w: World, asset: Address): map<nat, int> {
    map id | id in w.repo.trades :: Lock(w.repo.trades[id], asset)
  }

  /** The units of `asset` pledged to trades that are still open. */
  ghost function Locked(w: World, asset: Address): int {
    Sum(Locks(w, asset))
  }

  function Held(w: World, asset: Address): int {
    BalanceOf(w.bank, asset, w.host.self)
  }

  ghost predicate WellFormedTrade(host: Host, t: Trade) {
    && t.lender != host.self
    && t.units > 0 && t.cash > 0
    && (t.status.Settled? ==> t.borrower != host.self)
  }

  ghost predicate WellFormed(w: World) {
    && GrantsNothing(w.bank, w.host.self)
    && (forall id | id in w.repo.trades :: id < w.repo.nextId && WellFormedTrade(w.host, w.repo.trades[id]))
    && (forall a | a in w.repo.configs :: w.repo.configs[a].haircutBps <= BPS && w.repo.configs[a].thresholds.Valid())
  }

  /** What the contract holds of `asset` beyond what open trades have pledged. */
  ghost function Surplus(w: World, asset: Address): int {
    Held(w, asset) - Locked(w, asset)
  }

  predicate PaysContract(host: Host, a: Action) {
    a.Outside? && a.op.Pays(host.self)
  }

  lemma LockedAfter(w: World, w': World, id: nat, asset: Address)
    requires id in w'.repo.trades && w'.repo.trades == w.repo.trades[id := w'.repo.trades[id]]
    ensures Locked(w', asset) == Locked(w, asset) + Lock(w'.repo.trades[id], asset)
                                 - (if id in w.repo.trades then Lock(w.repo.trades[id], asset) else 0)
  {
    SumChange(Locks(w, asset), Locks(w', asset), id);
  }

  /** A transaction that rewrites one trade keeps the surplus when the escrow moves with the pledge. */
  ghost predicate KeepsSurplus(w: World, w': World) {
    && WellFormed(w')
    && w'.host == w.host
    && forall asset :: Surplus(w', asset) == Surplus(w, asset)
  }

  lemma RewriteKeeps(w: World, w': World, id: nat)
    requires WellFormed(w) && w'.host == w.host
    requires GrantsNothing(w'.bank, w.host.self) && w'.repo.nextId >= w.repo.nextId && w'.repo.configs == w.repo.configs
    requires id in w'.repo.trades && w'.repo.trades == w.repo.trades[id := w'.repo.trades[id]]
    requires id < w'.repo.nextId && WellFormedTrade(w.host, w'.repo.trades[id])
    requires forall asset :: Held(w', asset) == Held(w, asset) + Lock(w'.repo.trades[id], asset)
                                                - (if id in w.repo.trades then Lock(w.repo.trades[id], asset) else 0)
    ensures KeepsSurplus(w, w')
  {
    forall asset {
      LockedAfter(w, w', id, asset);
    }
  }

  lemma ProposeKeeps(w: World, l: Address, b: Address, asset: Address, units: int, cash: int, rate: nat, k: Kind, m: nat)
    requires WellFormed(w) && l != w.host.self
    requires Propose(w, l, b, asset, units, cash, rate, k, m).Done?
    ensures KeepsSurplus(w, Propose(w, l, b, asset, units, cash, rate, k, m).value)
  {
    RewriteKeeps(w, Propose(w, l, b, asset, units, cash, rate, k, m).value, w.repo.nextId);
  }

  lemma CancelKeeps(w: World, caller: Address, id: nat)
    requires WellFormed(w) && CancelProposal(w, caller, id).Done?
    ensures KeepsSurplus(w, CancelProposal(w, caller, id).value)
  {
    RewriteKeeps(w, CancelProposal(w, caller, id).value, id);
  }

  /** Leg 1 is one exchange: the units into escrow against the cash, and no other balance moves. */
  lemma SettleExchanges(w: World, b: Address, id: nat)
    requires AcceptAndSettle(w, b, id).Done?
    ensures var t := w.repo.trades[id];
            var bank := AcceptAndSettle(w, b, id).value.bank;
            && (forall token, who :: BalanceOf(bank, token, who) == BalanceOf(w.bank, token, who)
                 + (if token == t.asset then Delta(b, w.host.self, t.units, who) else 0)
                 + (if token == w.repo.usdc.value then Delta(t.lender, b, t.cash, who) else 0))
            && (b != w.host.self && t.lender != w.host.self && GrantsNothing(w.bank, w.host.self) ==> GrantsNothing(bank, w.host.self))
  {
    var t := w.repo.trades[id];
    var usdc := w.repo.usdc.value;
    var escrowed := Transfer(w.bank, t.asset, b, w.host.self, t.units).value;
    var paid := TransferFrom(escrowed, usdc, w.host.self, t.lender, b, t.cash, w.ledger).value;
    assert AcceptAndSettle(w, b, id).value.bank ==
           Approve(paid, usdc, b, w.host.self, OutstandingAfter(w, t), ExpiryAfter(w, t), w.ledger, w.host.maxTtl).value;
  }

  lemma SettleStorage(w: World, b: Address, id: nat)
    requires AcceptAndSettle(w, b, id).Done?
    ensures var w' := AcceptAndSettle(w, b, id).value;
            var t := w.repo.trades[id];
            && t.status.Proposed? && t.borrower == b
            && w'.repo.trades == w.repo.trades[id := t.(status := Settled, leg1Ledger := Some(w.ledger), settledAt := Some(w.now))]
            && w'.host == w.host && w'.repo.nextId == w.repo.nextId && w'.repo.configs == w.repo.configs
            && w'.repo.cureGrace == w.repo.cureGrace
  {
  }

  lemma SettleKeeps(w: World, b: Address, id: nat)
    requires WellFormed(w) && b != w.host.self && AcceptAndSettle(w, b, id).Done?
    ensures KeepsSurplus(w, AcceptAndSettle(w, b, id).value)
  {
    SettleExchanges(w, b, id);
    SettleStorage(w, b, id);
    RewriteKeeps(w, AcceptAndSettle(w, b, id).value, id);
  }

  /** An unwind returns every unit to the borrower against exactly the amount due, and touches no
      other balance. */
  lemma UnwindExchanges(w: World, caller: Address, id: nat)
    requires Unwind(w, caller, id).Done?
    ensures var t := w.repo.trades[id];
            var bank := Unwind(w, caller, id).value.bank;
            && (forall token, who :: BalanceOf(bank, token, who) == BalanceOf(w.bank, token, who)
                 + (if token == t.asset then Delta(w.host.self, t.borrower, t.units, who) else 0)
                 + (if token == w.repo.usdc.value then Delta(t.borrower, t.lender, TotalDue(t, t.settledAt.value), who) else 0))
            && (t.borrower != w.host.self && GrantsNothing(w.bank, w.host.self) ==> GrantsNothing(bank, w.host.self))
  {
    var t := w.repo.trades[id];
    var usdc, total := w.repo.usdc.value, TotalDue(t, t.settledAt.value);
    var paid := if caller == t.borrower
                then Transfer(w.bank, usdc, t.borrower, t.lender, total)
                else TransferFrom(w.bank, usdc, w.host.self, t.borrower, t.lender, total, w.ledger);
    assert Unwind(w, caller, id).value.bank == Transfer(paid.value, t.asset, w.host.self, t.borrower, t.units).value;
  }

  lemma UnwindStorage(w: World, caller: Address, id: nat)
    requires Unwind(w, caller, id).Done?
    ensures var w' := Unwind(w, caller, id).value;
            && w.repo.trades[id].status.Settled?
            && w'.repo.trades == w.repo.trades[id := w.repo.trades[id].(status := Unwound)]
            && w'.host == w.host && w'.repo.nextId == w.repo.nextId && w'.repo.configs == w.repo.configs
            && w'.repo.cureGrace == w.repo.cureGrace
  {
    var closed := w.repo.trades[id].(status := Unwound);
    var stored := w.repo.(trades := w.repo.trades[id := closed]);
    assert Unwind(w, caller, id).value.repo == ReleaseDue(stored, closed);
  }

  lemma UnwindKeeps(w: World, caller: Address, id: nat)
    requires WellFormed(w) && Unwind(w, caller, id).Done?
    ensures KeepsSurplus(w, Unwind(w, caller, id).value)
  {
    UnwindExchanges(w, caller, id);
    UnwindStorage(w, caller, id);
    RewriteKeeps(w, Unwind(w, caller, id).value, id);
  }

  /** An evaluation rewrites only the three call fields of its trade. */
  lemma CallMarginStorage(w: World, id: nat, q: Quote)
    requires CallMargin(w, id, q).Done?
    ensures var w' := CallMargin(w, id, q).value;
            && id in w.repo.trades && id in w'.repo.trades
            && var t, t' := w.repo.trades[id], w'.repo.trades[id];
            && t.status.Settled? && t' == t.(callPending := t'.callPending, callAmount := t'.callAmount, cureDeadline := t'.cureDeadline)
            && w' == WithTrade(w, id, t')
  {
    assert w.repo.trades[id := w.repo.trades[id]] == w.repo.trades;
  }

  lemma CallMarginKeeps(w: World, id: nat, q: Quote)
    requires WellFormed(w) && CallMargin(w, id, q).Done?
    ensures KeepsSurplus(w, CallMargin(w, id, q).value)
  {
    CallMarginStorage(w, id, q);
    RewriteKeeps(w, CallMargin(w, id, q).value, id);
  }

  /** A top-up adds units to its trade and may clear its margin call. */
  lemma TopUpStorage(w: World, b: Address, id: nat, extra: int, q: Quote)
    requires TopUp(w, b, id, extra, q).Done?
    ensures var w' := TopUp(w, b, id, extra, q).value;
            && id in w.repo.trades && id in w'.repo.trades && extra > 0
            && var t, t' := w.repo.trades[id], w'.repo.trades[id];
            && t.status.Settled? && t.borrower == b
            && (t' == t.(units := t.units + extra) || t' == ClearCall(t.(units := t.units + extra)))
            && w' == WithTrade(w.(bank := w'.bank), id, t')
            && Transfer(w.bank, t.asset, b, w.host.self, extra) == Done(w'.bank)
  {
  }

  lemma TopUpKeeps(w: World, b: Address, id: nat, extra: int, q: Quote)
    requires WellFormed(w) && b != w.host.self && TopUp(w, b, id, extra, q).Done?
    ensures KeepsSurplus(w, TopUp(w, b, id, extra, q).value)
  {
    TopUpStorage(w, b, id, extra, q);
    RewriteKeeps(w, TopUp(w, b, id, extra, q).value, id);
  }

  /** A default's pay-out leaves the contract with exactly the trade's units less. */
  lemma PayOutEmpties(w: World, t: Trade, lenderUnits: int)
    requires WellFormedTrade(w.host, t) && t.status.Settled? && GrantsNothing(w.bank, w.host.self)
    requires lenderUnits <= t.units && PayOut(w, t, lenderUnits).Done?
    ensures var bank := PayOut(w, t, lenderUnits).value;
            && GrantsNothing(bank, w.host.self)
            && forall token, who :: BalanceOf(bank, token, who) ==
                 BalanceOf(w.bank, token, who) + if token == t.asset then Shares(w, t, lenderUnits, who) else 0
  {
  }

  /** What `who` gains when `lenderUnits` of a trade go to its lender and the rest to its borrower. */
  function Shares(w: World, t: Trade, lenderUnits: int, who: Address): int {
    (if who == t.lender then lenderUnits else 0)
    + (if who == t.borrower then t.units - lenderUnits else 0)
    - (if who == w.host.self then t.units else 0)
  }

  lemma DefaultKeeps(w: World, w': World, id: nat, lenderUnits: int)
    requires WellFormed(w) && id in w.repo.trades && w.repo.trades[id].status.Settled?
    requires w'.host == w.host && w'.repo.nextId == w.repo.nextId && w'.repo.configs == w.repo.configs
    requires w'.repo.trades == w.repo.trades[id := w.repo.trades[id].(status := Defaulted)]
    requires lenderUnits <= w.repo.trades[id].units
    requires PayOut(w, w.repo.trades[id], lenderUnits) == Done(w'.bank)
    ensures KeepsSurplus(w, w')
  {
    PayOutEmpties(w, w.repo.trades[id], lenderUnits);
    RewriteKeeps(w, w', id);
  }

  lemma SameTradesKeep(w: World, w': World)
    requires WellFormed(w) && w'.host == w.host && w'.bank == w.bank
    requires w'.repo.trades == w.repo.trades && w'.repo.nextId >= w.repo.nextId
    requires forall a | a in w'.repo.configs :: w'.repo.configs[a].haircutBps <= BPS && w'.repo.configs[a].thresholds.Valid()
    ensures KeepsSurplus(w, w')
  {
    forall asset
      ensures Locks(w', asset) == Locks(w, asset)
    {
    }
  }

  lemma DefaultCloseStorage(w: World, id: nat, q: Quote)
    requires DefaultClose(w, id, q).Done?
    ensures var w' := DefaultClose(w, id, q).value;
            && id in w.repo.trades && w.repo.trades[id].status.Settled?
            && w'.repo.trades == w.repo.trades[id := w.repo.trades[id].(status := Defaulted)]
            && w'.host == w.host && w'.repo.nextId == w.repo.nextId && w'.repo.configs == w.repo.configs
            && w'.repo.cureGrace == w.repo.cureGrace
  {
    var closed := w.repo.trades[id].(status := Defaulted);
    var stored := w.repo.(trades := w.repo.trades[id := closed]);
    assert DefaultClose(w, id, q).value.repo == ReleaseDue(stored, closed);
  }

  lemma DefaultCloseKeeps(w: World, id: nat, q: Quote)
    requires WellFormed(w) && DefaultClose(w, id, q).Done?
    ensures KeepsSurplus(w, DefaultClose(w, id, q).value)
  {
    var t := w.repo.trades[id];
    DefaultCloseStorage(w, id, q);
    DefaultKeeps(w, DefaultClose(w, id, q).value, id, LenderUnits(Exposure(t, w.now), q.value, t.units));
  }

  lemma DefaultAtMaturityKeeps(w: World, caller: Address, id: nat, q: Quote)
    requires WellFormed(w) && DefaultAtMaturity(w, caller, id, q).Done?
    ensures KeepsSurplus(w, DefaultAtMaturity(w, caller, id, q).value)
  {
    var t := w.repo.trades[id];
    DefaultKeeps(w, DefaultAtMaturity(w, caller, id, q).value, id, LenderUnits(TotalDue(t, t.settledAt.value), q.value, t.units));
  }

  lemma SettingStepKeeps(w: World, a: Action)
    requires WellFormed(w) && Apply(w, a).Done? && MovesNoTrade(a) && !a.Outside?
    ensures KeepsSurplus(w, Apply(w, a).value)
  {
    SameTradesKeep(w, Apply(w, a).value);
  }

  lemma TradeStepKeeps(w: World, a: Action)
    requires WellFormed(w) && Authorised(w.host, a) && Apply(w, a).Done? && !MovesNoTrade(a)
    ensures KeepsSurplus(w, Apply(w, a).value)
  {
    match a
    case DoPropose(l, b, asset, units, cash, rate, k, m) => ProposeKeeps(w, l, b, asset, units, cash, rate, k, m);
    case DoCancel(caller, id) => CancelKeeps(w, caller, id);
    case DoAccept(b, id) => SettleKeeps(w, b, id);
    case DoUnwind(caller, id) => UnwindKeeps(w, caller, id);
    case DoCallMargin(id, q) => CallMarginKeeps(w, id, q);
    case DoTopUp(b, id, extra, q) => TopUpKeeps(w, b, id, extra, q);
    case DoDefaultClose(id, q) => DefaultCloseKeeps(w, id, q);
    case DoDefaultAtMaturity(caller, id, q) => DefaultAtMaturityKeeps(w, caller, id, q);
  }

  /** One step: the surplus of an asset can only grow, and only by somebody paying the contract
      directly. */
  lemma SurplusStep(w: World, a: Action)
    requires WellFormed(w) && Authorised(w.host, a)
    ensures WellFormed(Step(w, a)) && Step(w, a).host == w.host
    ensures forall asset :: Surplus(Step(w, a), asset) >= Surplus(w, asset)
    ensures !PaysContract(w.host, a) ==> forall asset :: Surplus(Step(w, a), asset) == Surplus(w, asset)
  {
    var w' := Step(w, a);
    if Apply(w, a).Done? {
      if a.Outside? {
        OthersCannotTake(w.bank, a.op, w.ledger, w.host.maxTtl, w.host.self);
        forall asset
          ensures Locks(w', asset) == Locks(w, asset)
        {
        }
      } else if MovesNoTrade(a) {
        SettingStepKeeps(w, a);
      } else {
        TradeStepKeeps(w, a);
      }
    }
  }

  /** Over every run the contract holds at least what open trades have pledged of each asset, and
      exactly that when nobody sent it tokens outside a trade. */
  lemma {:induction false} EscrowConserved(ws: seq<World>, acts: seq<Action>, n: nat)
    requires IsRun(ws, acts) && n <= |acts|
    requires IsGenesis(ws[0]) && GrantsNothing(ws[0].bank, ws[0].host.self)
    requires forall a | a in acts :: Authorised(ws[0].host, a)
    ensures WellFormed(ws[n]) && ws[n].host == ws[0].host
    ensures forall asset :: Held(ws[n], asset) >= Locked(ws[n], asset) + Held(ws[0], asset)
    ensures (forall a | a in acts :: !PaysContract(ws[0].host, a)) ==>
              forall asset :: Held(ws[n], asset) == Locked(ws[n], asset) + Held(ws[0], asset)
  {
    if n == 0 {
      forall asset
        ensures Locks(ws[0], asset) == map[]
      {
      }
    } else {
      EscrowConserved(ws, acts, n - 1);
      assert acts[n - 1] in acts;
      SurplusStep(ws[n - 1], acts[n - 1]);
      forall asset
        ensures Held(ws[n], asset) >= Locked(ws[n], asset) + Held(ws[0], asset)
      {
        assert Surplus(ws[n], asset) >= Surplus(ws[n - 1], asset);
      }
      if forall a | a in acts :: !PaysContract(ws[0].host, a) {
        forall asset
          ensures Held(ws[n], asset) == Locked(ws[n], asset) + Held(ws[0], asset)
        {
          assert Surplus(ws[n], asset) == Surplus(ws[n - 1], asset);
        }
      }
    }
  }

  // ----- closing a trade

  /** The lender's share on default is the least number of units worth at least what is owed, or all
      of them when there are not that many. */
  lemma LenderShareIsLeast(owed: int, price: int, units: int)
    requires owed >= 0 && price > 0 && units >= 0
    ensures var share := LenderUnits(owed, price, units);
            && 0 <= share <= units
            && (share == units || share * price >= owed * PRICE_SCALE)
            && (forall n :: 0 <= n < share ==> n * price < owed * PRICE_SCALE)
  {
    var a := owed * PRICE_SCALE + (price - 1);
    var q := Quot(a, price);
    assert (q + 1) * price == q * price + price;
    forall n | 0 <= n < LenderUnits(owed, price, units)
      ensures n * price < owed * PRICE_SCALE
    {
      assert (n + 1) * price == n * price + price;
      MulMono(n + 1, q, price);
    }
  }

  /** What a default moves: the trade's units leave the escrow for its two parties, the lender's share
      being the least that covers `owed` at `price`; no other balance changes. */
  ghost predicate SplitsFairly(w: World, bank: Bank, t: Trade, owed: int, price: int) {
    exists share :: 0 <= share <= t.units && LeastCover(share, t.units, owed, price) && PaysShares(w, bank, t, share)
  }

  ghost predicate LeastCover(share: int, units: int, owed: int, price: int) {
    && (share == units || share * price >= owed * PRICE_SCALE)
    && (forall n :: 0 <= n < share ==> n * price < owed * PRICE_SCALE)
  }

  ghost predicate PaysShares(w: World, bank: Bank, t: Trade, share: int) {
    forall token, who :: BalanceOf(bank, token, who) ==
      BalanceOf(w.bank, token, who) + if token == t.asset then Shares(w, t, share, who) else 0
  }

  lemma SplitFairly(w: World, t: Trade, owed: int, price: int)
    requires WellFormedTrade(w.host, t) && t.status.Settled? && GrantsNothing(w.bank, w.host.self)
    requires owed >= 0 && price > 0 && PayOut(w, t, LenderUnits(owed, price, t.units)).Done?
    ensures SplitsFairly(w, PayOut(w, t, LenderUnits(owed, price, t.units)).value, t, owed, price)
  {
    var share := LenderUnits(owed, price, t.units);
    LenderShareIsLeast(owed, price, t.units);
    PayOutEmpties(w, t, share);
    assert LeastCover(share, t.units, owed, price) && PaysShares(w, PayOut(w, t, share).value, t, share);
  }

  lemma DefaultClosePays(w: World, id: nat, q: Quote)
    requires DefaultClose(w, id, q).Done?
    ensures var t := w.repo.trades[id];
            && t.status.Settled? && q.value > 0
            && PayOut(w, t, LenderUnits(Exposure(t, w.now), q.value, t.units)) == Done(DefaultClose(w, id, q).value.bank)
  {
  }

  lemma DefaultCloseSplit(w: World, id: nat, q: Quote)
    requires WellFormed(w) && DefaultClose(w, id, q).Done?
    ensures SplitsFairly(w, DefaultClose(w, id, q).value.bank, w.repo.trades[id], Exposure(w.repo.trades[id], w.now), q.value)
  {
    var t := w.repo.trades[id];
    DefaultClosePays(w, id, q);
    InterestNonNegative(t.cash, t.rateBps, SatSub(w.now, t.settledAt.GetOr(w.now)));
    SplitFairly(w, t, Exposure(t, w.now), q.value);
  }

  lemma DefaultAtMaturitySplit(w: World, caller: Address, id: nat, q: Quote)
    requires WellFormed(w) && DefaultAtMaturity(w, caller, id, q).Done?
    ensures var t := w.repo.trades[id];
            SplitsFairly(w, DefaultAtMaturity(w, caller, id, q).value.bank, t, TotalDue(t, t.settledAt.value), q.value)
  {
    var t := w.repo.trades[id];
    InterestNonNegative(t.cash, t.rateBps, SatSub(t.maturityAt, t.settledAt.value));
    SplitFairly(w, t, TotalDue(t, t.settledAt.value), q.value);
  }

  lemma InterestNonNegative(cash: int, rate: nat, elapsed: nat)
    requires cash >= 0
    ensures AccrueInterest(cash, rate, elapsed) >= 0
  {
    assert cash * rate >= 0;
    assert cash * rate * elapsed >= 0;
  }
}
