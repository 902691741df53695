/** What the conservation laws are for: in every reachable state, money and collateral that somebody may take can
    be taken, and only the rules themselves ever refuse. */
module CreditLiveness {
  import opened Prelude
  import opened Tokens
  import opened Risk
  import opened CreditSpec
  import CreditFunds
  import CreditCollateral

  // ----- the credit line's money

  /** What one line is owed the contract has. */
  lemma LiquidHeld(w: World, usdc: Address, line: nat)
    requires CreditFunds.Sound(w, usdc) && CreditFunds.Surplus(w, usdc) >= 0 && line in w.credit.lines
    ensures CreditFunds.Liquid(w.credit, line) <= BalanceOf(w.bank, usdc, w.host.credit)
  {
    forall j | j in w.credit.lines
      ensures CreditFunds.Liquids(w.credit)[j] >= 0
    {
      assert CreditFunds.GoodLine(w, j);
    }
    SumAtLeast(CreditFunds.Liquids(w.credit), line);
  }

  ghost predicate FundedRun(ws: seq<World>, acts: seq<Action>, n: nat, usdc: Address) {
    && IsRun(ws, acts) && n <= |acts| && IsGenesis(ws[0])
    && ws[0].host.credit != ws[0].host.vault && GrantsNothing(ws[0].bank, ws[0].host.credit)
    && CreditFunds.Held(ws[0], usdc) >= 0
    && forall a | a in acts :: CreditFunds.Disciplined(ws[0].host, usdc, a)
  }

  predicate MayWithdrawUndrawn(w: World, lender: Address, line: nat, amount: int) {
    && amount > 0 && line in w.credit.lines
    && var l := w.credit.lines[line];
    && l.lender == lender && amount <= l.funded - l.drawn && l.asset in w.credit.configs
  }

  /** Undrawn funding is paid out exactly when its lender asks for no more than there is: never refused for want
      of money, whatever other lines did. */
  lemma UndrawnAlwaysPaid(ws: seq<World>, acts: seq<Action>, n: nat, usdc: Address, lender: Address, line: nat, amount: int)
    requires FundedRun(ws, acts, n, usdc)
    ensures WithdrawUndrawn(ws[n], lender, line, amount).Done? <==> MayWithdrawUndrawn(ws[n], lender, line, amount)
  {
    CreditFunds.FundsHold(ws, acts, n, usdc);
    if MayWithdrawUndrawn(ws[n], lender, line, amount) {
      LiquidHeld(ws[n], usdc, line);
      assert CreditFunds.GoodLine(ws[n], line);
    }
  }

  predicate MayWithdrawInterest(w: World, lender: Address, line: nat, amount: int) {
    && amount > 0 && line in w.credit.lines && w.credit.lines[line].lender == lender
    && amount <= ClaimableOf(w.credit, line) && w.credit.lines[line].asset in w.credit.configs
  }

  /** The same for interest already repaid. */
  lemma InterestAlwaysPaid(ws: seq<World>, acts: seq<Action>, n: nat, usdc: Address, lender: Address, line: nat, amount: int)
    requires FundedRun(ws, acts, n, usdc)
    ensures WithdrawInterest(ws[n], lender, line, amount).Done? <==> MayWithdrawInterest(ws[n], lender, line, amount)
  {
    CreditFunds.FundsHold(ws, acts, n, usdc);
    if MayWithdrawInterest(ws[n], lender, line, amount) {
      LiquidHeld(ws[n], usdc, line);
      assert CreditFunds.GoodLine(ws[n], line);
    }
  }

  /** Draws are open, the line has room for the amount, and it stays healthy on an Ok price. */
  predicate MayDraw(w: World, borrower: Address, line: nat, amount: int, q: Quote) {
    && !w.credit.drawsPaused && amount > 0 && line in w.credit.lines
    && var l := w.credit.lines[line];
    && l.borrower == borrower && l.status.Open? && amount <= l.funded - l.drawn && l.drawn + amount <= l.limit
    && l.asset in w.credit.configs && q.status.Ok?
    && var config := w.credit.configs[l.asset];
    && var value := CollateralValue(l.pledgedUnits, q.value, config.haircutBps);
    && value.Done? && Judge(DebtOf(l, w.now) + amount, value.value, config.thresholds).Healthy?
  }

  /** A draw is paid exactly when the rules allow it. */
  lemma DrawAlwaysPaid(ws: seq<World>, acts: seq<Action>, n: nat, usdc: Address, borrower: Address, line: nat, amount: int,
                       to: Address, q: Quote)
    requires FundedRun(ws, acts, n, usdc)
    ensures Draw(ws[n], borrower, line, amount, to, q).Done? <==> MayDraw(ws[n], borrower, line, amount, q)
  {
    CreditFunds.FundsHold(ws, acts, n, usdc);
    if MayDraw(ws[n], borrower, line, amount, q) {
      LiquidHeld(ws[n], usdc, line);
      assert CreditFunds.GoodLine(ws[n], line);
    }
  }

  // ----- the vault's collateral

  /** Whatever units an escrowed position has, the vault has. */
  lemma EscrowHeld(w: World, line: nat, asset: Address)
    requires CreditCollateral.Agreed(w) && CreditCollateral.Surplus(w, asset) >= 0
    requires (line, asset) in w.vault.positions && w.vault.positions[(line, asset)].mode.Escrow?
    ensures w.vault.positions[(line, asset)].units <= BalanceOf(w.bank, asset, w.host.vault)
  {
    forall k | k in w.vault.positions
      ensures CreditCollateral.EscrowedIn(w.vault, asset)[k] >= 0
    {
      assert CreditCollateral.GoodPosition(w.vault.positions[k]);
    }
    SumAtLeast(CreditCollateral.EscrowedIn(w.vault, asset), (line, asset));
  }

  /** A vault that stores a position has been able to report it. */
  predicate Linked(w: World) {
    w.vault.positions != map[] ==> w.credit.vault == Some(w.host.vault)
  }

  lemma VaultStepLinked(w: World, a: Action)
    requires Linked(w) && Apply(w, a).Done? && (a.DoPledge? || a.DoRelease? || a.DoRecordLien? || a.DoLiquidateVault?)
    ensures Linked(Apply(w, a).value)
  {
  }

  lemma OtherStepLinked(w: World, a: Action)
    requires Linked(w) && Authorised(w.host, a) && Apply(w, a).Done?
    requires !a.DoPledge? && !a.DoRelease? && !a.DoRecordLien? && !a.DoLiquidateVault?
    ensures Linked(Apply(w, a).value)
  {
    assert Apply(w, a).value.vault.positions == w.vault.positions;
  }

  lemma HostConstant(w: World, a: Action)
    ensures Step(w, a).host == w.host
  {
  }

  lemma LinkedStep(w: World, a: Action)
    requires Linked(w) && Authorised(w.host, a)
    ensures Linked(Step(w, a)) && Step(w, a).host == w.host
  {
    HostConstant(w, a);
    if Apply(w, a).Done? {
      if a.DoPledge? || a.DoRelease? || a.DoRecordLien? || a.DoLiquidateVault? {
        VaultStepLinked(w, a);
      } else {
        OtherStepLinked(w, a);
      }
    }
  }

  lemma {:induction false} AlwaysLinked(ws: seq<World>, acts: seq<Action>, n: nat)
    requires IsRun(ws, acts) && n <= |acts| && IsGenesis(ws[0])
    requires forall i | 0 <= i < n :: Authorised(ws[0].host, acts[i])
    ensures Linked(ws[n]) && ws[n].host == ws[0].host
  {
    if n > 0 {
      AlwaysLinked(ws, acts, n - 1);
      LinkedStep(ws[n - 1], acts[n - 1]);
    }
  }

  ghost predicate AgreedRun(ws: seq<World>, acts: seq<Action>, n: nat, asset: Address) {
    && IsRun(ws, acts) && n <= |acts| && IsGenesis(ws[0])
    && ws[0].host.credit != ws[0].host.vault && GrantsNothing(ws[0].bank, ws[0].host.vault)
    && CreditCollateral.Held(ws[0], asset) >= 0
    && forall i | 0 <= i < n :: Authorised(ws[0].host, acts[i]) && CreditCollateral.Faithful(ws[i], acts[i])
  }

  lemma WithdrawalWorks(w: World, line: nat, asset: Address, units: int, to: Address)
    requires CreditCollateral.Agreed(w) && CreditCollateral.Surplus(w, asset) >= 0 && Linked(w)
    requires 0 < units <= PositionOf(w.vault, line, asset).units
    ensures line in w.credit.lines && w.credit.lines[line].asset == asset
    ensures Withdrawal(w, line, asset, PositionOf(w.vault, line, asset), units, to).Done?
  {
    assert (line, asset) in w.vault.positions;
    if PositionOf(w.vault, line, asset).mode.Escrow? {
      EscrowHeld(w, line, asset);
    }
  }

  predicate MayRelease(w: World, borrower: Address, line: nat, asset: Address, units: int, vq: Quote, cq: Quote) {
    && asset in w.vault.configs && line in w.credit.lines && w.credit.lines[line].borrower == borrower
    && 0 < units <= PositionOf(w.vault, line, asset).units
    && (DebtOf(w.credit.lines[line], w.now) > 0 ==>
          CheckRelease(w, w.credit.lines[line], asset, PositionOf(w.vault, line, asset).units - units, vq, cq).Pass?)
  }

  /** A borrower gets pledged units back exactly when the position has them and the rest still covers the debt:
      never refused for want of tokens or of a link to the line. */
  lemma ReleaseAlwaysWorks(ws: seq<World>, acts: seq<Action>, n: nat, borrower: Address, line: nat, asset: Address,
                           units: int, vq: Quote, cq: Quote)
    requires AgreedRun(ws, acts, n, asset)
    ensures Release(ws[n], borrower, line, asset, units, vq, cq).Done? <==> MayRelease(ws[n], borrower, line, asset, units, vq, cq)
  {
    CreditCollateral.AgreementHolds(ws, acts, n, asset);
    AlwaysLinked(ws, acts, n);
    if MayRelease(ws[n], borrower, line, asset, units, vq, cq) {
      WithdrawalWorks(ws[n], line, asset, units, borrower);
    }
  }

  /** Units can be moved out on a liquidation exactly while the position has them. */
  lemma SeizureAlwaysWorks(ws: seq<World>, acts: seq<Action>, n: nat, line: nat, asset: Address, units: int, to: Address)
    requires AgreedRun(ws, acts, n, asset)
    ensures LiquidateVault(ws[n], line, asset, units, to).Done? <==>
            0 < units <= PositionOf(ws[n].vault, line, asset).units && asset in ws[n].vault.configs
  {
    CreditCollateral.AgreementHolds(ws, acts, n, asset);
    AlwaysLinked(ws, acts, n);
    if 0 < units <= PositionOf(ws[n].vault, line, asset).units {
      WithdrawalWorks(ws[n], line, asset, units, to);
    }
  }
}
