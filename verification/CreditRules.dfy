/** The rules of the credit line and the pledge vault, entry point by entry point, in plain arithmetic: when each
    succeeds in a reachable state, and what it leaves. */
module CreditRules {
  import opened Prelude
  import opened Tokens
  import opened Risk
  import opened Measures
  import opened CreditSpec
  import CreditFunds
  import CreditCollateral
  import CreditLiquidation
  import CreditLiveness

  // ----- what every reachable state has

  /** The contract has the money it owes, and judges by thresholds in order. */
  ghost predicate Solvent(w: World, usdc: Address) {
    && CreditFunds.Sound(w, usdc) && CreditFunds.Surplus(w, usdc) >= 0
    && (forall a | a in w.credit.configs :: w.credit.configs[a].thresholds.Valid())
  }

  predicate MovesUnits(a: Action) {
    a.DoPledge? || a.DoRelease? || a.DoRecordLien? || a.DoLiquidateVault?
  }

  lemma VaultKeepsConfigs(w: World, a: Action)
    requires Apply(w, a).Done? && MovesUnits(a)
    ensures Apply(w, a).value.credit.configs == w.credit.configs
  {
  }

  lemma ConfigsKept(w: World, a: Action)
    requires Apply(w, a).Done? && !a.DoConfigureCredit? && !MovesUnits(a)
    ensures Apply(w, a).value.credit.configs == w.credit.configs
  {
  }

  lemma ThresholdsStep(w: World, a: Action)
    requires forall x | x in w.credit.configs :: w.credit.configs[x].thresholds.Valid()
    ensures forall x | x in Step(w, a).credit.configs :: Step(w, a).credit.configs[x].thresholds.Valid()
  {
    if Apply(w, a).Done? {
      if a.DoConfigureCredit? {
        ConfigureKeepsOrder(w, a.asset, a.creditConfig);
      } else if MovesUnits(a) {
        VaultKeepsConfigs(w, a);
      } else {
        ConfigsKept(w, a);
      }
    }
  }

  lemma ConfigureKeepsOrder(w: World, asset: Address, c: CreditConfig)
    requires ConfigureCredit(w, asset, c).Done? && forall x | x in w.credit.configs :: w.credit.configs[x].thresholds.Valid()
    ensures var w' := ConfigureCredit(w, asset, c).value;
            forall x | x in w'.credit.configs :: w'.credit.configs[x].thresholds.Valid()
  {
  }

  lemma {:induction false} AlwaysSolvent(ws: seq<World>, acts: seq<Action>, n: nat, usdc: Address)
    requires CreditLiveness.FundedRun(ws, acts, n, usdc)
    ensures Solvent(ws[n], usdc)
  {
    CreditFunds.FundsHold(ws, acts, n, usdc);
    if n > 0 {
      AlwaysSolvent(ws, acts, n - 1, usdc);
      ThresholdsStep(ws[n - 1], acts[n - 1]);
    }
  }

  /** The two contracts agree, and the vault has the tokens and a line to report to. */
  ghost predicate Backed(w: World) {
    && CreditCollateral.Agreed(w) && CreditLiveness.Linked(w)
    && forall asset :: CreditCollateral.Surplus(w, asset) >= 0
  }

  lemma AlwaysBacked(ws: seq<World>, acts: seq<Action>, n: nat)
    requires n <= |acts| && forall asset :: CreditLiveness.AgreedRun(ws, acts, n, asset)
    ensures Backed(ws[n])
  {
    assert CreditLiveness.AgreedRun(ws, acts, n, 0);
    CreditCollateral.AgreementHolds(ws, acts, n, 0);
    forall asset
      ensures CreditCollateral.Surplus(ws[n], asset) >= 0
    {
      assert CreditLiveness.AgreedRun(ws, acts, n, asset);
      CreditCollateral.AgreementHolds(ws, acts, n, asset);
    }
    CreditLiveness.AlwaysLinked(ws, acts, n);
  }

  // ----- figures

  function Since(l: Line, now: nat): nat {
    if l.lastAccrual < now then now - l.lastAccrual else 0
  }

  /** What the line owes at `now`, `i` of it not yet booked. */
  predicate Owes(l: Line, now: nat, debt: int, i: int) {
    IsInterest(i, l.drawn, l.rateBps, Since(l, now)) && debt == l.drawn + l.accrued + i
  }

  lemma DebtExact(l: Line, now: nat)
    requires l.drawn >= 0
    ensures Owes(l, now, DebtOf(l, now), InterestDelta(l, now))
    ensures Accrue(l, now) == l.(accrued := l.accrued + InterestDelta(l, now), lastAccrual := now)
  {
    YearlyInterest(l.drawn, l.rateBps, Since(l, now));
  }

  /** One transfer of `token` and nothing else. */
  ghost predicate Moves(bank: Bank, bank': Bank, token: Address, from: Address, to: Address, amount: int) {
    && (forall t, who :: BalanceOf(bank', t, who) == BalanceOf(bank, t, who) + if t == token then Delta(from, to, amount, who) else 0)
    && (forall t, o, s :: AllowanceOf(bank', t, o, s) == AllowanceOf(bank, t, o, s))
  }

  /** Only the line is rewritten, and only tokens moved beside. */
  predicate Rewrites(w: World, w': World, line: nat, l: Line) {
    w' == w.(bank := w'.bank, credit := w.credit.(lines := w.credit.lines[line := l]))
  }

  // ----- money in and out

  lemma OpenRule(w: World, lender: Address, borrower: Address, asset: Address, limit: int, rate: nat)
    ensures OpenLine(w, lender, borrower, asset, limit, rate).Done? <==> limit > 0
    ensures limit > 0 ==>
              OpenLine(w, lender, borrower, asset, limit, rate).value == w.(credit := w.credit.(
                nextLine := w.credit.nextLine + 1,
                lines := w.credit.lines[w.credit.nextLine :=
                  Line(lender, borrower, asset, limit, 0, 0, 0, rate, Open, w.now, 0, Healthy, None, 0, None)]))
  {
  }

  lemma FundRule(w: World, usdc: Address, lender: Address, line: nat, amount: int)
    requires Solvent(w, usdc)
    ensures Fund(w, lender, line, amount).Done? <==>
            && line in w.credit.lines && w.credit.lines[line].lender == lender && !w.credit.lines[line].status.Closed?
            && w.credit.lines[line].asset in w.credit.configs && 0 < amount <= BalanceOf(w.bank, usdc, lender)
    ensures Fund(w, lender, line, amount).Done? ==>
              var w', l := Fund(w, lender, line, amount).value, w.credit.lines[line];
              && Rewrites(w, w', line, l.(funded := l.funded + amount))
              && Moves(w.bank, w'.bank, usdc, lender, w.host.credit, amount)
  {
  }

  lemma WithdrawRule(w: World, usdc: Address, lender: Address, line: nat, amount: int)
    requires Solvent(w, usdc)
    ensures WithdrawUndrawn(w, lender, line, amount).Done? ==>
              var w', l := WithdrawUndrawn(w, lender, line, amount).value, w.credit.lines[line];
              && l.lender == lender && 0 < amount <= l.funded - l.drawn
              && Rewrites(w, w', line, l.(funded := l.funded - amount))
              && Moves(w.bank, w'.bank, usdc, w.host.credit, lender, amount)
    ensures WithdrawInterest(w, lender, line, amount).Done? ==>
              var w' := WithdrawInterest(w, lender, line, amount).value;
              && w.credit.lines[line].lender == lender && 0 < amount <= ClaimableOf(w.credit, line)
              && w' == w.(bank := w'.bank, credit := w.credit.(claimable := w'.credit.claimable))
              && (forall j :: ClaimableOf(w'.credit, j) == ClaimableOf(w.credit, j) - if j == line then amount else 0)
              && Moves(w.bank, w'.bank, usdc, w.host.credit, lender, amount)
  {
  }

  // ----- drawing

  /** Draws are open, the line has room, and with the amount its debt stays under the warning threshold of what
      the counted units are worth. */
  predicate MayDraw(w: World, borrower: Address, line: nat, amount: int, q: Quote, debt: int, value: int) {
    && !w.credit.drawsPaused && amount > 0 && line in w.credit.lines
    && var l := w.credit.lines[line];
    && l.borrower == borrower && l.status.Open? && amount <= l.funded - l.drawn && l.drawn + amount <= l.limit
    && l.asset in w.credit.configs && w.credit.configs[l.asset].haircutBps <= 10_000 && q.status.Ok?
    && !Reaches(debt + amount, value, w.credit.configs[l.asset].thresholds.warningBps)
  }

  /** What a line's units are worth by the credit line's own configuration. */
  ghost predicate Counted(w: World, l: Line, price: int, value: int) {
    l.asset in w.credit.configs && w.credit.configs[l.asset].haircutBps <= 10_000 ==>
      IsValue(value, l.pledgedUnits, price, w.credit.configs[l.asset].haircutBps)
  }

  lemma CountedOnce(w: World, l: Line, price: int) returns (value: int)
    ensures Counted(w, l, price, value)
    ensures l.asset in w.credit.configs ==>
              var worth := CollateralValue(l.pledgedUnits, price, w.credit.configs[l.asset].haircutBps);
              && (worth.Done? <==> w.credit.configs[l.asset].haircutBps <= 10_000)
              && (worth.Done? ==> worth.value == value)
  {
    value := 0;
    if l.asset in w.credit.configs {
      ValueExact(l.pledgedUnits, price, w.credit.configs[l.asset].haircutBps);
      if w.credit.configs[l.asset].haircutBps <= 10_000 {
        value := CollateralValue(l.pledgedUnits, price, w.credit.configs[l.asset].haircutBps).value;
      }
    }
  }

  /** In a solvent state a draw is paid exactly when it may be. */
  lemma DrawRule(w: World, usdc: Address, borrower: Address, line: nat, amount: int, to: Address, q: Quote)
      returns (debt: int, i: int, value: int)
    requires Solvent(w, usdc)
    ensures line in w.credit.lines ==> Owes(w.credit.lines[line], w.now, debt, i) && Counted(w, w.credit.lines[line], q.value, value)
    ensures Draw(w, borrower, line, amount, to, q).Done? <==> MayDraw(w, borrower, line, amount, q, debt, value)
    ensures Draw(w, borrower, line, amount, to, q).Done? ==>
              var w', l := Draw(w, borrower, line, amount, to, q).value, w.credit.lines[line];
              && Rewrites(w, w', line, l.(drawn := l.drawn + amount, accrued := l.accrued + i, lastAccrual := w.now, margin := Healthy))
              && Moves(w.bank, w'.bank, usdc, w.host.credit, to, amount)
  {
    debt, i, value := 0, 0, 0;
    if line in w.credit.lines {
      var l := w.credit.lines[line];
      assert CreditFunds.GoodLine(w, line);
      DebtExact(l, w.now);
      debt, i := DebtOf(l, w.now), InterestDelta(l, w.now);
      value := CountedOnce(w, l, q.value);
      CreditLiveness.LiquidHeld(w, usdc, line);
      if l.asset in w.credit.configs {
        JudgeExact(debt + amount, value, w.credit.configs[l.asset].thresholds);
      }
    }
  }

  /** A draw leaves the debt strictly under the warning fraction of the gross worth less the haircut. */
  lemma DrawCovered(w: World, usdc: Address, borrower: Address, line: nat, amount: int, to: Address, q: Quote)
    requires Solvent(w, usdc) && Draw(w, borrower, line, amount, to, q).Done? && w.credit.lines[line].pledgedUnits >= 0 && q.value >= 0
    ensures var l := Draw(w, borrower, line, amount, to, q).value.credit.lines[line];
            var c := w.credit.configs[l.asset];
            && c.haircutBps <= 10_000
            && (l.drawn + l.accrued) * 1_000_000_000_000_000 < c.thresholds.warningBps * (l.pledgedUnits * q.value * (10_000 - c.haircutBps))
  {
    var debt, i, value := DrawRule(w, usdc, borrower, line, amount, to, q);
    var l := w.credit.lines[line];
    var c := w.credit.configs[l.asset];
    assert CreditFunds.GoodLine(w, line);
    ValueBounds(value, l.pledgedUnits, q.value, c.haircutBps);
    MulMono(value * 100_000_000_000, l.pledgedUnits * q.value * (10_000 - c.haircutBps), c.thresholds.warningBps);
    CoverScales(debt + amount, value, c.thresholds.warningBps, l.pledgedUnits * q.value * (10_000 - c.haircutBps));
  }

  lemma CoverScales(debt: int, value: int, bps: nat, exact: int)
    requires debt * 10_000 < bps * value && value * 100_000_000_000 * bps <= exact * bps
    ensures debt * 1_000_000_000_000_000 < bps * exact
  {
    assert value * 100_000_000_000 * bps == bps * value * 100_000_000_000;
    assert exact * bps == bps * exact;
  }

  // ----- repaying

  predicate MayRepay(w: World, usdc: Address, payer: Address, line: nat, amount: int, debt: int) {
    && amount > 0 && line in w.credit.lines && w.credit.lines[line].asset in w.credit.configs
    && debt > 0 && Min(amount, debt) <= BalanceOf(w.bank, usdc, payer)
  }

  /** What a repayment leaves: interest first, then principal, and the interest claimable. */
  ghost predicate RepaidTo(w: World, w': World, usdc: Address, payer: Address, line: nat, amount: int, debt: int, i: int) {
    && line in w.credit.lines
    && var l := w.credit.lines[line];
    && var paid := if amount <= debt then amount else debt;
    && var interest := if paid <= l.accrued + i then paid else l.accrued + i;
    && w' == w.(bank := w'.bank, credit := w.credit.(lines := w'.credit.lines, claimable := w'.credit.claimable))
    && w'.credit.lines == w.credit.lines[line :=
         l.(accrued := l.accrued + i - interest, drawn := l.drawn - (paid - interest), lastAccrual := w.now)]
    && (forall j :: ClaimableOf(w'.credit, j) == ClaimableOf(w.credit, j) + if j == line then interest else 0)
    && Moves(w.bank, w'.bank, usdc, payer, w.host.credit, paid)
  }

  /** In a solvent state a repayment takes what is owed at most, settles interest before principal, and makes the
      interest claimable. */
  lemma RepayRule(w: World, usdc: Address, payer: Address, line: nat, amount: int) returns (debt: int, i: int)
    requires Solvent(w, usdc)
    ensures line in w.credit.lines ==> Owes(w.credit.lines[line], w.now, debt, i)
    ensures Repay(w, payer, line, amount).Done? <==> MayRepay(w, usdc, payer, line, amount, debt)
    ensures Repay(w, payer, line, amount).Done? ==>
              RepaidTo(w, Repay(w, payer, line, amount).value, usdc, payer, line, amount, debt, i)
  {
    debt, i := 0, 0;
    if line in w.credit.lines {
      assert CreditFunds.GoodLine(w, line);
      DebtExact(w.credit.lines[line], w.now);
      debt, i := DebtOf(w.credit.lines[line], w.now), InterestDelta(w.credit.lines[line], w.now);
      RepayWorks(w, usdc, payer, line, amount);
      if Repay(w, payer, line, amount).Done? {
        RepayStores(w, usdc, payer, line, amount);
      }
    }
  }

  lemma RepayWorks(w: World, usdc: Address, payer: Address, line: nat, amount: int)
    requires line in w.credit.lines && w.credit.lines[line].drawn >= 0 && w.credit.lines[line].accrued >= 0
    requires InterestDelta(w.credit.lines[line], w.now) >= 0
    requires forall a | a in w.credit.configs :: w.credit.configs[a].usdc == usdc
    ensures Repay(w, payer, line, amount).Done? <==> MayRepay(w, usdc, payer, line, amount, DebtOf(w.credit.lines[line], w.now))
  {
    var l := Accrue(w.credit.lines[line], w.now);
    if amount > 0 && l.accrued + l.drawn > 0 {
      assert Min(amount, l.accrued + l.drawn) - InterestPart(l, amount) - PrincipalPart(l, amount) == 0;
    }
  }

  lemma RepayStores(w: World, usdc: Address, payer: Address, line: nat, amount: int)
    requires Repay(w, payer, line, amount).Done? && w.credit.lines[line].drawn >= 0 && w.credit.lines[line].accrued >= 0
    requires InterestDelta(w.credit.lines[line], w.now) >= 0
    requires forall a | a in w.credit.configs :: w.credit.configs[a].usdc == usdc
    ensures RepaidTo(w, Repay(w, payer, line, amount).value, usdc, payer, line, amount,
                     DebtOf(w.credit.lines[line], w.now), InterestDelta(w.credit.lines[line], w.now))
  {
  }

  // ----- margin and liquidation

  /** The line can be read: its asset is configured with a haircut of at most all. */
  predicate Readable(w: World, line: nat) {
    && line in w.credit.lines && w.credit.lines[line].asset in w.credit.configs
    && w.credit.configs[w.credit.lines[line].asset].haircutBps <= 10_000
  }

  function ThresholdsOf(w: World, line: nat): Thresholds
    requires Readable(w, line)
  {
    w.credit.configs[w.credit.lines[line].asset].thresholds
  }

  lemma ReadExact(w: World, usdc: Address, line: nat, q: Quote) returns (debt: int, i: int, value: int)
    requires Solvent(w, usdc) && line in w.credit.lines
    ensures Owes(w.credit.lines[line], w.now, debt, i) && Counted(w, w.credit.lines[line], q.value, value)
    ensures var view := ReadLtv(w.credit, w.credit.lines[line], q, w.now);
            && (view.Done? <==> Readable(w, line))
            && (view.Done? ==>
                  && view.value.debt == debt && view.value.collateral == value
                  && (view.value.state.Liquidation? <==> Reaches(debt, value, ThresholdsOf(w, line).liquidationBps))
                  && (view.value.state.AtCall() <==> Reaches(debt, value, ThresholdsOf(w, line).callBps))
                  && (view.value.state.Healthy? <==> !Reaches(debt, value, ThresholdsOf(w, line).warningBps))
                  && IsLtv(view.value.ltvBps, debt, value))
  {
    var l := w.credit.lines[line];
    assert CreditFunds.GoodLine(w, line);
    DebtExact(l, w.now);
    debt, i := DebtOf(l, w.now), InterestDelta(l, w.now);
    value := CountedOnce(w, l, q.value);
    if l.asset in w.credit.configs {
      JudgeExact(debt, value, w.credit.configs[l.asset].thresholds);
    }
  }

  /** The ratio as it is stored: truncated, and clamped to 32 bits. */
  predicate IsLtv(ltv: nat, debt: int, value: int) {
    if debt <= 0 then ltv == 0
    else if value <= 0 then ltv == 4_294_967_295
    else (ltv < 4_294_967_295 && Truncates(debt * 10_000, value, ltv)) || (ltv == 4_294_967_295 && debt * 10_000 >= ltv * value)
  }

  /** What a poke writes: the state of this read, since when it has been at a call, and the flag of a breach seen
      on an Ok price. */
  predicate PokedTo(w: World, l: Line, l': Line, t: Thresholds, q: Quote, debt: int, value: int) {
    && l' == l.(margin := l'.margin, unhealthySince := l'.unhealthySince, breachLedger := l'.breachLedger, breachLtvBps := l'.breachLtvBps)
    && (l'.margin.Liquidation? <==> Reaches(debt, value, t.liquidationBps))
    && (l'.margin.AtCall() <==> Reaches(debt, value, t.callBps))
    && (l'.margin.Healthy? <==> !Reaches(debt, value, t.warningBps))
    && l'.unhealthySince == (if !Reaches(debt, value, t.callBps) then None
                             else if l.unhealthySince.Some? then l.unhealthySince else Some(w.now))
    && (if q.status.Ok? && Reaches(debt, value, t.liquidationBps)
        then if l.breachLedger.Some? then l'.breachLedger == l.breachLedger && l'.breachLtvBps == l.breachLtvBps
             else l'.breachLedger == Some(w.ledger) && IsLtv(l'.breachLtvBps, debt, value)
        else l'.breachLedger == None && l'.breachLtvBps == 0)
  }

  lemma PokeRule(w: World, usdc: Address, line: nat, q: Quote) returns (debt: int, i: int, value: int)
    requires Solvent(w, usdc)
    ensures line in w.credit.lines ==> Owes(w.credit.lines[line], w.now, debt, i) && Counted(w, w.credit.lines[line], q.value, value)
    ensures Poke(w, line, q).Done? <==> Readable(w, line)
    ensures Poke(w, line, q).Done? ==>
              var w' := Poke(w, line, q).value;
              && line in w'.credit.lines && Rewrites(w, w', line, w'.credit.lines[line]) && w'.bank == w.bank
              && PokedTo(w, w.credit.lines[line], w'.credit.lines[line], ThresholdsOf(w, line), q, debt, value)
  {
    debt, i, value := 0, 0, 0;
    if line in w.credit.lines {
      debt, i, value := ReadExact(w, usdc, line, q);
      if Poke(w, line, q).Done? {
        PokeStores(w, line, q);
      }
    }
  }

  lemma PokeStores(w: World, line: nat, q: Quote)
    requires Poke(w, line, q).Done?
    ensures var w', l, view := Poke(w, line, q).value, w.credit.lines[line], ReadLtv(w.credit, w.credit.lines[line], q, w.now).value;
            && line in w'.credit.lines
            && var l' := w'.credit.lines[line];
            && w' == w.(credit := w.credit.(lines := w.credit.lines[line := l']))
            && l' == l.(margin := view.state, unhealthySince := l'.unhealthySince, breachLedger := l'.breachLedger, breachLtvBps := l'.breachLtvBps)
            && l'.unhealthySince == (if !view.state.AtCall() then None else if l.unhealthySince.Some? then l.unhealthySince else Some(w.now))
            && (if q.status.Ok? && view.state.Liquidation?
                then if l.breachLedger.Some? then l'.breachLedger == l.breachLedger && l'.breachLtvBps == l.breachLtvBps
                     else l'.breachLedger == Some(w.ledger) && l'.breachLtvBps == view.ltvBps
                else l'.breachLedger == None && l'.breachLtvBps == 0)
  {
  }

  /** The breach was seen in an earlier ledger, and this read confirms it on an Ok price. */
  predicate MayLiquidate(w: World, line: nat, q: Quote, debt: int, value: int) {
    && Readable(w, line) && w.credit.lines[line].status.Open? && w.credit.lines[line].breachLedger.Some?
    && w.ledger > w.credit.lines[line].breachLedger.value
    && q.status.Ok? && Reaches(debt, value, ThresholdsOf(w, line).liquidationBps)
  }

  lemma LiquidateRule(w: World, usdc: Address, line: nat, q: Quote) returns (debt: int, i: int, value: int)
    requires Solvent(w, usdc)
    ensures line in w.credit.lines ==> Owes(w.credit.lines[line], w.now, debt, i) && Counted(w, w.credit.lines[line], q.value, value)
    ensures LiquidateLine(w, line, q).Done? <==> MayLiquidate(w, line, q, debt, value)
    ensures LiquidateLine(w, line, q).Done? ==>
              var w', l := LiquidateLine(w, line, q).value, w.credit.lines[line];
              w' == w.(credit := w.credit.(
                lines := w.credit.lines[line := l.(status := Liquidating, margin := Liquidation)],
                records := w.credit.records[line := Record(l.pledgedUnits, q.value, debt, false, 0, 0, 0)]))
  {
    debt, i, value := 0, 0, 0;
    if line in w.credit.lines {
      debt, i, value := ReadExact(w, usdc, line, q);
    }
  }

  // ----- closing

  function Excess(a: int, b: int): int {
    if a > b then a - b else 0
  }

  predicate MayClose(w: World, usdc: Address, lender: Address, line: nat, value: int) {
    && line in w.credit.lines && line in w.credit.records
    && w.credit.lines[line].lender == lender && w.credit.lines[line].status.Liquidating?
    && (value > w.credit.records[line].debt ==>
          w.credit.lines[line].asset in w.credit.configs && value - w.credit.records[line].debt <= BalanceOf(w.bank, usdc, lender))
  }

  /** A liquidation is closed exactly by its lender, who pays the borrower whatever the frozen units were worth
      beyond the frozen debt; no other balance moves, the line is emptied and the outcome booked. */
  lemma CloseRule(w: World, usdc: Address, lender: Address, line: nat) returns (value: int)
    requires Solvent(w, usdc)
    ensures line in w.credit.records ==> IsValue(value, w.credit.records[line].seizedUnits, w.credit.records[line].price, 0)
    ensures CloseLiquidated(w, lender, line).Done? <==> MayClose(w, usdc, lender, line, value)
    ensures CloseLiquidated(w, lender, line).Done? ==>
              var w', l, r := CloseLiquidated(w, lender, line).value, w.credit.lines[line], w.credit.records[line];
              && Moves(w.bank, w'.bank, usdc, lender, l.borrower, Excess(value, r.debt))
              && w' == w.(bank := w'.bank, credit := w.credit.(lines := w'.credit.lines, records := w'.credit.records))
              && w'.credit.lines == w.credit.lines[line := l.(funded := l.funded - l.drawn, drawn := 0, accrued := 0, pledgedUnits := 0,
                   margin := Healthy, breachLedger := None, breachLtvBps := 0, unhealthySince := None, status := Closed)]
              && w'.credit.records == w.credit.records[line := r.(closed := true, recovered := value,
                   surplus := Excess(value, r.debt), shortfall := Excess(r.debt, value))]
  {
    value := 0;
    if line in w.credit.records {
      var r := w.credit.records[line];
      ValueExact(r.seizedUnits, r.price, 0);
      value := CollateralValue(r.seizedUnits, r.price, 0).value;
      if CloseLiquidated(w, lender, line).Done? {
        CloseStores(w, lender, line);
      }
    }
  }

  lemma CloseStores(w: World, lender: Address, line: nat)
    requires CloseLiquidated(w, lender, line).Done?
    ensures var w', l, r := CloseLiquidated(w, lender, line).value, w.credit.lines[line], w.credit.records[line];
            var value := CollateralValue(r.seizedUnits, r.price, 0).value;
            && w' == w.(bank := w'.bank, credit := w'.credit)
            && w'.credit == w.credit.(lines := w'.credit.lines, records := w'.credit.records)
            && w'.credit.lines == w.credit.lines[line := l.(funded := l.funded - l.drawn, drawn := 0, accrued := 0, pledgedUnits := 0,
                 margin := Healthy, breachLedger := None, breachLtvBps := 0, unhealthySince := None, status := Closed)]
            && w'.credit.records == w.credit.records[line := r.(closed := true, recovered := value,
                 surplus := Excess(value, r.debt), shortfall := Excess(r.debt, value))]
  {
  }

  /** Over every run, a close pays out of what one earlier liquidating read saw: the units it counted, at the Ok
      price it confirmed, against the debt of that moment. */
  lemma CloseSettlesTheRead(ws: seq<World>, acts: seq<Action>, n: nat, usdc: Address, lender: Address, line: nat)
      returns (k: nat, q: Quote, value: int, debt: int, i: int)
    requires CreditLiveness.FundedRun(ws, acts, n, usdc) && CloseLiquidated(ws[n], lender, line).Done?
    ensures k < n && acts[k] == DoLiquidateLine(line, q) && q.status.Ok? && line in ws[k].credit.lines
    ensures Owes(ws[k].credit.lines[line], ws[k].now, debt, i)
    ensures IsValue(value, ws[k].credit.lines[line].pledgedUnits, q.value, 0)
    ensures Moves(ws[n].bank, CloseLiquidated(ws[n], lender, line).value.bank, usdc, lender,
                  ws[n].credit.lines[line].borrower, Excess(value, debt))
  {
    AlwaysSolvent(ws, acts, n, usdc);
    value := CloseRule(ws[n], usdc, lender, line);
    k, q := CreditLiquidation.RecordHasOrigin(ws, acts, n, line);
    AlwaysSolvent(ws, acts, k, usdc);
    debt, i := RecordedDebt(ws[k], acts[k], usdc, line, q, ws[n].credit.records[line]);
  }

  lemma RecordedDebt(w: World, a: Action, usdc: Address, line: nat, q: Quote, r: Record) returns (debt: int, i: int)
    requires Solvent(w, usdc) && CreditLiquidation.RecordedAt(w, a, line, q, r)
    ensures line in w.credit.lines && debt == r.debt && Owes(w.credit.lines[line], w.now, debt, i)
    ensures a == DoLiquidateLine(line, q) && q.status.Ok? && r.price == q.value && r.seizedUnits == w.credit.lines[line].pledgedUnits
  {
    assert CreditFunds.GoodLine(w, line);
    DebtExact(w.credit.lines[line], w.now);
    debt, i := r.debt, InterestDelta(w.credit.lines[line], w.now);
  }

  // ----- the vault

  /** The position the vault ends up with, and the line reporting its counted units. */
  ghost predicate Holds(w: World, w': World, line: nat, asset: Address, p: Position) {
    && line in w.credit.lines
    && w' == w.(bank := w'.bank, vault := w.vault.(positions := w.vault.positions[(line, asset) := p]),
                credit := w.credit.(lines := w.credit.lines[line := w.credit.lines[line].(pledgedUnits := p.units)]))
  }

  predicate MayPledge(w: World, borrower: Address, line: nat, asset: Address, units: int) {
    && !w.vault.pledgesPaused && units > 0 && asset in w.vault.configs && line in w.credit.lines
    && w.credit.lines[line].borrower == borrower && w.credit.lines[line].asset == asset
    && var p := PositionOf(w.vault, line, asset);
    && ((p.units == 0 && p.pending == 0) || p.mode == w.vault.configs[asset].mode)
    && w.credit.vault == Some(w.host.vault)
    && (w.vault.configs[asset].mode.Escrow? ==> units <= BalanceOf(w.bank, asset, borrower))
  }

  /** Escrowed units come in and count at once; units under a lien only wait. */
  lemma PledgeRule(w: World, borrower: Address, line: nat, asset: Address, units: int)
    requires Backed(w)
    ensures Pledge(w, borrower, line, asset, units).Done? <==> MayPledge(w, borrower, line, asset, units)
    ensures Pledge(w, borrower, line, asset, units).Done? ==>
              var w', p, mode := Pledge(w, borrower, line, asset, units).value, PositionOf(w.vault, line, asset), w.vault.configs[asset].mode;
              if mode.Escrow?
              then Holds(w, w', line, asset, p.(units := p.units + units, mode := mode)) && Moves(w.bank, w'.bank, asset, borrower, w.host.vault, units)
              else Holds(w, w', line, asset, p.(pending := p.pending + units, mode := mode)) && w'.bank == w.bank
  {
    GoodPositionOf(w, line, asset);
  }

  lemma GoodPositionOf(w: World, line: nat, asset: Address)
    requires CreditCollateral.Agreed(w)
    ensures var p := PositionOf(w.vault, line, asset);
            && CreditCollateral.GoodPosition(p)
            && (p.units > 0 || p.pending > 0 ==> line in w.credit.lines && w.credit.lines[line].asset == asset && w.vault.positions != map[])
  {
    if (line, asset) in w.vault.positions {
      assert CreditCollateral.GoodPosition(w.vault.positions[(line, asset)]);
    }
  }

  /** A confirmation turns exactly the units confirmed from pending into counted ones, and no more than are
      pending. */
  lemma RecordLienRule(w: World, gateway: Address, line: nat, asset: Address, units: int, lienRef: string)
    requires Backed(w)
    ensures RecordLien(w, gateway, line, asset, units, lienRef).Done? <==>
            w.vault.gateway == Some(gateway) && asset in w.vault.configs && 0 < units <= PositionOf(w.vault, line, asset).pending
    ensures RecordLien(w, gateway, line, asset, units, lienRef).Done? ==>
              var w', p := RecordLien(w, gateway, line, asset, units, lienRef).value, PositionOf(w.vault, line, asset);
              && Holds(w, w', line, asset, p.(pending := p.pending - units, units := p.units + units, lienRef := Some(lienRef)))
              && w'.bank == w.bank
  {
    GoodPositionOf(w, line, asset);
  }

  /** Units leave a position: with their tokens from escrow, without any under a lien. */
  ghost predicate Leaves(w: World, w': World, line: nat, asset: Address, units: int, to: Address) {
    var p := PositionOf(w.vault, line, asset);
    && Holds(w, w', line, asset, p.(units := p.units - units))
    && if p.mode.Escrow? then Moves(w.bank, w'.bank, asset, w.host.vault, to, units) else w'.bank == w.bank
  }

  /** Nothing is owed, or what stays behind keeps the debt under the vault's own warning threshold on an Ok price
      of its own guard. */
  ghost predicate StaysCovered(w: World, line: nat, asset: Address, remaining: int, vq: Quote, debt: int, value: int) {
    debt > 0 ==>
      && asset in w.vault.configs && vq.status.Ok? && Readable(w, line) && w.vault.configs[asset].haircutBps <= 10_000
      && IsValue(value, remaining, vq.value, w.vault.configs[asset].haircutBps)
      && !Reaches(debt, value, w.vault.configs[asset].thresholds.warningBps)
  }

  lemma CheckExact(w: World, line: nat, asset: Address, remaining: int, vq: Quote, cq: Quote) returns (value: int)
    requires Backed(w) && asset in w.vault.configs && line in w.credit.lines && w.credit.lines[line].drawn >= 0
    ensures DebtOf(w.credit.lines[line], w.now) > 0 ==>
              (CheckRelease(w, w.credit.lines[line], asset, remaining, vq, cq).Pass?
               <==> StaysCovered(w, line, asset, remaining, vq, DebtOf(w.credit.lines[line], w.now), value))
  {
    var l, c := w.credit.lines[line], w.vault.configs[asset];
    ValueExact(remaining, vq.value, c.haircutBps);
    value := 0;
    if c.haircutBps <= 10_000 {
      value := CollateralValue(remaining, vq.value, c.haircutBps).value;
      JudgeExact(DebtOf(l, w.now), value, c.thresholds);
    }
    if l.asset in w.credit.configs {
      ValueExact(l.pledgedUnits, cq.value, w.credit.configs[l.asset].haircutBps);
    }
  }

  lemma ReleaseRule(w: World, usdc: Address, borrower: Address, line: nat, asset: Address, units: int, vq: Quote, cq: Quote)
      returns (debt: int, i: int, value: int)
    requires Backed(w) && Solvent(w, usdc)
    ensures line in w.credit.lines ==> Owes(w.credit.lines[line], w.now, debt, i)
    ensures Release(w, borrower, line, asset, units, vq, cq).Done? <==>
            && asset in w.vault.configs && line in w.credit.lines && w.credit.lines[line].borrower == borrower
            && 0 < units <= PositionOf(w.vault, line, asset).units
            && StaysCovered(w, line, asset, PositionOf(w.vault, line, asset).units - units, vq, debt, value)
    ensures Release(w, borrower, line, asset, units, vq, cq).Done? ==>
              Leaves(w, Release(w, borrower, line, asset, units, vq, cq).value, line, asset, units, borrower)
  {
    debt, i, value := 0, 0, 0;
    if line in w.credit.lines {
      assert CreditFunds.GoodLine(w, line);
      DebtExact(w.credit.lines[line], w.now);
      debt, i := DebtOf(w.credit.lines[line], w.now), InterestDelta(w.credit.lines[line], w.now);
      if asset in w.vault.configs && 0 < units <= PositionOf(w.vault, line, asset).units {
        value := CheckExact(w, line, asset, PositionOf(w.vault, line, asset).units - units, vq, cq);
        CreditLiveness.WithdrawalWorks(w, line, asset, units, borrower);
      }
    }
    ReleaseIsWithdrawal(w, borrower, line, asset, units, vq, cq);
    if Release(w, borrower, line, asset, units, vq, cq).Done? {
      WithdrawalLeaves(w, line, asset, units, borrower);
    }
  }

  /** While anything is owed, what a release leaves behind covers it strictly: by its gross worth less the
      vault's haircut, against the vault's warning fraction. */
  lemma ReleaseCovered(w: World, usdc: Address, borrower: Address, line: nat, asset: Address, units: int, vq: Quote, cq: Quote)
      returns (debt: int, i: int)
    requires Backed(w) && Solvent(w, usdc) && Release(w, borrower, line, asset, units, vq, cq).Done? && vq.value >= 0
    ensures line in w.credit.lines && Owes(w.credit.lines[line], w.now, debt, i) && asset in w.vault.configs
    ensures var c, remaining := w.vault.configs[asset], PositionOf(w.vault, line, asset).units - units;
            debt > 0 ==>
              && c.haircutBps <= 10_000
              && debt * 1_000_000_000_000_000 < c.thresholds.warningBps * (remaining * vq.value * (10_000 - c.haircutBps))
  {
    var value;
    debt, i, value := ReleaseRule(w, usdc, borrower, line, asset, units, vq, cq);
    if debt > 0 {
      var c, remaining := w.vault.configs[asset], PositionOf(w.vault, line, asset).units - units;
      ValueBounds(value, remaining, vq.value, c.haircutBps);
      MulMono(value * 100_000_000_000, remaining * vq.value * (10_000 - c.haircutBps), c.thresholds.warningBps);
      CoverScales(debt, value, c.thresholds.warningBps, remaining * vq.value * (10_000 - c.haircutBps));
    }
  }

  lemma ReleaseIsWithdrawal(w: World, borrower: Address, line: nat, asset: Address, units: int, vq: Quote, cq: Quote)
    ensures var p := PositionOf(w.vault, line, asset);
            if && asset in w.vault.configs && line in w.credit.lines && w.credit.lines[line].borrower == borrower
               && 0 < units <= p.units
               && (DebtOf(w.credit.lines[line], w.now) > 0 ==>
                     CheckRelease(w, w.credit.lines[line], asset, p.units - units, vq, cq).Pass?)
            then Release(w, borrower, line, asset, units, vq, cq) == Withdrawal(w, line, asset, p, units, borrower)
            else Release(w, borrower, line, asset, units, vq, cq).Revert?
  {
  }

  lemma WithdrawalLeaves(w: World, line: nat, asset: Address, units: int, to: Address)
    requires Withdrawal(w, line, asset, PositionOf(w.vault, line, asset), units, to).Done?
    ensures Leaves(w, Withdrawal(w, line, asset, PositionOf(w.vault, line, asset), units, to).value, line, asset, units, to)
  {
  }

  lemma SeizeRule(w: World, line: nat, asset: Address, units: int, to: Address)
    requires Backed(w)
    ensures LiquidateVault(w, line, asset, units, to).Done? <==>
            asset in w.vault.configs && 0 < units <= PositionOf(w.vault, line, asset).units
    ensures LiquidateVault(w, line, asset, units, to).Done? ==>
              Leaves(w, LiquidateVault(w, line, asset, units, to).value, line, asset, units, to)
  {
    if 0 < units <= PositionOf(w.vault, line, asset).units {
      CreditLiveness.WithdrawalWorks(w, line, asset, units, to);
    }
  }

  // ----- reports and settings

  predicate IsSetting(a: Action) {
    a.DoConfigureCredit? || a.DoConfigureVault? || a.DoSetVault? || a.DoSetGateway? || a.DoPauseDraws? || a.DoPausePledges?
    || a.DoSyncCollateral? || a.Outside? || a.Elapse?
  }

  predicate InOrder(t: Thresholds) {
    1 <= t.warningBps && t.warningBps <= t.callBps && t.callBps <= t.liquidationBps && t.liquidationBps <= 10_000
  }

  /** What each setting and report accepts, and the one thing it changes. */
  lemma SettingsRule(w: World, a: Action)
    requires IsSetting(a)
    ensures Apply(w, a).Done? <==>
            match a
            case DoConfigureCredit(_, c) => InOrder(c.thresholds)
            case DoConfigureVault(_, c) => InOrder(c.thresholds)
            case DoSyncCollateral(line, units) => units >= 0 && line in w.credit.lines
            case Outside(op) => op.Apply(w.bank, w.ledger, w.host.maxTtl).Done?
            case _ => true
    ensures Apply(w, a).Done? ==>
              var w' := Apply(w, a).value;
              match a
              case DoConfigureCredit(asset, c) => w' == w.(credit := w.credit.(configs := w.credit.configs[asset := c]))
              case DoConfigureVault(asset, c) => w' == w.(vault := w.vault.(configs := w.vault.configs[asset := c]))
              case DoSetVault(v) => w' == w.(credit := w.credit.(vault := Some(v)))
              case DoSetGateway(g) => w' == w.(vault := w.vault.(gateway := Some(g)))
              case DoPauseDraws(p) => w' == w.(credit := w.credit.(drawsPaused := p))
              case DoPausePledges(p) => w' == w.(vault := w.vault.(pledgesPaused := p))
              case DoSyncCollateral(line, units) => Rewrites(w, w', line, w.credit.lines[line].(pledgedUnits := units)) && w'.bank == w.bank
              case Elapse(seconds, ledgers) => w' == w.(now := w.now + seconds, ledger := w.ledger + ledgers)
              case Outside(op) => w' == w.(bank := op.Apply(w.bank, w.ledger, w.host.maxTtl).value)
  {
  }

  /** A line takes over a figure exactly from its vault, for its own asset and if it is no negative one. */
  lemma ReportRule(w: World, vault: Address, line: nat, asset: Address, units: int)
    ensures SyncFromVault(w, vault, line, asset, units).Done? <==>
            w.credit.vault == Some(vault) && line in w.credit.lines && w.credit.lines[line].asset == asset && units >= 0
    ensures SyncFromVault(w, vault, line, asset, units).Done? ==>
              Rewrites(w, SyncFromVault(w, vault, line, asset, units).value, line, w.credit.lines[line].(pledgedUnits := units))
              && SyncFromVault(w, vault, line, asset, units).value.bank == w.bank
  {
  }

  // ----- what a position is made of

  /** What a step adds to the units of a position, counted or pending. */
  function Inflow(w: World, a: Action, line: nat, asset: Address): int {
    if Apply(w, a).Revert? then 0 else
    match a
    case DoPledge(_, l, x, units) => if l == line && x == asset then units else 0
    case DoRelease(_, l, x, units, _, _) => if l == line && x == asset then -units else 0
    case DoLiquidateVault(l, x, units, _) => if l == line && x == asset then -units else 0
    case _ => 0
  }

  function Stock(w: World, line: nat, asset: Address): int {
    PositionOf(w.vault, line, asset).units + PositionOf(w.vault, line, asset).pending
  }

  lemma PledgeStock(w: World, a: Action, line: nat, asset: Address)
    requires Apply(w, a).Done? && (a.DoPledge? || a.DoRecordLien?)
    ensures Stock(Apply(w, a).value, line, asset) == Stock(w, line, asset) + Inflow(w, a, line, asset)
  {
  }

  lemma LeavingStock(w: World, a: Action, line: nat, asset: Address)
    requires Apply(w, a).Done? && (a.DoRelease? || a.DoLiquidateVault?)
    ensures Stock(Apply(w, a).value, line, asset) == Stock(w, line, asset) + Inflow(w, a, line, asset)
  {
  }

  lemma OtherStockStep(w: World, a: Action, line: nat, asset: Address)
    requires Apply(w, a).Done? && !MovesUnits(a)
    ensures Stock(Apply(w, a).value, line, asset) == Stock(w, line, asset)
  {
    assert Apply(w, a).value.vault.positions == w.vault.positions;
  }

  /** The units pledged so far, less those released and seized. */
  ghost function NetPledged(ws: seq<World>, acts: seq<Action>, n: nat, line: nat, asset: Address): int
    requires |ws| == |acts| + 1 && n <= |acts|
  {
    if n == 0 then 0 else NetPledged(ws, acts, n - 1, line, asset) + Inflow(ws[n - 1], acts[n - 1], line, asset)
  }

  lemma StockStep(w: World, a: Action, line: nat, asset: Address)
    ensures Stock(Step(w, a), line, asset) == Stock(w, line, asset) + Inflow(w, a, line, asset)
  {
    if Apply(w, a).Done? {
      if a.DoPledge? || a.DoRecordLien? {
        PledgeStock(w, a, line, asset);
      } else if MovesUnits(a) {
        LeavingStock(w, a, line, asset);
      } else {
        OtherStockStep(w, a, line, asset);
      }
    }
  }

  /** Over every run, what a position holds, counted or pending, is what was pledged to it less what was released
      and seized: no confirmation, report or reconciliation ever adds a unit. */
  lemma {:induction false} PositionIsNetPledged(ws: seq<World>, acts: seq<Action>, n: nat, line: nat, asset: Address)
    requires IsRun(ws, acts) && IsGenesis(ws[0]) && n <= |acts|
    ensures Stock(ws[n], line, asset) == NetPledged(ws, acts, n, line, asset)
  {
    if n > 0 {
      PositionIsNetPledged(ws, acts, n - 1, line, asset);
      StockStep(ws[n - 1], acts[n - 1], line, asset);
    }
  }
}
