/** The money the credit line holds, over every run. */
module CreditFunds {
  import opened Prelude
  import opened Tokens
  import opened Risk
  import opened CreditSpec

  /** What the contract owes on one line: undrawn funding, plus interest not yet withdrawn. */
  function Liquid(c: Credit, line: nat): int
    requires line in c.lines
  {
    c.lines[line].funded - c.lines[line].drawn + ClaimableOf(c, line)
  }

  ghost function Liquids(c: Credit): map<nat, int> {
    map line | line in c.lines :: Liquid(c, line)
  }

  ghost function TotalLiquid(c: Credit): int {
    Sum(Liquids(c))
  }

  function Held(w: World, usdc: Address): int {
    BalanceOf(w.bank, usdc, w.host.credit)
  }

  ghost function Surplus(w: World, usdc: Address): int {
    Held(w, usdc) - TotalLiquid(w.credit)
  }

  predicate GoodLine(w: World, line: nat)
    requires line in w.credit.lines
  {
    var l := w.credit.lines[line];
    && line < w.credit.nextLine
    && 0 <= l.drawn <= l.funded && l.drawn <= l.limit
    && l.accrued >= 0 && ClaimableOf(w.credit, line) >= 0
    && l.lastAccrual <= w.now
    && l.lender != w.host.credit && l.lender != w.host.vault
    && (l.status.Closed? ==> l.drawn == 0 && l.accrued == 0)
  }

  ghost predicate Sound(w: World, usdc: Address) {
    && w.host.credit != w.host.vault
    && GrantsNothing(w.bank, w.host.credit)
    && (forall a | a in w.credit.configs :: w.credit.configs[a].usdc == usdc)
    && (forall line | line in w.credit.lines :: GoodLine(w, line))
    && (forall line | line in w.credit.claimable :: line in w.credit.lines)
  }

  /** One USDC token for every configuration, and only authorised transactions. */
  predicate Disciplined(host: Host, usdc: Address, a: Action) {
    Authorised(host, a) && (a.DoConfigureCredit? ==> a.creditConfig.usdc == usdc)
  }

  /** The transactions that can send tokens to the credit line without owing them to anybody. */
  predicate PaysCredit(w: World, a: Action) {
    match a
    case DoDraw(_, _, _, to, _) => to == w.host.credit
    case DoClose(_, line) => line in w.credit.lines && w.credit.lines[line].borrower == w.host.credit
    case DoLiquidateVault(_, _, _, to) => to == w.host.credit
    case Outside(op) => op.Pays(w.host.credit)
    case _ => false
  }

  ghost predicate Keeps(w: World, w': World, usdc: Address, exact: bool) {
    && Sound(w', usdc) && w'.host == w.host
    && Surplus(w', usdc) >= Surplus(w, usdc)
    && (exact ==> Surplus(w', usdc) == Surplus(w, usdc))
  }

  lemma InterestNonNegative(l: Line, now: nat)
    requires l.drawn >= 0
    ensures InterestDelta(l, now) >= 0
  {
    assert l.drawn * l.rateBps >= 0;
    assert l.drawn * l.rateBps * SatSub(now, l.lastAccrual) >= 0;
  }

  /** A transaction on one line: the contract's balance moves with what it owes on that line. */
  lemma LineKeeps(w: World, w': World, usdc: Address, line: nat, exact: bool)
    requires Sound(w, usdc) && w'.host == w.host && w'.now >= w.now && w'.credit.configs == w.credit.configs
    requires w'.credit.nextLine >= w.credit.nextLine && GrantsNothing(w'.bank, w.host.credit)
    requires line in w'.credit.lines && w'.credit.lines == w.credit.lines[line := w'.credit.lines[line]]
    requires forall j :: j != line ==> ClaimableOf(w'.credit, j) == ClaimableOf(w.credit, j)
    requires w'.credit.claimable.Keys <= w.credit.claimable.Keys + {line}
    requires GoodLine(w', line)
    requires var change := Liquid(w'.credit, line) - (if line in w.credit.lines then Liquid(w.credit, line) else 0);
             && Held(w', usdc) >= Held(w, usdc) + change
             && (exact ==> Held(w', usdc) == Held(w, usdc) + change)
    ensures Keeps(w, w', usdc, exact)
  {
    OthersStayGood(w, w', line);
    assert Liquids(w'.credit) == Liquids(w.credit)[line := Liquids(w'.credit)[line]];
    SumChange(Liquids(w.credit), Liquids(w'.credit), line);
  }

  lemma OthersStayGood(w: World, w': World, line: nat)
    requires forall j | j in w.credit.lines :: GoodLine(w, j)
    requires w'.host == w.host && w'.now >= w.now && w'.credit.nextLine >= w.credit.nextLine
    requires line in w'.credit.lines && w'.credit.lines == w.credit.lines[line := w'.credit.lines[line]]
    requires forall j :: j != line ==> ClaimableOf(w'.credit, j) == ClaimableOf(w.credit, j)
    requires GoodLine(w', line)
    ensures forall j | j in w'.credit.lines :: GoodLine(w', j)
    ensures forall j | j in w'.credit.lines && j != line :: Liquid(w'.credit, j) == Liquid(w.credit, j)
  {
    forall j | j in w'.credit.lines && j != line
      ensures GoodLine(w', j) && Liquid(w'.credit, j) == Liquid(w.credit, j)
    {
      assert GoodLine(w, j);
    }
  }

  /** A transaction that changes no figure of any line but its collateral or margin. */
  lemma SameFiguresKeep(w: World, w': World, usdc: Address, exact: bool)
    requires Sound(w, usdc) && w'.host == w.host && w'.now >= w.now
    requires forall a | a in w'.credit.configs :: w'.credit.configs[a].usdc == usdc
    requires w'.credit.nextLine == w.credit.nextLine && GrantsNothing(w'.bank, w.host.credit)
    requires w'.credit.lines == w.credit.lines && w'.credit.claimable == w.credit.claimable
    requires Held(w', usdc) >= Held(w, usdc) && (exact ==> Held(w', usdc) == Held(w, usdc))
    ensures Keeps(w, w', usdc, exact)
  {
    assert Liquids(w'.credit) == Liquids(w.credit);
    forall j | j in w'.credit.lines
      ensures GoodLine(w', j)
    {
      assert GoodLine(w, j);
    }
  }

  lemma OpenKeeps(w: World, usdc: Address, lender: Address, b: Address, asset: Address, limit: int, rate: nat)
    requires Sound(w, usdc) && lender != w.host.credit && lender != w.host.vault
    requires OpenLine(w, lender, b, asset, limit, rate).Done?
    ensures Keeps(w, OpenLine(w, lender, b, asset, limit, rate).value, usdc, true)
  {
    var w' := OpenLine(w, lender, b, asset, limit, rate).value;
    forall j | j in w.credit.lines
      ensures j < w.credit.nextLine
    {
      assert GoodLine(w, j);
    }
    LineKeeps(w, w', usdc, w.credit.nextLine, true);
  }

  lemma FundKeeps(w: World, usdc: Address, lender: Address, line: nat, amount: int)
    requires Sound(w, usdc) && lender != w.host.credit && Fund(w, lender, line, amount).Done?
    ensures Keeps(w, Fund(w, lender, line, amount).value, usdc, true)
  {
    assert GoodLine(w, line);
    LineKeeps(w, Fund(w, lender, line, amount).value, usdc, line, true);
  }

  lemma DrawKeeps(w: World, usdc: Address, b: Address, line: nat, amount: int, to: Address, q: Quote)
    requires Sound(w, usdc) && Draw(w, b, line, amount, to, q).Done?
    ensures Keeps(w, Draw(w, b, line, amount, to, q).value, usdc, to != w.host.credit)
  {
    assert GoodLine(w, line);
    InterestNonNegative(w.credit.lines[line], w.now);
    LineKeeps(w, Draw(w, b, line, amount, to, q).value, usdc, line, to != w.host.credit);
  }

  /** A repayment never fails its own bookkeeping check: interest and principal make up all that is
      applied. */
  lemma RepaymentSplits(l: Line, amount: int)
    requires l.drawn >= 0 && l.accrued >= 0 && amount > 0
    ensures InterestPart(l, amount) + PrincipalPart(l, amount) == Min(amount, l.accrued + l.drawn)
    ensures 0 <= InterestPart(l, amount) <= l.accrued && 0 <= PrincipalPart(l, amount) <= l.drawn
    ensures PrincipalPart(l, amount) > 0 ==> InterestPart(l, amount) == l.accrued
  {
  }

  lemma RepayKeeps(w: World, usdc: Address, payer: Address, line: nat, amount: int)
    requires Sound(w, usdc) && payer != w.host.credit && Repay(w, payer, line, amount).Done?
    ensures Keeps(w, Repay(w, payer, line, amount).value, usdc, true)
  {
    assert GoodLine(w, line);
    InterestNonNegative(w.credit.lines[line], w.now);
    RepaymentSplits(Accrue(w.credit.lines[line], w.now), amount);
    LineKeeps(w, Repay(w, payer, line, amount).value, usdc, line, true);
  }

  lemma PokeShape(w: World, line: nat, q: Quote)
    requires Poke(w, line, q).Done?
    ensures var w' := Poke(w, line, q).value;
            && line in w.credit.lines && line in w'.credit.lines && w' == WithLine(w, line, w'.credit.lines[line])
            && var l, l' := w.credit.lines[line], w'.credit.lines[line];
               l' == l.(margin := l'.margin, breachLedger := l'.breachLedger, breachLtvBps := l'.breachLtvBps,
                        unhealthySince := l'.unhealthySince)
  {
  }

  lemma PokeKeeps(w: World, usdc: Address, line: nat, q: Quote)
    requires Sound(w, usdc) && Poke(w, line, q).Done?
    ensures Keeps(w, Poke(w, line, q).value, usdc, true)
  {
    PokeShape(w, line, q);
    assert GoodLine(w, line);
    LineKeeps(w, Poke(w, line, q).value, usdc, line, true);
  }

  lemma LiquidateKeeps(w: World, usdc: Address, line: nat, q: Quote)
    requires Sound(w, usdc) && LiquidateLine(w, line, q).Done?
    ensures Keeps(w, LiquidateLine(w, line, q).value, usdc, true)
  {
    assert GoodLine(w, line);
    LineKeeps(w, LiquidateLine(w, line, q).value, usdc, line, true);
  }

  lemma CloseKeeps(w: World, usdc: Address, lender: Address, line: nat)
    requires Sound(w, usdc) && lender != w.host.credit && CloseLiquidated(w, lender, line).Done?
    ensures Keeps(w, CloseLiquidated(w, lender, line).value, usdc, w.credit.lines[line].borrower != w.host.credit)
  {
    assert GoodLine(w, line);
    LineKeeps(w, CloseLiquidated(w, lender, line).value, usdc, line, w.credit.lines[line].borrower != w.host.credit);
  }

  lemma WithdrawUndrawnKeeps(w: World, usdc: Address, lender: Address, line: nat, amount: int)
    requires Sound(w, usdc) && WithdrawUndrawn(w, lender, line, amount).Done?
    ensures Keeps(w, WithdrawUndrawn(w, lender, line, amount).value, usdc, true)
  {
    assert GoodLine(w, line);
    LineKeeps(w, WithdrawUndrawn(w, lender, line, amount).value, usdc, line, true);
  }

  lemma WithdrawInterestKeeps(w: World, usdc: Address, lender: Address, line: nat, amount: int)
    requires Sound(w, usdc) && WithdrawInterest(w, lender, line, amount).Done?
    ensures Keeps(w, WithdrawInterest(w, lender, line, amount).value, usdc, true)
  {
    assert GoodLine(w, line);
    var w' := WithdrawInterest(w, lender, line, amount).value;
    assert w'.credit.lines == w.credit.lines[line := w'.credit.lines[line]];
    LineKeeps(w, w', usdc, line, true);
  }

  /** A vault transaction: one line's collateral figure, and collateral tokens that never leave the
      credit line's own balance. */
  lemma VaultKeeps(w: World, w': World, usdc: Address, line: nat, exact: bool)
    requires Sound(w, usdc) && line in w.credit.lines
    requires w'.host == w.host && w'.now == w.now && GrantsNothing(w'.bank, w.host.credit)
    requires line in w'.credit.lines
    requires w'.credit == w.credit.(lines := w.credit.lines[line := w.credit.lines[line].(pledgedUnits := w'.credit.lines[line].pledgedUnits)])
    requires Held(w', usdc) >= Held(w, usdc) && (exact ==> Held(w', usdc) == Held(w, usdc))
    ensures Keeps(w, w', usdc, exact)
  {
    assert GoodLine(w, line);
    LineKeeps(w, w', usdc, line, exact);
  }

  lemma PledgeKeeps(w: World, usdc: Address, b: Address, line: nat, asset: Address, units: int)
    requires Sound(w, usdc) && b != w.host.credit && Pledge(w, b, line, asset, units).Done?
    ensures Keeps(w, Pledge(w, b, line, asset, units).value, usdc, true)
  {
    VaultKeeps(w, Pledge(w, b, line, asset, units).value, usdc, line, true);
  }

  lemma ReleaseKeeps(w: World, usdc: Address, b: Address, line: nat, asset: Address, units: int, vq: Quote, cq: Quote)
    requires Sound(w, usdc) && b != w.host.credit && Release(w, b, line, asset, units, vq, cq).Done?
    ensures Keeps(w, Release(w, b, line, asset, units, vq, cq).value, usdc, true)
  {
    VaultKeeps(w, Release(w, b, line, asset, units, vq, cq).value, usdc, line, true);
  }

  lemma LienKeeps(w: World, usdc: Address, g: Address, line: nat, asset: Address, units: int, r: string)
    requires Sound(w, usdc) && RecordLien(w, g, line, asset, units, r).Done?
    ensures Keeps(w, RecordLien(w, g, line, asset, units, r).value, usdc, true)
  {
    VaultKeeps(w, RecordLien(w, g, line, asset, units, r).value, usdc, line, true);
  }

  lemma SeizeKeeps(w: World, usdc: Address, line: nat, asset: Address, units: int, to: Address)
    requires Sound(w, usdc) && LiquidateVault(w, line, asset, units, to).Done?
    ensures Keeps(w, LiquidateVault(w, line, asset, units, to).value, usdc, to != w.host.credit)
  {
    VaultKeeps(w, LiquidateVault(w, line, asset, units, to).value, usdc, line, to != w.host.credit);
  }

  lemma OutsideKeeps(w: World, usdc: Address, op: TokenOp)
    requires Sound(w, usdc) && op.Signer() != Some(w.host.credit) && op.Apply(w.bank, w.ledger, w.host.maxTtl).Done?
    ensures Keeps(w, Apply(w, Outside(op)).value, usdc, !op.Pays(w.host.credit))
  {
    OthersCannotTake(w.bank, op, w.ledger, w.host.maxTtl, w.host.credit);
    SameFiguresKeep(w, Apply(w, Outside(op)).value, usdc, !op.Pays(w.host.credit));
  }

  lemma SettingKeeps(w: World, usdc: Address, a: Action)
    requires Sound(w, usdc) && Disciplined(w.host, usdc, a) && Apply(w, a).Done?
    requires a.DoConfigureCredit? || a.DoConfigureVault? || a.DoSetVault? || a.DoSetGateway? || a.DoPauseDraws? || a.DoPausePledges? || a.Elapse?
    ensures Keeps(w, Apply(w, a).value, usdc, true)
  {
    SameFiguresKeep(w, Apply(w, a).value, usdc, true);
  }

  lemma SyncKeeps(w: World, usdc: Address, line: nat, units: int)
    requires Sound(w, usdc) && SyncCollateral(w, line, units).Done?
    ensures Keeps(w, SyncCollateral(w, line, units).value, usdc, true)
  {
    VaultKeeps(w, SyncCollateral(w, line, units).value, usdc, line, true);
  }

  lemma FundsStep(w: World, usdc: Address, a: Action)
    requires Sound(w, usdc) && Disciplined(w.host, usdc, a) && Apply(w, a).Done?
    ensures Keeps(w, Apply(w, a).value, usdc, !PaysCredit(w, a))
  {
    match a
    case DoOpen(l, b, asset, limit, rate) => OpenKeeps(w, usdc, l, b, asset, limit, rate);
    case DoFund(l, line, amount) => FundKeeps(w, usdc, l, line, amount);
    case DoSyncCollateral(line, units) => SyncKeeps(w, usdc, line, units);
    case DoDraw(b, line, amount, to, q) => DrawKeeps(w, usdc, b, line, amount, to, q);
    case DoRepay(p, line, amount) => RepayKeeps(w, usdc, p, line, amount);
    case DoPoke(line, q) => PokeKeeps(w, usdc, line, q);
    case DoLiquidateLine(line, q) => LiquidateKeeps(w, usdc, line, q);
    case DoClose(l, line) => CloseKeeps(w, usdc, l, line);
    case DoWithdrawUndrawn(l, line, amount) => WithdrawUndrawnKeeps(w, usdc, l, line, amount);
    case DoWithdrawInterest(l, line, amount) => WithdrawInterestKeeps(w, usdc, l, line, amount);
    case DoPledge(b, line, asset, units) => PledgeKeeps(w, usdc, b, line, asset, units);
    case DoRelease(b, line, asset, units, vq, cq) => ReleaseKeeps(w, usdc, b, line, asset, units, vq, cq);
    case DoRecordLien(g, line, asset, units, r) => LienKeeps(w, usdc, g, line, asset, units, r);
    case DoLiquidateVault(line, asset, units, to) => SeizeKeeps(w, usdc, line, asset, units, to);
    case Outside(op) => OutsideKeeps(w, usdc, op);
    case _ => SettingKeeps(w, usdc, a);
  }

  lemma {:induction false} FundsHold(ws: seq<World>, acts: seq<Action>, n: nat, usdc: Address)
    requires IsRun(ws, acts) && n <= |acts| && IsGenesis(ws[0])
    requires ws[0].host.credit != ws[0].host.vault && GrantsNothing(ws[0].bank, ws[0].host.credit)
    requires forall a | a in acts :: Disciplined(ws[0].host, usdc, a)
    ensures Sound(ws[n], usdc) && ws[n].host == ws[0].host
    ensures Surplus(ws[n], usdc) >= Held(ws[0], usdc)
    ensures (forall i | 0 <= i < n :: !PaysCredit(ws[i], acts[i])) ==> Surplus(ws[n], usdc) == Held(ws[0], usdc)
  {
    if n == 0 {
      assert Liquids(ws[0].credit) == map[];
    } else {
      FundsHold(ws, acts, n - 1, usdc);
      assert acts[n - 1] in acts;
      if Apply(ws[n - 1], acts[n - 1]).Done? {
        FundsStep(ws[n - 1], usdc, acts[n - 1]);
      }
    }
  }

  /** Over every run with one USDC token: the contract holds at least the undrawn funding plus
      unclaimed interest of all lines (exactly that, beyond what it started with, when no payout names
      the contract itself), and every line keeps 0 <= drawn <= min(funded, limit). */
  lemma FundsConserved(ws: seq<World>, acts: seq<Action>, n: nat, usdc: Address, line: nat)
    requires IsRun(ws, acts) && n <= |acts| && IsGenesis(ws[0])
    requires ws[0].host.credit != ws[0].host.vault && GrantsNothing(ws[0].bank, ws[0].host.credit)
    requires forall a | a in acts :: Disciplined(ws[0].host, usdc, a)
    ensures Held(ws[n], usdc) >= TotalLiquid(ws[n].credit) + Held(ws[0], usdc)
    ensures (forall i | 0 <= i < n :: !PaysCredit(ws[i], acts[i])) ==>
              Held(ws[n], usdc) == TotalLiquid(ws[n].credit) + Held(ws[0], usdc)
    ensures line in ws[n].credit.lines ==>
              var l := ws[n].credit.lines[line]; 0 <= l.drawn <= Min(l.funded, l.limit)
  {
    FundsHold(ws, acts, n, usdc);
    if line in ws[n].credit.lines {
      assert GoodLine(ws[n], line);
    }
  }
}
