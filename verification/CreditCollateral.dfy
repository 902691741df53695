/** The two contracts never disagree about a live line's collateral, and the vault holds the tokens. */
module CreditCollateral {
  import opened Prelude
  import opened Tokens
  import opened Risk
  import opened CreditSpec
  import CreditFunds

  ghost function EscrowedIn(v: Vault, asset: Address): map<(nat, Address), int> {
    map k | k in v.positions :: Escrowed(k, v.positions[k], asset)
  }

  function Escrowed(k: (nat, Address), p: Position, asset: Address): int {
    if k.1 == asset && p.mode.Escrow? then p.units else 0
  }

  ghost function TotalEscrowed(v: Vault, asset: Address): int {
    Sum(EscrowedIn(v, asset))
  }

  function Held(w: World, asset: Address): int {
    BalanceOf(w.bank, asset, w.host.vault)
  }

  ghost function Surplus(w: World, asset: Address): int {
    Held(w, asset) - TotalEscrowed(w.vault, asset)
  }

  /** Escrowed positions have nothing pending, so a lien confirmation can never credit units whose
      tokens the vault does not hold. */
  predicate GoodPosition(p: Position) {
    p.units >= 0 && p.pending >= 0 && (p.mode.Escrow? ==> p.pending == 0)
  }

  ghost predicate PositionsSound(w: World) {
    forall k | k in w.vault.positions ::
      GoodPosition(w.vault.positions[k]) && k.0 in w.credit.lines && w.credit.lines[k.0].asset == k.1
  }

  predicate LineAgrees(w: World, line: nat)
    requires line in w.credit.lines
  {
    var l := w.credit.lines[line];
    line < w.credit.nextLine && (!l.status.Closed? ==> l.pledgedUnits == PositionOf(w.vault, line, l.asset).units)
  }

  ghost predicate Agreed(w: World) {
    && GrantsNothing(w.bank, w.host.vault)
    && PositionsSound(w)
    && (forall line | line in w.credit.lines :: LineAgrees(w, line))
    && (forall a | a in w.credit.configs :: w.credit.configs[a].thresholds.Valid())
    && (forall a | a in w.vault.configs :: w.vault.configs[a].thresholds.Valid())
  }

  /** The keeper's reconciliation path is used for what it is for: to report the vault's own figure. */
  predicate Faithful(w: World, a: Action) {
    a.DoSyncCollateral? && a.line in w.credit.lines && !w.credit.lines[a.line].status.Closed? ==>
      a.units == PositionOf(w.vault, a.line, w.credit.lines[a.line].asset).units
  }

  predicate PaysVault(w: World, a: Action) {
    match a
    case DoDraw(_, _, _, to, _) => to == w.host.vault
    case DoClose(_, line) => line in w.credit.lines && w.credit.lines[line].borrower == w.host.vault
    case DoLiquidateVault(_, _, _, to) => to == w.host.vault
    case Outside(op) => op.Pays(w.host.vault)
    case _ => false
  }

  ghost predicate Keeps(w: World, w': World, exact: bool) {
    && Agreed(w') && w'.host == w.host
    && (forall asset :: Surplus(w', asset) >= Surplus(w, asset))
    && (exact ==> forall asset :: Surplus(w', asset) == Surplus(w, asset))
  }

  /** A transaction of the credit line: it moves no position. */
  lemma CreditKeeps(w: World, w': World, line: nat, exact: bool)
    requires Agreed(w) && w'.host == w.host && w'.vault == w.vault && w'.credit.configs == w.credit.configs
    requires GrantsNothing(w'.bank, w.host.vault)
    requires w'.credit.nextLine >= w.credit.nextLine && line < w'.credit.nextLine
    requires line in w'.credit.lines && w'.credit.lines == w.credit.lines[line := w'.credit.lines[line]]
    requires line in w.credit.lines ==> w'.credit.lines[line].asset == w.credit.lines[line].asset
    requires LineAgrees(w', line)
    requires forall asset :: Held(w', asset) >= Held(w, asset) && (exact ==> Held(w', asset) == Held(w, asset))
    ensures Keeps(w, w', exact)
  {
    forall j | j in w'.credit.lines
      ensures LineAgrees(w', j)
    {
      assert j != line ==> LineAgrees(w, j);
    }
  }

  /** A transaction of the credit line that changes no agreed figure of an existing line. */
  lemma FiguresKeep(w: World, w': World, line: nat, exact: bool)
    requires Agreed(w) && w'.host == w.host && w'.vault == w.vault && w'.credit.configs == w.credit.configs
    requires GrantsNothing(w'.bank, w.host.vault) && w'.credit.nextLine == w.credit.nextLine
    requires line in w.credit.lines && line in w'.credit.lines && w'.credit.lines == w.credit.lines[line := w'.credit.lines[line]]
    requires var l, l' := w.credit.lines[line], w'.credit.lines[line];
             && l'.asset == l.asset
             && (l'.status.Closed? || (!l.status.Closed? && l'.pledgedUnits == l.pledgedUnits))
    requires forall asset :: Held(w', asset) >= Held(w, asset) && (exact ==> Held(w', asset) == Held(w, asset))
    ensures Keeps(w, w', exact)
  {
    assert LineAgrees(w, line);
    CreditKeeps(w, w', line, exact);
  }

  /** A transaction of the vault: one position changes, is reported, and its tokens move with it. */
  lemma VaultKeeps(w: World, w': World, line: nat, asset: Address, p: Position, exact: bool)
    requires Agreed(w) && w'.host == w.host && GoodPosition(p) && GrantsNothing(w'.bank, w.host.vault)
    requires line in w.credit.lines && w.credit.lines[line].asset == asset
    requires w'.vault == w.vault.(positions := w.vault.positions[(line, asset) := p])
    requires w'.credit == w.credit.(lines := w.credit.lines[line := w.credit.lines[line].(pledgedUnits := p.units)])
    requires var change := Escrowed((line, asset), p, asset) - Escrowed((line, asset), PositionOf(w.vault, line, asset), asset);
             && (forall a | a != asset :: Held(w', a) == Held(w, a))
             && Held(w', asset) >= Held(w, asset) + change
             && (exact ==> Held(w', asset) == Held(w, asset) + change)
    ensures Keeps(w, w', exact)
  {
    StoredAgrees(w, w', line, asset, p);
    forall a
      ensures Surplus(w', a) >= Surplus(w, a) && (exact ==> Surplus(w', a) == Surplus(w, a))
    {
      EscrowAfter(w.vault, w'.vault, line, asset, a);
    }
  }

  lemma EscrowAfter(v: Vault, v': Vault, line: nat, asset: Address, a: Address)
    requires (line, asset) in v'.positions && v'.positions == v.positions[(line, asset) := v'.positions[(line, asset)]]
    ensures TotalEscrowed(v', a) == TotalEscrowed(v, a) + Escrowed((line, asset), v'.positions[(line, asset)], a)
                                    - Escrowed((line, asset), PositionOf(v, line, asset), a)
  {
    SumChange(EscrowedIn(v, a), EscrowedIn(v', a), (line, asset));
  }

  /** Storing a position and reporting it keeps every line in agreement with its own position. */
  lemma StoredAgrees(w: World, w': World, line: nat, asset: Address, p: Position)
    requires PositionsSound(w) && GoodPosition(p)
    requires forall j | j in w.credit.lines :: LineAgrees(w, j)
    requires line in w.credit.lines && w.credit.lines[line].asset == asset
    requires w'.vault == w.vault.(positions := w.vault.positions[(line, asset) := p])
    requires w'.credit == w.credit.(lines := w.credit.lines[line := w.credit.lines[line].(pledgedUnits := p.units)])
    ensures PositionsSound(w') && forall j | j in w'.credit.lines :: LineAgrees(w', j)
  {
    forall j | j in w'.credit.lines
      ensures LineAgrees(w', j)
    {
      assert LineAgrees(w, j);
      assert j != line ==> PositionOf(w'.vault, j, w'.credit.lines[j].asset) == PositionOf(w.vault, j, w.credit.lines[j].asset);
    }
  }

  lemma PledgeKeeps(w: World, b: Address, line: nat, asset: Address, units: int)
    requires Agreed(w) && b != w.host.vault && Pledge(w, b, line, asset, units).Done?
    ensures Keeps(w, Pledge(w, b, line, asset, units).value, true)
  {
    var w' := Pledge(w, b, line, asset, units).value;
    VaultKeeps(w, w', line, asset, w'.vault.positions[(line, asset)], true);
  }

  lemma ReleaseKeeps(w: World, b: Address, line: nat, asset: Address, units: int, vq: Quote, cq: Quote)
    requires Agreed(w) && b != w.host.vault && Release(w, b, line, asset, units, vq, cq).Done?
    ensures Keeps(w, Release(w, b, line, asset, units, vq, cq).value, true)
  {
    var w' := Release(w, b, line, asset, units, vq, cq).value;
    VaultKeeps(w, w', line, asset, w'.vault.positions[(line, asset)], true);
  }

  lemma LienKeeps(w: World, g: Address, line: nat, asset: Address, units: int, r: string)
    requires Agreed(w) && RecordLien(w, g, line, asset, units, r).Done?
    ensures Keeps(w, RecordLien(w, g, line, asset, units, r).value, true)
  {
    var w' := RecordLien(w, g, line, asset, units, r).value;
    VaultKeeps(w, w', line, asset, w'.vault.positions[(line, asset)], true);
  }

  lemma SeizeKeeps(w: World, line: nat, asset: Address, units: int, to: Address)
    requires Agreed(w) && LiquidateVault(w, line, asset, units, to).Done?
    ensures Keeps(w, LiquidateVault(w, line, asset, units, to).value, to != w.host.vault)
  {
    var w' := LiquidateVault(w, line, asset, units, to).value;
    VaultKeeps(w, w', line, asset, w'.vault.positions[(line, asset)], to != w.host.vault);
  }

  lemma OpenKeeps(w: World, lender: Address, b: Address, asset: Address, limit: int, rate: nat)
    requires Agreed(w) && OpenLine(w, lender, b, asset, limit, rate).Done?
    ensures Keeps(w, OpenLine(w, lender, b, asset, limit, rate).value, true)
  {
    var id := w.credit.nextLine;
    forall j | j in w.credit.lines
      ensures j < id
    {
      assert LineAgrees(w, j);
    }
    assert (id, asset) !in w.vault.positions;
    CreditKeeps(w, OpenLine(w, lender, b, asset, limit, rate).value, id, true);
  }

  lemma DrawKeeps(w: World, b: Address, line: nat, amount: int, to: Address, q: Quote)
    requires Agreed(w) && w.host.credit != w.host.vault && Draw(w, b, line, amount, to, q).Done?
    ensures Keeps(w, Draw(w, b, line, amount, to, q).value, to != w.host.vault)
  {
    FiguresKeep(w, Draw(w, b, line, amount, to, q).value, line, to != w.host.vault);
  }

  lemma MoneyKeeps(w: World, a: Action)
    requires Agreed(w) && w.host.credit != w.host.vault && Authorised(w.host, a) && Apply(w, a).Done?
    requires a.DoFund? || a.DoWithdrawUndrawn? || a.DoWithdrawInterest?
    ensures Keeps(w, Apply(w, a).value, true)
  {
    var w' := Apply(w, a).value;
    assert w'.credit.lines == w.credit.lines[a.line := w'.credit.lines[a.line]];
    assert LineAgrees(w, a.line);
    CreditKeeps(w, w', a.line, true);
  }

  lemma RepayKeeps(w: World, payer: Address, line: nat, amount: int)
    requires Agreed(w) && w.host.credit != w.host.vault && payer != w.host.vault && Repay(w, payer, line, amount).Done?
    ensures Keeps(w, Repay(w, payer, line, amount).value, true)
  {
    assert LineAgrees(w, line);
    CreditKeeps(w, Repay(w, payer, line, amount).value, line, true);
  }

  lemma MarginKeeps(w: World, a: Action)
    requires Agreed(w) && Apply(w, a).Done? && (a.DoPoke? || a.DoLiquidateLine?)
    ensures Keeps(w, Apply(w, a).value, true)
  {
    assert LineAgrees(w, a.line);
    CreditKeeps(w, Apply(w, a).value, a.line, true);
  }

  lemma CloseKeeps(w: World, lender: Address, line: nat)
    requires Agreed(w) && lender != w.host.vault && CloseLiquidated(w, lender, line).Done?
    ensures Keeps(w, CloseLiquidated(w, lender, line).value, w.credit.lines[line].borrower != w.host.vault)
  {
    FiguresKeep(w, CloseLiquidated(w, lender, line).value, line, w.credit.lines[line].borrower != w.host.vault);
  }

  lemma SyncKeeps(w: World, line: nat, units: int)
    requires Agreed(w) && Faithful(w, DoSyncCollateral(line, units)) && SyncCollateral(w, line, units).Done?
    ensures Keeps(w, SyncCollateral(w, line, units).value, true)
  {
    assert LineAgrees(w, line);
    CreditKeeps(w, SyncCollateral(w, line, units).value, line, true);
  }

  lemma SettingKeeps(w: World, a: Action)
    requires Agreed(w) && Apply(w, a).Done?
    requires a.DoConfigureCredit? || a.DoConfigureVault? || a.DoSetVault? || a.DoSetGateway? || a.DoPauseDraws? || a.DoPausePledges? || a.Elapse?
    ensures Keeps(w, Apply(w, a).value, true)
  {
    var w' := Apply(w, a).value;
    forall j | j in w'.credit.lines
      ensures LineAgrees(w', j)
    {
      assert LineAgrees(w, j);
    }
    assert forall asset :: EscrowedIn(w'.vault, asset) == EscrowedIn(w.vault, asset);
  }

  lemma OutsideKeeps(w: World, op: TokenOp)
    requires Agreed(w) && op.Signer() != Some(w.host.vault) && op.Apply(w.bank, w.ledger, w.host.maxTtl).Done?
    ensures Keeps(w, Apply(w, Outside(op)).value, !op.Pays(w.host.vault))
  {
    OthersCannotTake(w.bank, op, w.ledger, w.host.maxTtl, w.host.vault);
    var w' := Apply(w, Outside(op)).value;
    forall j | j in w'.credit.lines
      ensures LineAgrees(w', j)
    {
      assert LineAgrees(w, j);
    }
  }

  lemma AgreementStep(w: World, a: Action)
    requires Agreed(w) && w.host.credit != w.host.vault
    requires Authorised(w.host, a) && Faithful(w, a) && Apply(w, a).Done?
    ensures Keeps(w, Apply(w, a).value, !PaysVault(w, a))
  {
    match a
    case DoOpen(l, b, asset, limit, rate) => OpenKeeps(w, l, b, asset, limit, rate);
    case DoFund(_, _, _) => MoneyKeeps(w, a);
    case DoSyncCollateral(line, units) => SyncKeeps(w, line, units);
    case DoDraw(b, line, amount, to, q) => DrawKeeps(w, b, line, amount, to, q);
    case DoRepay(p, line, amount) => RepayKeeps(w, p, line, amount);
    case DoPoke(_, _) => MarginKeeps(w, a);
    case DoLiquidateLine(_, _) => MarginKeeps(w, a);
    case DoClose(l, line) => CloseKeeps(w, l, line);
    case DoWithdrawUndrawn(_, _, _) => MoneyKeeps(w, a);
    case DoWithdrawInterest(_, _, _) => MoneyKeeps(w, a);
    case DoPledge(b, line, asset, units) => PledgeKeeps(w, b, line, asset, units);
    case DoRelease(b, line, asset, units, vq, cq) => ReleaseKeeps(w, b, line, asset, units, vq, cq);
    case DoRecordLien(g, line, asset, units, r) => LienKeeps(w, g, line, asset, units, r);
    case DoLiquidateVault(line, asset, units, to) => SeizeKeeps(w, line, asset, units, to);
    case Outside(op) => OutsideKeeps(w, op);
    case _ => SettingKeeps(w, a);
  }

  lemma {:induction false} AgreementHolds(ws: seq<World>, acts: seq<Action>, n: nat, asset: Address)
    requires IsRun(ws, acts) && n <= |acts| && IsGenesis(ws[0])
    requires ws[0].host.credit != ws[0].host.vault && GrantsNothing(ws[0].bank, ws[0].host.vault)
    requires forall i | 0 <= i < n :: Authorised(ws[0].host, acts[i]) && Faithful(ws[i], acts[i])
    ensures Agreed(ws[n]) && ws[n].host == ws[0].host
    ensures Surplus(ws[n], asset) >= Held(ws[0], asset)
    ensures (forall i | 0 <= i < n :: !PaysVault(ws[i], acts[i])) ==> Surplus(ws[n], asset) == Held(ws[0], asset)
  {
    if n == 0 {
      assert EscrowedIn(ws[0].vault, asset) == map[];
    } else {
      AgreementHolds(ws, acts, n - 1, asset);
      if Apply(ws[n - 1], acts[n - 1]).Done? {
        AgreementStep(ws[n - 1], acts[n - 1]);
      }
    }
  }

  /** Over every run: a line that is not closed counts exactly the units its vault position holds, and
      the vault holds at least the tokens of all its escrowed positions, exactly those (beyond what it
      started with) when no transfer outside a pledge names it. */
  lemma CollateralAgrees(ws: seq<World>, acts: seq<Action>, n: nat, asset: Address, line: nat)
    requires IsRun(ws, acts) && n <= |acts| && IsGenesis(ws[0])
    requires ws[0].host.credit != ws[0].host.vault && GrantsNothing(ws[0].bank, ws[0].host.vault)
    requires forall i | 0 <= i < n :: Authorised(ws[0].host, acts[i]) && Faithful(ws[i], acts[i])
    ensures line in ws[n].credit.lines && !ws[n].credit.lines[line].status.Closed? ==>
              ws[n].credit.lines[line].pledgedUnits == PositionOf(ws[n].vault, line, ws[n].credit.lines[line].asset).units
    ensures Held(ws[n], asset) >= TotalEscrowed(ws[n].vault, asset) + Held(ws[0], asset)
    ensures (forall i | 0 <= i < n :: !PaysVault(ws[i], acts[i])) ==>
              Held(ws[n], asset) == TotalEscrowed(ws[n].vault, asset) + Held(ws[0], asset)
  {
    AgreementHolds(ws, acts, n, asset);
    if line in ws[n].credit.lines {
      assert LineAgrees(ws[n], line);
    }
  }

  /** The keeper's own figure keeps the contracts in agreement exactly when it is the vault's. */
  lemma ReconcileAgreesExactly(w: World, line: nat, units: int)
    requires Agreed(w) && SyncCollateral(w, line, units).Done?
    ensures Agreed(SyncCollateral(w, line, units).value) <==> Faithful(w, DoSyncCollateral(line, units))
  {
    var w' := SyncCollateral(w, line, units).value;
    if Faithful(w, DoSyncCollateral(line, units)) {
      SyncKeeps(w, line, units);
    } else {
      assert !LineAgrees(w', line);
    }
  }

  // ----- draws and releases leave the line covered

  /** The debt is strictly below the warning fraction of what the vault holds for the line, valued by
      configuration `haircutBps` and `t` at `price`. */
  predicate Covered(w: World, line: nat, price: int, haircutBps: nat, t: Thresholds)
    requires line in w.credit.lines
  {
    var l := w.credit.lines[line];
    var value := CollateralValue(PositionOf(w.vault, line, l.asset).units, price, haircutBps);
    value.Done? && value.value > 0 && DebtOf(l, w.now) * BPS < t.warningBps * value.value
  }

  /** Right after a draw the debt is covered by the units the vault holds, not merely by the figure the
      line remembers. */
  lemma DrawLeavesCovered(w: World, usdc: Address, b: Address, line: nat, amount: int, to: Address, q: Quote)
    requires Agreed(w) && CreditFunds.Sound(w, usdc) && Draw(w, b, line, amount, to, q).Done?
    ensures var w' := Draw(w, b, line, amount, to, q).value;
            var config := w.credit.configs[w.credit.lines[line].asset];
            DebtOf(w'.credit.lines[line], w'.now) > 0 && Covered(w', line, q.value, config.haircutBps, config.thresholds)
  {
    var w' := Draw(w, b, line, amount, to, q).value;
    var l := Accrue(w.credit.lines[line], w.now);
    var config := w.credit.configs[l.asset];
    assert LineAgrees(w, line) && CreditFunds.GoodLine(w, line);
    CreditFunds.InterestNonNegative(w.credit.lines[line], w.now);
    var debt := l.drawn + l.accrued + amount;
    NothingAccruesAtOnce(w'.credit.lines[line], w'.now);
    assert DebtOf(w'.credit.lines[line], w'.now) == debt;
    HealthyExactly(debt, CollateralValue(l.pledgedUnits, q.value, config.haircutBps).value, config.thresholds);
  }

  lemma NothingAccruesAtOnce(l: Line, now: nat)
    requires l.lastAccrual == now
    ensures InterestDelta(l, now) == 0
  {
    assert l.drawn * l.rateBps * 0 == 0;
  }

  /** Right after a release with debt owed, what stays in the vault covers it; and when both contracts
      are configured alike the credit line itself reads the position as healthy. */
  lemma ReleaseLeavesCovered(w: World, b: Address, line: nat, asset: Address, units: int, vq: Quote, cq: Quote)
    requires Agreed(w) && Release(w, b, line, asset, units, vq, cq).Done?
    requires DebtOf(w.credit.lines[line], w.now) > 0
    ensures var w' := Release(w, b, line, asset, units, vq, cq).value;
            var config := w.vault.configs[asset];
            && Covered(w', line, vq.value, config.haircutBps, config.thresholds)
            && (w.credit.configs[asset].haircutBps == config.haircutBps && w.credit.configs[asset].thresholds == config.thresholds ==>
                  var view := ReadLtv(w'.credit, w'.credit.lines[line], vq, w'.now);
                  view.Done? && view.value.state.Healthy?)
  {
    var w' := Release(w, b, line, asset, units, vq, cq).value;
    var config := w.vault.configs[asset];
    var l := w.credit.lines[line];
    var remaining := PositionOf(w.vault, line, asset).units - units;
    assert CheckRelease(w, l, asset, remaining, vq, cq).Pass?;
    assert w'.credit.lines[line] == l.(pledgedUnits := remaining) && l.asset == asset;
    assert PositionOf(w'.vault, line, asset).units == remaining;
    assert DebtOf(w'.credit.lines[line], w'.now) == DebtOf(l, w.now);
    HealthyExactly(DebtOf(l, w.now), CollateralValue(remaining, vq.value, config.haircutBps).value, config.thresholds);
  }
}
