/** The credit line (contracts/credit-line/src/lib.rs) and the pledge vault
    (contracts/pledge-vault/src/lib.rs) as one system: one function per entry point, each giving the
    whole next state of both contracts and the tokens, or a revert. */
module CreditSpec {
  import opened Prelude
  import opened Tokens
  import opened Risk

  // ----- the credit line's storage

  datatype LineStatus = Open | Liquidating | Closed

  datatype Line = Line(
    lender: Address, borrower: Address, asset: Address, limit: int, funded: int, drawn: int,
    pledgedUnits: int, rateBps: nat, status: LineStatus, lastAccrual: nat, accrued: int,
    margin: MarginState, breachLedger: Option<nat>, breachLtvBps: nat, unhealthySince: Option<nat>)

  datatype Record = Record(seizedUnits: int, price: int, debt: int,
                           closed: bool, recovered: int, surplus: int, shortfall: int)

  datatype CreditConfig = CreditConfig(usdc: Address, haircutBps: nat, thresholds: Thresholds)

  datatype Credit = Credit(
    configs: map<Address, CreditConfig>, lines: map<nat, Line>, nextLine: nat, vault: Option<Address>,
    claimable: map<nat, int>, records: map<nat, Record>, drawsPaused: bool)

  // ----- the vault's storage

  datatype Position = Position(units: int, pending: int, mode: CustodyMode, lienRef: Option<string>)

  datatype VaultConfig = VaultConfig(haircutBps: nat, thresholds: Thresholds, mode: CustodyMode)

  datatype Vault = Vault(configs: map<Address, VaultConfig>, positions: map<(nat, Address), Position>,
                         gateway: Option<Address>, pledgesPaused: bool)

  /** The addresses of the two contracts, and the longest life the host gives a ledger entry. */
  datatype Host = Host(credit: Address, vault: Address, maxTtl: nat)

  datatype World = World(host: Host, credit: Credit, vault: Vault, bank: Bank, now: nat, ledger: nat)

  const EMPTY_CREDIT: Credit := Credit(map[], map[], 0, None, map[], map[], false)
  const EMPTY_VAULT: Vault := Vault(map[], map[], None, false)
  const NO_POSITION: Position := Position(0, 0, Escrow, None)

  // ----- figures

  /** Interest since the last checkpoint, on top of what is already booked. */
  function InterestDelta(l: Line, now: nat): int {
    Quot(Quot(l.drawn * l.rateBps * SatSub(now, l.lastAccrual), SECONDS_PER_YEAR), BPS)
  }

  /** Principal plus all interest to `now`. */
  function DebtOf(l: Line, now: nat): int {
    l.drawn + l.accrued + InterestDelta(l, now)
  }

  function Accrue(l: Line, now: nat): Line {
    l.(accrued := l.accrued + InterestDelta(l, now), lastAccrual := now)
  }

  datatype View = View(debt: int, collateral: int, ltvBps: nat, state: MarginState)

  function ReadLtv(c: Credit, l: Line, q: Quote, now: nat): Result<View> {
    if l.asset !in c.configs then Revert else
    var config := c.configs[l.asset];
    var collateral :- CollateralValue(l.pledgedUnits, q.value, config.haircutBps);
    var debt := DebtOf(l, now);
    Done(View(debt, collateral, LtvBps(debt, collateral), Judge(debt, collateral, config.thresholds)))
  }

  function ClaimableOf(c: Credit, line: nat): int {
    if line in c.claimable then c.claimable[line] else 0
  }

  function PositionOf(v: Vault, line: nat, asset: Address): Position {
    if (line, asset) in v.positions then v.positions[(line, asset)] else NO_POSITION
  }

  function WithLine(w: World, line: nat, l: Line): World {
    w.(credit := w.credit.(lines := w.credit.lines[line := l]))
  }

  // ----- credit line entry points

  function ConfigureCredit(w: World, asset: Address, c: CreditConfig): Result<World> {
    if !c.thresholds.Valid() then Revert else
    Done(w.(credit := w.credit.(configs := w.credit.configs[asset := c])))
  }

  function SetVault(w: World, vault: Address): Result<World> {
    Done(w.(credit := w.credit.(vault := Some(vault))))
  }

  function OpenLine(w: World, lender: Address, borrower: Address, asset: Address, limit: int, rateBps: nat): Result<World> {
    if limit <= 0 then Revert else
    var id := w.credit.nextLine;
    var l := Line(lender, borrower, asset, limit, 0, 0, 0, rateBps, Open, w.now, 0, Healthy, None, 0, None);
    Done(w.(credit := w.credit.(nextLine := id + 1, lines := w.credit.lines[id := l])))
  }

  function Fund(w: World, lender: Address, line: nat, amount: int): Result<World> {
    if amount <= 0 || line !in w.credit.lines then Revert else
    var l := w.credit.lines[line];
    :- Require(l.lender == lender && !l.status.Closed?);
    :- Require(l.asset in w.credit.configs);
    var bank :- Transfer(w.bank, w.credit.configs[l.asset].usdc, lender, w.host.credit, amount);
    Done(WithLine(w.(bank := bank), line, l.(funded := l.funded + amount)))
  }

  /** The line takes over the units its vault reports. */
  function SyncFromVault(w: World, vault: Address, line: nat, asset: Address, units: int): Result<World> {
    if w.credit.vault != Some(vault) || units < 0 then Revert else
    :- Require(line in w.credit.lines);
    var l := w.credit.lines[line];
    :- Require(l.asset == asset);
    Done(WithLine(w, line, l.(pledgedUnits := units)))
  }

  function SyncCollateral(w: World, line: nat, units: int): Result<World> {
    if units < 0 || line !in w.credit.lines then Revert else
    Done(WithLine(w, line, w.credit.lines[line].(pledgedUnits := units)))
  }

  function Draw(w: World, borrower: Address, line: nat, amount: int, to: Address, q: Quote): Result<World> {
    if w.credit.drawsPaused || amount <= 0 || line !in w.credit.lines then Revert else
    :- Require(w.credit.lines[line].borrower == borrower && w.credit.lines[line].status.Open?);
    var l := Accrue(w.credit.lines[line], w.now);
    :- Require(amount <= l.funded - l.drawn && l.drawn + amount <= l.limit);
    :- Require(l.asset in w.credit.configs && q.status.Ok?);
    var config := w.credit.configs[l.asset];
    var collateral :- CollateralValue(l.pledgedUnits, q.value, config.haircutBps);
    var state := Judge(l.drawn + l.accrued + amount, collateral, config.thresholds);
    :- Require(state.Healthy?);
    var bank :- Transfer(w.bank, config.usdc, w.host.credit, to, amount);
    Done(WithLine(w.(bank := bank), line, l.(drawn := l.drawn + amount, margin := state)))
  }

  /** How a repayment is applied: interest first, then principal. */
  function InterestPart(l: Line, amount: int): int {
    Min(Min(amount, l.accrued + l.drawn), l.accrued)
  }

  function PrincipalPart(l: Line, amount: int): int {
    Min(Min(amount, l.accrued + l.drawn) - InterestPart(l, amount), l.drawn)
  }

  function Repay(w: World, payer: Address, line: nat, amount: int): Result<World> {
    if amount <= 0 || line !in w.credit.lines then Revert else
    var l := Accrue(w.credit.lines[line], w.now);
    :- Require(l.accrued + l.drawn > 0);
    var applied := Min(amount, l.accrued + l.drawn);
    var interest := InterestPart(l, amount);
    var principal := PrincipalPart(l, amount);
    :- Require(applied - interest - principal == 0);
    :- Require(l.asset in w.credit.configs);
    var bank :- Transfer(w.bank, w.credit.configs[l.asset].usdc, payer, w.host.credit, applied);
    var w' := WithLine(w.(bank := bank), line, l.(accrued := l.accrued - interest, drawn := l.drawn - principal));
    Done(w'.(credit := w'.credit.(claimable := w.credit.claimable[line := ClaimableOf(w.credit, line) + interest])))
  }

  function Poke(w: World, line: nat, q: Quote): Result<World> {
    if line !in w.credit.lines then Revert else
    var l := w.credit.lines[line];
    var view :- ReadLtv(w.credit, l, q, w.now);
    var since := if !view.state.AtCall() then None
                 else if l.unhealthySince.None? then Some(w.now) else l.unhealthySince;
    var marked := l.(margin := view.state, unhealthySince := since);
    if view.state.Liquidation? && q.status.Ok? then
      Done(WithLine(w, line, if l.breachLedger.None?
                             then marked.(breachLedger := Some(w.ledger), breachLtvBps := view.ltvBps) else marked))
    else
      Done(WithLine(w, line, marked.(breachLedger := None, breachLtvBps := 0)))
  }

  function LiquidateLine(w: World, line: nat, q: Quote): Result<World> {
    if line !in w.credit.lines then Revert else
    var l := w.credit.lines[line];
    :- Require(l.breachLedger.Some? && w.ledger > l.breachLedger.value);
    :- Require(l.status.Open?);
    var view :- ReadLtv(w.credit, l, q, w.now);
    :- Require(q.status.Ok? && view.state.Liquidation?);
    var w' := WithLine(w, line, l.(status := Liquidating, margin := Liquidation));
    var record := Record(l.pledgedUnits, q.value, view.debt, false, 0, 0, 0);
    Done(w'.(credit := w'.credit.(records := w.credit.records[line := record])))
  }

  function CloseLiquidated(w: World, lender: Address, line: nat): Result<World> {
    if line !in w.credit.lines then Revert else
    var l := w.credit.lines[line];
    :- Require(l.lender == lender && l.status.Liquidating?);
    :- Require(line in w.credit.records);
    var record := w.credit.records[line];
    var recovered :- CollateralValue(record.seizedUnits, record.price, 0);
    var surplus := Max(recovered - record.debt, 0);
    var shortfall := Max(record.debt - recovered, 0);
    :- Require(surplus > 0 ==> l.asset in w.credit.configs);
    var bank :- if surplus > 0 then Transfer(w.bank, w.credit.configs[l.asset].usdc, lender, l.borrower, surplus)
                else Done(w.bank);
    var closed := l.(funded := l.funded - l.drawn, drawn := 0, accrued := 0, pledgedUnits := 0, margin := Healthy,
                     breachLedger := None, breachLtvBps := 0, unhealthySince := None, status := Closed);
    var w' := WithLine(w.(bank := bank), line, closed);
    var outcome := record.(closed := true, recovered := recovered, surplus := surplus, shortfall := shortfall);
    Done(w'.(credit := w'.credit.(records := w.credit.records[line := outcome])))
  }

  function WithdrawUndrawn(w: World, lender: Address, line: nat, amount: int): Result<World> {
    if amount <= 0 || line !in w.credit.lines then Revert else
    var l := w.credit.lines[line];
    :- Require(l.lender == lender && amount <= l.funded - l.drawn);
    :- Require(l.asset in w.credit.configs);
    var bank :- Transfer(w.bank, w.credit.configs[l.asset].usdc, w.host.credit, lender, amount);
    Done(WithLine(w.(bank := bank), line, l.(funded := l.funded - amount)))
  }

  function WithdrawInterest(w: World, lender: Address, line: nat, amount: int): Result<World> {
    if amount <= 0 || line !in w.credit.lines then Revert else
    var l := w.credit.lines[line];
    :- Require(l.lender == lender && amount <= ClaimableOf(w.credit, line));
    :- Require(l.asset in w.credit.configs);
    var bank :- Transfer(w.bank, w.credit.configs[l.asset].usdc, w.host.credit, lender, amount);
    Done(w.(bank := bank, credit := w.credit.(claimable := w.credit.claimable[line := ClaimableOf(w.credit, line) - amount])))
  }

  // ----- vault entry points

  function ConfigureVault(w: World, asset: Address, c: VaultConfig): Result<World> {
    if !c.thresholds.Valid() then Revert else
    Done(w.(vault := w.vault.(configs := w.vault.configs[asset := c])))
  }

  function SetGateway(w: World, gateway: Address): Result<World> {
    Done(w.(vault := w.vault.(gateway := Some(gateway))))
  }

  /** The vault's half and the line's half of every change to a position: both are written, or neither. */
  function StoreAndSync(w: World, line: nat, asset: Address, p: Position): Result<World> {
    SyncFromVault(w.(vault := w.vault.(positions := w.vault.positions[(line, asset) := p])), w.host.vault, line, asset, p.units)
  }

  /** Units come in from `from` and count at once in escrow; under a lien they wait for its confirmation. */
  function Deposit(w: World, line: nat, asset: Address, p: Position, units: int, from: Address, mode: CustodyMode): Result<World> {
    if mode.Escrow? then
      var bank :- Transfer(w.bank, asset, from, w.host.vault, units);
      StoreAndSync(w.(bank := bank), line, asset, p.(units := p.units + units, mode := mode))
    else
      StoreAndSync(w, line, asset, p.(pending := p.pending + units, mode := mode))
  }

  function Pledge(w: World, borrower: Address, line: nat, asset: Address, units: int): Result<World> {
    if w.vault.pledgesPaused || units <= 0 then Revert else
    :- Require(asset in w.vault.configs && line in w.credit.lines);
    :- Require(w.credit.lines[line].borrower == borrower && w.credit.lines[line].asset == asset);
    var mode := w.vault.configs[asset].mode;
    var p := PositionOf(w.vault, line, asset);
    :- Require((p.units == 0 && p.pending == 0) || p.mode == mode);
    Deposit(w, line, asset, p, units, borrower, mode)
  }

  /** Escrowed units leave for `to`, a lien's units stay where they are, and the rest is stored and
      reported. */
  function Withdrawal(w: World, line: nat, asset: Address, p: Position, units: int, to: Address): Result<World> {
    var bank :- if p.mode.Escrow? then Transfer(w.bank, asset, w.host.vault, to, units) else Done(w.bank);
    StoreAndSync(w.(bank := bank), line, asset, p.(units := p.units - units))
  }

  /** `vq` is the price the vault's guard answers, `cq` the one the credit line's guard answers. */
  function Release(w: World, borrower: Address, line: nat, asset: Address, units: int, vq: Quote, cq: Quote): Result<World> {
    if units <= 0 || asset !in w.vault.configs || line !in w.credit.lines then Revert else
    var l := w.credit.lines[line];
    :- Require(l.borrower == borrower);
    var p := PositionOf(w.vault, line, asset);
    :- Require(units <= p.units);
    var remaining := p.units - units;
    :- (if DebtOf(l, w.now) > 0 then CheckRelease(w, l, asset, remaining, vq, cq) else Pass);
    Withdrawal(w, line, asset, p, units, borrower)
  }

  /** While anything is owed, what stays behind must keep the line healthy on an Ok price. */
  function CheckRelease(w: World, l: Line, asset: Address, remaining: int, vq: Quote, cq: Quote): Check
    requires asset in w.vault.configs
  {
    var config := w.vault.configs[asset];
    var view := ReadLtv(w.credit, l, cq, w.now);
    var collateral := CollateralValue(remaining, vq.value, config.haircutBps);
    if vq.status.Ok? && view.Done? && collateral.Done?
       && Judge(view.value.debt, collateral.value, config.thresholds).Healthy?
    then Pass else Fail
  }

  function RecordLien(w: World, gateway: Address, line: nat, asset: Address, units: int, lienRef: string): Result<World> {
    if w.vault.gateway != Some(gateway) || units <= 0 then Revert else
    var p := PositionOf(w.vault, line, asset);
    :- Require(units <= p.pending);
    var q := p.(pending := p.pending - units, units := p.units + units, lienRef := Some(lienRef));
    :- Require(asset in w.vault.configs);
    StoreAndSync(w, line, asset, q)
  }

  function LiquidateVault(w: World, line: nat, asset: Address, units: int, to: Address): Result<World> {
    if units <= 0 then Revert else
    var p := PositionOf(w.vault, line, asset);
    :- Require(units <= p.units && asset in w.vault.configs);
    Withdrawal(w, line, asset, p, units, to)
  }

  // ----- runs

  datatype Action =
    | DoConfigureCredit(asset: Address, creditConfig: CreditConfig)
    | DoConfigureVault(asset: Address, vaultConfig: VaultConfig)
    | DoSetVault(vault: Address)
    | DoSetGateway(gateway: Address)
    | DoPauseDraws(paused: bool)
    | DoPausePledges(paused: bool)
    | DoOpen(lender: Address, borrower: Address, asset: Address, limit: int, rateBps: nat)
    | DoFund(lender: Address, line: nat, amount: int)
    | DoSyncCollateral(line: nat, units: int)
    | DoDraw(borrower: Address, line: nat, amount: int, to: Address, quote: Quote)
    | DoRepay(payer: Address, line: nat, amount: int)
    | DoPoke(line: nat, quote: Quote)
    | DoLiquidateLine(line: nat, quote: Quote)
    | DoClose(lender: Address, line: nat)
    | DoWithdrawUndrawn(lender: Address, line: nat, amount: int)
    | DoWithdrawInterest(lender: Address, line: nat, amount: int)
    | DoPledge(borrower: Address, line: nat, asset: Address, units: int)
    | DoRelease(borrower: Address, line: nat, asset: Address, units: int, vaultQuote: Quote, creditQuote: Quote)
    | DoRecordLien(gateway: Address, line: nat, asset: Address, units: int, lienRef: string)
    | DoLiquidateVault(line: nat, asset: Address, units: int, to: Address)
    | Outside(op: TokenOp)
    | Elapse(seconds: nat, ledgers: nat)

  function Apply(w: World, a: Action): Result<World> {
    match a
    case DoConfigureCredit(asset, c) => ConfigureCredit(w, asset, c)
    case DoConfigureVault(asset, c) => ConfigureVault(w, asset, c)
    case DoSetVault(v) => SetVault(w, v)
    case DoSetGateway(g) => SetGateway(w, g)
    case DoPauseDraws(p) => Done(w.(credit := w.credit.(drawsPaused := p)))
    case DoPausePledges(p) => Done(w.(vault := w.vault.(pledgesPaused := p)))
    case DoOpen(l, b, asset, limit, rate) => OpenLine(w, l, b, asset, limit, rate)
    case DoFund(l, line, amount) => Fund(w, l, line, amount)
    case DoSyncCollateral(line, units) => SyncCollateral(w, line, units)
    case DoDraw(b, line, amount, to, q) => Draw(w, b, line, amount, to, q)
    case DoRepay(p, line, amount) => Repay(w, p, line, amount)
    case DoPoke(line, q) => Poke(w, line, q)
    case DoLiquidateLine(line, q) => LiquidateLine(w, line, q)
    case DoClose(l, line) => CloseLiquidated(w, l, line)
    case DoWithdrawUndrawn(l, line, amount) => WithdrawUndrawn(w, l, line, amount)
    case DoWithdrawInterest(l, line, amount) => WithdrawInterest(w, l, line, amount)
    case DoPledge(b, line, asset, units) => Pledge(w, b, line, asset, units)
    case DoRelease(b, line, asset, units, vq, cq) => Release(w, b, line, asset, units, vq, cq)
    case DoRecordLien(g, line, asset, units, r) => RecordLien(w, g, line, asset, units, r)
    case DoLiquidateVault(line, asset, units, to) => LiquidateVault(w, line, asset, units, to)
    case Outside(op) =>
      var bank :- op.Apply(w.bank, w.ledger, w.host.maxTtl);
      Done(w.(bank := bank))
    case Elapse(seconds, ledgers) => Done(w.(now := w.now + seconds, ledger := w.ledger + ledgers))
  }

  function Step(w: World, a: Action): World {
    var r := Apply(w, a);
    if r.Done? then r.value else w
  }

  function Signer(a: Action): Option<Address> {
    match a
    case DoOpen(lender, _, _, _, _) => Some(lender)
    case DoFund(lender, _, _) => Some(lender)
    case DoDraw(borrower, _, _, _, _) => Some(borrower)
    case DoRepay(payer, _, _) => Some(payer)
    case DoClose(lender, _) => Some(lender)
    case DoWithdrawUndrawn(lender, _, _) => Some(lender)
    case DoWithdrawInterest(lender, _, _) => Some(lender)
    case DoPledge(borrower, _, _, _) => Some(borrower)
    case DoRelease(borrower, _, _, _, _, _) => Some(borrower)
    case Outside(op) => op.Signer()
    case _ => None
  }

  /** Neither contract signs as a party, and the credit line is only ever pointed at this vault. */
  predicate Authorised(host: Host, a: Action) {
    && Signer(a) != Some(host.credit) && Signer(a) != Some(host.vault)
    && (a.DoSetVault? ==> a.vault == host.vault)
  }

  predicate IsGenesis(w: World) {
    w.credit == EMPTY_CREDIT && w.vault == EMPTY_VAULT
  }

  ghost predicate IsRun(ws: seq<World>, acts: seq<Action>) {
    |ws| == |acts| + 1 && forall i | 0 <= i < |acts| :: ws[i + 1] == Step(ws[i], acts[i])
  }
}
