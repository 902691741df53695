/** The bilateral repo contract (contracts/repo-dvp/src/lib.rs) as transactions over a ledger: one
    function per entry point, each giving the whole next state or a revert. */
module RepoSpec {
  import opened Prelude
  import opened Tokens
  import opened Risk

  const DEFAULT_GRACE_SECONDS: nat := 24 * 60 * 60
  const MIN_GRACE_SECONDS: nat := 60
  const UNWIND_GRACE_LEDGERS: nat := 120_960
  const SECONDS_PER_LEDGER: nat := 5
  const EXPIRY_BUCKET: nat := 17_280

  datatype Kind = Intraday | Overnight | Open | Term

  datatype Status = Proposed | Settled | Unwound | Defaulted | Cancelled

  datatype Trade = Trade(
    lender: Address, borrower: Address, asset: Address, units: int, cash: int, rateBps: nat,
    kind: Kind, maturityAt: nat, proposedAt: nat, status: Status,
    leg1Ledger: Option<nat>, settledAt: Option<nat>,
    callPending: bool, callAmount: int, cureDeadline: Option<nat>)

  datatype AssetConfig = AssetConfig(haircutBps: nat, thresholds: Thresholds)

  /** The contract's storage. */
  datatype Storage = Storage(
    usdc: Option<Address>, configs: map<Address, AssetConfig>, disabled: set<Address>,
    trades: map<nat, Trade>, nextId: nat, latest: map<Address, nat>,
    cureGrace: Option<nat>, maturityGrace: Option<nat>, paused: bool,
    due: map<Address, int>, dueExpiry: map<Address, nat>)

  /** Addresses and limits that never change: the contract itself, its keeper, and the longest
      life the host gives a ledger entry. */
  datatype Host = Host(self: Address, keeper: Address, maxTtl: nat)

  datatype World = World(host: Host, repo: Storage, bank: Bank, now: nat, ledger: nat)

  const EMPTY_STORAGE: Storage :=
    Storage(None, map[], {}, map[], 0, map[], None, None, false, map[], map[])

  // ----- figures

  /** Simple interest over `elapsed` seconds. */
  function AccrueInterest(cash: int, rateBps: nat, elapsed: nat): int {
    Quot(Quot(cash * rateBps * elapsed, SECONDS_PER_YEAR), BPS)
  }

  /** Principal plus interest from `settledAt` to maturity. */
  function TotalDue(t: Trade, settledAt: nat): int {
    t.cash + AccrueInterest(t.cash, t.rateBps, SatSub(t.maturityAt, settledAt))
  }

  /** Until when an allowance for something `secondsAhead` is approved: the end of the bucket after next, seen
      from the ledger expected then plus grace, or the last whole bucket the host allows. Every step
      saturates at 32 bits. */
  function AllowanceExpiry(ledger: nat, maxTtl: nat, secondsAhead: nat, graceLedgers: nat): nat {
    var ahead := Min(secondsAhead / SECONDS_PER_LEDGER, U32_MAX);
    var earliest := SatAdd32(SatAdd32(ledger, ahead), graceLedgers);
    var bucketed := SatMul32(SatAdd32(earliest / EXPIRY_BUCKET, 2), EXPIRY_BUCKET);
    var furthest := FurthestExpiry(ledger, maxTtl);
    Min(bucketed, furthest / EXPIRY_BUCKET * EXPIRY_BUCKET)
  }

  function DueOf(s: Storage, borrower: Address): int {
    if borrower in s.due then s.due[borrower] else 0
  }

  function DueExpiryOf(s: Storage, borrower: Address): nat {
    if borrower in s.dueExpiry then s.dueExpiry[borrower] else 0
  }

  function WriteDue(s: Storage, borrower: Address, amount: int, expiry: nat): Storage {
    if amount > 0
    then s.(due := s.due[borrower := amount], dueExpiry := s.dueExpiry[borrower := expiry])
    else s.(due := s.due - {borrower}, dueExpiry := s.dueExpiry - {borrower})
  }

  /** What most closings do to the figure tracked for the borrower: this trade's share goes, and a figure with
      nothing left in it is forgotten. */
  function ReleaseDue(s: Storage, t: Trade): Storage {
    WriteDue(s, t.borrower, Max(DueOf(s, t.borrower) - TotalDue(t, t.proposedAt), 0), DueExpiryOf(s, t.borrower))
  }

  datatype Reading = Reading(exposure: int, collateral: int, state: MarginState, price: int)

  function Exposure(t: Trade, now: nat): int {
    t.cash + AccrueInterest(t.cash, t.rateBps, SatSub(now, t.settledAt.GetOr(now)))
  }

  /** The margin of a trade at the guarded price, or `None` when that price is not Ok. */
  function EvaluateMargin(t: Trade, c: AssetConfig, q: Quote, now: nat): Result<Option<Reading>> {
    if !q.status.Ok? then Done(None) else
      var collateral :- CollateralValue(t.units, q.value, c.haircutBps);
      var exposure := Exposure(t, now);
      Done(Some(Reading(exposure, collateral, Judge(exposure, collateral, c.thresholds), q.value)))
  }

  function ClearCall(t: Trade): Trade {
    t.(callPending := false, callAmount := 0, cureDeadline := None)
  }

  /** How a defaulted trade's units split: the lender's share, the rest going to the borrower. */
  function LenderUnits(owed: int, price: int, units: int): int
    requires price > 0
  {
    Min(Quot(owed * PRICE_SCALE + (price - 1), price), units)
  }

  // ----- entry points

  function WithTrade(w: World, id: nat, t: Trade): World {
    w.(repo := w.repo.(trades := w.repo.trades[id := t]))
  }

  function SetUsdc(w: World, usdc: Address): Result<World> {
    Done(w.(repo := w.repo.(usdc := Some(usdc))))
  }

  function SetCureGrace(w: World, seconds: nat): Result<World> {
    if seconds < MIN_GRACE_SECONDS then Revert else
    Done(w.(repo := w.repo.(cureGrace := Some(seconds))))
  }

  function SetMaturityGrace(w: World, seconds: nat): Result<World> {
    if seconds < MIN_GRACE_SECONDS then Revert else
    Done(w.(repo := w.repo.(maturityGrace := Some(seconds))))
  }

  function ConfigureAsset(w: World, asset: Address, c: AssetConfig): Result<World> {
    if c.haircutBps > BPS || !c.thresholds.Valid() then Revert else
    Done(w.(repo := w.repo.(configs := w.repo.configs[asset := c])))
  }

  function SetAssetEnabled(w: World, asset: Address, enabled: bool): Result<World> {
    if asset !in w.repo.configs then Revert else
    Done(w.(repo := w.repo.(disabled := if enabled then w.repo.disabled - {asset} else w.repo.disabled + {asset})))
  }

  function SetPaused(w: World, paused: bool): Result<World> {
    Done(w.(repo := w.repo.(paused := paused)))
  }

  /** Stores a proposal under the next id, as its lender's latest. */
  function WithProposal(s: Storage, t: Trade): Storage {
    s.(nextId := s.nextId + 1, latest := s.latest[t.lender := s.nextId], trades := s.trades[s.nextId := t])
  }

  function Propose(w: World, lender: Address, borrower: Address, asset: Address, units: int, cash: int,
                   rateBps: nat, kind: Kind, maturityAt: nat): Result<World> {
    if asset in w.repo.disabled then Revert else
    :- Require(units > 0 && cash > 0 && maturityAt > w.now);
    :- Require(asset in w.repo.configs);
    :- Require(w.repo.usdc.Some?);
    var expiry := AllowanceExpiry(w.ledger, w.host.maxTtl, maturityAt - w.now, 0);
    var bank :- Approve(w.bank, w.repo.usdc.value, lender, w.host.self, cash, expiry, w.ledger, w.host.maxTtl);
    var t := Trade(lender, borrower, asset, units, cash, rateBps, kind, maturityAt, w.now, Proposed,
                   None, None, false, 0, None);
    Done(w.(bank := bank, repo := WithProposal(w.repo, t)))
  }

  function CancelProposal(w: World, caller: Address, id: nat): Result<World> {
    if id !in w.repo.trades then Revert else
    var t := w.repo.trades[id];
    :- Require(t.status.Proposed?);
    :- Require(caller == t.lender || caller == t.borrower);
    var cancelled := WithTrade(w, id, t.(status := Cancelled));
    if caller == t.lender && t.lender in w.repo.latest && w.repo.latest[t.lender] == id then
      :- Require(w.repo.usdc.Some?);
      var expiry := AllowanceExpiry(w.ledger, w.host.maxTtl, 0, 0);
      var bank :- Approve(w.bank, w.repo.usdc.value, t.lender, w.host.self, 0, expiry, w.ledger, w.host.maxTtl);
      Done(cancelled.(bank := bank))
    else
      Done(cancelled)
  }

  /** The token movements of a settlement: collateral in, cash across, leg 2 pre-authorised. */
  function SettleLegs(bank: Bank, host: Host, t: Trade, borrower: Address, usdc: Address, due: int, expiry: nat,
                      ledger: nat): Result<Bank> {
    var escrowed :- Transfer(bank, t.asset, borrower, host.self, t.units);
    var paid :- TransferFrom(escrowed, usdc, host.self, t.lender, borrower, t.cash, ledger);
    Approve(paid, usdc, borrower, host.self, due, expiry, ledger, host.maxTtl)
  }

  /** The token movements of an unwind: cash back, collateral back. */
  function UnwindLegs(bank: Bank, host: Host, t: Trade, caller: Address, usdc: Address, total: int, ledger: nat): Result<Bank> {
    var paid :- if caller == t.borrower
                then Transfer(bank, usdc, t.borrower, t.lender, total)
                else TransferFrom(bank, usdc, host.self, t.borrower, t.lender, total, ledger);
    Transfer(paid, t.asset, host.self, t.borrower, t.units)
  }

  /** What the borrower's leg-2 allowance must cover once this trade settles, and until when. */
  function OutstandingAfter(w: World, t: Trade): int {
    DueOf(w.repo, t.borrower) + TotalDue(t, t.proposedAt)
  }

  function ExpiryAfter(w: World, t: Trade): nat {
    Max(AllowanceExpiry(w.ledger, w.host.maxTtl, SatSub(t.maturityAt, w.now), UNWIND_GRACE_LEDGERS),
        DueExpiryOf(w.repo, t.borrower))
  }

  function AcceptAndSettle(w: World, borrower: Address, id: nat): Result<World> {
    if w.repo.paused then Revert else
    :- Require(id in w.repo.trades);
    var t := w.repo.trades[id];
    :- Require(t.asset !in w.repo.disabled);
    :- Require(t.status.Proposed? && t.borrower == borrower && w.now < t.maturityAt);
    :- Require(t.asset in w.repo.configs && w.repo.usdc.Some?);
    var due := OutstandingAfter(w, t);
    var expiry := ExpiryAfter(w, t);
    var bank :- SettleLegs(w.bank, w.host, t, borrower, w.repo.usdc.value, due, expiry, w.ledger);
    var settled := t.(status := Settled, leg1Ledger := Some(w.ledger), settledAt := Some(w.now));
    Done(WithTrade(w.(bank := bank, repo := WriteDue(w.repo, borrower, due, expiry)), id, settled))
  }

  function Unwind(w: World, caller: Address, id: nat): Result<World> {
    if id !in w.repo.trades then Revert else
    var t := w.repo.trades[id];
    :- Require(t.status.Settled?);
    :- Require(caller == t.lender || caller == t.borrower || caller == w.host.keeper);
    :- Require(w.now >= t.maturityAt);
    :- Require(t.settledAt.Some? && w.repo.usdc.Some?);
    var total := TotalDue(t, t.settledAt.value);
    var bank :- UnwindLegs(w.bank, w.host, t, caller, w.repo.usdc.value, total, w.ledger);
    var closed := t.(status := Unwound);
    var w' := WithTrade(w.(bank := bank), id, closed);
    Done(w'.(repo := ReleaseDue(w'.repo, closed)))
  }

  function CallMargin(w: World, id: nat, q: Quote): Result<World> {
    if id !in w.repo.trades then Revert else
    var t := w.repo.trades[id];
    :- Require(t.status.Settled?);
    :- Require(t.asset in w.repo.configs);
    var c := w.repo.configs[t.asset];
    var reading :- EvaluateMargin(t, c, q, w.now);
    :- Require(reading.Some?);
    var Reading(exposure, collateral, state, _) := reading.value;
    if state.AtCall() then
      :- Require(c.thresholds.callBps > 0);
      var called := t.(callAmount := Max(CallTarget(exposure, c.thresholds) - collateral, 0));
      var inCall := if t.callPending then called
                    else called.(callPending := true,
                                 cureDeadline := Some(w.now + w.repo.cureGrace.GetOr(DEFAULT_GRACE_SECONDS)));
      Done(WithTrade(w, id, inCall))
    else if t.callPending then
      Done(WithTrade(w, id, ClearCall(t)))
    else
      Done(w)
  }

  function TopUp(w: World, borrower: Address, id: nat, extra: int, q: Quote): Result<World> {
    if extra <= 0 then Revert else
    :- Require(id in w.repo.trades);
    var t := w.repo.trades[id];
    :- Require(t.status.Settled? && t.borrower == borrower);
    var bank :- Transfer(w.bank, t.asset, borrower, w.host.self, extra);
    var more := t.(units := t.units + extra);
    if !t.callPending then
      Done(WithTrade(w.(bank := bank), id, more))
    else
      :- Require(t.asset in w.repo.configs);
      var reading :- EvaluateMargin(more, w.repo.configs[t.asset], q, w.now);
      var cured := reading.Some? && !reading.value.state.AtCall();
      Done(WithTrade(w.(bank := bank), id, if cured then ClearCall(more) else more))
  }

  /** Pays out a defaulted trade's escrow: the lender first, then whatever is left to the borrower. */
  function PayOut(w: World, t: Trade, lenderUnits: int): Result<Bank> {
    var paid :- Transfer(w.bank, t.asset, w.host.self, t.lender, lenderUnits);
    if t.units - lenderUnits > 0
    then Transfer(paid, t.asset, w.host.self, t.borrower, t.units - lenderUnits)
    else Done(paid)
  }

  function DefaultClose(w: World, id: nat, q: Quote): Result<World> {
    if id !in w.repo.trades then Revert else
    var t := w.repo.trades[id];
    :- Require(t.status.Settled?);
    :- Require(t.callPending && t.cureDeadline.Some? && w.now >= t.cureDeadline.value);
    :- Require(t.asset in w.repo.configs);
    var reading :- EvaluateMargin(t, w.repo.configs[t.asset], q, w.now);
    :- Require(reading.Some? && reading.value.state.AtCall() && reading.value.price > 0);
    var bank :- PayOut(w, t, LenderUnits(reading.value.exposure, reading.value.price, t.units));
    var closed := t.(status := Defaulted);
    var w' := WithTrade(w.(bank := bank), id, closed);
    Done(w'.(repo := ReleaseDue(w'.repo, closed)))
  }

  /** Unlike the other two closings, this one leaves the borrower's tracked due as it was. */
  function DefaultAtMaturity(w: World, caller: Address, id: nat, q: Quote): Result<World> {
    if id !in w.repo.trades then Revert else
    var t := w.repo.trades[id];
    :- Require(t.status.Settled?);
    :- Require(caller == t.lender || caller == w.host.keeper);
    :- Require(w.now >= t.maturityAt + w.repo.maturityGrace.GetOr(DEFAULT_GRACE_SECONDS));
    :- Require(t.settledAt.Some? && t.asset in w.repo.configs);
    :- Require(q.status.Ok? && q.value > 0);
    var bank :- PayOut(w, t, LenderUnits(TotalDue(t, t.settledAt.value), q.value, t.units));
    Done(WithTrade(w.(bank := bank), id, t.(status := Defaulted)))
  }

  // ----- runs

  datatype Action =
    | DoSetUsdc(usdc: Address)
    | DoSetCureGrace(seconds: nat)
    | DoSetMaturityGrace(seconds: nat)
    | DoConfigure(asset: Address, config: AssetConfig)
    | DoSetEnabled(asset: Address, enabled: bool)
    | DoSetPaused(paused: bool)
    | DoPropose(lender: Address, borrower: Address, asset: Address, units: int, cash: int,
                rateBps: nat, kind: Kind, maturityAt: nat)
    | DoCancel(caller: Address, id: nat)
    | DoAccept(borrower: Address, id: nat)
    | DoUnwind(caller: Address, id: nat)
    | DoCallMargin(id: nat, quote: Quote)
    | DoTopUp(borrower: Address, id: nat, extra: int, quote: Quote)
    | DoDefaultClose(id: nat, quote: Quote)
    | DoDefaultAtMaturity(caller: Address, id: nat, quote: Quote)
    | DoQueueOther
    | Outside(op: TokenOp)
    | Elapse(seconds: nat, ledgers: nat)

  function Apply(w: World, a: Action): Result<World> {
    match a
    case DoSetUsdc(usdc) => SetUsdc(w, usdc)
    case DoSetCureGrace(s) => SetCureGrace(w, s)
    case DoSetMaturityGrace(s) => SetMaturityGrace(w, s)
    case DoConfigure(asset, c) => ConfigureAsset(w, asset, c)
    case DoSetEnabled(asset, e) => SetAssetEnabled(w, asset, e)
    case DoSetPaused(p) => SetPaused(w, p)
    case DoPropose(l, b, asset, units, cash, rate, kind, m) => Propose(w, l, b, asset, units, cash, rate, kind, m)
    case DoCancel(caller, id) => CancelProposal(w, caller, id)
    case DoAccept(b, id) => AcceptAndSettle(w, b, id)
    case DoUnwind(caller, id) => Unwind(w, caller, id)
    case DoCallMargin(id, q) => CallMargin(w, id, q)
    case DoTopUp(b, id, extra, q) => TopUp(w, b, id, extra, q)
    case DoDefaultClose(id, q) => DefaultClose(w, id, q)
    case DoDefaultAtMaturity(caller, id, q) => DefaultAtMaturity(w, caller, id, q)
    // Role changes, upgrades and unpauses mint their ids from the counter of the trades.
    case DoQueueOther => Done(w.(repo := w.repo.(nextId := w.repo.nextId + 1)))
    case Outside(op) =>
      var bank :- op.Apply(w.bank, w.ledger, w.host.maxTtl);
      Done(w.(bank := bank))
    case Elapse(seconds, ledgers) => Done(w.(now := w.now + seconds, ledger := w.ledger + ledgers))
  }

  /** The steps that concern no particular trade. */
  predicate MovesNoTrade(a: Action) {
    a.DoSetUsdc? || a.DoSetCureGrace? || a.DoSetMaturityGrace? || a.DoConfigure? || a.DoSetEnabled? || a.DoSetPaused?
    || a.DoQueueOther? || a.Outside? || a.Elapse?
  }

  /** A reverted transaction leaves the ledger as it was. */
  function Step(w: World, a: Action): World {
    var r := Apply(w, a);
    if r.Done? then r.value else w
  }

  /** Who has to sign a transaction, where that is a party of the action. */
  function Signer(a: Action): Option<Address> {
    match a
    case DoPropose(lender, _, _, _, _, _, _, _) => Some(lender)
    case DoCancel(caller, _) => Some(caller)
    case DoAccept(borrower, _) => Some(borrower)
    case DoUnwind(caller, _) => Some(caller)
    case DoTopUp(borrower, _, _, _) => Some(borrower)
    case DoDefaultAtMaturity(caller, _, _) => Some(caller)
    case Outside(op) => op.Signer()
    case _ => None
  }

  /** The contract never signs as a party: it holds no key and calls none of these entry points. */
  predicate Authorised(host: Host, a: Action) {
    Signer(a) != Some(host.self)
  }

  predicate IsGenesis(w: World) {
    w.repo == EMPTY_STORAGE
  }

  /** `ws` is a run: each state follows from the one before by the corresponding action. */
  ghost predicate IsRun(ws: seq<World>, acts: seq<Action>) {
    |ws| == |acts| + 1 && forall i | 0 <= i < |acts| :: ws[i + 1] == Step(ws[i], acts[i])
  }
}
