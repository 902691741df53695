/** The exit desk (contracts/exit-desk/src/lib.rs): swaps a holder's asset for USDC at the guarded price
    less a spread, within a daily cap per holder and an inventory cap per asset. */
module ExitDesk {
  import opened Prelude
  import opened Tokens
  import opened Risk

  const SECONDS_PER_DAY: nat := 86_400
  const QUOTE_TTL_SECONDS: nat := 60

  datatype Config = Config(spreadBps: nat, dailyCap: int, inventoryCap: int)

  /** The contract's storage; `daily` is keyed by holder, asset and UTC day. */
  datatype Storage = Storage(
    usdc: Option<Address>, configs: map<Address, Config>, disabled: set<Address>, paused: bool,
    inventory: map<Address, int>, daily: map<(Address, Address, nat), int>)

  datatype World = World(desk: Address, storage: Storage, bank: Bank, now: nat, ledger: nat, maxTtl: nat)

  predicate IsGenesis(w: World) {
    w.storage == Storage(None, map[], {}, false, map[], map[])
  }

  function InventoryOf(s: Storage, asset: Address): int {
    if asset in s.inventory then s.inventory[asset] else 0
  }

  function DailyUsed(s: Storage, holder: Address, asset: Address, day: nat): int {
    if (holder, asset, day) in s.daily then s.daily[(holder, asset, day)] else 0
  }

  // ----- quoting

  /** The guarded price less the spread, and what a number of units fetches at a price: each a floor. */
  function NetPrice(value: int, spreadBps: nat): int {
    Quot(value * (BPS - spreadBps), BPS)
  }

  function UsdcFor(units: int, price: int): int {
    Quot(units * price, PRICE_SCALE)
  }

  datatype ExitQuote = ExitQuote(units: int, price: int, usdcOut: int, expiresAt: nat)

  /** Shared by the read-only quote and the swap itself; `q` is what the asset's guard answers. */
  function ComputeQuote(s: Storage, asset: Address, units: int, q: Quote, now: nat): Result<ExitQuote> {
    if units <= 0 || asset in s.disabled || asset !in s.configs || !q.status.Ok? then Revert else
    var price := NetPrice(q.value, s.configs[asset].spreadBps);
    Done(ExitQuote(units, price, UsdcFor(units, price), now + QUOTE_TTL_SECONDS))
  }

  // ----- entry points

  function ConfigureAsset(w: World, asset: Address, c: Config): Result<World> {
    if c.spreadBps >= BPS || c.dailyCap <= 0 || c.inventoryCap <= 0 then Revert else
    Done(w.(storage := w.storage.(configs := w.storage.configs[asset := c])))
  }

  function SetUsdc(w: World, usdc: Address): Result<World> {
    Done(w.(storage := w.storage.(usdc := Some(usdc))))
  }

  function SetEnabled(w: World, asset: Address, enabled: bool): Result<World> {
    if asset !in w.storage.configs then Revert else
    var disabled := w.storage.disabled;
    Done(w.(storage := w.storage.(disabled := if enabled then disabled - {asset} else disabled + {asset})))
  }

  function SetPaused(w: World, paused: bool): Result<World> {
    Done(w.(storage := w.storage.(paused := paused)))
  }

  function Fund(w: World, funder: Address, usdc: Address, amount: int): Result<World> {
    if amount <= 0 || w.storage.usdc != Some(usdc) then Revert else
    var bank :- Transfer(w.bank, usdc, funder, w.desk, amount);
    Done(w.(bank := bank))
  }

  function Withdraw(w: World, token: Address, amount: int, to: Address): Result<World> {
    if amount <= 0 then Revert else
    var bank :- Transfer(w.bank, token, w.desk, to, amount);
    if token in w.storage.configs then
      var held := InventoryOf(w.storage, token);
      Done(w.(bank := bank, storage := w.storage.(inventory := w.storage.inventory[token := held - Min(amount, held)])))
    else
      Done(w.(bank := bank))
  }

  function WithCounts(s: Storage, holder: Address, asset: Address, day: nat, used: int, stock: int): Storage {
    s.(daily := s.daily[(holder, asset, day) := used], inventory := s.inventory[asset := stock])
  }

  /** Both legs of the settlement, or neither. */
  function Swap(bank: Bank, desk: Address, usdc: Option<Address>, holder: Address, asset: Address, units: int,
                to: Address, out: int): Result<Bank> {
    var received :- Transfer(bank, asset, holder, desk, units);
    :- Require(usdc.Some?);
    Transfer(received, usdc.value, desk, to, out)
  }

  function Exit(w: World, holder: Address, asset: Address, units: int, minOut: int, to: Address, q: Quote): Result<World> {
    if w.storage.paused then Revert else
    var quote :- ComputeQuote(w.storage, asset, units, q, w.now);
    :- Require(quote.usdcOut > 0 && quote.usdcOut >= minOut);
    var c := w.storage.configs[asset];
    var day := w.now / SECONDS_PER_DAY;
    var used := DailyUsed(w.storage, holder, asset, day) + units;
    :- Require(used <= c.dailyCap);
    var inventory := InventoryOf(w.storage, asset) + units;
    :- Require(inventory <= c.inventoryCap);
    var paid :- Swap(w.bank, w.desk, w.storage.usdc, holder, asset, units, to, quote.usdcOut);
    Done(w.(bank := paid, storage := WithCounts(w.storage, holder, asset, day, used, inventory)))
  }

  // ----- runs

  datatype Action =
    | DoConfigure(asset: Address, config: Config)
    | DoSetUsdc(usdc: Address)
    | DoSetEnabled(asset: Address, enabled: bool)
    | DoSetPaused(paused: bool)
    | DoFund(funder: Address, usdc: Address, amount: int)
    | DoWithdraw(token: Address, amount: int, to: Address)
    | DoExit(holder: Address, asset: Address, units: int, minOut: int, to: Address, quote: Quote)
    | Outside(op: TokenOp)
    | Elapse(seconds: nat, ledgers: nat)

  function Apply(w: World, a: Action): Result<World> {
    match a
    case DoConfigure(asset, c) => ConfigureAsset(w, asset, c)
    case DoSetUsdc(usdc) => SetUsdc(w, usdc)
    case DoSetEnabled(asset, enabled) => SetEnabled(w, asset, enabled)
    case DoSetPaused(paused) => SetPaused(w, paused)
    case DoFund(funder, usdc, amount) => Fund(w, funder, usdc, amount)
    case DoWithdraw(token, amount, to) => Withdraw(w, token, amount, to)
    case DoExit(holder, asset, units, minOut, to, q) => Exit(w, holder, asset, units, minOut, to, q)
    case Outside(op) =>
      var bank :- op.Apply(w.bank, w.ledger, w.maxTtl);
      Done(w.(bank := bank))
    case Elapse(seconds, ledgers) => Done(w.(now := w.now + seconds, ledger := w.ledger + ledgers))
  }

  function Step(w: World, a: Action): World {
    var r := Apply(w, a);
    if r.Done? then r.value else w
  }

  function Signer(a: Action): Option<Address> {
    match a
    case DoFund(funder, _, _) => Some(funder)
    case DoExit(holder, _, _, _, _, _) => Some(holder)
    case Outside(op) => op.Signer()
    case _ => None
  }

  ghost predicate IsRun(ws: seq<World>, acts: seq<Action>) {
    |ws| == |acts| + 1 && forall i | 0 <= i < |acts| :: ws[i + 1] == Step(ws[i], acts[i])
  }

  // ----- one exit

  /** An exit is one atomic swap: the units go from the holder to the desk, at least `minOut` and more
      than nothing goes from the desk to the payee, and no other balance moves. */
  lemma ExitSwaps(w: World, holder: Address, asset: Address, units: int, minOut: int, to: Address, q: Quote)
    requires Exit(w, holder, asset, units, minOut, to, q).Done?
    ensures q.status.Ok? && units > 0 && w.storage.usdc.Some? && asset in w.storage.configs
    ensures var after := Exit(w, holder, asset, units, minOut, to, q).value;
            var out := UsdcFor(units, NetPrice(q.value, w.storage.configs[asset].spreadBps));
            && out >= Max(minOut, 1)
            && (forall t, who :: BalanceOf(after.bank, t, who) == BalanceOf(w.bank, t, who)
                 + (if t == asset then Delta(holder, w.desk, units, who) else 0)
                 + (if t == w.storage.usdc.value then Delta(w.desk, to, out, who) else 0))
            && (forall t, o, s :: AllowanceOf(after.bank, t, o, s) == AllowanceOf(w.bank, t, o, s))
  {
  }

  /** What the swap does to the limits it counts against. */
  lemma ExitCounts(w: World, holder: Address, asset: Address, units: int, minOut: int, to: Address, q: Quote)
    requires Exit(w, holder, asset, units, minOut, to, q).Done?
    ensures var after := Exit(w, holder, asset, units, minOut, to, q).value;
            var day := w.now / SECONDS_PER_DAY;
            && units > 0 && asset in w.storage.configs
            && after == w.(bank := after.bank, storage := after.storage)
            && after.storage == w.storage.(daily := after.storage.daily, inventory := after.storage.inventory)
            && DailyUsed(after.storage, holder, asset, day) <= w.storage.configs[asset].dailyCap
            && (forall h, a, d :: DailyUsed(after.storage, h, a, d) ==
                  DailyUsed(w.storage, h, a, d) + if h == holder && a == asset && d == day then units else 0)
            && (forall a :: InventoryOf(after.storage, a) ==
                  InventoryOf(w.storage, a) + if a == asset then units else 0)
  {
  }

  lemma FloorTimes(units: int, net: int, price: int)
    requires units > 0 && price * BPS <= net < (price + 1) * BPS
    ensures units * price * BPS <= units * net < units * price * BPS + units * BPS
  {
    MulMono(price * BPS, net, units);
    MulMono(net + 1, price * BPS + BPS, units);
  }

  lemma NestedFloors(units: int, net: int, price: int, out: int)
    requires units > 0 && price * BPS <= net < (price + 1) * BPS
    requires out * PRICE_SCALE <= units * price < (out + 1) * PRICE_SCALE
    ensures out * (PRICE_SCALE * BPS) <= units * net < (out + 1) * (PRICE_SCALE * BPS) + units * BPS
  {
    FloorTimes(units, net, price);
  }

  /** The two floors never favour the holder: the payout is at most the guarded value less the spread,
      and falls short of it by less than one stroop plus one price step on every unit. */
  lemma PayoutBounds(units: int, value: int, spreadBps: nat)
    requires units > 0 && value >= 0 && spreadBps < BPS
    ensures var out, exact := UsdcFor(units, NetPrice(value, spreadBps)), units * (value * (BPS - spreadBps));
            out * (PRICE_SCALE * BPS) <= exact < (out + 1) * (PRICE_SCALE * BPS) + units * BPS
  {
    var net := value * (BPS - spreadBps);
    MulMono(0, value, BPS - spreadBps);
    var price := Quot(net, BPS);
    MulMono(0, price, units);
    assert price * units == units * price;
    NestedFloors(units, net, price, Quot(units * price, PRICE_SCALE));
  }

  // ----- splitting an exit

  function TotalUnits(parts: seq<int>): int {
    if parts == [] then 0 else TotalUnits(parts[..|parts| - 1]) + parts[|parts| - 1]
  }

  function TotalOut(parts: seq<int>, price: int): int {
    if parts == [] then 0 else TotalOut(parts[..|parts| - 1], price) + UsdcFor(parts[|parts| - 1], price)
  }

  lemma FloorsAdd(a: int, b: int)
    requires a >= 0 && b >= 0
    ensures var q := Quot(a, PRICE_SCALE) + Quot(b, PRICE_SCALE);
            q <= Quot(a + b, PRICE_SCALE) <= q + 1
  {
  }

  lemma PayoutsAdd(u: int, v: int, price: int)
    requires u >= 0 && v >= 0 && price >= 0
    ensures var q := UsdcFor(u, price) + UsdcFor(v, price);
            q <= UsdcFor(u + v, price) <= q + 1
  {
    MulMono(0, u, price);
    MulMono(0, v, price);
    FloorsAdd(u * price, v * price);
    assert (u + v) * price == u * price + v * price;
  }

  /** At one price, exiting in parts never pays more than exiting at once, and loses less than one stroop
      per part. */
  lemma {:induction false} SplittingPaysNoMore(parts: seq<int>, price: int)
    requires parts != [] && price >= 0 && forall i | 0 <= i < |parts| :: parts[i] >= 0
    ensures TotalUnits(parts) >= 0
    ensures TotalOut(parts, price) <= UsdcFor(TotalUnits(parts), price) < TotalOut(parts, price) + |parts|
  {
    var last := parts[|parts| - 1];
    var rest := parts[..|parts| - 1];
    if rest != [] {
      SplittingPaysNoMore(rest, price);
      PayoutsAdd(TotalUnits(rest), last, price);
    }
  }

  // ----- the daily cap over time

  /** Step `i` of the run is a successful exit of `asset` by `holder`. */
  ghost predicate ExitsAt(ws: seq<World>, acts: seq<Action>, i: nat, holder: Address, asset: Address)
    requires i < |acts| && |ws| == |acts| + 1
  {
    acts[i].DoExit? && acts[i].holder == holder && acts[i].asset == asset && Apply(ws[i], acts[i]).Done?
  }

  /** The units `holder` exited in the first `n` steps, at times from `lo` to `hi`. */
  ghost function ExitedBetween(ws: seq<World>, acts: seq<Action>, n: nat, holder: Address, asset: Address,
                               lo: nat, hi: nat): int
    requires n <= |acts| && |ws| == |acts| + 1
  {
    if n == 0 then 0 else
      ExitedBetween(ws, acts, n - 1, holder, asset, lo, hi)
      + if ExitsAt(ws, acts, n - 1, holder, asset) && lo <= ws[n - 1].now <= hi then acts[n - 1].units else 0
  }

  /** No exit of the asset by the holder was made under a daily cap above `cap`. */
  ghost predicate Capped(ws: seq<World>, acts: seq<Action>, n: nat, holder: Address, asset: Address, cap: int)
    requires n <= |acts| && |ws| == |acts| + 1
  {
    forall i | 0 <= i < n && ExitsAt(ws, acts, i, holder, asset) ::
      asset in ws[i].storage.configs && ws[i].storage.configs[asset].dailyCap <= cap
  }

  lemma OnlyExitsCount(w: World, a: Action, holder: Address, asset: Address, day: nat)
    ensures var here := a.DoExit? && a.holder == holder && a.asset == asset && Apply(w, a).Done?;
            var w' := Step(w, a);
            && (here ==> a.units > 0)
            && DailyUsed(w'.storage, holder, asset, day) == DailyUsed(w.storage, holder, asset, day)
                 + (if here && day == w.now / SECONDS_PER_DAY then a.units else 0)
            && (here && day == w.now / SECONDS_PER_DAY ==>
                  asset in w.storage.configs && DailyUsed(w'.storage, holder, asset, day) <= w.storage.configs[asset].dailyCap)
  {
    if a.DoExit? && Apply(w, a).Done? {
      ExitCounts(w, a.holder, a.asset, a.units, a.minOut, a.to, a.quote);
    }
  }

  function DayStart(day: nat): nat { day * SECONDS_PER_DAY }

  function DayEnd(day: nat): nat { day * SECONDS_PER_DAY + (SECONDS_PER_DAY - 1) }

  predicate OnDay(t: nat, day: nat) {
    DayStart(day) <= t <= DayEnd(day)
  }

  lemma DayOf(t: nat, day: nat)
    ensures OnDay(t, day) <==> t / SECONDS_PER_DAY == day
  {
  }

  /** The counter is exactly what the holder exited that day, and never more than the cap. */
  lemma {:induction false} DailyCountIsExact(ws: seq<World>, acts: seq<Action>, n: nat, holder: Address, asset: Address,
                                             day: nat, cap: int)
    requires IsRun(ws, acts) && IsGenesis(ws[0]) && n <= |acts| && cap >= 0 && Capped(ws, acts, n, holder, asset, cap)
    ensures DailyUsed(ws[n].storage, holder, asset, day)
            == ExitedBetween(ws, acts, n, holder, asset, DayStart(day), DayEnd(day))
    ensures DailyUsed(ws[n].storage, holder, asset, day) <= cap
  {
    if n > 0 {
      DailyCountIsExact(ws, acts, n - 1, holder, asset, day, cap);
      OnlyExitsCount(ws[n - 1], acts[n - 1], holder, asset, day);
      DayOf(ws[n - 1].now, day);
      assert ws[n] == Step(ws[n - 1], acts[n - 1]);
      assert ExitsAt(ws, acts, n - 1, holder, asset) ==> ws[n - 1].storage.configs[asset].dailyCap <= cap;
    }
  }

  /** Any stretch of 86,400 seconds lies within two calendar days. */
  lemma WithinTwoDays(lo: nat, t: nat)
    requires lo <= t <= lo + SECONDS_PER_DAY
    ensures OnDay(t, lo / SECONDS_PER_DAY) || OnDay(t, lo / SECONDS_PER_DAY + 1)
  {
  }

  lemma {:induction false} TwoDaysCover(ws: seq<World>, acts: seq<Action>, n: nat, holder: Address, asset: Address, lo: nat)
    requires IsRun(ws, acts) && n <= |acts|
    ensures var d := lo / SECONDS_PER_DAY;
            ExitedBetween(ws, acts, n, holder, asset, lo, lo + SECONDS_PER_DAY)
            <= ExitedBetween(ws, acts, n, holder, asset, DayStart(d), DayEnd(d))
             + ExitedBetween(ws, acts, n, holder, asset, DayStart(d + 1), DayEnd(d + 1))
  {
    if n > 0 {
      TwoDaysCover(ws, acts, n - 1, holder, asset, lo);
      OnlyExitsCount(ws[n - 1], acts[n - 1], holder, asset, 0);
      if lo <= ws[n - 1].now <= lo + SECONDS_PER_DAY { WithinTwoDays(lo, ws[n - 1].now); }
    }
  }

  /** In any interval of 86,400 seconds a holder exits at most twice the daily cap: the cap is per
      calendar day, so the two days an interval can touch each allow it once. */
  lemma WindowLimit(ws: seq<World>, acts: seq<Action>, n: nat, holder: Address, asset: Address, cap: int, lo: nat)
    requires IsRun(ws, acts) && IsGenesis(ws[0]) && n <= |acts| && cap >= 0 && Capped(ws, acts, n, holder, asset, cap)
    ensures ExitedBetween(ws, acts, n, holder, asset, lo, lo + SECONDS_PER_DAY) <= 2 * cap
  {
    var day := lo / SECONDS_PER_DAY;
    TwoDaysCover(ws, acts, n, holder, asset, lo);
    DailyCountIsExact(ws, acts, n, holder, asset, day, cap);
    DailyCountIsExact(ws, acts, n, holder, asset, day + 1, cap);
  }

  // ----- inventory against what the desk holds

  function Holding(w: World, asset: Address): int {
    BalanceOf(w.bank, asset, w.desk)
  }

  /** The desk's USDC is `usdc`, it grants no allowances, and it holds every unit it has recorded. */
  ghost predicate Backed(w: World, usdc: Address) {
    && (w.storage.usdc.Some? ==> w.storage.usdc.value == usdc)
    && GrantsNothing(w.bank, w.desk)
    && (forall a :: InventoryOf(w.storage, a) >= 0)
    && (forall a | a !in w.storage.configs :: InventoryOf(w.storage, a) == 0)
    && (forall a | a != usdc :: InventoryOf(w.storage, a) <= Holding(w, a))
  }

  lemma WithdrawKeepsBacked(w: World, usdc: Address, token: Address, amount: int, to: Address)
    requires Backed(w, usdc) && Withdraw(w, token, amount, to).Done?
    ensures Backed(Withdraw(w, token, amount, to).value, usdc)
  {
    var w' := Withdraw(w, token, amount, to).value;
    assert forall a | a != token :: Holding(w', a) == Holding(w, a);
    assert forall a | a != token :: InventoryOf(w'.storage, a) == InventoryOf(w.storage, a);
  }

  lemma ExitKeepsBacked(w: World, usdc: Address, holder: Address, asset: Address, units: int, minOut: int, to: Address, q: Quote)
    requires Backed(w, usdc) && holder != w.desk && Exit(w, holder, asset, units, minOut, to, q).Done?
    ensures Backed(Exit(w, holder, asset, units, minOut, to, q).value, usdc)
  {
    ExitSwaps(w, holder, asset, units, minOut, to, q);
    ExitCounts(w, holder, asset, units, minOut, to, q);
  }

  lemma BackedStep(w: World, a: Action, usdc: Address)
    requires Backed(w, usdc) && Signer(a) != Some(w.desk) && (a.DoSetUsdc? ==> a.usdc == usdc)
    ensures Backed(Step(w, a), usdc) && Step(w, a).desk == w.desk
  {
    if Apply(w, a).Done? {
      match a
      case DoWithdraw(token, amount, to) => WithdrawKeepsBacked(w, usdc, token, amount, to);
      case DoExit(holder, asset, units, minOut, to, q) => ExitKeepsBacked(w, usdc, holder, asset, units, minOut, to, q);
      case Outside(op) => OthersCannotTake(w.bank, op, w.ledger, w.maxTtl, w.desk);
      case _ => OthersKeepBacked(w, a, usdc);
    }
  }

  lemma OthersKeepBacked(w: World, a: Action, usdc: Address)
    requires Backed(w, usdc) && Signer(a) != Some(w.desk) && (a.DoSetUsdc? ==> a.usdc == usdc)
    requires !a.DoWithdraw? && !a.DoExit? && !a.Outside? && Apply(w, a).Done?
    ensures Backed(Step(w, a), usdc)
  {
    var w' := Step(w, a);
    assert w'.storage.inventory == w.storage.inventory;
    assert forall x :: InventoryOf(w'.storage, x) == InventoryOf(w.storage, x);
    assert forall x :: Holding(w', x) >= Holding(w, x);
  }

  lemma {:induction false} AlwaysBacked(ws: seq<World>, acts: seq<Action>, n: nat, usdc: Address)
    requires IsRun(ws, acts) && IsGenesis(ws[0]) && n <= |acts|
    requires GrantsNothing(ws[0].bank, ws[0].desk) && forall t :: Holding(ws[0], t) >= 0
    requires forall i | 0 <= i < n :: Signer(acts[i]) != Some(ws[0].desk) && (acts[i].DoSetUsdc? ==> acts[i].usdc == usdc)
    ensures Backed(ws[n], usdc) && ws[n].desk == ws[0].desk
  {
    if n > 0 {
      AlwaysBacked(ws, acts, n - 1, usdc);
      BackedStep(ws[n - 1], acts[n - 1], usdc);
      assert ws[n] == Step(ws[n - 1], acts[n - 1]);
    }
  }

  /** The inventory counter never exceeds what the desk actually holds of that asset. */
  lemma InventoryIsBacked(ws: seq<World>, acts: seq<Action>, n: nat, usdc: Address, asset: Address)
    requires IsRun(ws, acts) && IsGenesis(ws[0]) && n <= |acts| && asset != usdc
    requires GrantsNothing(ws[0].bank, ws[0].desk) && forall t :: Holding(ws[0], t) >= 0
    requires forall i | 0 <= i < n :: Signer(acts[i]) != Some(ws[0].desk) && (acts[i].DoSetUsdc? ==> acts[i].usdc == usdc)
    ensures 0 <= InventoryOf(ws[n].storage, asset) <= BalanceOf(ws[n].bank, asset, ws[0].desk)
  {
    AlwaysBacked(ws, acts, n, usdc);
  }

  /** What an exit takes out of the desk's holding of the exited asset itself: nothing, unless that is the
      payout token and somebody else is paid. */
  function NetPayout(w: World, asset: Address, to: Address, out: int): int {
    if w.storage.usdc == Some(asset) && to != w.desk then out else 0
  }

  /** Why USDC itself is left out. After an exit of any asset the recorded inventory is backed exactly when the
      desk held, beyond its inventory before, at least what the exit took back out: always for an asset that
      is not the payout token, and only from spare float for one that is. */
  lemma ExitStaysBacked(w: World, holder: Address, asset: Address, units: int, minOut: int, to: Address, q: Quote)
    requires Exit(w, holder, asset, units, minOut, to, q).Done? && holder != w.desk
    ensures asset in w.storage.configs
    ensures var w' := Exit(w, holder, asset, units, minOut, to, q).value;
            var out := UsdcFor(units, NetPrice(q.value, w.storage.configs[asset].spreadBps));
            InventoryOf(w'.storage, asset) <= Holding(w', asset)
            <==> Holding(w, asset) - InventoryOf(w.storage, asset) >= NetPayout(w, asset, to, out)
  {
    ExitSwaps(w, holder, asset, units, minOut, to, q);
    ExitCounts(w, holder, asset, units, minOut, to, q);
  }
}
