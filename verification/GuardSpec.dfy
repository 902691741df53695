/** The price guard (contracts/price-guard/src/lib.rs) as transactions over its storage. */
module GuardSpec {
  import opened Prelude
  import opened Risk
  import opened Medians
  import opened Decimals

  const MAX_FUTURE_SKEW_S: nat := 60
  const ISSUER_SOURCE: string := "issuer"

  datatype Config = Config(bandBps: nat, dailyBps: nat, maxStaleness: nat, window: nat, windowBps: nat)

  datatype Source = Source(name: string, value: int, observedAt: nat, stale: bool)

  /** Everything stored for one asset besides its configuration. */
  datatype Guard = Guard(
    names: seq<string>, sources: map<string, Source>,
    lastGood: Option<int>, halted: bool, pendingHalt: Option<int>,
    reference: Option<int>, referenceAt: Option<nat>)

  const NEW_GUARD: Guard := Guard([], map[], None, false, None, None, None)

  datatype Change =
    | BandBps(asset: Address, bps: nat)
    | DailyBps(asset: Address, bps: nat)
    | WindowSeconds(asset: Address, seconds: nat)
    | WindowBps(asset: Address, bps: nat)
    | MaxStaleness(asset: Address, seconds: nat)
    | WholeAsset(asset: Address, config: Config)
    | IssuerKey(asset: Address, key: string)
    | RequireSignature(required: bool)

  datatype PendingChange = PendingChange(change: Change, executesAt: nat)

  datatype World = World(
    configs: map<Address, Config>, guards: map<Address, Guard>,
    pending: map<nat, PendingChange>, nextId: nat,
    keys: map<Address, string>, requireSig: Option<bool>, now: nat)

  predicate IsGenesis(w: World) {
    w.configs == map[] && w.guards == map[] && w.pending == map[] && w.nextId == 0
    && w.keys == map[] && w.requireSig == None
  }

  // ----- evaluation

  /** A reading counts while it is neither too old nor dated ahead of the clock by more than skew. */
  predicate IsFresh(s: Source, maxStaleness: nat, now: nat) {
    !s.stale && s.observedAt <= now + MAX_FUTURE_SKEW_S && SatSub(now, s.observedAt) <= maxStaleness
  }

  /** The fresh readings, in the order their sources were first published. */
  function FreshSources(names: seq<string>, sources: map<string, Source>, maxStaleness: nat, now: nat): seq<Source> {
    if names == [] then [] else
      var rest := FreshSources(names[..|names| - 1], sources, maxStaleness, now);
      var name := names[|names| - 1];
      if name in sources && IsFresh(sources[name], maxStaleness, now) then rest + [sources[name]] else rest
  }

  function Values(sources: seq<Source>): seq<int> {
    seq(|sources|, i requires 0 <= i < |sources| => sources[i].value)
  }

  function FreshOf(g: Guard, c: Config, now: nat): seq<Source> {
    FreshSources(g.names, g.sources, c.maxStaleness, now)
  }

  datatype Guarded = Guarded(quote: Quote, at: nat, sources: seq<Source>)

  /** How far `to` is from `from`, in basis points of `from`. */
  function MoveBps(from: int, to: int): int
    requires from > 0
  {
    Quot(Abs(to - from) * BPS, from)
  }

  predicate MovedTooFar(base: Option<int>, to: int, bandBps: nat) {
    base.Some? && base.value > 0 && MoveBps(base.value, to) > bandBps
  }

  function Halt(g: Guard, value: int): Guard {
    g.(halted := true, pendingHalt := Some(value))
  }

  /** A new price becomes the reference only when the old reference has been in force for a whole window. */
  function Refresh(g: Guard, c: Config, value: int, now: nat): Guard {
    if g.referenceAt.None? || SatSub(now, g.referenceAt.value) >= c.window
    then g.(reference := Some(value), referenceAt := Some(now))
    else g
  }

  /** What agreeing readings with median `median` lead to: a halt when the price moved too far from the
      last good value or from the rolling reference, otherwise a new last good value. */
  function Track(g: Guard, c: Config, median: int, now: nat): (Quote, Guard) {
    if MovedTooFar(g.lastGood, median, c.dailyBps) then (Quote(g.lastGood.value, Halted), Halt(g, median))
    else if MovedTooFar(g.reference, median, c.windowBps) then
      (Quote(g.lastGood.GetOr(g.reference.value), Halted), Halt(g, median))
    else (Quote(median, Ok), Refresh(g, c, median, now).(lastGood := Some(median)))
  }

  /** The rules applied to the fresh readings `values`. */
  function Decide(g: Guard, c: Config, values: seq<int>, now: nat): Result<(Quote, Guard)> {
    if g.halted then Done((Quote(g.lastGood.GetOr(0), Halted), g))
    else if |values| < 2 then Done((Quote(g.lastGood.GetOr(0), Degraded), g))
    else
      :- Require(|values| <= CAPACITY);
      if !WithinBand(SortUp(values), c.bandBps)
      then Done((Quote(g.lastGood.GetOr(0), Degraded), g))
      else Done(Track(g, c, Median(values), now))
  }

  function Evaluate(g: Guard, c: Config, now: nat): Result<(Guarded, Guard)> {
    var live := FreshOf(g, c, now);
    var (quote, g') :- Decide(g, c, Values(live), now);
    Done((Guarded(quote, now, live), g'))
  }

  // ----- entry points

  function GuardOf(w: World, asset: Address): Guard {
    if asset in w.guards then w.guards[asset] else NEW_GUARD
  }

  function WithGuard(w: World, asset: Address, g: Guard): World {
    w.(guards := w.guards[asset := g])
  }

  /** Evaluates the asset's guard as `g` and stores what that implies. */
  function EvaluateAs(w: World, asset: Address, g: Guard): Result<World> {
    if asset !in w.configs then Revert else
    var (_, g') :- Evaluate(g, w.configs[asset], w.now);
    Done(WithGuard(w, asset, g'))
  }

  predicate Loosens(c: Config, c': Config) {
    c'.bandBps > c.bandBps || c'.dailyBps > c.dailyBps || c'.windowBps > c.windowBps
    || c'.maxStaleness > c.maxStaleness || c'.window < c.window
  }

  function ConfigureAsset(w: World, asset: Address, c: Config): Result<World> {
    if asset in w.configs && Loosens(w.configs[asset], c) then Revert else
    Done(w.(configs := w.configs[asset := c]))
  }

  function ConfigureKey(w: World, asset: Address, key: string): Result<World> {
    if asset in w.keys && w.keys[asset] != key then Revert else
    Done(w.(keys := w.keys[asset := key]))
  }

  function ConfigureSignature(w: World, required: bool): Result<World> {
    if w.requireSig == Some(true) && !required then Revert else
    Done(w.(requireSig := Some(required)))
  }

  function QueueConfig(w: World, change: Change): Result<World> {
    Done(w.(pending := w.pending[w.nextId := PendingChange(change, w.now + TIMELOCK_DELAY_SECONDS)], nextId := w.nextId + 1))
  }

  function CancelConfig(w: World, id: nat): Result<World> {
    if id !in w.pending then Revert else
    Done(w.(pending := w.pending - {id}))
  }

  function ApplyField(w: World, asset: Address, c: Config -> Config): Result<World> {
    if asset !in w.configs then Revert else
    Done(w.(configs := w.configs[asset := c(w.configs[asset])]))
  }

  function ApplyChange(w: World, change: Change): Result<World> {
    match change
    case BandBps(asset, v) => ApplyField(w, asset, (c: Config) => c.(bandBps := v))
    case DailyBps(asset, v) => ApplyField(w, asset, (c: Config) => c.(dailyBps := v))
    case WindowSeconds(asset, v) => ApplyField(w, asset, (c: Config) => c.(window := v))
    case WindowBps(asset, v) => ApplyField(w, asset, (c: Config) => c.(windowBps := v))
    case MaxStaleness(asset, v) => ApplyField(w, asset, (c: Config) => c.(maxStaleness := v))
    case WholeAsset(asset, config) => Done(w.(configs := w.configs[asset := config]))
    case IssuerKey(asset, key) => Done(w.(keys := w.keys[asset := key]))
    case RequireSignature(required) => Done(w.(requireSig := Some(required)))
  }

  function ExecuteConfig(w: World, id: nat): Result<World> {
    if id !in w.pending || w.now < w.pending[id].executesAt then Revert else
    var w' :- ApplyChange(w, w.pending[id].change);
    Done(w'.(pending := w.pending - {id}))
  }

  /** Files a reading: one per name, listed in the order the names first appeared. */
  function Record(g: Guard, name: string, value: int, at: nat): Guard {
    g.(names := if name in g.names then g.names else g.names + [name],
       sources := g.sources[name := Source(name, value, at, false)])
  }

  function PublishSource(w: World, asset: Address, name: string, value: int, at: nat): Result<World> {
    if asset !in w.configs || value <= 0 || at > w.now + MAX_FUTURE_SKEW_S then Revert else
    EvaluateAs(w, asset, Record(GuardOf(w, asset), name, value, at))
  }

  /** What signature verification answers for a signature: the pairs of key and message it accepts. */
  datatype Signature = Signature(valid: set<(string, string)>)

  /** The check on an issuer's reading: its signature is valid under the asset's registered key for the
      message built from the asset code, the time and the value, unless signatures are switched off. */
  predicate SignatureAccepted(w: World, asset: Address, code: string, value: int, at: nat, sig: Signature) {
    w.requireSig.GetOr(true) ==> asset in w.keys && (w.keys[asset], NavMessage(code, at, value)) in sig.valid
  }

  function PublishNav(w: World, asset: Address, code: string, value: int, at: nat, sig: Signature): Result<World> {
    if asset !in w.configs || value <= 0 || at > w.now + MAX_FUTURE_SKEW_S then Revert else
    :- Require(SignatureAccepted(w, asset, code, value, at, sig));
    EvaluateAs(w, asset, Record(GuardOf(w, asset), ISSUER_SOURCE, value, at))
  }

  function Without(names: seq<string>, name: string): seq<string> {
    if names == [] then []
    else if names[0] == name then names[1..]
    else [names[0]] + Without(names[1..], name)
  }

  function RemoveSource(w: World, asset: Address, name: string): Result<World> {
    if asset !in w.configs then Revert else
    var g := GuardOf(w, asset);
    EvaluateAs(w, asset, g.(names := Without(g.names, name), sources := g.sources - {name}))
  }

  function ReadPrice(w: World, asset: Address): Result<World> {
    EvaluateAs(w, asset, GuardOf(w, asset))
  }

  /** Lifting a halt makes the value that was pending the last good one and the reference both. */
  function ConfirmGuard(g: Guard, now: nat): Guard {
    if g.pendingHalt.Some?
    then g.(lastGood := g.pendingHalt, reference := g.pendingHalt, referenceAt := Some(now),
            pendingHalt := None, halted := false)
    else g.(halted := false)
  }

  function ConfirmHaltCleared(w: World, asset: Address): Result<World> {
    Done(WithGuard(w, asset, ConfirmGuard(GuardOf(w, asset), w.now)))
  }

  // ----- runs

  datatype Action =
    | DoConfigure(asset: Address, config: Config)
    | DoConfigureKey(asset: Address, key: string)
    | DoConfigureSignature(required: bool)
    | DoQueue(change: Change)
    | DoQueueOther
    | DoCancel(id: nat)
    | DoExecute(id: nat)
    | DoPublishNav(asset: Address, code: string, value: int, at: nat, sig: Signature)
    | DoPublishSource(asset: Address, name: string, value: int, at: nat)
    | DoRemoveSource(asset: Address, name: string)
    | DoReadPrice(asset: Address)
    | DoConfirm(asset: Address)
    | Elapse(seconds: nat)

  function Apply(w: World, a: Action): Result<World> {
    match a
    case DoConfigure(asset, c) => ConfigureAsset(w, asset, c)
    case DoConfigureKey(asset, key) => ConfigureKey(w, asset, key)
    case DoConfigureSignature(required) => ConfigureSignature(w, required)
    case DoQueue(change) => QueueConfig(w, change)
    // Role changes and upgrades mint their ids from the same counter.
    case DoQueueOther => Done(w.(nextId := w.nextId + 1))
    case DoCancel(id) => CancelConfig(w, id)
    case DoExecute(id) => ExecuteConfig(w, id)
    case DoPublishNav(asset, code, value, at, sig) => PublishNav(w, asset, code, value, at, sig)
    case DoPublishSource(asset, name, value, at) => PublishSource(w, asset, name, value, at)
    case DoRemoveSource(asset, name) => RemoveSource(w, asset, name)
    case DoReadPrice(asset) => ReadPrice(w, asset)
    case DoConfirm(asset) => ConfirmHaltCleared(w, asset)
    case Elapse(seconds) => Done(w.(now := w.now + seconds))
  }

  function Step(w: World, a: Action): World {
    var r := Apply(w, a);
    if r.Done? then r.value else w
  }

  ghost predicate IsRun(ws: seq<World>, acts: seq<Action>) {
    |ws| == |acts| + 1 && forall i | 0 <= i < |acts| :: ws[i + 1] == Step(ws[i], acts[i])
  }
}
