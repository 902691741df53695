/** The asset registry (contracts/registry/src/lib.rs) with the shared asset policy
    (contracts/common/src/asset.rs) and the 48-hour timelock (contracts/common/src/timelock.rs). */
module Registry {
  import opened Prelude

  datatype Standard = ClassicSac | Sep57
  datatype YieldType = Accumulating | Distributing

  /** What never changes once an asset is registered. */
  datatype Terms = Terms(issuer: Address, standard: Standard, yieldType: YieldType, custody: CustodyMode, ccy: string)

  datatype AssetConfig = AssetConfig(
    terms: Terms, contract: Address, lagDays: nat, haircutBase: nat, haircutFx: nat,
    priceBand: nat, dailyMove: nat, status: string)

  datatype Verdict =
    | Accepted | BaseHaircut | FxHaircut | TotalHaircut | PriceBand | DailyMove | WrongContract | UnknownStatus

  function TotalHaircutBps(c: AssetConfig): nat {
    c.haircutBase + c.haircutFx
  }

  /** The first rule a config breaks, in the order the rules are checked. */
  function Validate(c: AssetConfig, asset: Address): Verdict {
    if c.haircutBase > BPS then BaseHaircut
    else if c.haircutFx > BPS then FxHaircut
    else if TotalHaircutBps(c) > BPS then TotalHaircut
    else if c.priceBand == 0 || c.priceBand > BPS then PriceBand
    else if c.dailyMove == 0 || c.dailyMove > BPS then DailyMove
    else if c.contract != asset then WrongContract
    else if c.status != "active" && c.status != "paused" && c.status != "retired" then UnknownStatus
    else Accepted
  }

  datatype Change =
    | HaircutBaseBps(bps: nat)
    | HaircutFxBps(bps: nat)
    | PriceBandBps(bps: nat)
    | DailyMoveBps(bps: nat)
    | RedemptionLagDays(days: nat)
    | Status(status: string)

  function Changed(c: AssetConfig, change: Change): AssetConfig {
    match change
    case HaircutBaseBps(v) => c.(haircutBase := v)
    case HaircutFxBps(v) => c.(haircutFx := v)
    case PriceBandBps(v) => c.(priceBand := v)
    case DailyMoveBps(v) => c.(dailyMove := v)
    case RedemptionLagDays(v) => c.(lagDays := v)
    case Status(v) => c.(status := v)
  }

  datatype PendingChange = PendingChange(asset: Address, change: Change, executesAt: nat)

  datatype World = World(assets: map<Address, AssetConfig>, pending: map<nat, PendingChange>, nextId: nat, now: nat)

  predicate IsGenesis(w: World) {
    w.assets == map[] && w.pending == map[] && w.nextId == 0
  }

  // ----- entry points

  function RegisterAsset(w: World, asset: Address, c: AssetConfig): Result<World> {
    if asset in w.assets || !Validate(c, asset).Accepted? then Revert else
    Done(w.(assets := w.assets[asset := c]))
  }

  function QueueParam(w: World, asset: Address, change: Change): Result<World> {
    if asset !in w.assets then Revert else
    var entry := PendingChange(asset, change, w.now + TIMELOCK_DELAY_SECONDS);
    Done(w.(pending := w.pending[w.nextId := entry], nextId := w.nextId + 1))
  }

  function CancelParam(w: World, id: nat): Result<World> {
    if id !in w.pending then Revert else
    Done(w.(pending := w.pending - {id}))
  }

  function ExecuteParam(w: World, id: nat): Result<World> {
    if id !in w.pending || w.now < w.pending[id].executesAt then Revert else
    var asset := w.pending[id].asset;
    :- Require(asset in w.assets);
    var c := Changed(w.assets[asset], w.pending[id].change);
    :- Require(Validate(c, asset).Accepted?);
    Done(w.(assets := w.assets[asset := c], pending := w.pending - {id}))
  }

  /** The emergency brake: no timelock, and only ever upwards. It checks the total, not the whole
      policy. */
  function RaiseHaircutNow(w: World, asset: Address, addBps: nat): Result<World> {
    if asset !in w.assets then Revert else
    var c := w.assets[asset];
    var raised := c.haircutBase + addBps;
    :- Require(raised <= U32_MAX && raised + c.haircutFx <= BPS);
    Done(w.(assets := w.assets[asset := c.(haircutBase := raised)]))
  }

  // ----- runs

  datatype Action =
    | DoRegister(asset: Address, config: AssetConfig)
    | DoQueue(asset: Address, change: Change)
    | DoQueueOther
    | DoCancel(id: nat)
    | DoExecute(id: nat)
    | DoRaise(asset: Address, addBps: nat)
    | Elapse(seconds: nat)

  function Apply(w: World, a: Action): Result<World> {
    match a
    case DoRegister(asset, c) => RegisterAsset(w, asset, c)
    case DoQueue(asset, change) => QueueParam(w, asset, change)
    // Unpauses and role changes mint their ids from the same counter.
    case DoQueueOther => Done(w.(nextId := w.nextId + 1))
    case DoCancel(id) => CancelParam(w, id)
    case DoExecute(id) => ExecuteParam(w, id)
    case DoRaise(asset, addBps) => RaiseHaircutNow(w, asset, addBps)
    case Elapse(seconds) => Done(w.(now := w.now + seconds))
  }

  function Step(w: World, a: Action): World {
    var r := Apply(w, a);
    if r.Done? then r.value else w
  }

  ghost predicate IsRun(ws: seq<World>, acts: seq<Action>) {
    |ws| == |acts| + 1 && forall i | 0 <= i < |acts| :: ws[i + 1] == Step(ws[i], acts[i])
  }

  // ----- what the policy accepts

  /** A config is accepted exactly when its combined haircut leaves no negative value, both bands are
      between one and ten thousand basis points, it names its own address and its status is known. */
  lemma AcceptedExactly(c: AssetConfig, asset: Address)
    ensures Validate(c, asset).Accepted? <==>
            && c.haircutBase + c.haircutFx <= 10_000
            && 1 <= c.priceBand <= 10_000 && 1 <= c.dailyMove <= 10_000
            && c.contract == asset && c.status in {"active", "paused", "retired"}
  {
    assert c.status in {"active", "paused", "retired"} <==> c.status == "active" || c.status == "paused" || c.status == "retired";
  }

  ghost predicate AllAccepted(w: World) {
    forall asset | asset in w.assets :: Validate(w.assets[asset], asset).Accepted?
  }

  lemma StepKeepsAccepted(w: World, a: Action)
    requires AllAccepted(w)
    ensures AllAccepted(Step(w, a))
  {
    if Apply(w, a).Done? && a.DoRaise? {
      AcceptedExactly(w.assets[a.asset], a.asset);
      AcceptedExactly(Step(w, a).assets[a.asset], a.asset);
    }
  }

  /** Every config the registry ever stores passes the whole policy, though the emergency brake checks
      only the combined haircut. */
  lemma {:induction false} AlwaysAccepted(ws: seq<World>, acts: seq<Action>, n: nat)
    requires IsRun(ws, acts) && IsGenesis(ws[0]) && n <= |acts|
    ensures AllAccepted(ws[n])
  {
    if n > 0 {
      AlwaysAccepted(ws, acts, n - 1);
      StepKeepsAccepted(ws[n - 1], acts[n - 1]);
    }
  }

  // ----- the timelock

  /** Step `k` queued the change now pending under `id`, and nothing touched it since. */
  ghost predicate QueuedAt(ws: seq<World>, acts: seq<Action>, k: nat, n: nat, id: nat, asset: Address, change: Change)
    requires |ws| == |acts| + 1 && n <= |acts|
  {
    && k < n && acts[k] == DoQueue(asset, change) && ws[k].nextId == id
    && (forall j | k < j <= n ::
          id in ws[j].pending && ws[j].pending[id] == PendingChange(asset, change, ws[k].now + TIMELOCK_DELAY_SECONDS))
  }

  lemma PendingStep(w: World, a: Action, id: nat)
    requires id in Step(w, a).pending
    ensures var p := Step(w, a).pending[id];
            || (id in w.pending && p == w.pending[id])
            || (a == DoQueue(p.asset, p.change) && w.nextId == id && p.executesAt == w.now + TIMELOCK_DELAY_SECONDS)
  {
  }

  lemma {:induction false} PendingHasOrigin(ws: seq<World>, acts: seq<Action>, n: nat, id: nat) returns (k: nat)
    requires IsRun(ws, acts) && IsGenesis(ws[0]) && n <= |acts| && id in ws[n].pending
    ensures QueuedAt(ws, acts, k, n, id, ws[n].pending[id].asset, ws[n].pending[id].change)
  {
    PendingStep(ws[n - 1], acts[n - 1], id);
    if id in ws[n - 1].pending && ws[n].pending[id] == ws[n - 1].pending[id] {
      k := PendingHasOrigin(ws, acts, n - 1, id);
    } else {
      k := n - 1;
    }
  }

  /** How one step can change a stored config. */
  lemma ConfigStep(w: World, a: Action, asset: Address)
    requires asset in w.assets
    ensures asset in Step(w, a).assets
    ensures var c, c' := w.assets[asset], Step(w, a).assets[asset];
            || c' == c
            || (a.DoRaise? && a.asset == asset && c' == c.(haircutBase := c.haircutBase + a.addBps))
            || (a.DoExecute? && a.id in w.pending && w.now >= w.pending[a.id].executesAt
                && w.pending[a.id].asset == asset && c' == Changed(c, w.pending[a.id].change))
  {
  }

  /** A registered asset stays registered, and its config changes in two ways only: the emergency brake
      raises its base haircut, or a change queued for it at least 48 hours earlier, and not cancelled
      since, is applied exactly as it was queued. */
  lemma ConfigChangesWait(ws: seq<World>, acts: seq<Action>, n: nat, asset: Address)
    requires IsRun(ws, acts) && IsGenesis(ws[0]) && n < |acts| && asset in ws[n].assets
    ensures asset in ws[n + 1].assets
    ensures var c, c' := ws[n].assets[asset], ws[n + 1].assets[asset];
            || c' == c
            || (acts[n].DoRaise? && c'.haircutBase > c.haircutBase && c' == c.(haircutBase := c'.haircutBase))
            || (acts[n].DoExecute? && exists k: nat, change: Change ::
                  QueuedAt(ws, acts, k, n, acts[n].id, asset, change)
                  && ws[k].now + TIMELOCK_DELAY_SECONDS <= ws[n].now && c' == Changed(c, change))
  {
    var a := acts[n];
    ConfigStep(ws[n], a, asset);
    if ws[n + 1].assets[asset] != ws[n].assets[asset] && a.DoExecute? {
      var k := PendingHasOrigin(ws, acts, n, a.id);
      assert QueuedAt(ws, acts, k, n, a.id, asset, ws[n].pending[a.id].change);
    }
  }

  /** In particular no haircut is ever lowered without the wait. */
  lemma LoweringWaits(ws: seq<World>, acts: seq<Action>, n: nat, asset: Address)
    requires IsRun(ws, acts) && IsGenesis(ws[0]) && n < |acts| && asset in ws[n].assets
    requires asset !in ws[n + 1].assets
             || ws[n + 1].assets[asset].haircutBase < ws[n].assets[asset].haircutBase
             || ws[n + 1].assets[asset].haircutFx < ws[n].assets[asset].haircutFx
    ensures acts[n].DoExecute?
    ensures exists k: nat, v: nat, change: Change ::
              && QueuedAt(ws, acts, k, n, acts[n].id, asset, change) && ws[k].now + TIMELOCK_DELAY_SECONDS <= ws[n].now
              && (change == HaircutBaseBps(v) || change == HaircutFxBps(v))
  {
    ConfigChangesWait(ws, acts, n, asset);
    var c, c' := ws[n].assets[asset], ws[n + 1].assets[asset];
    var k: nat, change: Change :|
      QueuedAt(ws, acts, k, n, acts[n].id, asset, change) && ws[k].now + TIMELOCK_DELAY_SECONDS <= ws[n].now && c' == Changed(c, change);
    assert change.HaircutBaseBps? || change.HaircutFxBps?;
    assert change == HaircutBaseBps(change.bps) || change == HaircutFxBps(change.bps);
  }

  // ----- ids

  ghost predicate IdsFresh(w: World) {
    forall id | id in w.pending :: id < w.nextId
  }

  lemma {:induction false} AlwaysFresh(ws: seq<World>, acts: seq<Action>, n: nat)
    requires IsRun(ws, acts) && IsGenesis(ws[0]) && n <= |acts|
    ensures IdsFresh(ws[n])
  {
    if n > 0 {
      AlwaysFresh(ws, acts, n - 1);
      assert ws[n] == Step(ws[n - 1], acts[n - 1]);
    }
  }

  lemma {:induction false} GoneForGood(ws: seq<World>, acts: seq<Action>, m: nat, n: nat, id: nat)
    requires IsRun(ws, acts) && m <= n <= |acts| && id !in ws[m].pending && id < ws[m].nextId
    ensures id !in ws[n].pending && id < ws[n].nextId
    decreases n
  {
    if m < n {
      GoneForGood(ws, acts, m, n - 1, id);
      assert ws[n] == Step(ws[n - 1], acts[n - 1]);
    }
  }

  /** An id names one change for ever: once executed or cancelled it can never be executed again. */
  lemma ExecutesOnce(ws: seq<World>, acts: seq<Action>, m: nat, n: nat, id: nat)
    requires IsRun(ws, acts) && IsGenesis(ws[0]) && m < n <= |acts|
    requires acts[m] == DoExecute(id) || acts[m] == DoCancel(id)
    requires Apply(ws[m], acts[m]).Done?
    ensures ExecuteParam(ws[n], id).Revert? && CancelParam(ws[n], id).Revert?
  {
    AlwaysFresh(ws, acts, m);
    GoneForGood(ws, acts, m + 1, n, id);
  }

  // ----- the contract, updating its storage in place

  class RegistryContract {
    var assets: map<Address, AssetConfig>
    var pending: map<nat, PendingChange>
    var nextId: nat

    function At(now: nat): World
      reads this
    {
      World(assets, pending, nextId, now)
    }

    constructor ()
      ensures IsGenesis(At(0))
    {
      assets, pending, nextId := map[], map[], 0;
    }

    method Register(asset: Address, config: AssetConfig, now: nat) returns (ok: bool)
      modifies this
      ensures Committed(old(At(now)), At(now), RegisterAsset(old(At(now)), asset, config), ok)
    {
      if asset in assets { return false; }
      var verdict := Validate(config, asset);
      if verdict != Accepted { return false; }
      assets := assets[asset := config];
      return true;
    }

    /** Mints the next id, one counter for every kind of queued change. */
    method MintId() returns (id: nat)
      modifies `nextId
      ensures id == old(nextId) && nextId == id + 1
    {
      id := nextId;
      nextId := id + 1;
    }

    method Queue(asset: Address, change: Change, now: nat) returns (id: nat, ok: bool)
      modifies this
      ensures Committed(old(At(now)), At(now), QueueParam(old(At(now)), asset, change), ok)
      ensures ok ==> id == old(nextId) && id in pending
    {
      id := 0;
      if asset !in assets { return id, false; }
      id := MintId();
      pending := pending[id := PendingChange(asset, change, now + TIMELOCK_DELAY_SECONDS)];
      return id, true;
    }

    method Cancel(id: nat, now: nat) returns (ok: bool)
      modifies this
      ensures Committed(old(At(now)), At(now), CancelParam(old(At(now)), id), ok)
    {
      if id !in pending { return false; }
      pending := pending - {id};
      return true;
    }

    method Execute(id: nat, now: nat) returns (ok: bool)
      modifies this
      ensures Committed(old(At(now)), At(now), ExecuteParam(old(At(now)), id), ok)
    {
      if id !in pending { return false; }
      var entry := pending[id];
      if now < entry.executesAt || entry.asset !in assets { return false; }
      var config := assets[entry.asset];
      match entry.change {
        case HaircutBaseBps(v) => config := config.(haircutBase := v);
        case HaircutFxBps(v) => config := config.(haircutFx := v);
        case PriceBandBps(v) => config := config.(priceBand := v);
        case DailyMoveBps(v) => config := config.(dailyMove := v);
        case RedemptionLagDays(v) => config := config.(lagDays := v);
        case Status(v) => config := config.(status := v);
      }
      var verdict := Validate(config, entry.asset);
      if verdict != Accepted { return false; }
      assets := assets[entry.asset := config];
      pending := pending - {id};
      return true;
    }

    method Raise(asset: Address, addBps: nat, now: nat) returns (ok: bool)
      modifies this
      ensures Committed(old(At(now)), At(now), RaiseHaircutNow(old(At(now)), asset, addBps), ok)
    {
      if asset !in assets { return false; }
      var config := assets[asset];
      var raised := config.haircutBase + addBps;
      if raised > U32_MAX || raised + config.haircutFx > BPS { return false; }
      config := config.(haircutBase := raised);
      assets := assets[asset := config];
      return true;
    }
  }
}
