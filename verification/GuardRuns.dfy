/** The price guard over whole runs: the halt latch, the speed limit on price drift, and the delay
    before any rule is loosened. */
module GuardRuns {
  import opened Prelude
  import opened Medians
  import opened GuardSpec
  import opened GuardPrices

  // ----- every stored guard is sound

  ghost predicate AllSound(w: World) {
    forall a | a in w.guards :: Sound(w.guards[a])
  }

  lemma {:induction false} WithoutDistinct(names: seq<string>, name: string)
    requires forall i, j | 0 <= i < j < |names| :: names[i] != names[j]
    ensures var r := Without(names, name);
            (forall n | n in r :: n in names) && (forall i, j | 0 <= i < j < |r| :: r[i] != r[j])
  {
    if names != [] && names[0] != name {
      WithoutDistinct(names[1..], name);
      assert forall n | n in Without(names[1..], name) :: n in names[1..];
      assert names[0] !in names[1..];
    } else if names != [] {
      assert forall n | n in names[1..] :: n in names;
    }
  }

  /** Whether `after` is what one transaction at `now` may make of the guard `before`, evaluating over
      the readings of `g`. */
  ghost predicate GuardMove(w: World, a: Action, asset: Address, g: Guard, w': World) {
    var before, after := GuardOf(w, asset), GuardOf(w', asset);
    && g == before.(names := g.names, sources := g.sources) && ReadingsSound(g.names, g.sources)
    && (|| after == before
        || (a == DoConfirm(asset) && after == ConfirmGuard(before, w.now) && w'.now == w.now)
        || (asset in w.configs && Evaluate(g, w.configs[asset], w.now).Done?
            && after == Evaluate(g, w.configs[asset], w.now).value.1 && w'.now == w.now))
  }

  lemma EvaluateAsMoves(w: World, a: Action, x: Address, g: Guard, asset: Address)
    requires EvaluateAs(w, x, g).Done? && ReadingsSound(g.names, g.sources) && ReadingsSound(GuardOf(w, asset).names, GuardOf(w, asset).sources)
    requires g == GuardOf(w, x).(names := g.names, sources := g.sources)
    ensures GuardMove(w, a, asset, if x == asset then g else GuardOf(w, asset), EvaluateAs(w, x, g).value)
  {
  }

  lemma OtherMoves(w: World, a: Action, asset: Address)
    requires Apply(w, a).Done? && ReadingsSound(GuardOf(w, asset).names, GuardOf(w, asset).sources)
    requires !a.DoPublishNav? && !a.DoPublishSource? && !a.DoRemoveSource? && !a.DoReadPrice?
    ensures GuardMove(w, a, asset, GuardOf(w, asset), Apply(w, a).value)
  {
  }

  lemma RecordSound(g: Guard, name: string, value: int, at: nat)
    requires ReadingsSound(g.names, g.sources) && value > 0
    ensures ReadingsSound(Record(g, name, value, at).names, Record(g, name, value, at).sources)
  {
  }

  lemma RemovalSound(g: Guard, name: string)
    requires ReadingsSound(g.names, g.sources)
    ensures ReadingsSound(Without(g.names, name), g.sources - {name})
  {
    WithoutDistinct(g.names, name);
  }

  lemma PublishMoves(w: World, a: Action, x: Address, name: string, value: int, at: nat, asset: Address) returns (g: Guard)
    requires AllSound(w) && value > 0 && EvaluateAs(w, x, Record(GuardOf(w, x), name, value, at)).Done?
    ensures GuardMove(w, a, asset, g, EvaluateAs(w, x, Record(GuardOf(w, x), name, value, at)).value)
  {
    var h := Record(GuardOf(w, x), name, value, at);
    RecordSound(GuardOf(w, x), name, value, at);
    EvaluateAsMoves(w, a, x, h, asset);
    g := if x == asset then h else GuardOf(w, asset);
  }

  lemma RemovalMoves(w: World, x: Address, name: string, asset: Address) returns (g: Guard)
    requires AllSound(w) && RemoveSource(w, x, name).Done?
    ensures GuardMove(w, DoRemoveSource(x, name), asset, g, RemoveSource(w, x, name).value)
  {
    var o := GuardOf(w, x);
    var h := o.(names := Without(o.names, name), sources := o.sources - {name});
    RemovalSound(o, name);
    EvaluateAsMoves(w, DoRemoveSource(x, name), x, h, asset);
    g := if x == asset then h else GuardOf(w, asset);
  }

  /** The only ways a step can touch one asset's guard: leave it, confirm its halt, or evaluate it over
      some set of positive readings `g`. */
  lemma GuardStep(w: World, a: Action, asset: Address) returns (g: Guard)
    requires AllSound(w)
    ensures GuardMove(w, a, asset, g, Step(w, a))
  {
    g := GuardOf(w, asset);
    if Apply(w, a).Done? {
      match a
      case DoPublishNav(x, _, value, at, _) => g := PublishMoves(w, a, x, ISSUER_SOURCE, value, at, asset);
      case DoPublishSource(x, name, value, at) => g := PublishMoves(w, a, x, name, value, at, asset);
      case DoRemoveSource(x, name) => g := RemovalMoves(w, x, name, asset);
      case DoReadPrice(x) =>
        EvaluateAsMoves(w, a, x, GuardOf(w, x), asset);
      case _ =>
        OtherMoves(w, a, asset);
    }
  }

  lemma SoundStep(w: World, a: Action)
    requires AllSound(w)
    ensures AllSound(Step(w, a))
  {
    forall asset | asset in Step(w, a).guards
      ensures Sound(Step(w, a).guards[asset])
    {
      var g := GuardStep(w, a, asset);
      if asset in w.configs && Evaluate(g, w.configs[asset], w.now).Done? {
        EvaluateKeepsSound(g, w.configs[asset], w.now);
      }
    }
  }

  lemma {:induction false} AlwaysSound(ws: seq<World>, acts: seq<Action>, n: nat)
    requires IsRun(ws, acts) && n <= |acts| && IsGenesis(ws[0])
    ensures AllSound(ws[n])
  {
    if n > 0 {
      AlwaysSound(ws, acts, n - 1);
      SoundStep(ws[n - 1], acts[n - 1]);
    }
  }

  // ----- the latch holds until a human confirms

  predicate SameBaseline(g: Guard, g': Guard) {
    && g'.halted == g.halted && g'.pendingHalt == g.pendingHalt && g'.lastGood == g.lastGood
    && g'.reference == g.reference && g'.referenceAt == g.referenceAt
  }

  /** A halted asset keeps its last good value, reference and pending value through any publish, read,
      removal or configuration, until its halt is confirmed. */
  lemma {:induction false} HaltLatched(ws: seq<World>, acts: seq<Action>, m: nat, n: nat, asset: Address)
    requires IsRun(ws, acts) && m <= n <= |acts| && IsGenesis(ws[0])
    requires GuardOf(ws[m], asset).halted
    requires forall j | m <= j < n :: acts[j] != DoConfirm(asset)
    ensures SameBaseline(GuardOf(ws[m], asset), GuardOf(ws[n], asset))
    decreases n - m
  {
    if m < n {
      HaltLatched(ws, acts, m, n - 1, asset);
      AlwaysSound(ws, acts, n - 1);
      var g := GuardStep(ws[n - 1], acts[n - 1], asset);
      if asset in ws[n - 1].configs {
        HaltedStaysPut(GuardOf(ws[n - 1], asset), ws[n - 1].configs[asset], ws[n - 1].now, g.names, g.sources);
      }
    }
  }

  // ----- the speed limit

  function Pow(b: int, k: nat): int {
    if k == 0 then 1 else b * Pow(b, k - 1)
  }

  lemma {:induction false} PowNonNegative(b: int, k: nat)
    requires b >= 0
    ensures Pow(b, k) >= 0
  {
    if k > 0 { PowNonNegative(b, k - 1); }
  }

  /** `x` is at most `r * ((10001 + w) / 10000)^k`, in whole numbers. */
  predicate AtMost(x: int, r: int, w: nat, k: nat) {
    x * Pow(BPS, k) <= r * Pow(BPS + 1 + w, k)
  }

  /** `x` is at least `r * ((9999 - w) / 10000)^k`. */
  predicate AtLeast(x: int, r: int, w: nat, k: nat) {
    w < 9_999 ==> x * Pow(BPS, k) >= r * Pow(BPS - 1 - w, k)
  }

  lemma AtMostOneMore(x: int, y: int, r: int, w: nat, k: nat)
    requires AtMost(x, r, w, k) && x >= 0 && y * BPS <= (BPS + 1 + w) * x
    ensures AtMost(y, r, w, k + 1)
  {
    var p, q := Pow(BPS, k), Pow(BPS + 1 + w, k);
    PowNonNegative(BPS, k);
    PowNonNegative(BPS + 1 + w, k);
    MulMono(y * BPS, (BPS + 1 + w) * x, p);
    MulMono(x * p, r * q, BPS + 1 + w);
    assert y * (BPS * p) == y * BPS * p;
    assert (BPS + 1 + w) * x * p == x * p * (BPS + 1 + w);
    assert r * q * (BPS + 1 + w) == r * ((BPS + 1 + w) * q);
  }

  lemma AtLeastOneMore(x: int, y: int, r: int, w: nat, k: nat)
    requires AtLeast(x, r, w, k) && x >= 0 && y * BPS >= (BPS - 1 - w) * x
    ensures AtLeast(y, r, w, k + 1)
  {
    if w < 9_999 {
      var p, q := Pow(BPS, k), Pow(BPS - 1 - w, k);
      PowNonNegative(BPS, k);
      MulMono((BPS - 1 - w) * x, y * BPS, p);
      MulMono(r * q, x * p, BPS - 1 - w);
      assert y * (BPS * p) == y * BPS * p;
      assert (BPS - 1 - w) * x * p == x * p * (BPS - 1 - w);
      assert r * q * (BPS - 1 - w) == r * ((BPS - 1 - w) * q);
    }
  }

  lemma {:induction false} BoundsLoosen(x: int, r: int, w: nat, k: nat, k': nat)
    requires AtMost(x, r, w, k) && AtLeast(x, r, w, k) && x >= 0 && k <= k'
    ensures AtMost(x, r, w, k') && AtLeast(x, r, w, k')
    decreases k'
  {
    if k < k' {
      BoundsLoosen(x, r, w, k, k' - 1);
      assert x * BPS <= (BPS + 1 + w) * x by { MulMono(BPS, BPS + 1 + w, x); }
      assert x * BPS >= (BPS - 1 - w) * x by { MulMono(BPS - 1 - w, BPS, x); }
      AtMostOneMore(x, x, r, w, k' - 1);
      AtLeastOneMore(x, x, r, w, k' - 1);
    }
  }

  /** Passing the drift check keeps the new price within one step of the base. */
  lemma StepBound(base: int, to: int, w: nat)
    requires base > 0 && MoveBps(base, to) <= w
    ensures to * BPS <= (BPS + 1 + w) * base && to * BPS >= (BPS - 1 - w) * base
  {
    QuotAtLeast(Abs(to - base) * BPS, base, w + 1);
    assert (BPS + 1 + w) * base == BPS * base + (w + 1) * base;
    assert (BPS - 1 - w) * base == BPS * base - (w + 1) * base;
  }

  /** Whole windows elapsed from `t0` to `t`. */
  function Windows(t0: nat, t: nat, window: nat): nat
    requires window > 0
  {
    SatSub(t, t0) / window
  }

  predicate Within(x: int, r: int, w: nat, k: nat) {
    x > 0 && AtMost(x, r, w, k) && AtLeast(x, r, w, k)
  }

  /** What the run keeps since the first reference `r` was set at `t0`. */
  predicate Drifts(g: Guard, c: Config, r: int, t0: nat, now: nat)
    requires c.window > 0
  {
    && g.reference.Some? && g.referenceAt.Some? && g.lastGood.Some?
    && t0 <= g.referenceAt.value <= now
    && Within(g.reference.value, r, c.windowBps, Windows(t0, g.referenceAt.value, c.window))
    && Within(g.lastGood.value, r, c.windowBps, Windows(t0, g.referenceAt.value, c.window) + 1)
  }

  lemma WindowsAdd(t0: nat, t: nat, t': nat, window: nat)
    requires window > 0 && t0 <= t && t + window <= t'
    ensures Windows(t0, t, window) + 1 <= Windows(t0, t', window)
  {
    QuotAtLeast(t' - t0, window, Quot(t - t0, window) + 1);
  }

  lemma WindowsMono(t0: nat, t: nat, t': nat, window: nat)
    requires window > 0 && t0 <= t <= t'
    ensures Windows(t0, t, window) <= Windows(t0, t', window)
  {
    QuotAtLeast(t' - t0, window, Quot(t - t0, window));
  }

  /** A new price that passed the drift check, whether or not it also refreshes the reference. */
  lemma TrackDrifts(g: Guard, c: Config, median: int, r: int, t0: nat, now: nat)
    requires c.window > 0 && Sound(g) && !g.halted && median > 0 && Drifts(g, c, r, t0, now)
    ensures Drifts(Track(g, c, median, now).1, c, r, t0, now)
  {
    var w, k := c.windowBps, Windows(t0, g.referenceAt.value, c.window);
    if !MovedTooFar(g.lastGood, median, c.dailyBps) && !MovedTooFar(g.reference, median, w) {
      StepBound(g.reference.value, median, w);
      AtMostOneMore(g.reference.value, median, r, w, k);
      AtLeastOneMore(g.reference.value, median, r, w, k);
      if SatSub(now, g.referenceAt.value) >= c.window {
        var k' := Windows(t0, now, c.window);
        WindowsAdd(t0, g.referenceAt.value, now, c.window);
        BoundsLoosen(median, r, w, k + 1, k');
        BoundsLoosen(median, r, w, k + 1, k' + 1);
      }
    }
  }

  lemma EvaluateDrifts(g: Guard, c: Config, r: int, t0: nat, now: nat)
    requires c.window > 0 && Sound(g) && Drifts(g, c, r, t0, now) && Evaluate(g, c, now).Done?
    ensures Drifts(Evaluate(g, c, now).value.1, c, r, t0, now)
  {
    if !g.halted && |Values(FreshOf(g, c, now))| >= 2 {
      MedianPositive(g, c, now);
      TrackDrifts(g, c, Median(Values(FreshOf(g, c, now))), r, t0, now);
    }
  }

  /** The first price an asset ever gets is both its last good value and its reference. */
  lemma FirstReference(g: Guard, c: Config, now: nat)
    requires c.window > 0 && Sound(g) && g.reference.None? && Evaluate(g, c, now).Done?
    requires Evaluate(g, c, now).value.1.reference.Some?
    ensures var g' := Evaluate(g, c, now).value.1;
            g'.lastGood == g'.reference && Drifts(g', c, g'.reference.value, now, now)
  {
    MedianPositive(g, c, now);
    var r := Median(Values(FreshOf(g, c, now)));
    assert Within(r, r, c.windowBps, 0);
    BoundsLoosen(r, r, c.windowBps, 0, 1);
  }

  /** The stretch of a run the speed limit speaks of: one configuration with a positive window, and no
      human confirmation for the asset. */
  ghost predicate Steady(ws: seq<World>, acts: seq<Action>, m: nat, n: nat, asset: Address, c: Config)
    requires |ws| == |acts| + 1 && m <= n <= |acts|
  {
    && c.window > 0
    && (forall j | m <= j <= n :: asset in ws[j].configs && ws[j].configs[asset] == c)
    && (forall j | m <= j < n :: acts[j] != DoConfirm(asset))
  }

  lemma DriftsContinue(w: World, a: Action, w': World, asset: Address, c: Config, r: int, t0: nat)
    requires AllSound(w) && Moved(w, a, asset, w') && c.window > 0 && a != DoConfirm(asset)
    requires asset in w.configs && w.configs[asset] == c && w.now <= w'.now
    requires Drifts(GuardOf(w, asset), c, r, t0, w.now)
    ensures Drifts(GuardOf(w', asset), c, r, t0, w'.now)
  {
    var g :| GuardMove(w, a, asset, g, w');
    if Evaluate(g, c, w.now).Done? {
      EvaluateDrifts(g, c, r, t0, w.now);
    }
  }

  lemma TimeForward(w: World, a: Action)
    ensures w.now <= Step(w, a).now
  {
  }

  /** A run, seen from one asset: sound guards, each moved from the one before, in forward time. */
  ghost predicate AssetRun(ws: seq<World>, acts: seq<Action>, n: nat, asset: Address)
    requires |ws| == |acts| + 1 && n <= |acts|
  {
    forall i | 0 <= i < n ::
      AllSound(ws[i]) && ws[i].now <= ws[i + 1].now && Moved(ws[i], acts[i], asset, ws[i + 1])
  }

  ghost predicate Moved(w: World, a: Action, asset: Address, w': World) {
    exists g :: GuardMove(w, a, asset, g, w')
  }

  lemma RunOfAsset(ws: seq<World>, acts: seq<Action>, n: nat, asset: Address)
    requires IsRun(ws, acts) && n <= |acts| && IsGenesis(ws[0])
    ensures AssetRun(ws, acts, n, asset)
  {
    forall i | 0 <= i < n
      ensures AllSound(ws[i]) && ws[i].now <= ws[i + 1].now && Moved(ws[i], acts[i], asset, ws[i + 1])
    {
      AlwaysSound(ws, acts, i);
      TimeForward(ws[i], acts[i]);
      var g := GuardStep(ws[i], acts[i], asset);
    }
  }

  /** The asset has just been given a new baseline: its last good value is its reference. */
  predicate Rebased(g: Guard, r: int) {
    g.lastGood == g.reference == Some(r)
  }

  lemma RebasedDrifts(g: Guard, c: Config, r: int, now: nat)
    requires c.window > 0 && Sound(g) && Rebased(g, r) && g.referenceAt.value <= now
    ensures Drifts(g, c, r, g.referenceAt.value, now)
  {
    assert Within(r, r, c.windowBps, 0);
    BoundsLoosen(r, r, c.windowBps, 0, 1);
  }

  lemma {:induction false} DriftsSince(ws: seq<World>, acts: seq<Action>, m: nat, n: nat, asset: Address, c: Config, r: int)
    requires |ws| == |acts| + 1 && m <= n <= |acts| && AssetRun(ws, acts, n, asset) && Steady(ws, acts, m, n, asset, c)
    requires AllSound(ws[m]) && Rebased(GuardOf(ws[m], asset), r) && GuardOf(ws[m], asset).referenceAt.value <= ws[m].now
    ensures Drifts(GuardOf(ws[n], asset), c, r, GuardOf(ws[m], asset).referenceAt.value, ws[n].now)
    decreases n - m
  {
    if n == m {
      RebasedDrifts(GuardOf(ws[m], asset), c, r, ws[m].now);
    } else {
      DriftsSince(ws, acts, m, n - 1, asset, c, r);
      DriftsContinue(ws[n - 1], acts[n - 1], ws[n], asset, c, r, GuardOf(ws[m], asset).referenceAt.value);
    }
  }

  // ----- references lie in the past

  predicate ReferencePast(g: Guard, now: nat) {
    g.referenceAt.Some? ==> g.referenceAt.value <= now
  }

  lemma EvaluateKeepsPast(g: Guard, c: Config, now: nat)
    requires ReferencePast(g, now) && Evaluate(g, c, now).Done?
    ensures ReferencePast(Evaluate(g, c, now).value.1, now)
  {
  }

  lemma ReferencePastMove(w: World, a: Action, asset: Address, w': World)
    requires Moved(w, a, asset, w') && w.now <= w'.now && ReferencePast(GuardOf(w, asset), w.now)
    ensures ReferencePast(GuardOf(w', asset), w'.now)
  {
    var g :| GuardMove(w, a, asset, g, w');
    if asset in w.configs && Evaluate(g, w.configs[asset], w.now).Done? {
      EvaluateKeepsPast(g, w.configs[asset], w.now);
    }
  }

  lemma {:induction false} AlwaysPast(ws: seq<World>, acts: seq<Action>, n: nat, asset: Address)
    requires IsRun(ws, acts) && n <= |acts| && IsGenesis(ws[0])
    ensures ReferencePast(GuardOf(ws[n], asset), ws[n].now)
  {
    if n > 0 {
      AlwaysPast(ws, acts, n - 1, asset);
      RunOfAsset(ws, acts, n, asset);
      var w, a, w' := ws[n - 1], acts[n - 1], ws[n];
      assert Moved(w, a, asset, w');
      ReferencePastMove(w, a, asset, w');
    }
  }

  /** The invariant, read off at any later moment. */
  lemma DriftsBound(g: Guard, c: Config, r: int, t0: nat, now: nat)
    requires c.window > 0 && Drifts(g, c, r, t0, now)
    ensures AtMost(g.lastGood.value, r, c.windowBps, Windows(t0, now, c.window) + 1)
    ensures AtLeast(g.lastGood.value, r, c.windowBps, Windows(t0, now, c.window) + 1)
  {
    WindowsMono(t0, g.referenceAt.value, now, c.window);
    BoundsLoosen(g.lastGood.value, r, c.windowBps, Windows(t0, g.referenceAt.value, c.window) + 1, Windows(t0, now, c.window) + 1);
  }

  /** However often a price is published: counted from any moment `m` at which the last good value is the
      reference `r`, `T` seconds after that reference was set the price has moved by at most the window
      band compounded once per elapsed window, plus one. The bound holds in both directions. */
  lemma PriceSpeedLimit(ws: seq<World>, acts: seq<Action>, m: nat, n: nat, asset: Address, c: Config, r: int)
    requires IsRun(ws, acts) && m <= n <= |acts| && IsGenesis(ws[0]) && Steady(ws, acts, m, n, asset, c)
    requires Rebased(GuardOf(ws[m], asset), r)
    ensures GuardOf(ws[m], asset).referenceAt.Some? && GuardOf(ws[n], asset).lastGood.Some?
    ensures var windows := Windows(GuardOf(ws[m], asset).referenceAt.value, ws[n].now, c.window);
            var price := GuardOf(ws[n], asset).lastGood.value;
            AtMost(price, r, c.windowBps, windows + 1) && AtLeast(price, r, c.windowBps, windows + 1)
  {
    RunOfAsset(ws, acts, n, asset);
    AlwaysSound(ws, acts, m);
    AlwaysPast(ws, acts, m, asset);
    DriftsSince(ws, acts, m, n, asset, c, r);
    DriftsBound(GuardOf(ws[n], asset), c, r, GuardOf(ws[m], asset).referenceAt.value, ws[n].now);
  }

  lemma FirstReferenceRebases(w: World, a: Action, w': World, asset: Address, c: Config)
    requires AllSound(w) && Moved(w, a, asset, w') && c.window > 0 && asset in w.configs && w.configs[asset] == c
    requires GuardOf(w, asset).reference.None? && GuardOf(w', asset).reference.Some?
    ensures a == DoConfirm(asset) || (Rebased(GuardOf(w', asset), GuardOf(w', asset).reference.value)
                                      && GuardOf(w', asset).referenceAt == Some(w'.now))
  {
    var g :| GuardMove(w, a, asset, g, w');
    if a != DoConfirm(asset) {
      FirstReference(g, c, w.now);
    }
  }

  /** In particular from the first reference an asset ever gets. */
  lemma SpeedLimitSinceFirst(ws: seq<World>, acts: seq<Action>, m: nat, n: nat, asset: Address, c: Config, r: int)
    requires IsRun(ws, acts) && m < n <= |acts| && IsGenesis(ws[0]) && Steady(ws, acts, m, n, asset, c)
    requires GuardOf(ws[m], asset).reference.None? && GuardOf(ws[m + 1], asset).reference == Some(r)
    ensures GuardOf(ws[n], asset).lastGood.Some?
    ensures var windows := Windows(ws[m + 1].now, ws[n].now, c.window);
            var price := GuardOf(ws[n], asset).lastGood.value;
            AtMost(price, r, c.windowBps, windows + 1) && AtLeast(price, r, c.windowBps, windows + 1)
  {
    RunOfAsset(ws, acts, n, asset);
    assert Moved(ws[m], acts[m], asset, ws[m + 1]);
    FirstReferenceRebases(ws[m], acts[m], ws[m + 1], asset, c);
    PriceSpeedLimit(ws, acts, m + 1, n, asset, c, r);
  }

  /** And from every confirmation of a halt, measured against the value that was confirmed. */
  lemma SpeedLimitSinceConfirmation(ws: seq<World>, acts: seq<Action>, m: nat, n: nat, asset: Address, c: Config)
    requires IsRun(ws, acts) && m < n <= |acts| && IsGenesis(ws[0]) && Steady(ws, acts, m + 1, n, asset, c)
    requires acts[m] == DoConfirm(asset) && GuardOf(ws[m], asset).halted
    ensures GuardOf(ws[m], asset).pendingHalt.Some? && GuardOf(ws[n], asset).lastGood.Some?
    ensures var windows := Windows(ws[m].now, ws[n].now, c.window);
            var price, r := GuardOf(ws[n], asset).lastGood.value, GuardOf(ws[m], asset).pendingHalt.value;
            AtMost(price, r, c.windowBps, windows + 1) && AtLeast(price, r, c.windowBps, windows + 1)
  {
    AlwaysSound(ws, acts, m);
    assert ws[m + 1] == Step(ws[m], acts[m]);
    assert GuardOf(ws[m + 1], asset) == ConfirmGuard(GuardOf(ws[m], asset), ws[m].now);
    PriceSpeedLimit(ws, acts, m + 1, n, asset, c, GuardOf(ws[m], asset).pendingHalt.value);
  }

  // ----- loosening waits

  /** Step `k` queued the change that is pending under `id` at `n`, and it stayed queued all along. */
  ghost predicate QueuedAt(ws: seq<World>, acts: seq<Action>, k: nat, n: nat, id: nat, change: Change)
    requires |ws| == |acts| + 1 && n <= |acts|
  {
    && k < n && acts[k] == DoQueue(change) && ws[k].nextId == id
    && (forall j | k < j <= n :: id in ws[j].pending && ws[j].pending[id] == PendingChange(change, ws[k].now + TIMELOCK_DELAY_SECONDS))
  }

  lemma PendingStep(w: World, a: Action, id: nat)
    requires id in Step(w, a).pending
    ensures || (id in w.pending && Step(w, a).pending[id] == w.pending[id])
            || (a.DoQueue? && w.nextId == id && Step(w, a).pending[id] == PendingChange(a.change, w.now + TIMELOCK_DELAY_SECONDS))
  {
  }

  lemma {:induction false} PendingHasOrigin(ws: seq<World>, acts: seq<Action>, n: nat, id: nat) returns (k: nat)
    requires IsRun(ws, acts) && n <= |acts| && IsGenesis(ws[0]) && id in ws[n].pending
    ensures QueuedAt(ws, acts, k, n, id, ws[n].pending[id].change)
  {
    PendingStep(ws[n - 1], acts[n - 1], id);
    if id in ws[n - 1].pending && ws[n].pending[id] == ws[n - 1].pending[id] {
      k := PendingHasOrigin(ws, acts, n - 1, id);
    } else {
      k := n - 1;
    }
  }

  predicate Looser(w: World, w': World, asset: Address) {
    || (asset in w.configs && (asset in w'.configs ==> Loosens(w.configs[asset], w'.configs[asset])))
    || (asset in w.keys && (asset in w'.keys ==> w'.keys[asset] != w.keys[asset]))
    || (w.requireSig == Some(true) && w'.requireSig != Some(true))
  }

  /** Only executing a queued change can loosen a rule that is already set. */
  lemma LooseningStep(w: World, a: Action, asset: Address)
    requires Looser(w, Step(w, a), asset)
    ensures a.DoExecute? && ExecuteConfig(w, a.id).Done?
  {
    if Apply(w, a).Done? {
      match a
      case DoExecute(_) =>
      case _ =>
    }
  }

  /** The change is about this asset, or about the signature requirement all assets share. */
  predicate Concerns(change: Change, asset: Address) {
    change.RequireSignature? || change.asset == asset
  }

  lemma ExecutionApplies(w: World, id: nat, asset: Address)
    requires ExecuteConfig(w, id).Done? && Looser(w, ExecuteConfig(w, id).value, asset)
    ensures id in w.pending && w.now >= w.pending[id].executesAt
    ensures var change := w.pending[id].change;
            && Concerns(change, asset) && ApplyChange(w, change).Done?
            && ExecuteConfig(w, id).value == ApplyChange(w, change).value.(pending := w.pending - {id})
  {
  }

  /** The executed change is what loosened the rule, and nothing else happened with it. */
  predicate Applies(w: World, w': World, id: nat, change: Change, asset: Address) {
    Concerns(change, asset) && ApplyChange(w, change).Done? && w' == ApplyChange(w, change).value.(pending := w.pending - {id})
  }

  /** Over every run: no configured band, staleness, window, issuer key or signature requirement is
      loosened except by executing, exactly as it was queued, a change about that asset or about the
      signature requirement that was queued at least 48 hours before and not cancelled since. */
  lemma LooseningWaits(ws: seq<World>, acts: seq<Action>, n: nat, asset: Address)
    requires IsRun(ws, acts) && n < |acts| && IsGenesis(ws[0])
    requires Looser(ws[n], ws[n + 1], asset)
    ensures acts[n].DoExecute?
    ensures exists k: nat, change: Change ::
              QueuedAt(ws, acts, k, n, acts[n].id, change) && ws[k].now + TIMELOCK_DELAY_SECONDS <= ws[n].now
              && Applies(ws[n], ws[n + 1], acts[n].id, change, asset)
  {
    LooseningStep(ws[n], acts[n], asset);
    var id := acts[n].id;
    ExecutionApplies(ws[n], id, asset);
    var k := PendingHasOrigin(ws, acts, n, id);
    assert QueuedAt(ws, acts, k, n, id, ws[n].pending[id].change);
    assert Applies(ws[n], ws[n + 1], id, ws[n].pending[id].change, asset);
  }

  lemma UnsetBefore(w: World, a: Action)
    requires Step(w, a).requireSig.None?
    ensures w.requireSig.None?
  {
  }

  /** What can only be if it was before has always been. */
  lemma {:induction false} TraceBack(held: seq<bool>, i: nat, n: nat)
    requires i <= n < |held| && held[n] && forall k | 0 < k < |held| :: held[k] ==> held[k - 1]
    ensures held[i]
    decreases n
  {
    if i < n {
      TraceBack(held, i, n - 1);
    }
  }

  lemma NeverSetBefore(ws: seq<World>, acts: seq<Action>, n: nat)
    requires IsRun(ws, acts) && n <= |acts| && ws[n].requireSig.None?
    ensures forall i | 0 <= i <= n :: ws[i].requireSig.None?
  {
    var unset := seq(|ws|, i requires 0 <= i < |ws| => ws[i].requireSig.None?);
    forall k | 0 < k < |unset|
      ensures unset[k] ==> unset[k - 1]
    {
      if unset[k] {
        UnsetBefore(ws[k - 1], acts[k - 1]);
      }
    }
    forall i | 0 <= i <= n
      ensures ws[i].requireSig.None?
    {
      TraceBack(unset, i, n);
    }
  }

  lemma SwitchOffStep(w: World, a: Action)
    requires w.requireSig.GetOr(true) && !Step(w, a).requireSig.GetOr(true)
    ensures (a == DoConfigureSignature(false) && w.requireSig.None?)
            || (a.DoExecute? && a.id in w.pending && w.pending[a.id].change == RequireSignature(false) && w.now >= w.pending[a.id].executesAt)
  {
  }

  /** Signatures are required by default. Over every run they stop being required only by a change that was
      queued at least 48 hours before, with one exception: the very first setting of the flag, ever, may
      switch them off at once. */
  lemma SwitchingOffWaits(ws: seq<World>, acts: seq<Action>, n: nat)
    requires IsRun(ws, acts) && n < |acts| && IsGenesis(ws[0])
    requires ws[n].requireSig.GetOr(true) && !ws[n + 1].requireSig.GetOr(true)
    ensures (acts[n] == DoConfigureSignature(false) && forall i | 0 <= i <= n :: ws[i].requireSig.None?)
            || (acts[n].DoExecute? && exists k: nat ::
                  QueuedAt(ws, acts, k, n, acts[n].id, RequireSignature(false)) && ws[k].now + TIMELOCK_DELAY_SECONDS <= ws[n].now)
  {
    SwitchOffStep(ws[n], acts[n]);
    if acts[n].DoExecute? {
      var k := PendingHasOrigin(ws, acts, n, acts[n].id);
      assert QueuedAt(ws, acts, k, n, acts[n].id, RequireSignature(false));
    } else {
      NeverSetBefore(ws, acts, n);
    }
  }
}
