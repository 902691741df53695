/** Two runs of the price guard in which an asset comes to have more fresh readings than can be sorted: by
    publishing while it is halted, and by loosening its staleness. */
module GuardNine {
  import opened Prelude
  import opened Medians
  import opened GuardSpec
  import opened GuardPrices
  import opened GuardOrder
  import opened GuardWitness

  const WIDE: Config := Config(1_000_000, 100, 3_600, 86_400, 1_000_000)

  /** A name of its own for every `k`. */
  function Name(k: nat): string {
    seq(k, _ => 'x')
  }

  function Listed(k: nat): seq<string> {
    seq(k, i requires 0 <= i < k => Name(i + 1))
  }

  /** Halted, with `k` sources published at time zero. */
  ghost predicate HaltedWith(w: World, k: nat) {
    var g := GuardOf(w, ASSET);
    && w.configs == map[ASSET := WIDE] && w.now == 0 && g.halted && g.pendingHalt.Some?
    && g.names == Listed(k)
    && forall n | n in g.names :: n in g.sources && IsFresh(g.sources[n], WIDE.maxStaleness, 0)
  }

  lemma NamesDiffer(k: nat)
    ensures Name(k + 1) !in Listed(k) && Listed(k) + [Name(k + 1)] == Listed(k + 1)
  {
    forall i | 0 <= i < k
      ensures Listed(k)[i] != Name(k + 1)
    {
      assert |Name(i + 1)| == i + 1 && |Name(k + 1)| == k + 1;
    }
  }

  lemma HaltedPublish(w: World, k: nat)
    requires HaltedWith(w, k)
    ensures HaltedWith(Step(w, PublishOf(At(Name(k + 1), 100))), k + 1)
  {
    NamesDiffer(k);
    var g := GuardOf(w, ASSET);
    var h := Record(g, Name(k + 1), 100, 0);
    HaltedStaysPut(g, WIDE, 0, h.names, h.sources);
  }

  lemma {:induction false} PublishesMore(ws: seq<World>, acts: seq<Action>, k: nat, more: nat) returns (ws': seq<World>, acts': seq<Action>)
    requires RunFromGenesis(ws, acts) && HaltedWith(ws[|acts|], k)
    ensures RunFromGenesis(ws', acts') && HaltedWith(ws'[|acts'|], k + more)
    decreases more
  {
    if more == 0 {
      ws', acts' := ws, acts;
    } else {
      HaltedPublish(ws[|acts|], k);
      ws', acts' := Extends(ws, acts, PublishOf(At(Name(k + 1), 100)));
      ws', acts' := PublishesMore(ws', acts', k + 1, more - 1);
    }
  }

  lemma {:induction false} CountsFresh(names: seq<string>, sources: map<string, Source>, st: nat, now: nat)
    requires forall n | n in names :: n in sources && IsFresh(sources[n], st, now)
    ensures |FreshSources(names, sources, st, now)| == |names|
  {
    if names != [] {
      CountsFresh(names[..|names| - 1], sources, st, now);
      assert names[|names| - 1] in names;
    }
  }

  /** Confirming an asset halted with more than eight fresh readings leaves it unreadable. */
  lemma ConfirmedUnreadable(w: World, k: nat)
    requires HaltedWith(w, k) && k > CAPACITY
    ensures var w' := Step(w, DoConfirm(ASSET));
            && ASSET in w'.configs && !GuardOf(w', ASSET).halted
            && |FreshOf(GuardOf(w', ASSET), w'.configs[ASSET], w'.now)| == k
            && ReadPrice(w', ASSET).Revert?
  {
    var g := GuardOf(w, ASSET);
    CountsFresh(g.names, g.sources, WIDE.maxStaleness, 0);
    var w' := Step(w, DoConfirm(ASSET));
    assert GuardOf(w', ASSET) == ConfirmGuard(g, 0);
    EvaluateRevertsExactly(GuardOf(w', ASSET), WIDE, 0);
  }

  lemma Spread(low: int, high: int)
    requires low == 100 && 100 <= high <= 500
    ensures WithinBand([low, high], WIDE.bandBps)
  {
    assert [low, high][1..] == [high];
  }

  /** A first price, and then a jump of one of its two sources: each is within the band, but the median moves
      much too far. */
  predicate Jumps(r: Reading, s: Reading, t: Reading) {
    && r.at == s.at == t.at == 0 && r.name != s.name && t.name == r.name
    && r.value == 100 && s.value == 100 && t.value == 500
  }

  lemma JumpMedian(high: int, low: int)
    requires high == 500 && low == 100
    ensures SortUp([high, low]) == [low, high] && WithinBand([low, high], WIDE.bandBps) && Median([high, low]) == 300
  {
    SortsTwo(high, low);
    Spread(low, high);
  }

  lemma JumpHalts(r: Reading, s: Reading, t: Reading)
    requires Jumps(r, s, t)
    ensures PublishLink(AfterTwo(r, s, 100), WIDE, t, 0, Halt(Recorded(AfterTwo(r, s, 100), t), 300))
  {
    var h := Recorded(AfterTwo(r, s, 100), t);
    assert Holding(h, [r.name, s.name], [t.value, s.value]);
    JumpMedian(t.value, s.value);
    assert MoveBps(100, 300) == 20_000;
    MoveHalts(h, WIDE, [r.name, s.name], [t.value, s.value]);
  }

  lemma Settles(r: Reading, s: Reading, t: Reading)
    requires Jumps(r, s, t)
    ensures PublishLink(Recorded(NEW_GUARD, r), WIDE, s, 0, AfterTwo(r, s, 100))
  {
    SortsTwo(r.value, s.value);
    Spread(r.value, s.value);
    TwoPrices(r, s, WIDE, [r.value, s.value]);
  }

  lemma Halts(r: Reading, s: Reading, t: Reading) returns (ws: seq<World>, acts: seq<Action>)
    requires Jumps(r, s, t)
    ensures Published(ws, acts, WIDE, [r, s, t], Halt(Recorded(AfterTwo(r, s, 100), t), 300))
  {
    OnePrice(r, WIDE);
    Settles(r, s, t);
    JumpHalts(r, s, t);
    ws, acts := PublishesThree(WIDE, r, s, t, Recorded(NEW_GUARD, r), AfterTwo(r, s, 100), Halt(Recorded(AfterTwo(r, s, 100), t), 300));
  }

  lemma HaltedAfterThree(w: World, first: Reading, second: Reading, jump: Reading)
    requires first == At(Name(1), 100) && second == At(Name(2), 100) && jump == At(Name(1), 500)
    requires w.configs == map[ASSET := WIDE] && w.now == 0
    requires GuardOf(w, ASSET) == Halt(Recorded(AfterTwo(first, second, 100), jump), 300)
    ensures HaltedWith(w, 2)
  {
    assert |Name(1)| == 1 && |Name(2)| == 2;
    assert Listed(2) == [Name(1), Name(2)];
  }

  /** A run from genesis in which nine fresh readings come together: seven are published while the asset is
      halted, and once the halt is confirmed every read of its price reverts. */
  lemma NineFreshReadings() returns (ws: seq<World>, acts: seq<Action>)
    ensures RunFromGenesis(ws, acts)
    ensures var w := ws[|acts|];
            && ASSET in w.configs && !GuardOf(w, ASSET).halted
            && |FreshOf(GuardOf(w, ASSET), w.configs[ASSET], w.now)| == 9
            && ReadPrice(w, ASSET).Revert?
  {
    var first, second, jump := At(Name(1), 100), At(Name(2), 100), At(Name(1), 500);
    assert |Name(1)| == 1 && |Name(2)| == 2;
    ws, acts := Halts(first, second, jump);
    HaltedAfterThree(ws[|acts|], first, second, jump);
    ws, acts := PublishesMore(ws, acts, 2, 7);
    ConfirmedUnreadable(ws[|acts|], 9);
    ws, acts := Extends(ws, acts, DoConfirm(ASSET));
  }

  // ----- by loosening the staleness

  const STRICT: Config := Config(300, 300, 0, 86_400, 300)

  /** `k` sources published, all of them stale on arrival, and nothing else done. */
  ghost predicate Piled(w: World, k: nat) {
    var g := GuardOf(w, ASSET);
    && w.configs == map[ASSET := STRICT] && w.now == 1 && w.pending == map[] && w.nextId == 0
    && !g.halted && g.names == Listed(k)
    && forall n | n in g.names :: n in g.sources && g.sources[n].observedAt == 0 && !g.sources[n].stale
  }

  lemma {:induction false} NoneFresh(names: seq<string>, sources: map<string, Source>)
    requires forall n | n in names :: n in sources && sources[n].observedAt == 0
    ensures FreshSources(names, sources, 0, 1) == []
  {
    if names != [] {
      NoneFresh(names[..|names| - 1], sources);
      assert names[|names| - 1] in names;
    }
  }

  lemma StaleStays(g: Guard)
    requires !g.halted && forall n | n in g.names :: n in g.sources && g.sources[n].observedAt == 0
    ensures Evaluate(g, STRICT, 1).Done? && Evaluate(g, STRICT, 1).value.1 == g
  {
    NoneFresh(g.names, g.sources);
  }

  /** One more stale reading on the pile. */
  lemma RecordPiles(g: Guard, k: nat)
    requires !g.halted && g.names == Listed(k)
    requires forall n | n in g.names :: n in g.sources && g.sources[n].observedAt == 0 && !g.sources[n].stale
    ensures var h := Recorded(g, At(Name(k + 1), 100));
            && h.names == Listed(k + 1) && !h.halted
            && forall n | n in h.names :: n in h.sources && h.sources[n].observedAt == 0 && !h.sources[n].stale
  {
    NamesDiffer(k);
    var h := Recorded(g, At(Name(k + 1), 100));
    forall n | n in h.names
      ensures n in h.sources && h.sources[n].observedAt == 0 && !h.sources[n].stale
    {
      assert n in g.names || n == Name(k + 1);
    }
  }

  lemma PilesOne(w: World, k: nat)
    requires Piled(w, k)
    ensures Piled(Step(w, PublishOf(At(Name(k + 1), 100))), k + 1)
  {
    var g, r := GuardOf(w, ASSET), At(Name(k + 1), 100);
    RecordPiles(g, k);
    StaleStays(Recorded(g, r));
    StoresAsRecorded(w, r);
  }

  lemma StoresAsRecorded(w: World, r: Reading)
    requires w.configs == map[ASSET := STRICT] && w.now == 1 && r.value > 0 && r.at == 0
    requires Evaluate(Recorded(GuardOf(w, ASSET), r), STRICT, 1).Done?
    requires Evaluate(Recorded(GuardOf(w, ASSET), r), STRICT, 1).value.1 == Recorded(GuardOf(w, ASSET), r)
    ensures Step(w, PublishOf(r)) == WithGuard(w, ASSET, Recorded(GuardOf(w, ASSET), r))
  {
  }

  lemma {:induction false} PilesUp(k: nat) returns (ws: seq<World>, acts: seq<Action>)
    ensures RunFromGenesis(ws, acts) && Piled(ws[|acts|], k)
  {
    if k == 0 {
      ws, acts := Configures(STRICT);
      ws, acts := Extends(ws, acts, Elapse(1));
    } else {
      ws, acts := PilesUp(k - 1);
      PilesOne(ws[|acts|], k - 1);
      ws, acts := Extends(ws, acts, PublishOf(At(Name(k), 100)));
    }
  }

  /** The staleness is loosened the only way it can be, by a change that waits its 48 hours. */
  lemma LoosenedUnreadable(w: World, k: nat) returns (w1: World, w2: World, w3: World)
    requires Piled(w, k) && k > CAPACITY
    ensures w1 == Step(w, DoQueue(MaxStaleness(ASSET, 1_000_000)))
    ensures w2 == Step(w1, Elapse(TIMELOCK_DELAY_SECONDS)) && w3 == Step(w2, DoExecute(0))
    ensures ASSET in w3.configs && !GuardOf(w3, ASSET).halted
    ensures |FreshOf(GuardOf(w3, ASSET), w3.configs[ASSET], w3.now)| == k && ReadPrice(w3, ASSET).Revert?
  {
    w1 := Step(w, DoQueue(MaxStaleness(ASSET, 1_000_000)));
    w2 := Step(w1, Elapse(TIMELOCK_DELAY_SECONDS));
    w3 := Step(w2, DoExecute(0));
    assert w3.configs == map[ASSET := STRICT.(maxStaleness := 1_000_000)];
    var g := GuardOf(w3, ASSET);
    CountsFresh(g.names, g.sources, 1_000_000, w3.now);
    EvaluateRevertsExactly(g, w3.configs[ASSET], w3.now);
  }

  /** A run from genesis in which the asset is never halted and nine readings, published while stale, become
      fresh together when its staleness is loosened: from then on every read of its price reverts. */
  lemma NineAfterLoosening() returns (ws: seq<World>, acts: seq<Action>)
    ensures RunFromGenesis(ws, acts)
    ensures var w := ws[|acts|];
            && ASSET in w.configs && !GuardOf(w, ASSET).halted
            && |FreshOf(GuardOf(w, ASSET), w.configs[ASSET], w.now)| == 9
            && ReadPrice(w, ASSET).Revert?
  {
    ws, acts := PilesUp(9);
    var w1, w2, w3 := LoosenedUnreadable(ws[|acts|], 9);
    ws, acts := Extends(ws, acts, DoQueue(MaxStaleness(ASSET, 1_000_000)));
    ws, acts := Extends(ws, acts, Elapse(TIMELOCK_DELAY_SECONDS));
    ws, acts := Extends(ws, acts, DoExecute(0));
  }
}
