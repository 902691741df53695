/** When an asset can come to have more fresh readings than the guard can sort, which makes every publish and
    read of it revert: only by publishing while it is halted, or by loosening its staleness. */
module GuardCapacity {
  import opened Prelude
  import opened Medians
  import opened GuardSpec
  import opened GuardPrices
  import opened GuardRuns

  /** No stored reading is dated beyond the allowed skew. */
  ghost predicate Dated(g: Guard, now: nat) {
    forall n | n in g.sources :: g.sources[n].observedAt <= now + MAX_FUTURE_SKEW_S
  }

  /** A reading that is fresh later, under a staleness no looser, was fresh before. */
  lemma {:induction false} FreshShrinks(names: seq<string>, g: Guard, st: nat, st': nat, now: nat, now': nat)
    requires Dated(g, now) && st' <= st && now <= now'
    ensures |FreshSources(names, g.sources, st', now')| <= |FreshSources(names, g.sources, st, now)|
  {
    if names != [] {
      FreshShrinks(names[..|names| - 1], g, st, st', now, now');
      var name := names[|names| - 1];
      if name in g.sources && IsFresh(g.sources[name], st', now') {
        assert g.sources[name].observedAt <= now + MAX_FUTURE_SKEW_S;
        assert IsFresh(g.sources[name], st, now);
      }
    }
  }

  /** Nothing is stored for an asset before it is configured, its readings are dated, and its fresh ones fit. */
  ghost predicate Fits(w: World, asset: Address) {
    var g := GuardOf(w, asset);
    && Dated(g, w.now)
    && (if asset in w.configs then |FreshOf(g, w.configs[asset], w.now)| <= CAPACITY else g.names == [])
  }

  /** Between two states the asset keeps a configuration, with a staleness no looser. */
  predicate StalenessHeld(w: World, w': World, asset: Address) {
    asset in w.configs ==> asset in w'.configs && w'.configs[asset].maxStaleness <= w.configs[asset].maxStaleness
  }

  /** Steps that leave the readings alone. */
  lemma SameReadingsFit(w: World, w': World, asset: Address)
    requires Fits(w, asset) && StalenessHeld(w, w', asset) && w.now <= w'.now
    requires GuardOf(w', asset).names == GuardOf(w, asset).names && GuardOf(w', asset).sources == GuardOf(w, asset).sources
    ensures Fits(w', asset)
  {
    var g := GuardOf(w, asset);
    if asset in w'.configs {
      if asset in w.configs {
        FreshShrinks(g.names, g, w.configs[asset].maxStaleness, w'.configs[asset].maxStaleness, w.now, w'.now);
      } else {
        assert FreshOf(GuardOf(w', asset), w'.configs[asset], w'.now) == [];
      }
    }
  }

  /** An evaluation that succeeds while not halted has at most eight fresh readings. */
  lemma EvaluatedFits(w: World, w': World, asset: Address, g: Guard)
    requires asset in w.configs && w'.configs == w.configs && w'.now == w.now
    requires !g.halted && Dated(g, w.now) && Evaluate(g, w.configs[asset], w.now).Done?
    requires GuardOf(w', asset) == Evaluate(g, w.configs[asset], w.now).value.1
    ensures Fits(w', asset)
  {
    EvaluateKeepsReadings(g, w.configs[asset], w.now);
  }

  lemma EvaluationStep(w: World, x: Address, g: Guard, asset: Address)
    requires EvaluateAs(w, x, g).Done? && Fits(w, asset)
    requires x == asset ==> !g.halted && Dated(g, w.now)
    ensures Fits(EvaluateAs(w, x, g).value, asset)
  {
    var w' := EvaluateAs(w, x, g).value;
    if x == asset {
      EvaluatedFits(w, w', asset, g);
    } else {
      SameReadingsFit(w, w', asset);
    }
  }

  /** An evaluation of readings that fit, halted or not. */
  lemma RoomyStep(w: World, x: Address, g: Guard, asset: Address)
    requires EvaluateAs(w, x, g).Done? && Fits(w, asset)
    requires x == asset ==> Dated(g, w.now) && (asset in w.configs ==> |FreshOf(g, w.configs[asset], w.now)| <= CAPACITY)
    ensures Fits(EvaluateAs(w, x, g).value, asset)
  {
    var w' := EvaluateAs(w, x, g).value;
    if x == asset {
      EvaluateKeepsReadings(g, w.configs[asset], w.now);
    } else {
      SameReadingsFit(w, w', asset);
    }
  }

  /** The step stores a reading for the asset. */
  predicate Publishes(a: Action, asset: Address) {
    (a.DoPublishNav? || a.DoPublishSource?) && a.asset == asset
  }

  lemma {:induction false} FewerSources(names: seq<string>, sources: map<string, Source>, name: string, st: nat, now: nat)
    ensures |FreshSources(names, sources - {name}, st, now)| <= |FreshSources(names, sources, st, now)|
  {
    if names != [] {
      FewerSources(names[..|names| - 1], sources, name, st, now);
    }
  }

  lemma {:induction false} FewerNames(names: seq<string>, sources: map<string, Source>, name: string, st: nat, now: nat)
    ensures |FreshValues(Without(names, name), sources, st, now)| <= |FreshValues(names, sources, st, now)|
  {
    if names != [] {
      FewerNames(names[1..], sources, name, st, now);
      assert names == [names[0]] + names[1..];
      FreshConcat([names[0]], names[1..], sources, st, now);
      FreshConcat([names[0]], Without(names[1..], name), sources, st, now);
    }
  }

  /** Removing a source makes no reading fresh. */
  lemma RemovalFits(w: World, asset: Address, g: Guard, name: string)
    requires Fits(w, asset) && asset in w.configs && g == GuardOf(w, asset)
    ensures var h := g.(names := Without(g.names, name), sources := g.sources - {name});
            Dated(h, w.now) && |FreshOf(h, w.configs[asset], w.now)| <= CAPACITY
  {
    var st := w.configs[asset].maxStaleness;
    FewerSources(g.names, g.sources, name, st, w.now);
    FewerNames(g.names, g.sources - {name}, name, st, w.now);
  }

  lemma RecordDated(g: Guard, name: string, value: int, at: nat, now: nat)
    requires Dated(g, now) && at <= now + MAX_FUTURE_SKEW_S
    ensures Dated(Record(g, name, value, at), now)
  {
  }

  lemma RecordFits(w: World, x: Address, name: string, value: int, at: nat, asset: Address)
    requires Fits(w, asset) && at <= w.now + MAX_FUTURE_SKEW_S && (x == asset ==> !GuardOf(w, asset).halted)
    requires EvaluateAs(w, x, Record(GuardOf(w, x), name, value, at)).Done?
    ensures Fits(EvaluateAs(w, x, Record(GuardOf(w, x), name, value, at)).value, asset)
  {
    var h := Record(GuardOf(w, x), name, value, at);
    if x == asset {
      RecordDated(GuardOf(w, x), name, value, at, w.now);
    }
    EvaluationStep(w, x, h, asset);
  }

  lemma SourceFits(w: World, x: Address, name: string, value: int, at: nat, asset: Address)
    requires Fits(w, asset) && PublishSource(w, x, name, value, at).Done? && (x == asset ==> !GuardOf(w, asset).halted)
    ensures Fits(PublishSource(w, x, name, value, at).value, asset)
  {
    RecordFits(w, x, name, value, at, asset);
  }

  lemma NavFits(w: World, x: Address, code: string, value: int, at: nat, sig: Signature, asset: Address)
    requires Fits(w, asset) && PublishNav(w, x, code, value, at, sig).Done? && (x == asset ==> !GuardOf(w, asset).halted)
    ensures Fits(PublishNav(w, x, code, value, at, sig).value, asset)
  {
    RecordFits(w, x, ISSUER_SOURCE, value, at, asset);
  }

  lemma FitsStep(w: World, a: Action, asset: Address)
    requires Fits(w, asset) && StalenessHeld(w, Step(w, a), asset)
    requires !(GuardOf(w, asset).halted && Publishes(a, asset))
    ensures Fits(Step(w, a), asset)
  {
    if Apply(w, a).Done? {
      match a
      case DoPublishNav(x, code, value, at, sig) => NavFits(w, x, code, value, at, sig, asset);
      case DoPublishSource(x, name, value, at) => SourceFits(w, x, name, value, at, asset);
      case DoRemoveSource(x, name) => RemovalStep(w, x, name, asset);
      case DoReadPrice(x) => ReadFits(w, x, asset);
      case _ => OtherStepFits(w, a, asset);
    }
  }

  lemma ReadFits(w: World, x: Address, asset: Address)
    requires Fits(w, asset) && ReadPrice(w, x).Done?
    ensures Fits(ReadPrice(w, x).value, asset)
  {
    RoomyStep(w, x, GuardOf(w, x), asset);
  }

  lemma RemovalStep(w: World, x: Address, name: string, asset: Address)
    requires Fits(w, asset) && RemoveSource(w, x, name).Done?
    ensures Fits(RemoveSource(w, x, name).value, asset)
  {
    var g := GuardOf(w, x);
    if x == asset {
      RemovalFits(w, asset, g, name);
    }
    RoomyStep(w, x, g.(names := Without(g.names, name), sources := g.sources - {name}), asset);
  }

  lemma OtherStepFits(w: World, a: Action, asset: Address)
    requires Fits(w, asset) && StalenessHeld(w, Step(w, a), asset) && Apply(w, a).Done?
    requires !a.DoPublishNav? && !a.DoPublishSource? && !a.DoRemoveSource? && !a.DoReadPrice?
    ensures Fits(Step(w, a), asset)
  {
    TimeForward(w, a);
    SameReadingsFit(w, Step(w, a), asset);
  }

  /** Nothing has been published for the asset while it was halted, nor its staleness loosened, up to step `n`. */
  ghost predicate Undisturbed(ws: seq<World>, acts: seq<Action>, n: nat, asset: Address)
    requires |ws| == |acts| + 1 && n <= |acts|
  {
    forall i | 0 <= i < n :: !(GuardOf(ws[i], asset).halted && Publishes(acts[i], asset)) && StalenessHeld(ws[i], ws[i + 1], asset)
  }

  lemma {:induction false} AlwaysFits(ws: seq<World>, acts: seq<Action>, n: nat, asset: Address)
    requires IsRun(ws, acts) && n <= |acts| && IsGenesis(ws[0]) && Undisturbed(ws, acts, n, asset)
    ensures Fits(ws[n], asset)
  {
    if n > 0 {
      AlwaysFits(ws, acts, n - 1, asset);
      assert ws[n - 1 + 1] == Step(ws[n - 1], acts[n - 1]) && StalenessHeld(ws[n - 1], ws[n - 1 + 1], asset);
      FitsStep(ws[n - 1], acts[n - 1], asset);
    }
  }

  /** While nothing was ever published for an asset during a halt and its staleness was never loosened, at most
      eight of its readings are fresh, so reading its price never reverts. A publish reverts for want of room
      exactly when the asset is not halted and the reading would be the ninth. */
  lemma NeverMoreThanEight(ws: seq<World>, acts: seq<Action>, n: nat, asset: Address, name: string, value: int, at: nat)
    requires IsRun(ws, acts) && n <= |acts| && IsGenesis(ws[0]) && Undisturbed(ws, acts, n, asset) && asset in ws[n].configs
    ensures |FreshOf(GuardOf(ws[n], asset), ws[n].configs[asset], ws[n].now)| <= CAPACITY
    ensures ReadPrice(ws[n], asset).Done?
    ensures value > 0 && at <= ws[n].now + MAX_FUTURE_SKEW_S ==>
              (PublishSource(ws[n], asset, name, value, at).Revert? <==>
               !GuardOf(ws[n], asset).halted
               && |FreshOf(Record(GuardOf(ws[n], asset), name, value, at), ws[n].configs[asset], ws[n].now)| == CAPACITY + 1)
  {
    AlwaysFits(ws, acts, n, asset);
    var c, now, g := ws[n].configs[asset], ws[n].now, GuardOf(ws[n], asset);
    EvaluateRevertsExactly(g, c, now);
    EvaluateRevertsExactly(Record(g, name, value, at), c, now);
    AlwaysSound(ws, acts, n);
    RecordAddsOne(g, name, value, at, c, now);
  }

  lemma {:induction false} ReplacingAddsOne(names: seq<string>, sources: map<string, Source>, name: string, s: Source, st: nat, now: nat)
    requires forall i, j | 0 <= i < j < |names| :: names[i] != names[j]
    ensures |FreshSources(names, sources[name := s], st, now)|
            <= |FreshSources(names, sources, st, now)| + if name in names then 1 else 0
  {
    if names != [] {
      var last, rest := names[|names| - 1], names[..|names| - 1];
      ReplacingAddsOne(rest, sources, name, s, st, now);
      assert last !in rest;
      assert name in names <==> name in rest || name == last;
    }
  }

  /** Filing one reading adds at most one fresh one. */
  lemma RecordAddsOne(g: Guard, name: string, value: int, at: nat, c: Config, now: nat)
    requires forall i, j | 0 <= i < j < |g.names| :: g.names[i] != g.names[j]
    ensures |FreshOf(Record(g, name, value, at), c, now)| <= |FreshOf(g, c, now)| + 1
  {
    var sources := g.sources[name := Source(name, value, at, false)];
    ReplacingAddsOne(g.names, g.sources, name, Source(name, value, at, false), c.maxStaleness, now);
    if name !in g.names {
      assert (g.names + [name])[..|g.names|] == g.names;
    }
  }
}
