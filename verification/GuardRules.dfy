/** The rules of the price guard, entry point by entry point, in plain arithmetic: which readings count, what an
    evaluation answers and stores, and what each change sets. */
module GuardRules {
  import opened Prelude
  import opened Risk
  import opened Medians
  import opened GuardSpec
  import opened GuardPrices
  import opened Decimals

  // ----- agreement and median

  /** The readings lie between `low` and `high`, which are at most the band apart, measured from the lowest. */
  predicate Agree(values: seq<int>, low: int, high: int, bandBps: nat) {
    && low in values && high in values && (forall v | v in values :: low <= v <= high)
    && low > 0 && (high - low) * 10_000 < (bandBps + 1) * low
  }

  lemma AgreeExactly(values: seq<int>, bandBps: nat) returns (low: int, high: int)
    requires |values| >= 2
    ensures low in values && high in values && forall v | v in values :: low <= v <= high
    ensures WithinBand(SortUp(values), bandBps) <==> Agree(values, low, high, bandBps)
  {
    var s := SortUp(values);
    SortUpSorts(values);
    SameElements(s, values);
    LeastGreatest(s);
    low, high := Least(s), Greatest(s);
    assert low in values && high in values;
    if low > 0 {
      QuotAtLeast((high - low) * BPS, low, bandBps + 1);
    }
  }

  /** The middle reading, or the mean of the two middle ones rounded down. */
  ghost predicate IsMedian(m: int, values: seq<int>) {
    exists s :: IsSorted(s, values) && MiddleOf(m, s)
  }

  ghost predicate IsSorted(s: seq<int>, values: seq<int>) {
    (forall i, j | 0 <= i < j < |s| :: s[i] <= s[j]) && multiset(s) == multiset(values)
  }

  predicate MiddleOf(m: int, s: seq<int>) {
    && s != []
    && if |s| % 2 == 1 then m == s[|s| / 2] else 2 * m <= s[|s| / 2 - 1] + s[|s| / 2] <= 2 * m + 1
  }

  lemma MedianExactly(values: seq<int>)
    requires values != [] && forall v | v in values :: v > 0
    ensures IsMedian(Median(values), values)
  {
    var s := SortUp(values);
    SortUpSorts(values);
    SameElements(s, values);
    assert s[|s| / 2] in s && (|s| >= 2 ==> s[|s| / 2 - 1] in s);
    assert IsSorted(s, values) && MiddleOf(Median(values), s);
  }

  /** There is only one. */
  lemma MedianOnce(values: seq<int>, m: int, m': int)
    requires IsMedian(m, values) && IsMedian(m', values)
    ensures m == m'
  {
    var s :| IsSorted(s, values) && MiddleOf(m, s);
    var s' :| IsSorted(s', values) && MiddleOf(m', s');
    AscendingUnique(s, s');
  }

  // ----- what an evaluation answers

  /** More than `bps` basis points away from a baseline, if there is one. */
  predicate FarFrom(base: Option<int>, m: int, bps: nat) {
    base.Some? && (if m < base.value then base.value - m else m - base.value) * 10_000 >= (bps + 1) * base.value
  }

  /** The window of the stored reference is over. */
  predicate WindowOver(g: Guard, c: Config, now: nat) {
    g.referenceAt.None? || c.window == 0 || now >= g.referenceAt.value + c.window
  }

  /** What agreeing readings with median `m` lead to. */
  predicate Judged(g: Guard, c: Config, now: nat, m: int, quote: Quote, h: Guard) {
    if FarFrom(g.lastGood, m, c.dailyBps) || FarFrom(g.reference, m, c.windowBps)
    then quote == Quote(g.lastGood.GetOr(0), Halted) && h == g.(halted := true, pendingHalt := Some(m))
    else
      && quote == Quote(m, Ok)
      && h == if WindowOver(g, c, now) then g.(lastGood := Some(m), reference := Some(m), referenceAt := Some(now))
              else g.(lastGood := Some(m))
  }

  lemma FarExactly(base: Option<int>, m: int, bps: nat)
    requires base.Some? ==> base.value > 0
    ensures MovedTooFar(base, m, bps) <==> FarFrom(base, m, bps)
  {
    if base.Some? {
      QuotAtLeast(Abs(m - base.value) * BPS, base.value, bps + 1);
    }
  }

  lemma TrackExactly(g: Guard, c: Config, m: int, now: nat)
    requires Sound(g) && !g.halted
    ensures Judged(g, c, now, m, Track(g, c, m, now).0, Track(g, c, m, now).1)
  {
    FarExactly(g.lastGood, m, c.dailyBps);
    FarExactly(g.reference, m, c.windowBps);
  }

  /** An evaluation of a guard in a reachable state: the readings used are exactly the usable ones; a halted asset
      answers its last good value and changes nothing; fewer than two usable readings, or readings that disagree,
      degrade it; and agreeing ones are judged by their median. Nothing else ever refuses an answer than more
      readings than can be sorted. */
  lemma EvaluateRule(g: Guard, c: Config, now: nat) returns (low: int, high: int, m: int)
    requires Sound(g)
    ensures var usable := UsableNames(g.names, g.sources, c.maxStaleness, now);
            && (Evaluate(g, c, now).Revert? <==> !g.halted && |usable| > 8)
            && (Evaluate(g, c, now).Done? ==>
                  var (p, h) := Evaluate(g, c, now).value;
                  && p.at == now && |p.sources| == |usable|
                  && (forall n | n in usable :: g.sources[n] in p.sources)
                  && (forall s | s in p.sources :: exists n | n in usable :: g.sources[n] == s)
                  && (if g.halted then p.quote == Quote(g.lastGood.GetOr(0), Halted) && h == g
                      else if |usable| < 2 || !Agree(Values(p.sources), low, high, c.bandBps)
                      then p.quote == Quote(g.lastGood.GetOr(0), Degraded) && h == g
                      else IsMedian(m, Values(p.sources)) && Judged(g, c, now, m, p.quote, h)))
    ensures Evaluate(g, c, now).Done? && |Evaluate(g, c, now).value.0.sources| >= 2 ==>
              var values := Values(Evaluate(g, c, now).value.0.sources);
              low in values && high in values && forall v | v in values :: low <= v <= high
  {
    CountedExactly(g.names, g.sources, c.maxStaleness, now);
    var values := Values(FreshOf(g, c, now));
    low, high, m := 0, 0, 0;
    if |values| >= 2 {
      low, high := AgreeExactly(values, c.bandBps);
      FreshPositive(g, c, now);
      MedianExactly(values);
      m := Median(values);
      if !g.halted {
        TrackExactly(g, c, m, now);
      }
    }
  }

  // ----- publishing and removing

  /** The guard with one reading filed under its name. */
  ghost predicate Files(g: Guard, h: Guard, name: string, value: int, at: nat) {
    && h == g.(names := h.names, sources := h.sources)
    && h.names == (if name in g.names then g.names else g.names + [name])
    && h.sources.Keys == g.sources.Keys + {name} && h.sources[name] == Source(name, value, at, false)
    && forall n | n in g.sources && n != name :: h.sources[n] == g.sources[n]
  }

  /** The asset is evaluated as `g`, and nothing but its guard changes. */
  predicate StoresEvaluated(w: World, w': World, asset: Address, g: Guard) {
    && asset in w.configs && Evaluate(g, w.configs[asset], w.now).Done?
    && w' == w.(guards := w.guards[asset := Evaluate(g, w.configs[asset], w.now).value.1])
  }

  /** A reading is taken exactly for a configured asset, a positive value and a date at most a minute ahead,
      unless there is no room to evaluate it. */
  lemma PublishRule(w: World, asset: Address, name: string, value: int, at: nat) returns (g: Guard)
    ensures Files(GuardOf(w, asset), g, name, value, at)
    ensures PublishSource(w, asset, name, value, at).Done? <==>
            asset in w.configs && value >= 1 && at <= w.now + 60 && Evaluate(g, w.configs[asset], w.now).Done?
    ensures PublishSource(w, asset, name, value, at).Done? ==>
              StoresEvaluated(w, PublishSource(w, asset, name, value, at).value, asset, g)
  {
    g := Record(GuardOf(w, asset), name, value, at);
  }

  /** An issuer's reading is filed under the issuer's own name, and needs a signature under the asset's key for
      the message of code, time and value, unless signatures were switched off. */
  lemma NavRule(w: World, asset: Address, code: string, value: int, at: nat, sig: Signature) returns (g: Guard)
    ensures Files(GuardOf(w, asset), g, "issuer", value, at)
    ensures PublishNav(w, asset, code, value, at, sig).Done? <==>
            && asset in w.configs && value >= 1 && at <= w.now + 60 && Evaluate(g, w.configs[asset], w.now).Done?
            && (w.requireSig != Some(false) ==>
                  asset in w.keys && (w.keys[asset], code + ":" + Dec(at) + ":" + SignedDec(value)) in sig.valid)
    ensures PublishNav(w, asset, code, value, at, sig).Done? ==>
              StoresEvaluated(w, PublishNav(w, asset, code, value, at, sig).value, asset, g)
  {
    g := Record(GuardOf(w, asset), "issuer", value, at);
  }

  /** Removing a source takes its reading and the first mention of its name. */
  lemma RemoveRule(w: World, asset: Address, name: string) returns (g: Guard)
    ensures var before := GuardOf(w, asset);
            && g == before.(names := g.names, sources := g.sources)
            && Drops(before.names, g.names, name)
            && g.sources.Keys == before.sources.Keys - {name} && forall n | n in g.sources :: g.sources[n] == before.sources[n]
    ensures RemoveSource(w, asset, name).Done? <==> asset in w.configs && Evaluate(g, w.configs[asset], w.now).Done?
    ensures RemoveSource(w, asset, name).Done? ==> StoresEvaluated(w, RemoveSource(w, asset, name).value, asset, g)
    ensures ReadPrice(w, asset).Done? <==> asset in w.configs && Evaluate(GuardOf(w, asset), w.configs[asset], w.now).Done?
    ensures ReadPrice(w, asset).Done? ==> StoresEvaluated(w, ReadPrice(w, asset).value, asset, GuardOf(w, asset))
  {
    var before := GuardOf(w, asset);
    g := before.(names := Without(before.names, name), sources := before.sources - {name});
    DropsFirst(before.names, name);
  }

  /** `after` is `before` less its first mention of `name`. */
  ghost predicate Drops(before: seq<string>, after: seq<string>, name: string) {
    if name !in before then after == before
    else exists i :: DropsAt(before, after, name, i)
  }

  predicate DropsAt(before: seq<string>, after: seq<string>, name: string, i: int) {
    0 <= i < |before| && before[i] == name && name !in before[..i] && after == before[..i] + before[i + 1..]
  }

  lemma {:induction false} DropsFirst(names: seq<string>, name: string)
    ensures Drops(names, Without(names, name), name)
  {
    if names == [] {
    } else if names[0] == name {
      assert names[..0] == [] && DropsAt(names, Without(names, name), name, 0);
    } else {
      DropsFirst(names[1..], name);
      assert names == [names[0]] + names[1..];
      if name in names[1..] {
        var i :| DropsAt(names[1..], Without(names[1..], name), name, i);
        assert names[..i + 1] == [names[0]] + names[1..][..i] && names[i + 2..] == names[1..][i + 1..];
        assert DropsAt(names, Without(names, name), name, i + 1);
      } else {
        assert Without(names, name) == names;
      }
    }
  }

  /** A confirmation ends a halt and makes the pending value both baselines, as of now. */
  lemma ConfirmRule(w: World, asset: Address)
    ensures ConfirmHaltCleared(w, asset).Done?
    ensures var g := GuardOf(w, asset);
            ConfirmHaltCleared(w, asset).value == w.(guards := w.guards[asset :=
              if g.pendingHalt.None? then g.(halted := false)
              else g.(halted := false, pendingHalt := None, lastGood := g.pendingHalt, reference := g.pendingHalt, referenceAt := Some(w.now))])
  {
  }

  // ----- rules and who may loosen them

  /** Configuring is refused exactly when one of the five rules of a configured asset would get looser. */
  lemma ConfigureRule(w: World, asset: Address, c: Config)
    ensures ConfigureAsset(w, asset, c).Done? <==>
            (asset in w.configs ==>
               && c.bandBps <= w.configs[asset].bandBps && c.dailyBps <= w.configs[asset].dailyBps
               && c.windowBps <= w.configs[asset].windowBps && c.maxStaleness <= w.configs[asset].maxStaleness
               && c.window >= w.configs[asset].window)
    ensures ConfigureAsset(w, asset, c).Done? ==> ConfigureAsset(w, asset, c).value == w.(configs := w.configs[asset := c])
  {
  }

  /** A key is set once, and the signature flag is not switched off once it was switched on. */
  lemma KeyRule(w: World, asset: Address, key: string, required: bool)
    ensures ConfigureKey(w, asset, key).Done? <==> asset !in w.keys || w.keys[asset] == key
    ensures ConfigureKey(w, asset, key).Done? ==> ConfigureKey(w, asset, key).value == w.(keys := w.keys[asset := key])
    ensures ConfigureSignature(w, required).Done? <==> required || w.requireSig != Some(true)
    ensures ConfigureSignature(w, required).Done? ==> ConfigureSignature(w, required).value == w.(requireSig := Some(required))
  {
  }

  /** A change waits 172,800 seconds under the next id, and can be dropped while it does. */
  lemma QueueRule(w: World, change: Change, id: nat)
    ensures QueueConfig(w, change) == Done(w.(nextId := w.nextId + 1,
              pending := w.pending[w.nextId := PendingChange(change, w.now + 172_800)]))
    ensures CancelConfig(w, id).Done? <==> id in w.pending
    ensures CancelConfig(w, id).Done? ==> CancelConfig(w, id).value == w.(pending := w.pending - {id})
  {
  }

  /** The asset a change is about, if it is about one. */
  function Target(change: Change): Option<Address> {
    if change.RequireSignature? then None else Some(change.asset)
  }

  /** What the change leaves of an asset's configuration, field by field. */
  predicate Sets(change: Change, c: Config, c': Config) {
    && c'.bandBps == (if change.BandBps? then change.bps else if change.WholeAsset? then change.config.bandBps else c.bandBps)
    && c'.dailyBps == (if change.DailyBps? then change.bps else if change.WholeAsset? then change.config.dailyBps else c.dailyBps)
    && c'.maxStaleness == (if change.MaxStaleness? then change.seconds else if change.WholeAsset? then change.config.maxStaleness else c.maxStaleness)
    && c'.window == (if change.WindowSeconds? then change.seconds else if change.WholeAsset? then change.config.window else c.window)
    && c'.windowBps == (if change.WindowBps? then change.bps else if change.WholeAsset? then change.config.windowBps else c.windowBps)
  }

  predicate TouchesConfig(change: Change) {
    !change.IssuerKey? && !change.RequireSignature?
  }

  /** A queued change is executed exactly when its date has come and its asset is still there to change; it sets
      its own field and no other, and is used up. */
  lemma ExecuteRule(w: World, id: nat)
    ensures ExecuteConfig(w, id).Done? <==>
            && id in w.pending && w.now >= w.pending[id].executesAt
            && var change := w.pending[id].change;
               (TouchesConfig(change) && !change.WholeAsset? ==> change.asset in w.configs)
    ensures ExecuteConfig(w, id).Done? ==>
              var w', change := ExecuteConfig(w, id).value, w.pending[id].change;
              && w' == w.(pending := w.pending - {id}, configs := w'.configs, keys := w'.keys, requireSig := w'.requireSig)
              && w'.requireSig == (if change.RequireSignature? then Some(change.required) else w.requireSig)
              && w'.keys == (if change.IssuerKey? then w.keys[change.asset := change.key] else w.keys)
              && (!TouchesConfig(change) ==> w'.configs == w.configs)
              && (TouchesConfig(change) ==>
                    && change.asset in w'.configs && w'.configs == w.configs[change.asset := w'.configs[change.asset]]
                    && Sets(change, if change.asset in w.configs then w.configs[change.asset] else w'.configs[change.asset], w'.configs[change.asset]))
  {
  }
}
