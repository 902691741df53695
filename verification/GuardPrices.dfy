/** What an evaluated price means, and how the halt latch behaves. */
module GuardPrices {
  import opened Prelude
  import opened Risk
  import opened Medians
  import opened GuardSpec

  /** Every reading is positive and filed under its own name, and no name is listed twice. */
  ghost predicate ReadingsSound(names: seq<string>, sources: map<string, Source>) {
    && (forall n | n in sources :: sources[n].value > 0 && sources[n].name == n)
    && (forall i, j | 0 <= i < j < |names| :: names[i] != names[j])
  }

  /** The latch is exactly a stored pending value; a baseline and a reference exist together, and every
      stored figure is positive. */
  ghost predicate Sound(g: Guard) {
    && ReadingsSound(g.names, g.sources)
    && (g.halted <==> g.pendingHalt.Some?)
    && (g.lastGood.Some? <==> g.reference.Some?) && (g.reference.Some? <==> g.referenceAt.Some?)
    && (g.pendingHalt.Some? ==> g.pendingHalt.value > 0 && g.lastGood.Some?)
    && (g.lastGood.Some? ==> g.lastGood.value > 0 && g.reference.value > 0)
  }

  lemma {:induction false} FreshValuesPositive(names: seq<string>, sources: map<string, Source>, maxStaleness: nat, now: nat)
    requires ReadingsSound(names, sources)
    ensures forall s | s in FreshSources(names, sources, maxStaleness, now) :: s.value > 0 && s.name in names
  {
    if names != [] {
      FreshValuesPositive(names[..|names| - 1], sources, maxStaleness, now);
    }
  }

  ghost predicate FromDifferentSources(readings: seq<Source>) {
    forall i, j | 0 <= i < j < |readings| :: readings[i].name != readings[j].name
  }

  /** The fresh readings come from different sources. */
  lemma {:induction false} FreshDistinct(names: seq<string>, sources: map<string, Source>, maxStaleness: nat, now: nat)
    requires ReadingsSound(names, sources)
    ensures FromDifferentSources(FreshSources(names, sources, maxStaleness, now))
  {
    if names != [] {
      var rest := names[..|names| - 1];
      FreshDistinct(rest, sources, maxStaleness, now);
      FreshValuesPositive(rest, sources, maxStaleness, now);
      assert names[|names| - 1] !in rest;
      var live, prev := FreshSources(names, sources, maxStaleness, now), FreshSources(rest, sources, maxStaleness, now);
      forall i, j | 0 <= i < j < |live|
        ensures live[i].name != live[j].name
      {
        assert live[i] == prev[i] && prev[i] in prev;
        if j < |prev| {
          assert live[j] == prev[j] && prev[i].name != prev[j].name;
        } else {
          assert live[j] == sources[names[|names| - 1]] && live[j].name == names[|names| - 1];
          assert prev[i].name in rest;
        }
      }
    }
  }

  lemma FreshPositive(g: Guard, c: Config, now: nat)
    requires ReadingsSound(g.names, g.sources)
    ensures forall v | v in Values(FreshOf(g, c, now)) :: v > 0
  {
    FreshValuesPositive(g.names, g.sources, c.maxStaleness, now);
    var live := FreshOf(g, c, now);
    forall v | v in Values(live)
      ensures v > 0
    {
      var i :| 0 <= i < |live| && Values(live)[i] == v;
      assert live[i] in live;
    }
  }

  lemma TrackKeepsSound(g: Guard, c: Config, median: int, now: nat)
    requires Sound(g) && !g.halted && median > 0
    ensures Sound(Track(g, c, median, now).1)
    ensures Track(g, c, median, now).1 == Track(g, c, median, now).1.(names := g.names, sources := g.sources)
  {
  }

  lemma MedianPositive(g: Guard, c: Config, now: nat)
    requires ReadingsSound(g.names, g.sources) && Values(FreshOf(g, c, now)) != []
    ensures Median(Values(FreshOf(g, c, now))) > 0
  {
    FreshPositive(g, c, now);
    MedianBetween(Values(FreshOf(g, c, now)));
  }

  lemma EvaluateKeepsSound(g: Guard, c: Config, now: nat)
    requires Sound(g) && Evaluate(g, c, now).Done?
    ensures var g' := Evaluate(g, c, now).value.1;
            Sound(g') && g'.names == g.names && g'.sources == g.sources
  {
    if !g.halted && |Values(FreshOf(g, c, now))| >= 2 {
      MedianPositive(g, c, now);
      TrackKeepsSound(g, c, Median(Values(FreshOf(g, c, now))), now);
    }
  }

  // ----- which readings count

  /** Not marked stale, at most a minute ahead of the clock, and no older than the configured age. */
  predicate Usable(s: Source, maxAge: nat, now: nat) {
    !s.stale && s.observedAt <= now + 60 && now <= s.observedAt + maxAge
  }

  function UsableNames(names: seq<string>, sources: map<string, Source>, maxAge: nat, now: nat): set<string> {
    set n | n in names && n in sources && Usable(sources[n], maxAge, now)
  }

  lemma UsableLast(names: seq<string>, sources: map<string, Source>, maxAge: nat, now: nat)
    requires names != []
    ensures var last, rest := names[|names| - 1], UsableNames(names[..|names| - 1], sources, maxAge, now);
            UsableNames(names, sources, maxAge, now)
            == if last in sources && Usable(sources[last], maxAge, now) then rest + {last} else rest
  {
    assert names == names[..|names| - 1] + [names[|names| - 1]];
  }

  lemma FreshIsUsable(s: Source, maxAge: nat, now: nat)
    ensures IsFresh(s, maxAge, now) <==> Usable(s, maxAge, now)
  {
  }

  lemma FreshGrows(names: seq<string>, sources: map<string, Source>, maxAge: nat, now: nat)
    requires names != []
    ensures var last, rest := names[|names| - 1], FreshSources(names[..|names| - 1], sources, maxAge, now);
            FreshSources(names, sources, maxAge, now)
            == if last in sources && Usable(sources[last], maxAge, now) then rest + [sources[last]] else rest
  {
    if names[|names| - 1] in sources {
      FreshIsUsable(sources[names[|names| - 1]], maxAge, now);
    }
  }

  lemma {:induction false} UsableAreFresh(names: seq<string>, sources: map<string, Source>, maxAge: nat, now: nat, n: string)
    requires n in UsableNames(names, sources, maxAge, now)
    ensures sources[n] in FreshSources(names, sources, maxAge, now)
  {
    FreshGrows(names, sources, maxAge, now);
    UsableLast(names, sources, maxAge, now);
    if n in UsableNames(names[..|names| - 1], sources, maxAge, now) {
      UsableAreFresh(names[..|names| - 1], sources, maxAge, now, n);
    }
  }

  lemma {:induction false} FreshAreUsable(names: seq<string>, sources: map<string, Source>, maxAge: nat, now: nat, s: Source)
      returns (n: string)
    requires s in FreshSources(names, sources, maxAge, now)
    ensures n in UsableNames(names, sources, maxAge, now) && sources[n] == s
  {
    FreshGrows(names, sources, maxAge, now);
    UsableLast(names, sources, maxAge, now);
    if s in FreshSources(names[..|names| - 1], sources, maxAge, now) {
      n := FreshAreUsable(names[..|names| - 1], sources, maxAge, now, s);
    } else {
      n := names[|names| - 1];
    }
  }

  lemma {:induction false} AsManyFresh(names: seq<string>, sources: map<string, Source>, maxAge: nat, now: nat)
    requires forall i, j | 0 <= i < j < |names| :: names[i] != names[j]
    ensures |FreshSources(names, sources, maxAge, now)| == |UsableNames(names, sources, maxAge, now)|
  {
    if names != [] {
      AsManyFresh(names[..|names| - 1], sources, maxAge, now);
      FreshGrows(names, sources, maxAge, now);
      UsableLast(names, sources, maxAge, now);
      assert names[|names| - 1] !in names[..|names| - 1];
    }
  }

  /** The fresh readings are exactly the usable ones, one for each name. */
  lemma CountedExactly(names: seq<string>, sources: map<string, Source>, maxAge: nat, now: nat)
    requires forall i, j | 0 <= i < j < |names| :: names[i] != names[j]
    ensures |FreshSources(names, sources, maxAge, now)| == |UsableNames(names, sources, maxAge, now)|
    ensures forall n | n in UsableNames(names, sources, maxAge, now) :: sources[n] in FreshSources(names, sources, maxAge, now)
    ensures forall s | s in FreshSources(names, sources, maxAge, now) ::
              exists n | n in UsableNames(names, sources, maxAge, now) :: sources[n] == s
  {
    AsManyFresh(names, sources, maxAge, now);
    forall n | n in UsableNames(names, sources, maxAge, now)
      ensures sources[n] in FreshSources(names, sources, maxAge, now)
    {
      UsableAreFresh(names, sources, maxAge, now, n);
    }
    forall s | s in FreshSources(names, sources, maxAge, now)
      ensures exists n | n in UsableNames(names, sources, maxAge, now) :: sources[n] == s
    {
      var n := FreshAreUsable(names, sources, maxAge, now, s);
    }
  }

  // ----- an Ok price

  lemma {:induction false} FreshAreFresh(names: seq<string>, sources: map<string, Source>, maxStaleness: nat, now: nat)
    ensures forall s | s in FreshSources(names, sources, maxStaleness, now) ::
              IsFresh(s, maxStaleness, now) && exists n | n in names && n in sources :: sources[n] == s
  {
    if names != [] {
      FreshAreFresh(names[..|names| - 1], sources, maxStaleness, now);
    }
  }

  /** Fresh readings of pairwise different sources. */
  ghost predicate IndependentlyFresh(sources: seq<Source>, c: Config, now: nat) {
    && (forall s | s in sources :: IsFresh(s, c.maxStaleness, now))
    && FromDifferentSources(sources)
  }

  /** `m` is within `bandBps` basis points of the positive reading `v`, up to rounding. */
  predicate IsClose(m: int, v: int, bandBps: nat) {
    v > 0 && Abs(m - v) * BPS < (bandBps + 1) * v
  }

  /** An Ok price rests on at least two fresh readings of different sources, is the median of their ascending permutation,
      and is within the band of every one of them. Each is unstale, at most a minute ahead of the clock and no
      older than configured, and no listed reading that is so is left out. */
  lemma OkPriceIsCloseToEverySource(g: Guard, c: Config, now: nat)
    requires ReadingsSound(g.names, g.sources)
    requires Evaluate(g, c, now).Done? && Evaluate(g, c, now).value.0.quote.status.Ok?
    ensures var p := Evaluate(g, c, now).value.0;
            var values := Values(p.sources);
            && 2 <= |p.sources| <= CAPACITY && IndependentlyFresh(p.sources, c, now)
            && Ascending(SortUp(values)) && multiset(SortUp(values)) == multiset(values)
            && p.quote.value == Middle(SortUp(values))
            && (forall v | v in values :: IsClose(p.quote.value, v, c.bandBps))
            && (forall s | s in p.sources :: !s.stale && s.observedAt <= now + 60 && now <= s.observedAt + c.maxStaleness)
            && (forall n | n in g.names && n in g.sources && Usable(g.sources[n], c.maxStaleness, now) :: g.sources[n] in p.sources)
  {
    CountedExactly(g.names, g.sources, c.maxStaleness, now);
    forall n | n in g.names && n in g.sources && Usable(g.sources[n], c.maxStaleness, now)
      ensures g.sources[n] in FreshOf(g, c, now)
    {
      assert n in UsableNames(g.names, g.sources, c.maxStaleness, now);
    }
    var values := Values(FreshOf(g, c, now));
    FreshAreFresh(g.names, g.sources, c.maxStaleness, now);
    FreshDistinct(g.names, g.sources, c.maxStaleness, now);
    assert Evaluate(g, c, now).value.0.sources == FreshOf(g, c, now);
    SortUpSorts(values);
    OkDecision(g, c, values, now);
    forall v | v in values
      ensures IsClose(Median(values), v, c.bandBps)
    {
      BandedMedian(values, c.bandBps, v);
    }
  }

  lemma OkDecision(g: Guard, c: Config, values: seq<int>, now: nat)
    requires Decide(g, c, values, now).Done? && Decide(g, c, values, now).value.0.status.Ok?
    ensures 2 <= |values| <= CAPACITY && WithinBand(SortUp(values), c.bandBps)
    ensures Decide(g, c, values, now).value.0.value == Median(values)
    ensures !g.halted && !Decide(g, c, values, now).value.1.halted
  {
  }

  lemma BandedMiddle(s: seq<int>, bandBps: nat, v: int)
    requires |s| >= 2 && Ascending(s) && WithinBand(s, bandBps) && v in s
    ensures IsClose(Middle(s), v, bandBps)
  {
    var low, high := s[(|s| - 1) / 2], s[|s| / 2];
    assert Least(s) <= s[0] && Least(s) <= low <= Greatest(s) && Least(s) <= high <= Greatest(s) by {
      LeastGreatest(s);
      assert s[0] in s && low in s && high in s;
    }
    assert low <= Middle(s) <= high by { MiddleBetween(s); }
    BandBoundsDistance(s, bandBps, Middle(s), v);
  }

  lemma BandedMedian(values: seq<int>, bandBps: nat, v: int)
    requires |values| >= 2 && WithinBand(SortUp(values), bandBps) && v in values
    ensures IsClose(Median(values), v, bandBps)
  {
    SortUpSorts(values);
    assert v in multiset(values);
    BandedMiddle(SortUp(values), bandBps, v);
  }

  /** One evaluation sees its fresh readings as a multiset: from one and the same stored baseline, guards with
      the same fresh values answer alike and store the same baseline. */
  lemma SameReadingsSamePrice(g: Guard, g': Guard, c: Config, now: nat)
    requires g' == g.(names := g'.names, sources := g'.sources)
    requires multiset(Values(FreshOf(g, c, now))) == multiset(Values(FreshOf(g', c, now)))
    ensures Evaluate(g, c, now).Done? <==> Evaluate(g', c, now).Done?
    ensures Evaluate(g, c, now).Done? ==>
              var (p, h), (p', h') := Evaluate(g, c, now).value, Evaluate(g', c, now).value;
              p'.quote == p.quote && h' == h.(names := g'.names, sources := g'.sources)
  {
    var v, v' := Values(FreshOf(g, c, now)), Values(FreshOf(g', c, now));
    assert |v| == |multiset(v)| && |v'| == |multiset(v')|;
    if |v| >= 2 {
      MedianOrderFree(v, v');
    }
  }

  function FreshValues(names: seq<string>, sources: map<string, Source>, maxStaleness: nat, now: nat): seq<int> {
    Values(FreshSources(names, sources, maxStaleness, now))
  }

  lemma {:induction false} FreshConcat(a: seq<string>, b: seq<string>, sources: map<string, Source>, maxStaleness: nat, now: nat)
    ensures FreshValues(a + b, sources, maxStaleness, now)
            == FreshValues(a, sources, maxStaleness, now) + FreshValues(b, sources, maxStaleness, now)
    decreases |b|
  {
    if b == [] {
      assert a + b == a;
    } else {
      var name, rest := b[|b| - 1], b[..|b| - 1];
      FreshConcat(a, rest, sources, maxStaleness, now);
      assert a + b == (a + rest) + [name] && b == rest + [name];
      FreshLast(a + rest, name, sources, maxStaleness, now);
      FreshLast(rest, name, sources, maxStaleness, now);
    }
  }

  /** What the last name adds: its value if it is fresh. */
  lemma FreshLast(names: seq<string>, name: string, sources: map<string, Source>, maxStaleness: nat, now: nat)
    ensures FreshValues(names + [name], sources, maxStaleness, now) == FreshValues(names, sources, maxStaleness, now)
              + if name in sources && IsFresh(sources[name], maxStaleness, now) then [sources[name].value] else []
  {
    assert (names + [name])[..|names|] == names;
  }

  lemma SameLeft(x: string, rest: seq<string>, before: seq<string>, after: seq<string>)
    requires multiset([x] + rest) == multiset(before + ([x] + after))
    ensures multiset(rest) == multiset(before + after)
  {
    assert multiset([x] + rest) == multiset{x} + multiset(rest);
    assert multiset(before + ([x] + after)) == multiset(before) + (multiset{x} + multiset(after));
    assert multiset(rest) == multiset([x] + rest) - multiset{x};
  }

  /** Listing the same names in another order lists the same fresh values in another order. */
  lemma {:induction false} FreshPermuted(names: seq<string>, names': seq<string>, sources: map<string, Source>, maxStaleness: nat, now: nat)
    requires multiset(names) == multiset(names')
    ensures multiset(FreshValues(names, sources, maxStaleness, now)) == multiset(FreshValues(names', sources, maxStaleness, now))
    decreases |names|
  {
    if names == [] {
      assert |multiset(names')| == 0;
    } else {
      var x, rest := names[0], names[1..];
      assert names == [x] + rest;
      assert x in multiset(names');
      var i :| 0 <= i < |names'| && names'[i] == x;
      var before, after := names'[..i], names'[i + 1..];
      assert names' == before + ([x] + after);
      SameLeft(x, rest, before, after);
      FreshPermuted(rest, before + after, sources, maxStaleness, now);
      FreshConcat([x], rest, sources, maxStaleness, now);
      FreshConcat(before, after, sources, maxStaleness, now);
      FreshConcat([x], after, sources, maxStaleness, now);
      FreshConcat(before, [x] + after, sources, maxStaleness, now);
    }
  }

  /** At one evaluation, from one stored baseline, the order in which the sources are listed changes neither
      the answer nor what is stored. */
  lemma PriceIsOrderFree(g: Guard, names: seq<string>, c: Config, now: nat)
    requires multiset(names) == multiset(g.names)
    ensures var g' := g.(names := names);
            && (Evaluate(g, c, now).Done? <==> Evaluate(g', c, now).Done?)
            && (Evaluate(g, c, now).Done? ==>
                  var (p, h), (p', h') := Evaluate(g, c, now).value, Evaluate(g', c, now).value;
                  p'.quote == p.quote && h' == h.(names := names))
  {
    var g' := g.(names := names);
    FreshPermuted(g.names, names, g.sources, c.maxStaleness, now);
    SameReadingsSamePrice(g, g', c, now);
    if Evaluate(g, c, now).Done? {
      EvaluateKeepsReadings(g, c, now);
    }
  }

  lemma EvaluateKeepsReadings(g: Guard, c: Config, now: nat)
    requires Evaluate(g, c, now).Done?
    ensures var h := Evaluate(g, c, now).value.1; h.names == g.names && h.sources == g.sources
  {
  }

  // ----- the latch

  lemma TrackIdempotent(g: Guard, c: Config, median: int, now: nat)
    requires Sound(g) && !g.halted && median > 0
    ensures var (q, g') := Track(g, c, median, now);
            if g'.halted then q == Quote(g'.lastGood.GetOr(0), Halted) else Track(g', c, median, now) == (q, g')
  {
    assert MoveBps(median, median) == 0;
  }

  /** Evaluating again at the same moment changes nothing and answers the same. */
  lemma EvaluateIdempotent(g: Guard, c: Config, now: nat)
    requires Sound(g) && Evaluate(g, c, now).Done?
    ensures Evaluate(Evaluate(g, c, now).value.1, c, now) == Evaluate(g, c, now)
  {
    EvaluateKeepsSound(g, c, now);
    if !g.halted && |Values(FreshOf(g, c, now))| >= 2 {
      MedianPositive(g, c, now);
      TrackIdempotent(g, c, Median(Values(FreshOf(g, c, now))), now);
    }
  }

  /** While halted, whatever readings come and go, evaluation moves neither the baseline, the reference
      nor the value awaiting confirmation. */
  lemma HaltedStaysPut(g: Guard, c: Config, now: nat, names: seq<string>, sources: map<string, Source>)
    requires g.halted
    ensures var g' := g.(names := names, sources := sources);
            && Evaluate(g', c, now).Done?
            && Evaluate(g', c, now).value.1 == g'
            && Evaluate(g', c, now).value.0.quote == Quote(g.lastGood.GetOr(0), Halted)
  {
  }

  /** Confirming a halt clears it for good as long as the fresh readings and configuration are those
      that caused it: the next evaluation is Ok at exactly the confirmed value. */
  lemma ConfirmingYieldsOk(g: Guard, c: Config, haltedAt: nat, h: Guard, confirmedAt: nat, readAt: nat)
    requires Sound(g) && !g.halted && Evaluate(g, c, haltedAt).Done? && Evaluate(g, c, haltedAt).value.1.halted
    requires h == Evaluate(g, c, haltedAt).value.1.(names := h.names, sources := h.sources)
    requires multiset(Values(FreshOf(h, c, readAt))) == multiset(Values(FreshOf(g, c, haltedAt)))
    ensures var confirmed := ConfirmGuard(h, confirmedAt);
            && Evaluate(confirmed, c, readAt).Done?
            && Evaluate(confirmed, c, readAt).value.0.quote == Quote(h.pendingHalt.value, Ok)
            && Evaluate(confirmed, c, readAt).value.1.lastGood == h.pendingHalt
  {
    var v, v' := Values(FreshOf(g, c, haltedAt)), Values(FreshOf(h, c, readAt));
    HaltHasMedian(g, c, haltedAt);
    assert |v| == |multiset(v)| && |v'| == |multiset(v')|;
    MedianOrderFree(v, v');
    MedianPositive(g, c, haltedAt);
    var confirmed := ConfirmGuard(h, confirmedAt);
    assert FreshOf(confirmed, c, readAt) == FreshOf(h, c, readAt);
    AtBaseline(confirmed, c, Median(v), readAt);
  }

  /** A halt comes from agreeing readings, and what awaits confirmation is their median. */
  lemma HaltHasMedian(g: Guard, c: Config, now: nat)
    requires !g.halted && Evaluate(g, c, now).Done? && Evaluate(g, c, now).value.1.halted
    ensures var v := Values(FreshOf(g, c, now));
            2 <= |v| <= CAPACITY && WithinBand(SortUp(v), c.bandBps)
            && Evaluate(g, c, now).value.1 == Halt(g, Median(v))
  {
  }

  lemma AtBaseline(g: Guard, c: Config, median: int, now: nat)
    requires g.lastGood == g.reference == Some(median) && median > 0
    ensures Track(g, c, median, now).0 == Quote(median, Ok) && Track(g, c, median, now).1.lastGood == Some(median)
  {
    assert MoveBps(median, median) == 0;
  }

  /** The one thing that can make an evaluation revert: more fresh readings than the sort buffer holds,
      on an asset that is not halted. */
  lemma EvaluateRevertsExactly(g: Guard, c: Config, now: nat)
    ensures Evaluate(g, c, now).Revert? <==> !g.halted && |FreshOf(g, c, now)| > CAPACITY
  {
  }
}
