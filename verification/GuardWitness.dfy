/** Two runs of the price guard in which the order of publishing shows in what is stored. */
module GuardWitness {
  import opened Prelude
  import opened Risk
  import opened Medians
  import opened GuardSpec
  import opened GuardPrices
  import opened GuardOrder

  const ASSET: Address := 0

  function Genesis(): World {
    World(map[], map[], map[], 0, map[], None, 0)
  }

  function At(name: string, value: int): Reading {
    Reading(name, value, 0)
  }

  // ----- runs from genesis

  function PublishOf(r: Reading): Action {
    DoPublishSource(ASSET, r.name, r.value, r.at)
  }

  ghost predicate RunFromGenesis(ws: seq<World>, acts: seq<Action>) {
    |ws| == |acts| + 1 && IsRun(ws, acts) && IsGenesis(ws[0])
  }

  lemma Extends(ws: seq<World>, acts: seq<Action>, a: Action) returns (ws': seq<World>, acts': seq<Action>)
    requires RunFromGenesis(ws, acts)
    ensures acts' == acts + [a] && ws' == ws + [Step(ws[|acts|], a)] && RunFromGenesis(ws', acts')
  {
    ws', acts' := ws + [Step(ws[|acts|], a)], acts + [a];
    forall i | 0 <= i < |acts'|
      ensures ws'[i + 1] == Step(ws'[i], acts'[i])
    {
      if i < |acts| {
        assert ws'[i] == ws[i] && ws'[i + 1] == ws[i + 1] && acts'[i] == acts[i];
      }
    }
  }

  lemma Configures(c: Config) returns (ws: seq<World>, acts: seq<Action>)
    ensures RunFromGenesis(ws, acts) && acts == [DoConfigure(ASSET, c)]
    ensures ws[1] == Genesis().(configs := map[ASSET := c])
  {
    ws, acts := [Genesis(), Step(Genesis(), DoConfigure(ASSET, c))], [DoConfigure(ASSET, c)];
  }

  lemma PublishSteps(w: World, c: Config, g: Guard, r: Reading)
    requires w.configs == map[ASSET := c] && w.now == 0 && GuardOf(w, ASSET) == g && r.value > 0 && r.at == 0
    requires Evaluate(Recorded(g, r), c, 0).Done?
    ensures var w' := Step(w, PublishOf(r));
            && w'.configs == w.configs && w'.now == 0
            && GuardOf(w', ASSET) == Evaluate(Recorded(g, r), c, 0).value.1
  {
  }

  function ActsOf(rs: seq<Reading>): seq<Action> {
    seq(|rs|, i requires 0 <= i < |rs| => PublishOf(rs[i]))
  }

  predicate Joins(g: Guard, c: Config, r: Reading, g': Guard) {
    PublishLink(g, c, r, 0, g') && r.value > 0 && r.at == 0
  }

  lemma ActsOfLast(rs: seq<Reading>)
    requires rs != []
    ensures ActsOf(rs) == ActsOf(rs[..|rs| - 1]) + [PublishOf(rs[|rs| - 1])]
  {
  }

  /** Publishing is under way: `rs` have been published, and the guard is `g`. */
  ghost predicate Published(ws: seq<World>, acts: seq<Action>, c: Config, rs: seq<Reading>, g: Guard) {
    && RunFromGenesis(ws, acts) && acts == [DoConfigure(ASSET, c)] + ActsOf(rs)
    && var w := ws[|acts|];
    && w.configs == map[ASSET := c] && w.now == 0 && GuardOf(w, ASSET) == g
  }

  lemma PublishesOne(ws: seq<World>, acts: seq<Action>, c: Config, rs: seq<Reading>, g: Guard, r: Reading, g': Guard)
      returns (ws': seq<World>, acts': seq<Action>)
    requires Published(ws, acts, c, rs, g) && Joins(g, c, r, g')
    ensures Published(ws', acts', c, rs + [r], g')
  {
    PublishSteps(ws[|acts|], c, g, r);
    ActsOfLast(rs + [r]);
    assert (rs + [r])[..|rs|] == rs;
    ws', acts' := Extends(ws, acts, PublishOf(r));
    assert ([DoConfigure(ASSET, c)] + ActsOf(rs)) + [PublishOf(r)] == [DoConfigure(ASSET, c)] + (ActsOf(rs) + [PublishOf(r)]);
  }

  lemma StartsPublishing(c: Config) returns (ws: seq<World>, acts: seq<Action>)
    ensures Published(ws, acts, c, [], NEW_GUARD)
  {
    ws, acts := Configures(c);
  }

  /** A run that configures the asset and then publishes three readings. */
  lemma PublishesThree(c: Config, r: Reading, s: Reading, t: Reading, g1: Guard, g2: Guard, g3: Guard)
      returns (ws: seq<World>, acts: seq<Action>)
    requires Joins(NEW_GUARD, c, r, g1) && Joins(g1, c, s, g2) && Joins(g2, c, t, g3)
    ensures Published(ws, acts, c, [r, s, t], g3)
  {
    ws, acts := StartsPublishing(c);
    ws, acts := PublishesOne(ws, acts, c, [], NEW_GUARD, r, g1);
    assert [] + [r] == [r] && [r] + [s] == [r, s] && [r, s] + [t] == [r, s, t];
    ws, acts := PublishesOne(ws, acts, c, [r], g1, s, g2);
    ws, acts := PublishesOne(ws, acts, c, [r, s], g2, t, g3);
  }

  // ----- order

  const BANDS: Config := Config(300, 300, 3_600, 86_400, 300)

  lemma SortsTwo(a: int, b: int)
    ensures SortUp([a, b]) == if a > b then [b, a] else [a, b]
  {
    assert [a, b][..1] == [a] && [a][..0] == [];
    assert SortUp([a]) == [a];
    assert Insert([a], b) == if a > b then [b, a] else [a, b];
  }

  lemma SortsUpward(a: int, b: int, c: int)
    requires a < b < c
    ensures SortUp([a, b, c]) == [a, b, c]
  {
    SortsTwo(a, b);
    assert [a, b, c][..2] == [a, b];
  }

  lemma SortsDownward(a: int, b: int, c: int)
    requires a < b < c
    ensures SortUp([c, b, a]) == [a, b, c]
  {
    SortsTwo(c, b);
    assert [c, b, a][..2] == [c, b];
    assert [b, c][..1] == [b] && [b][..0] == [];
    assert Insert([b], a) == [a, b];
    assert Insert([b, c], a) == [a, b] + [c];
  }

  lemma SpreadOf(s: seq<int>)
    requires s == [100, 101] || s == [101, 102] || s == [100, 101, 102]
    ensures WithinBand(s, 300)
  {
    if |s| == 3 {
      assert s[1..] == [101, 102];
      assert Least([101, 102]) == 101 && Greatest([101, 102]) == 102;
    } else {
      assert |s[1..]| == 1;
    }
  }

  /** The stored readings are those of `names`, all dated zero. */
  ghost predicate Holding(g: Guard, names: seq<string>, values: seq<int>) {
    && |names| == |values| && g.names == names
    && forall i | 0 <= i < |names| :: names[i] in g.sources && g.sources[names[i]] == Source(names[i], values[i], 0, false)
  }

  lemma {:induction false} AllFresh(g: Guard, names: seq<string>, values: seq<int>, maxStaleness: nat)
    requires |names| == |values|
    requires forall i | 0 <= i < |names| :: names[i] in g.sources && g.sources[names[i]] == Source(names[i], values[i], 0, false)
    ensures FreshValues(names, g.sources, maxStaleness, 0) == values
    ensures |FreshSources(names, g.sources, maxStaleness, 0)| == |names|
  {
    if names != [] {
      AllFresh(g, names[..|names| - 1], values[..|names| - 1], maxStaleness);
      FreshLast(names[..|names| - 1], names[|names| - 1], g.sources, maxStaleness, 0);
      assert names == names[..|names| - 1] + [names[|names| - 1]];
    }
  }

  /** One evaluation whose readings agree and whose median `median` is within reach of both baselines. */
  lemma Adopts(g: Guard, c: Config, names: seq<string>, values: seq<int>, sorted: seq<int>)
    requires Holding(g, names, values) && !g.halted && 2 <= |values| <= CAPACITY
    requires sorted == SortUp(values) && sorted != [] && WithinBand(sorted, c.bandBps)
    requires !MovedTooFar(g.lastGood, Middle(sorted), c.dailyBps) && !MovedTooFar(g.reference, Middle(sorted), c.windowBps)
    ensures Evaluate(g, c, 0).Done? && Evaluate(g, c, 0).value.0.quote == Quote(Middle(sorted), Ok)
    ensures Evaluate(g, c, 0).value.1 == Refresh(g, c, Middle(sorted), 0).(lastGood := Some(Middle(sorted)))
  {
    AllFresh(g, names, values, c.maxStaleness);
  }

  /** Agreeing readings whose median moved too far from the last good value. */
  lemma MoveHalts(g: Guard, c: Config, names: seq<string>, values: seq<int>)
    requires Holding(g, names, values) && !g.halted && 2 <= |values| <= CAPACITY
    requires WithinBand(SortUp(values), c.bandBps) && MovedTooFar(g.lastGood, Median(values), c.dailyBps)
    ensures Evaluate(g, c, 0).Done? && Evaluate(g, c, 0).value.1 == Halt(g, Median(values))
  {
    AllFresh(g, names, values, c.maxStaleness);
  }

  lemma OnePrice(r: Reading, c: Config)
    requires r.at == 0
    ensures PublishLink(NEW_GUARD, c, r, 0, Recorded(NEW_GUARD, r))
  {
    AllFresh(Recorded(NEW_GUARD, r), [r.name], [r.value], c.maxStaleness);
  }

  /** The first two readings set both baselines to their median. */
  function AfterTwo(r: Reading, s: Reading, median: int): Guard {
    Recorded(Recorded(NEW_GUARD, r), s).(lastGood := Some(median), reference := Some(median), referenceAt := Some(0))
  }

  lemma TwoPrices(r: Reading, s: Reading, c: Config, sorted: seq<int>)
    requires r.at == s.at == 0 && r.name != s.name
    requires sorted == SortUp([r.value, s.value]) && |sorted| == 2 && WithinBand(sorted, c.bandBps)
    ensures PublishLink(Recorded(NEW_GUARD, r), c, s, 0, AfterTwo(r, s, Middle(sorted)))
  {
    Adopts(Recorded(Recorded(NEW_GUARD, r), s), c, [r.name, s.name], [r.value, s.value], sorted);
  }

  /** The third moves the last good value to the median of all three; the reference stays. */
  function AfterThree(r: Reading, s: Reading, t: Reading, first: int, median: int): Guard {
    Recorded(AfterTwo(r, s, first), t).(lastGood := Some(median))
  }

  lemma ThreePrices(r: Reading, s: Reading, t: Reading, first: int, sorted: seq<int>)
    requires r.at == s.at == t.at == 0 && r.name != s.name && r.name != t.name && s.name != t.name
    requires sorted == SortUp([r.value, s.value, t.value]) && |sorted| == 3 && WithinBand(sorted, BANDS.bandBps)
    requires first > 0 && MoveBps(first, sorted[1]) <= 300
    ensures PublishLink(AfterTwo(r, s, first), BANDS, t, 0, AfterThree(r, s, t, first, sorted[1]))
  {
    Adopts(Recorded(AfterTwo(r, s, first), t), BANDS, [r.name, s.name, t.name], [r.value, s.value, t.value], sorted);
  }

  /** The prices three values lead to, published one after another: `Middle(two)`, then `three[1]`. */
  ghost predicate Leads(v0: int, v1: int, v2: int, two: seq<int>, three: seq<int>) {
    && two == SortUp([v0, v1]) && |two| == 2 && WithinBand(two, BANDS.bandBps) && Middle(two) > 0
    && three == SortUp([v0, v1, v2]) && |three| == 3 && WithinBand(three, BANDS.bandBps)
    && MoveBps(Middle(two), three[1]) <= 300
  }

  lemma LeadsUp(low: int, mid: int, high: int)
    requires low == 100 && mid == 101 && high == 102
    ensures Leads(low, mid, high, [low, mid], [low, mid, high]) && Middle([low, mid]) == 100
  {
    SortsTwo(low, mid);
    SortsUpward(low, mid, high);
    SpreadOf([low, mid]);
    SpreadOf([low, mid, high]);
  }

  lemma LeadsDown(low: int, mid: int, high: int)
    requires low == 100 && mid == 101 && high == 102
    ensures Leads(high, mid, low, [mid, high], [low, mid, high]) && Middle([mid, high]) == 101
  {
    SortsTwo(high, mid);
    SortsDownward(low, mid, high);
    SpreadOf([mid, high]);
    SpreadOf([low, mid, high]);
  }

  lemma ThreeInOrder(r: Reading, s: Reading, t: Reading, two: seq<int>, three: seq<int>) returns (ws: seq<World>, acts: seq<Action>)
    requires r.at == s.at == t.at == 0 && r.name != s.name && r.name != t.name && s.name != t.name
    requires r.value > 0 && s.value > 0 && t.value > 0 && Leads(r.value, s.value, t.value, two, three)
    ensures |three| == 3 && two != []
    ensures Published(ws, acts, BANDS, [r, s, t], AfterThree(r, s, t, Middle(two), three[1]))
  {
    OnePrice(r, BANDS);
    TwoPrices(r, s, BANDS, two);
    ThreePrices(r, s, t, Middle(two), three);
    ws, acts := PublishesThree(BANDS, r, s, t, Recorded(NEW_GUARD, r), AfterTwo(r, s, Middle(two)),
                               AfterThree(r, s, t, Middle(two), three[1]));
  }

  /** Two runs from genesis that publish the same three readings at the same moment, in opposite order: the
      same price and last good value, but not the same reference. */
  lemma OrderShows() returns (ws: seq<World>, acts: seq<Action>, ws': seq<World>, acts': seq<Action>)
    ensures RunFromGenesis(ws, acts) && RunFromGenesis(ws', acts')
    ensures |acts| == 4 && |acts'| == 4 && acts[0] == acts'[0] && acts'[1] == acts[3] && acts'[2] == acts[2] && acts'[3] == acts[1]
    ensures ws[4].now == ws'[4].now && GuardOf(ws[4], ASSET).lastGood == GuardOf(ws'[4], ASSET).lastGood == Some(101)
    ensures GuardOf(ws[4], ASSET).reference == Some(100) && GuardOf(ws'[4], ASSET).reference == Some(101)
  {
    ws, acts := InOrder(At("a", 100), At("b", 101), At("c", 102));
    ws', acts' := Reversed(At("a", 100), At("b", 101), At("c", 102));
  }

  lemma InOrder(a: Reading, b: Reading, c: Reading) returns (ws: seq<World>, acts: seq<Action>)
    requires a == At("a", 100) && b == At("b", 101) && c == At("c", 102)
    ensures RunFromGenesis(ws, acts) && acts == [DoConfigure(ASSET, BANDS), PublishOf(a), PublishOf(b), PublishOf(c)]
    ensures ws[4].now == 0 && GuardOf(ws[4], ASSET).lastGood == Some(101) && GuardOf(ws[4], ASSET).reference == Some(100)
  {
    LeadsUp(a.value, b.value, c.value);
    ws, acts := ThreeInOrder(a, b, c, [a.value, b.value], [a.value, b.value, c.value]);
    assert ActsOf([a, b, c]) == [PublishOf(a), PublishOf(b), PublishOf(c)];
  }

  lemma Reversed(a: Reading, b: Reading, c: Reading) returns (ws: seq<World>, acts: seq<Action>)
    requires a == At("a", 100) && b == At("b", 101) && c == At("c", 102)
    ensures RunFromGenesis(ws, acts) && acts == [DoConfigure(ASSET, BANDS), PublishOf(c), PublishOf(b), PublishOf(a)]
    ensures ws[4].now == 0 && GuardOf(ws[4], ASSET).lastGood == Some(101) && GuardOf(ws[4], ASSET).reference == Some(101)
  {
    LeadsDown(a.value, b.value, c.value);
    ws, acts := ThreeInOrder(c, b, a, [b.value, c.value], [a.value, b.value, c.value]);
    assert ActsOf([c, b, a]) == [PublishOf(c), PublishOf(b), PublishOf(a)];
  }
}
