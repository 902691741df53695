/** Two runs of the price guard that publish the same readings in two orders: one halts the asset, the other
    ends in an Ok price. */
module GuardHalting {
  import opened Prelude
  import opened Medians
  import opened GuardSpec
  import opened GuardPrices
  import opened GuardOrder
  import opened GuardWitness

  const LOOSE: Config := Config(2_000, 300, 3_600, 86_400, 300)

  lemma SortsThree(a: int, b: int, c: int)
    requires a == 100 && b == 100 && c == 95
    ensures SortUp([a, b, c]) == [c, a, b]
  {
    SortsTwo(a, b);
    assert [a, b, c][..2] == [a, b];
    assert [a, b][..1] == [a] && [a][..0] == [];
    assert Insert([a], c) == [c, a];
    assert Insert([a, b], c) == [c, a] + [b];
  }

  lemma SortsRaised(a: int, b: int, c: int)
    requires a == 108 && b == 100 && c == 95
    ensures SortUp([a, b, c]) == [c, b, a]
  {
    SortsDownward(c, b, a);
  }

  lemma Spreads(s: seq<int>)
    requires |s| == 2 || |s| == 3
    requires forall i | 0 <= i < |s| :: 95 <= s[i] <= 108
    ensures WithinBand(s, LOOSE.bandBps)
  {
    LeastGreatest(s);
    assert 95 <= Least(s) <= Greatest(s) <= 108;
    SpreadFits(Least(s), Greatest(s));
  }

  lemma SpreadFits(low: int, high: int)
    requires 95 <= low <= high <= 108
    ensures Quot((high - low) * BPS, low) <= 2_000
  {
    assert (high - low) * BPS <= 130_000;
    QuotAtLeast((high - low) * BPS, low, 2_001);
  }

  /** Two sources at 100, then the first of them raised to 108 and a third one at 95. */
  predicate Script(r: Reading, s: Reading, raised: Reading, low: Reading) {
    && r.at == s.at == raised.at == low.at == 0
    && r.name == raised.name && r.name != s.name && low.name != r.name && low.name != s.name
    && r.value == 100 && s.value == 100 && raised.value == 108 && low.value == 95
  }

  lemma StartsAtHundred(r: Reading, s: Reading, raised: Reading, low: Reading)
    requires Script(r, s, raised, low)
    ensures Joins(NEW_GUARD, LOOSE, r, Recorded(NEW_GUARD, r))
    ensures Joins(Recorded(NEW_GUARD, r), LOOSE, s, AfterTwo(r, s, 100))
  {
    OnePrice(r, LOOSE);
    SortsTwo(r.value, s.value);
    Spreads([r.value, s.value]);
    TwoPrices(r, s, LOOSE, [r.value, s.value]);
  }

  // ----- raised first: halted

  lemma RaisedHalts(r: Reading, s: Reading, raised: Reading, low: Reading)
    requires Script(r, s, raised, low)
    ensures Joins(AfterTwo(r, s, 100), LOOSE, raised, Halt(Recorded(AfterTwo(r, s, 100), raised), 104))
  {
    var h := Recorded(AfterTwo(r, s, 100), raised);
    assert Holding(h, [r.name, s.name], [raised.value, s.value]);
    SortsTwo(raised.value, s.value);
    Spreads([s.value, raised.value]);
    assert Median([raised.value, s.value]) == 104;
    assert MoveBps(100, 104) == 400;
    MoveHalts(h, LOOSE, [r.name, s.name], [raised.value, s.value]);
  }

  lemma HaltedStores(g: Guard, c: Config, r: Reading)
    requires g.halted && r.value > 0 && r.at == 0
    ensures Joins(g, c, r, Recorded(g, r))
  {
    HaltedStaysPut(g, c, 0, Recorded(g, r).names, Recorded(g, r).sources);
  }

  lemma RaisedFirst(r: Reading, s: Reading, raised: Reading, low: Reading) returns (ws: seq<World>, acts: seq<Action>)
    requires Script(r, s, raised, low)
    ensures Published(ws, acts, LOOSE, [r, s, raised, low], Recorded(Halt(Recorded(AfterTwo(r, s, 100), raised), 104), low))
  {
    var halted := Halt(Recorded(AfterTwo(r, s, 100), raised), 104);
    StartsAtHundred(r, s, raised, low);
    RaisedHalts(r, s, raised, low);
    HaltedStores(halted, LOOSE, low);
    ws, acts := PublishesThree(LOOSE, r, s, raised, Recorded(NEW_GUARD, r), AfterTwo(r, s, 100), halted);
    ws, acts := PublishesOne(ws, acts, LOOSE, [r, s, raised], halted, low, Recorded(halted, low));
    assert [r, s, raised] + [low] == [r, s, raised, low];
  }

  // ----- low first: Ok

  /** Three readings within the band whose middle one is at 100. */
  ghost predicate CentredAtHundred(values: seq<int>) {
    && |values| == 3 && |SortUp(values)| == 3 && SortUp(values)[1] == 100 && WithinBand(SortUp(values), LOOSE.bandBps)
  }

  lemma Centred(values: seq<int>, sorted: seq<int>)
    requires |values| == 3 && sorted == SortUp(values) && |sorted| == 3 && sorted[1] == 100
    requires forall i | 0 <= i < |sorted| :: 95 <= sorted[i] <= 108
    ensures CentredAtHundred(values)
  {
    Spreads(sorted);
  }

  lemma LowCentred(a: int, b: int, c: int)
    requires a == 100 && b == 100 && c == 95
    ensures CentredAtHundred([a, b, c])
  {
    SortsThree(a, b, c);
    Centred([a, b, c], [c, a, b]);
  }

  lemma RaisedCentred(a: int, b: int, c: int)
    requires a == 108 && b == 100 && c == 95
    ensures CentredAtHundred([a, b, c])
  {
    SortsRaised(a, b, c);
    Centred([a, b, c], [c, b, a]);
  }

  /** Agreeing readings whose median is the last good value again. */
  lemma StaysAtHundred(g: Guard, names: seq<string>, values: seq<int>)
    requires Holding(g, names, values) && !g.halted && CentredAtHundred(values)
    requires g.lastGood == g.reference == Some(100) && g.referenceAt == Some(0)
    ensures Evaluate(g, LOOSE, 0).Done? && Evaluate(g, LOOSE, 0).value.1 == g
  {
    assert MoveBps(100, 100) == 0;
    Adopts(g, LOOSE, names, values, SortUp(values));
  }

  lemma LowStays(r: Reading, s: Reading, raised: Reading, low: Reading)
    requires Script(r, s, raised, low)
    ensures Joins(AfterTwo(r, s, 100), LOOSE, low, Recorded(AfterTwo(r, s, 100), low))
  {
    var h := Recorded(AfterTwo(r, s, 100), low);
    assert Holding(h, [r.name, s.name, low.name], [r.value, s.value, low.value]);
    LowCentred(r.value, s.value, low.value);
    StaysAtHundred(h, [r.name, s.name, low.name], [r.value, s.value, low.value]);
  }

  lemma RaisedStays(r: Reading, s: Reading, raised: Reading, low: Reading)
    requires Script(r, s, raised, low)
    ensures var g := Recorded(AfterTwo(r, s, 100), low); Joins(g, LOOSE, raised, Recorded(g, raised))
  {
    var h := Recorded(Recorded(AfterTwo(r, s, 100), low), raised);
    assert Holding(h, [r.name, s.name, low.name], [raised.value, s.value, low.value]);
    RaisedCentred(raised.value, s.value, low.value);
    StaysAtHundred(h, [r.name, s.name, low.name], [raised.value, s.value, low.value]);
  }

  lemma LowFirst(r: Reading, s: Reading, raised: Reading, low: Reading) returns (ws: seq<World>, acts: seq<Action>)
    requires Script(r, s, raised, low)
    ensures Published(ws, acts, LOOSE, [r, s, low, raised], Recorded(Recorded(AfterTwo(r, s, 100), low), raised))
  {
    var g := Recorded(AfterTwo(r, s, 100), low);
    StartsAtHundred(r, s, raised, low);
    LowStays(r, s, raised, low);
    RaisedStays(r, s, raised, low);
    ws, acts := PublishesThree(LOOSE, r, s, low, Recorded(NEW_GUARD, r), AfterTwo(r, s, 100), g);
    ws, acts := PublishesOne(ws, acts, LOOSE, [r, s, low], g, raised, Recorded(g, raised));
    assert [r, s, low] + [raised] == [r, s, low, raised];
  }

  lemma FourActs(acts: seq<Action>, rs: seq<Reading>)
    requires |rs| == 4 && acts == [DoConfigure(ASSET, LOOSE)] + ActsOf(rs)
    ensures acts == [DoConfigure(ASSET, LOOSE), PublishOf(rs[0]), PublishOf(rs[1]), PublishOf(rs[2]), PublishOf(rs[3])]
  {
  }

  lemma BothOrders(r: Reading, s: Reading, raised: Reading, low: Reading)
      returns (ws: seq<World>, acts: seq<Action>, ws': seq<World>, acts': seq<Action>)
    requires Script(r, s, raised, low)
    ensures RunFromGenesis(ws, acts) && RunFromGenesis(ws', acts')
    ensures acts == [DoConfigure(ASSET, LOOSE), PublishOf(r), PublishOf(s), PublishOf(raised), PublishOf(low)]
    ensures acts' == [DoConfigure(ASSET, LOOSE), PublishOf(r), PublishOf(s), PublishOf(low), PublishOf(raised)]
    ensures var g := GuardOf(ws[5], ASSET); g.halted && g.pendingHalt == Some(104)
    ensures var g := GuardOf(ws'[5], ASSET); !g.halted && g.lastGood == Some(100)
  {
    ws, acts := RaisedFirst(r, s, raised, low);
    ws', acts' := LowFirst(r, s, raised, low);
    FourActs(acts, [r, s, raised, low]);
    FourActs(acts', [r, s, low, raised]);
  }

  /** Two runs from genesis that differ only in the order of their last two publishes: in one the asset is
      halted with 104 awaiting confirmation, in the other its price is Ok at 100. */
  lemma OrderHalts() returns (ws: seq<World>, acts: seq<Action>, ws': seq<World>, acts': seq<Action>)
    ensures RunFromGenesis(ws, acts) && RunFromGenesis(ws', acts')
    ensures |acts| == |acts'| == 5 && acts[..3] == acts'[..3] && acts'[3] == acts[4] && acts'[4] == acts[3]
    ensures var g := GuardOf(ws[5], ASSET); g.halted && g.pendingHalt == Some(104)
    ensures var g := GuardOf(ws'[5], ASSET); !g.halted && g.lastGood == Some(100)
  {
    ws, acts, ws', acts' := BothOrders(At("a", 100), At("b", 100), At("a", 108), At("c", 95));
  }
}
