/** Publishing the same readings in another order: every publish evaluates and writes, so the order can show
    in what is stored, and can even decide whether the asset is halted. What a sequence of publishes leaves is
    given here by the readings, the configuration and the figures stored before, for every order, and with
    that exactly when two orders leave the same. */
module GuardOrder {
  import opened Prelude
  import opened Risk
  import opened Medians
  import opened GuardSpec
  import opened GuardPrices

  datatype Reading = Reading(name: string, value: int, at: nat)

  function Recorded(g: Guard, r: Reading): Guard {
    Record(g, r.name, r.value, r.at)
  }

  /** The readings filed one after another, without any evaluation. */
  function RecordAll(g: Guard, rs: seq<Reading>): Guard {
    if rs == [] then g else Recorded(RecordAll(g, rs[..|rs| - 1]), rs[|rs| - 1])
  }

  /** The guard after publishing the readings one after another at one moment, evaluated each time. */
  function PublishAll(g: Guard, c: Config, rs: seq<Reading>, now: nat): Result<Guard> {
    if rs == [] then Done(g) else
      var h :- PublishAll(g, c, rs[..|rs| - 1], now);
      var (_, h') :- Evaluate(Recorded(h, rs[|rs| - 1]), c, now);
      Done(h')
  }

  /** What the last publish of a non-empty sequence answered. */
  function LastAnswer(g: Guard, c: Config, rs: seq<Reading>, now: nat): Option<Quote>
    requires PublishAll(g, c, rs, now).Done?
  {
    if rs == [] then None
    else Some(Evaluate(Recorded(PublishAll(g, c, rs[..|rs| - 1], now).value, rs[|rs| - 1]), c, now).value.0.quote)
  }

  predicate EndsOk(g: Guard, c: Config, rs: seq<Reading>, now: nat) {
    PublishAll(g, c, rs, now).Done? && LastAnswer(g, c, rs, now).Some? && LastAnswer(g, c, rs, now).value.status.Ok?
  }

  /** The next price will become the reference. */
  predicate ReferenceDue(g: Guard, c: Config, now: nat) {
    g.referenceAt.None? || SatSub(now, g.referenceAt.value) >= c.window
  }

  // ----- what one publish does

  /** An evaluation that answers Ok stores its price; any other leaves last good value and reference. */
  lemma EvaluationStores(g: Guard, c: Config, now: nat)
    requires Evaluate(g, c, now).Done?
    ensures var (p, h) := Evaluate(g, c, now).value;
            && h.names == g.names && h.sources == g.sources
            && (p.quote.status.Ok? ==>
                  && FreshValuesOf(g, c, now) != [] && p.quote.value == Median(FreshValuesOf(g, c, now))
                  && !h.halted && h.pendingHalt == g.pendingHalt && h.lastGood == Some(p.quote.value)
                  && (if ReferenceDue(g, c, now) then h.reference == h.lastGood && h.referenceAt == Some(now)
                      else h.reference == g.reference && h.referenceAt == g.referenceAt))
            && (!p.quote.status.Ok? ==> h.reference == g.reference && h.referenceAt == g.referenceAt)
  {
  }

  function FreshValuesOf(g: Guard, c: Config, now: nat): seq<int> {
    Values(FreshOf(g, c, now))
  }

  lemma {:induction false} PublishesFileReadings(g: Guard, c: Config, rs: seq<Reading>, now: nat)
    requires PublishAll(g, c, rs, now).Done?
    ensures var h := PublishAll(g, c, rs, now).value;
            h.names == RecordAll(g, rs).names && h.sources == RecordAll(g, rs).sources
  {
    if rs != [] {
      PublishesFileReadings(g, c, rs[..|rs| - 1], now);
      EvaluationStores(Recorded(PublishAll(g, c, rs[..|rs| - 1], now).value, rs[|rs| - 1]), c, now);
    }
  }

  // ----- what a sequence of publishes leads to, by its readings alone

  /** The fresh readings agree on a price. */
  predicate Agree(values: seq<int>, c: Config) {
    2 <= |values| && WithinBand(SortUp(values), c.bandBps)
  }

  /** The fresh readings once those of `rs` are filed. */
  function ValuesAfter(g: Guard, c: Config, rs: seq<Reading>, now: nat): seq<int> {
    FreshValuesOf(RecordAll(g, rs), c, now)
  }

  /** The medians of the prefixes of `rs` after which the fresh readings agree, in order. */
  function MediansOf(g: Guard, c: Config, rs: seq<Reading>, now: nat): seq<int> {
    if rs == [] then [] else
      MediansOf(g, c, rs[..|rs| - 1], now)
      + if Agree(ValuesAfter(g, c, rs, now), c) then [Median(ValuesAfter(g, c, rs, now))] else []
  }

  /** The last good value the `k`-th median is measured against: the median before it. */
  function BaseFor(g: Guard, ms: seq<int>, k: nat): Option<int>
    requires k <= |ms|
  {
    if k == 0 then g.lastGood else Some(ms[k - 1])
  }

  /** The reference it is measured against: the one stored before, unless that was due; then the first median,
      or without a window the median before. */
  function ReferenceFor(g: Guard, c: Config, ms: seq<int>, k: nat, now: nat): Option<int>
    requires k <= |ms|
  {
    if k == 0 || !ReferenceDue(g, c, now) then g.reference
    else if c.window == 0 then Some(ms[k - 1])
    else Some(ms[0])
  }

  /** The `k`-th median moves too far from the one before it, or from the reference. */
  predicate JumpsAt(g: Guard, c: Config, ms: seq<int>, k: nat, now: nat)
    requires k < |ms|
  {
    MovedTooFar(BaseFor(g, ms, k), ms[k], c.dailyBps) || MovedTooFar(ReferenceFor(g, c, ms, k, now), ms[k], c.windowBps)
  }

  ghost predicate Smooth(g: Guard, c: Config, ms: seq<int>, now: nat) {
    forall k | 0 <= k < |ms| :: !JumpsAt(g, c, ms, k, now)
  }

  lemma JumpsInPrefix(g: Guard, c: Config, ms: seq<int>, k: nat, now: nat)
    requires k + 1 < |ms|
    ensures JumpsAt(g, c, ms[..|ms| - 1], k, now) <==> JumpsAt(g, c, ms, k, now)
  {
    var rest := ms[..|ms| - 1];
    assert rest[k] == ms[k] && rest[0] == ms[0] && (k > 0 ==> rest[k - 1] == ms[k - 1]);
    assert BaseFor(g, rest, k) == BaseFor(g, ms, k) && ReferenceFor(g, c, rest, k, now) == ReferenceFor(g, c, ms, k, now);
  }

  /** How many medians pass before one jumps, or all of them. */
  function PassedBy(g: Guard, c: Config, ms: seq<int>, now: nat): (k: nat)
    ensures k <= |ms| && (k < |ms| ==> JumpsAt(g, c, ms, k, now))
    ensures forall i | 0 <= i < k :: !JumpsAt(g, c, ms, i, now)
  {
    if ms == [] then 0 else
      var k := PassedBy(g, c, ms[..|ms| - 1], now);
      assert forall i: nat | i < |ms| - 1 :: JumpsAt(g, c, ms[..|ms| - 1], i, now) <==> JumpsAt(g, c, ms, i, now) by {
        forall i: nat | i < |ms| - 1 {
          JumpsInPrefix(g, c, ms, i, now);
        }
      }
      if k < |ms| - 1 || JumpsAt(g, c, ms, |ms| - 1, now) then k else |ms|
  }

  /** The guard with the readings of `h` and the figures that medians `ms` leave behind. */
  function LeftBy(g: Guard, h: Guard, c: Config, ms: seq<int>, now: nat): Guard {
    var k := PassedBy(g, c, ms, now);
    h.(lastGood := BaseFor(g, ms, k),
       reference := ReferenceFor(g, c, ms, k, now),
       referenceAt := if k == 0 || !ReferenceDue(g, c, now) then g.referenceAt else Some(now),
       halted := k < |ms|,
       pendingHalt := if k < |ms| then Some(ms[k]) else g.pendingHalt)
  }

  /** As long as nothing jumped, each publish finds room for its readings. */
  ghost predicate Roomy(g: Guard, c: Config, rs: seq<Reading>, now: nat) {
    rs != [] ==>
      && Roomy(g, c, rs[..|rs| - 1], now)
      && (Smooth(g, c, MediansOf(g, c, rs[..|rs| - 1], now), now) ==> |ValuesAfter(g, c, rs, now)| <= CAPACITY)
  }

  /** One more median: it passes, it jumps, or the asset was halted before it. */
  lemma OneMoreMedian(g: Guard, h: Guard, c: Config, ms: seq<int>, m: int, now: nat)
    requires !g.halted
    ensures var before := LeftBy(g, h, c, ms, now);
            LeftBy(g, h, c, ms + [m], now) == if before.halted then before else Track(before, c, m, now).1
  {
    var all := ms + [m];
    assert all[..|all| - 1] == ms;
    var k := PassedBy(g, c, ms, now);
    var before := LeftBy(g, h, c, ms, now);
    if k == |ms| {
      assert BaseFor(g, all, k) == BaseFor(g, ms, k) && ReferenceFor(g, c, all, k, now) == ReferenceFor(g, c, ms, k, now);
      assert ReferenceDue(before, c, now) <==> ReferenceDue(g, c, now) && (k == 0 || c.window == 0);
    }
  }

  /** For every guard that is not halted and every sequence of readings: the publishes all succeed exactly when
      there is room, and what they leave is given by the medians of the agreeing prefixes. */
  lemma {:induction false} PublishingLeaves(g: Guard, c: Config, rs: seq<Reading>, now: nat)
    requires !g.halted
    ensures PublishAll(g, c, rs, now).Done? <==> Roomy(g, c, rs, now)
    ensures PublishAll(g, c, rs, now).Done? ==>
              PublishAll(g, c, rs, now).value == LeftBy(g, RecordAll(g, rs), c, MediansOf(g, c, rs, now), now)
  {
    if rs != [] {
      var rest, last := rs[..|rs| - 1], rs[|rs| - 1];
      PublishingLeaves(g, c, rest, now);
      if PublishAll(g, c, rest, now).Done? {
        LastPublish(g, c, rs, now);
      }
    }
  }

  lemma LastPublish(g: Guard, c: Config, rs: seq<Reading>, now: nat)
    requires !g.halted && rs != []
    requires PublishAll(g, c, rs[..|rs| - 1], now)
             == Done(LeftBy(g, RecordAll(g, rs[..|rs| - 1]), c, MediansOf(g, c, rs[..|rs| - 1], now), now))
    ensures PublishAll(g, c, rs, now).Done? <==>
            (Smooth(g, c, MediansOf(g, c, rs[..|rs| - 1], now), now) ==> |ValuesAfter(g, c, rs, now)| <= CAPACITY)
    ensures PublishAll(g, c, rs, now).Done? ==>
              PublishAll(g, c, rs, now).value == LeftBy(g, RecordAll(g, rs), c, MediansOf(g, c, rs, now), now)
  {
    var rest, last := rs[..|rs| - 1], rs[|rs| - 1];
    var ms := MediansOf(g, c, rest, now);
    var before := LeftBy(g, RecordAll(g, rs), c, ms, now);
    RecordsOnlyReadings(g, rs);
    RecordsOnlyReadings(g, rest);
    assert Recorded(PublishAll(g, c, rest, now).value, last) == before;
    assert FreshValuesOf(before, c, now) == ValuesAfter(g, c, rs, now);
    assert !before.halted <==> Smooth(g, c, ms, now);
    if Agree(ValuesAfter(g, c, rs, now), c) {
      OneMoreMedian(g, RecordAll(g, rs), c, ms, Median(ValuesAfter(g, c, rs, now)), now);
    } else {
      assert MediansOf(g, c, rs, now) == ms;
    }
  }

  // ----- permutations

  ghost predicate NamedApart(rs: seq<Reading>) {
    forall i, j | 0 <= i < j < |rs| :: rs[i].name != rs[j].name
  }

  ghost predicate NoTwice(names: seq<string>) {
    forall i, j | 0 <= i < j < |names| :: names[i] != names[j]
  }

  ghost predicate Names(rs: seq<Reading>, name: string) {
    exists r :: r in rs && r.name == name
  }

  /** The source `name` ends up with the reading that names it, or with what it had. */
  ghost predicate FiledAt(g: Guard, h: Guard, rs: seq<Reading>, name: string) {
    if Names(rs, name)
    then name in h.names && name in h.sources
         && exists r :: r in rs && r.name == name && h.sources[name] == Source(name, r.value, r.at, false)
    else (name in h.names <==> name in g.names) && (name in h.sources <==> name in g.sources)
         && (name in g.sources && name in h.sources ==> h.sources[name] == g.sources[name])
  }

  lemma {:induction false} Filed(g: Guard, rs: seq<Reading>, name: string)
    requires NamedApart(rs)
    ensures FiledAt(g, RecordAll(g, rs), rs, name)
  {
    if rs != [] {
      var last, rest := rs[|rs| - 1], rs[..|rs| - 1];
      Filed(g, rest, name);
      assert rs == rest + [last];
      if last.name == name {
        assert last in rs && Names(rs, name);
      } else {
        assert Names(rs, name) <==> Names(rest, name);
      }
    }
  }

  lemma {:induction false} ListedOnce(g: Guard, rs: seq<Reading>)
    requires NoTwice(g.names)
    ensures NoTwice(RecordAll(g, rs).names)
  {
    if rs != [] {
      ListedOnce(g, rs[..|rs| - 1]);
    }
  }

  /** Two orders of the same readings agree on every source. */
  lemma AgreeAt(g: Guard, h: Guard, h': Guard, rs: seq<Reading>, rs': seq<Reading>, name: string)
    requires NamedApart(rs) && (forall r :: r in rs <==> r in rs')
    requires FiledAt(g, h, rs, name) && FiledAt(g, h', rs', name)
    ensures (name in h.names <==> name in h'.names) && (name in h.sources <==> name in h'.sources)
    ensures name in h.sources && name in h'.sources ==> h.sources[name] == h'.sources[name]
  {
    assert Names(rs, name) <==> Names(rs', name);
    if Names(rs, name) {
      var r :| r in rs && r.name == name && h.sources[name] == Source(name, r.value, r.at, false);
      var r' :| r' in rs' && r'.name == name && h'.sources[name] == Source(name, r'.value, r'.at, false);
      OneNamed(rs, r, r');
    }
  }

  lemma OneNamed(rs: seq<Reading>, r: Reading, r': Reading)
    requires NamedApart(rs) && r in rs && r' in rs && r.name == r'.name
    ensures r == r'
  {
    var i :| 0 <= i < |rs| && rs[i] == r;
    var j :| 0 <= j < |rs| && rs[j] == r';
  }

  lemma {:induction false} CountOnce(names: seq<string>)
    requires NoTwice(names)
    ensures forall n :: multiset(names)[n] == if n in names then 1 else 0
  {
    if names != [] {
      var last, rest := names[|names| - 1], names[..|names| - 1];
      CountOnce(rest);
      assert names == rest + [last];
      assert last !in rest;
    }
  }

  /** Filing the same readings in another order leaves the same sources, listed in another order. */
  lemma FiledAlike(g: Guard, rs: seq<Reading>, rs': seq<Reading>)
    requires NamedApart(rs) && NamedApart(rs') && multiset(rs) == multiset(rs') && NoTwice(g.names)
    ensures RecordAll(g, rs).sources == RecordAll(g, rs').sources
    ensures multiset(RecordAll(g, rs).names) == multiset(RecordAll(g, rs').names)
  {
    var h, h' := RecordAll(g, rs), RecordAll(g, rs');
    SameElements(rs, rs');
    forall n
      ensures (n in h.names <==> n in h'.names) && (n in h.sources <==> n in h'.sources)
      ensures n in h.sources && n in h'.sources ==> h.sources[n] == h'.sources[n]
    {
      Filed(g, rs, n);
      Filed(g, rs', n);
      AgreeAt(g, h, h', rs, rs', n);
    }
    SameSources(h.sources, h'.sources);
    ListedOnce(g, rs);
    ListedOnce(g, rs');
    CountOnce(h.names);
    CountOnce(h'.names);
    SameMultisets(multiset(h.names), multiset(h'.names));
  }

  lemma SameElements(rs: seq<Reading>, rs': seq<Reading>)
    requires multiset(rs) == multiset(rs')
    ensures forall r :: r in rs <==> r in rs'
  {
    assert forall r :: r in rs <==> r in multiset(rs);
    assert forall r :: r in rs' <==> r in multiset(rs');
  }

  lemma SameSources(a: map<string, Source>, b: map<string, Source>)
    requires forall n :: (n in a <==> n in b) && (n in a && n in b ==> a[n] == b[n])
    ensures a == b
  {
    assert a.Keys == b.Keys;
  }

  lemma SameMultisets(a: multiset<string>, b: multiset<string>)
    requires forall n :: a[n] == b[n]
    ensures a == b
  {
  }

  // ----- when the order shows

  /** Two guards that differ at most in the order their sources are listed in. */
  predicate Alike(h: Guard, h': Guard) {
    h' == h.(names := h'.names)
  }

  /** Publishing in an order ends in an Ok price exactly when there is room for it, no median on the way jumps,
      and all the readings together agree. */
  lemma EndsOkExactly(g: Guard, c: Config, rs: seq<Reading>, now: nat)
    requires !g.halted
    ensures EndsOk(g, c, rs, now) <==>
            rs != [] && Roomy(g, c, rs, now) && Smooth(g, c, MediansOf(g, c, rs, now), now) && Agree(ValuesAfter(g, c, rs, now), c)
  {
    PublishingLeaves(g, c, rs, now);
    if rs != [] && PublishAll(g, c, rs, now).Done? {
      PublishingLeaves(g, c, rs[..|rs| - 1], now);
      LastPublish(g, c, rs, now);
      RecordsOnlyReadings(g, rs);
      RecordsOnlyReadings(g, rs[..|rs| - 1]);
      LastIsOk(g, c, rs, now);
    }
  }

  lemma LastIsOk(g: Guard, c: Config, rs: seq<Reading>, now: nat)
    requires rs != [] && PublishAll(g, c, rs, now).Done?
    ensures var before := Recorded(PublishAll(g, c, rs[..|rs| - 1], now).value, rs[|rs| - 1]);
            LastAnswer(g, c, rs, now).value.status.Ok? <==>
            !before.halted && Agree(FreshValuesOf(before, c, now), c) && !PublishAll(g, c, rs, now).value.halted
  {
    AnswersOk(Recorded(PublishAll(g, c, rs[..|rs| - 1], now).value, rs[|rs| - 1]), c, now);
  }

  lemma AnswersOk(g: Guard, c: Config, now: nat)
    requires Evaluate(g, c, now).Done?
    ensures Evaluate(g, c, now).value.0.quote.status.Ok? <==>
            !g.halted && Agree(FreshValuesOf(g, c, now), c) && !Evaluate(g, c, now).value.1.halted
  {
  }

  /** For all orders of the same readings, of different sources and at one moment: an order halts the asset
      exactly when one of its medians jumps, and two orders that find room leave the same exactly when
      the medians they met leave the same. */
  lemma OrdersLeaveAlike(g: Guard, c: Config, rs: seq<Reading>, rs': seq<Reading>, now: nat)
    requires NamedApart(rs) && NamedApart(rs') && multiset(rs) == multiset(rs') && NoTwice(g.names) && !g.halted
    requires Roomy(g, c, rs, now) && Roomy(g, c, rs', now)
    ensures PublishAll(g, c, rs, now).Done? && PublishAll(g, c, rs', now).Done?
    ensures var h, h' := PublishAll(g, c, rs, now).value, PublishAll(g, c, rs', now).value;
            var ms, ms' := MediansOf(g, c, rs, now), MediansOf(g, c, rs', now);
            && (h.halted <==> !Smooth(g, c, ms, now)) && (h'.halted <==> !Smooth(g, c, ms', now))
            && (Alike(h, h') <==> LeftBy(g, g, c, ms, now) == LeftBy(g, g, c, ms', now))
  {
    PublishingLeaves(g, c, rs, now);
    PublishingLeaves(g, c, rs', now);
    FiledAlike(g, rs, rs');
    RecordsOnlyReadings(g, rs);
    RecordsOnlyReadings(g, rs');
  }

  /** In particular, when all the readings together agree and neither order halts: both end Ok at the same
      price and last good value, and everything stored agrees exactly when the reference had no chance to tell
      the orders apart: it was not due, or it is replaced at every price, or both met the same first median. */
  lemma OrderShowsInReference(g: Guard, c: Config, rs: seq<Reading>, rs': seq<Reading>, now: nat)
    requires NamedApart(rs) && NamedApart(rs') && multiset(rs) == multiset(rs') && NoTwice(g.names) && !g.halted
    requires Roomy(g, c, rs, now) && Roomy(g, c, rs', now) && rs != [] && Agree(ValuesAfter(g, c, rs, now), c)
    requires Smooth(g, c, MediansOf(g, c, rs, now), now) && Smooth(g, c, MediansOf(g, c, rs', now), now)
    ensures EndsOk(g, c, rs, now) && EndsOk(g, c, rs', now)
    ensures MediansOf(g, c, rs, now) != [] && MediansOf(g, c, rs', now) != []
    ensures var h, h' := PublishAll(g, c, rs, now).value, PublishAll(g, c, rs', now).value;
            && h.lastGood == h'.lastGood == Some(Median(ValuesAfter(g, c, rs, now))) && !h.halted && !h'.halted
            && (Alike(h, h') <==>
                 c.window == 0 || !ReferenceDue(g, c, now) || MediansOf(g, c, rs, now)[0] == MediansOf(g, c, rs', now)[0])
  {
    SameValuesAfter(g, c, rs, rs', now);
    EndsOkExactly(g, c, rs, now);
    EndsOkExactly(g, c, rs', now);
    OrdersLeaveAlike(g, c, rs, rs', now);
    SmoothLeaves(g, c, rs, now);
    SmoothLeaves(g, c, rs', now);
  }

  lemma SameValuesAfter(g: Guard, c: Config, rs: seq<Reading>, rs': seq<Reading>, now: nat)
    requires NamedApart(rs) && NamedApart(rs') && multiset(rs) == multiset(rs') && NoTwice(g.names)
    ensures RecordAll(g, rs').sources == RecordAll(g, rs).sources && |rs| == |rs'|
    ensures Agree(ValuesAfter(g, c, rs, now), c) ==>
              Agree(ValuesAfter(g, c, rs', now), c) && Median(ValuesAfter(g, c, rs', now)) == Median(ValuesAfter(g, c, rs, now))
  {
    FiledAlike(g, rs, rs');
    var f, f' := RecordAll(g, rs), RecordAll(g, rs');
    var values, values' := ValuesAfter(g, c, rs, now), ValuesAfter(g, c, rs', now);
    FreshPermuted(f.names, f'.names, f.sources, c.maxStaleness, now);
    assert |values| == |multiset(values)| && |values'| == |multiset(values')| && |rs| == |multiset(rs)| && |rs'| == |multiset(rs')|;
    if |values| >= 2 {
      MedianOrderFree(values, values');
    }
  }

  /** What is left once every median has passed and the last readings agree. */
  lemma SmoothLeaves(g: Guard, c: Config, rs: seq<Reading>, now: nat)
    requires !g.halted && Roomy(g, c, rs, now) && rs != [] && Agree(ValuesAfter(g, c, rs, now), c)
    requires Smooth(g, c, MediansOf(g, c, rs, now), now)
    ensures var ms, m := MediansOf(g, c, rs, now), Median(ValuesAfter(g, c, rs, now));
            && PublishAll(g, c, rs, now).Done? && ms != []
            && PublishAll(g, c, rs, now).value.lastGood == Some(m)
            && LeftBy(g, g, c, ms, now)
               == g.(lastGood := Some(m), halted := false,
                     reference := if !ReferenceDue(g, c, now) then g.reference else if c.window == 0 then Some(m) else Some(ms[0]),
                     referenceAt := if ReferenceDue(g, c, now) then Some(now) else g.referenceAt)
  {
    PublishingLeaves(g, c, rs, now);
    var ms := MediansOf(g, c, rs, now);
    assert PassedBy(g, c, ms, now) == |ms| && ms[|ms| - 1] == Median(ValuesAfter(g, c, rs, now));
  }

  lemma {:induction false} RecordsOnlyReadings(g: Guard, rs: seq<Reading>)
    ensures RecordAll(g, rs) == g.(names := RecordAll(g, rs).names, sources := RecordAll(g, rs).sources)
  {
    if rs != [] {
      RecordsOnlyReadings(g, rs[..|rs| - 1]);
    }
  }

  /** While halted, order never shows: no publish moves anything but the readings themselves. */
  lemma {:induction false} HaltedOrderNeverShows(g: Guard, c: Config, rs: seq<Reading>, now: nat)
    requires g.halted
    ensures PublishAll(g, c, rs, now) == Done(RecordAll(g, rs)) && RecordAll(g, rs).halted
  {
    if rs != [] {
      HaltedOrderNeverShows(g, c, rs[..|rs| - 1], now);
    }
  }

  // ----- in a run of the contract

  predicate PublishesAs(w: World, a: Action, asset: Address, r: Reading) {
    a == DoPublishSource(asset, r.name, r.value, r.at) && Apply(w, a).Done?
  }

  /** The steps publish the readings `rs` of one asset, one after another. */
  ghost predicate Publishing(ws: seq<World>, acts: seq<Action>, asset: Address, rs: seq<Reading>) {
    && |ws| == |acts| + 1 && |rs| == |acts|
    && forall i | 0 <= i < |rs| :: PublishesAs(ws[i], acts[i], asset, rs[i]) && ws[i + 1] == Step(ws[i], acts[i])
  }

  predicate PublishLink(g: Guard, c: Config, r: Reading, now: nat, g': Guard) {
    Evaluate(Recorded(g, r), c, now).Done? && g' == Evaluate(Recorded(g, r), c, now).value.1
  }

  lemma {:induction false} ChainIsPublishAll(gs: seq<Guard>, c: Config, rs: seq<Reading>, now: nat)
    requires |gs| == |rs| + 1 && forall i | 0 <= i < |rs| :: PublishLink(gs[i], c, rs[i], now, gs[i + 1])
    ensures PublishAll(gs[0], c, rs, now) == Done(gs[|rs|])
  {
    if rs != [] {
      var k := |rs| - 1;
      forall i | 0 <= i < k
        ensures PublishLink(gs[..k + 1][i], c, rs[..k][i], now, gs[..k + 1][i + 1])
      {
        assert PublishLink(gs[i], c, rs[i], now, gs[i + 1]);
      }
      ChainIsPublishAll(gs[..k + 1], c, rs[..k], now);
      assert PublishLink(gs[k], c, rs[k], now, gs[k + 1]);
    }
  }

  /** One publish: the clock and the configurations stand still, and the guard moves by one link. */
  ghost predicate Links(w: World, w': World, asset: Address, r: Reading) {
    && w'.now == w.now && w'.configs == w.configs && asset in w.configs
    && PublishLink(GuardOf(w, asset), w.configs[asset], r, w.now, GuardOf(w', asset))
  }

  lemma {:induction false} ClockStands(ws: seq<World>, asset: Address, rs: seq<Reading>, i: nat)
    requires |ws| == |rs| + 1 && i <= |rs| && forall j | 0 <= j < |rs| :: Links(ws[j], ws[j + 1], asset, rs[j])
    ensures ws[i].now == ws[0].now && ws[i].configs == ws[0].configs
  {
    if i > 0 {
      ClockStands(ws, asset, rs, i - 1);
      assert Links(ws[i - 1], ws[i - 1 + 1], asset, rs[i - 1]);
    }
  }

  /** What such a stretch of a run stores for the asset is `PublishAll`. */
  lemma PublishingStores(ws: seq<World>, acts: seq<Action>, asset: Address, rs: seq<Reading>)
    requires Publishing(ws, acts, asset, rs) && asset in ws[0].configs
    ensures PublishAll(GuardOf(ws[0], asset), ws[0].configs[asset], rs, ws[0].now) == Done(GuardOf(ws[|rs|], asset))
  {
    forall i | 0 <= i < |rs|
      ensures Links(ws[i], ws[i + 1], asset, rs[i])
    {
      assert PublishesAs(ws[i], acts[i], asset, rs[i]);
      PublishStores(ws[i], acts[i], ws[i + 1], asset, rs[i]);
    }
    LinksChain(ws, asset, rs);
  }

  lemma LinksChain(ws: seq<World>, asset: Address, rs: seq<Reading>)
    requires |ws| == |rs| + 1 && asset in ws[0].configs && forall j | 0 <= j < |rs| :: Links(ws[j], ws[j + 1], asset, rs[j])
    ensures PublishAll(GuardOf(ws[0], asset), ws[0].configs[asset], rs, ws[0].now) == Done(GuardOf(ws[|rs|], asset))
  {
    var gs := seq(|ws|, i requires 0 <= i < |ws| => GuardOf(ws[i], asset));
    forall i | 0 <= i < |rs|
      ensures PublishLink(gs[i], ws[0].configs[asset], rs[i], ws[0].now, gs[i + 1])
    {
      ClockStands(ws, asset, rs, i);
      assert Links(ws[i], ws[i + 1], asset, rs[i]);
    }
    ChainIsPublishAll(gs, ws[0].configs[asset], rs, ws[0].now);
  }

  lemma PublishStores(w: World, a: Action, w': World, asset: Address, r: Reading)
    requires PublishesAs(w, a, asset, r) && w' == Step(w, a)
    ensures asset in w.configs && Evaluate(Recorded(GuardOf(w, asset), r), w.configs[asset], w.now).Done?
    ensures w'.now == w.now && w'.configs == w.configs
    ensures GuardOf(w', asset) == Evaluate(Recorded(GuardOf(w, asset), r), w.configs[asset], w.now).value.1
  {
  }
}
