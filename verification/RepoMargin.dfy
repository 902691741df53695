/** Margin calls on repo trades: the amount asked for is exact, and no trade defaults early. */
module RepoMargin {
  import opened Prelude
  import opened Risk
  import opened RepoSpec
  import RepoEscrow

  // ----- the amount of a call

  lemma ExposurePositive(t: Trade, now: nat)
    requires t.cash > 0
    ensures Exposure(t, now) > 0
  {
    RepoEscrow.InterestNonNegative(t.cash, t.rateBps, SatSub(now, t.settledAt.GetOr(now)));
  }

  /** An evaluation that leaves a call open asks for exactly the value that brings the position to the
      threshold: any further collateral worth up to that amount leaves the call open, and one unit of
      value more cures it. An evaluation that leaves none open found the position under the
      threshold. */
  lemma CallAmountExact(w: World, id: nat, q: Quote, extra: nat)
    requires RepoEscrow.WellFormed(w) && CallMargin(w, id, q).Done?
    ensures var t := w.repo.trades[id];
            var t' := CallMargin(w, id, q).value.repo.trades[id];
            var c := w.repo.configs[t.asset];
            var collateral := CollateralValue(t.units, q.value, c.haircutBps).value;
            && t'.callPending == Judge(Exposure(t, w.now), collateral, c.thresholds).AtCall()
            && (t'.callPending ==>
                  && t'.callAmount == CallTarget(Exposure(t, w.now), c.thresholds) - collateral >= 0
                  && (Judge(Exposure(t, w.now), collateral + extra, c.thresholds).AtCall() <==> extra <= t'.callAmount))
  {
    var t := w.repo.trades[id];
    var c := w.repo.configs[t.asset];
    var collateral := CollateralValue(t.units, q.value, c.haircutBps).value;
    ExposurePositive(t, w.now);
    CallOpenUpToTarget(Exposure(t, w.now), collateral, c.thresholds);
    CallOpenUpToTarget(Exposure(t, w.now), collateral + extra, c.thresholds);
  }

  /** Topping up at a fixed price never worsens the margin state. */
  lemma TopUpNeverWorsens(w: World, borrower: Address, id: nat, extra: int, q: Quote, c: AssetConfig)
    requires RepoEscrow.WellFormed(w) && TopUp(w, borrower, id, extra, q).Done? && q.status.Ok? && q.value >= 0
    requires w.repo.trades[id].asset in w.repo.configs && c == w.repo.configs[w.repo.trades[id].asset]
    ensures var before := EvaluateMargin(w.repo.trades[id], c, q, w.now).value.value;
            var after := EvaluateMargin(TopUp(w, borrower, id, extra, q).value.repo.trades[id], c, q, w.now).value.value;
            after.exposure == before.exposure && after.collateral >= before.collateral
            && after.state.Rank() <= before.state.Rank()
  {
    var t := w.repo.trades[id];
    var t' := TopUp(w, borrower, id, extra, q).value.repo.trades[id];
    assert t'.units == t.units + extra && Exposure(t', w.now) == Exposure(t, w.now);
    MoreUnitsWorthMore(t.units, t'.units, q.value, c.haircutBps);
    MoreCollateralNeverWorse(Exposure(t, w.now), CollateralValue(t.units, q.value, c.haircutBps).value,
                             CollateralValue(t'.units, q.value, c.haircutBps).value, c.thresholds);
  }

  // ----- no early default

  function GraceOf(w: World): nat {
    w.repo.cureGrace.GetOr(DEFAULT_GRACE_SECONDS)
  }

  predicate CallOpen(w: World, id: nat) {
    id in w.repo.trades && w.repo.trades[id].callPending
  }

  /** Step `k` of the run is the margin call that opened the call now pending with deadline `d`. */
  ghost predicate OpenedAt(ws: seq<World>, acts: seq<Action>, k: nat, n: nat, id: nat, d: nat)
    requires |ws| == |acts| + 1 && n <= |acts|
  {
    && k < n
    && acts[k].DoCallMargin? && acts[k].id == id && acts[k].quote.status.Ok?
    && !CallOpen(ws[k], id)
    && d == ws[k].now + GraceOf(ws[k]) && GraceOf(ws[k]) >= MIN_GRACE_SECONDS
    && (forall j | k < j <= n :: CallOpen(ws[j], id) && ws[j].repo.trades[id].cureDeadline == Some(d))
  }

  /** Steps that neither open, clear nor re-time any call, nor change the window of the next one. */
  ghost predicate KeepsCalls(w: World, w': World) {
    && w'.repo.cureGrace == w.repo.cureGrace
    && w.repo.nextId <= w'.repo.nextId
    && (forall j | j in w'.repo.trades ::
          if j in w.repo.trades
          then w'.repo.trades[j].callPending == w.repo.trades[j].callPending
               && w'.repo.trades[j].cureDeadline == w.repo.trades[j].cureDeadline
          else j < w'.repo.nextId && !w'.repo.trades[j].callPending)
  }

  lemma ProposeKeepsCalls(w: World, l: Address, b: Address, asset: Address, units: int, cash: int, rate: nat, k: Kind, m: nat)
    requires Propose(w, l, b, asset, units, cash, rate, k, m).Done? && w.repo.nextId !in w.repo.trades
    ensures KeepsCalls(w, Propose(w, l, b, asset, units, cash, rate, k, m).value)
  {
  }

  lemma CancelKeepsCalls(w: World, caller: Address, id: nat)
    requires CancelProposal(w, caller, id).Done?
    ensures KeepsCalls(w, CancelProposal(w, caller, id).value)
  {
  }

  lemma SettleKeepsCalls(w: World, b: Address, id: nat)
    requires AcceptAndSettle(w, b, id).Done?
    ensures KeepsCalls(w, AcceptAndSettle(w, b, id).value)
  {
    RepoEscrow.SettleStorage(w, b, id);
  }

  lemma UnwindKeepsCalls(w: World, caller: Address, id: nat)
    requires Unwind(w, caller, id).Done?
    ensures KeepsCalls(w, Unwind(w, caller, id).value)
  {
    RepoEscrow.UnwindStorage(w, caller, id);
  }

  lemma DefaultCloseKeepsCalls(w: World, id: nat, q: Quote)
    requires DefaultClose(w, id, q).Done?
    ensures KeepsCalls(w, DefaultClose(w, id, q).value)
  {
    RepoEscrow.DefaultCloseStorage(w, id, q);
  }

  lemma DefaultAtMaturityKeepsCalls(w: World, caller: Address, id: nat, q: Quote)
    requires DefaultAtMaturity(w, caller, id, q).Done?
    ensures KeepsCalls(w, DefaultAtMaturity(w, caller, id, q).value)
  {
  }

  lemma OtherStepKeepsCalls(w: World, a: Action)
    requires Apply(w, a).Done? && MovesNoTrade(a) && !a.DoSetCureGrace?
    ensures KeepsCalls(w, Apply(w, a).value)
  {
  }

  lemma StepKeepsCalls(w: World, a: Action)
    requires Apply(w, a).Done? && !a.DoCallMargin? && !a.DoTopUp? && !a.DoSetCureGrace?
    requires w.repo.nextId !in w.repo.trades
    ensures KeepsCalls(w, Apply(w, a).value)
  {
    match a
    case DoPropose(l, b, asset, units, cash, rate, k, m) => ProposeKeepsCalls(w, l, b, asset, units, cash, rate, k, m);
    case DoCancel(caller, i) => CancelKeepsCalls(w, caller, i);
    case DoAccept(b, i) => SettleKeepsCalls(w, b, i);
    case DoUnwind(caller, i) => UnwindKeepsCalls(w, caller, i);
    case DoDefaultClose(i, q) => DefaultCloseKeepsCalls(w, i, q);
    case DoDefaultAtMaturity(caller, i, q) => DefaultAtMaturityKeepsCalls(w, caller, i, q);
    case _ => OtherStepKeepsCalls(w, a);
  }

  ghost predicate GraceFloor(w: World) {
    GraceOf(w) >= MIN_GRACE_SECONDS && forall j | j in w.repo.trades :: j < w.repo.nextId
  }

  /** What one step can do to a margin call: a pending call keeps its deadline or is cleared, and only
      an evaluation at an Ok price opens one. */
  ghost predicate CallMoves(w: World, a: Action, w': World, id: nat) {
    && GraceFloor(w')
    && (CallOpen(w', id) && CallOpen(w, id) ==> w'.repo.trades[id].cureDeadline == w.repo.trades[id].cureDeadline)
    && (CallOpen(w', id) && !CallOpen(w, id) ==>
          && a.DoCallMargin? && a.id == id && a.quote.status.Ok?
          && w'.repo.trades[id].cureDeadline == Some(w.now + GraceOf(w)))
  }

  lemma CallMarginMoves(w: World, i: nat, q: Quote, id: nat)
    requires GraceFloor(w) && CallMargin(w, i, q).Done?
    ensures CallMoves(w, DoCallMargin(i, q), CallMargin(w, i, q).value, id)
  {
    RepoEscrow.CallMarginStorage(w, i, q);
    var t, t' := w.repo.trades[i], CallMargin(w, i, q).value.repo.trades[i];
    assert t'.callPending ==> t'.cureDeadline == if t.callPending then t.cureDeadline else Some(w.now + GraceOf(w));
  }

  lemma TopUpMoves(w: World, b: Address, i: nat, extra: int, q: Quote, id: nat)
    requires GraceFloor(w) && TopUp(w, b, i, extra, q).Done?
    ensures CallMoves(w, DoTopUp(b, i, extra, q), TopUp(w, b, i, extra, q).value, id)
  {
    RepoEscrow.TopUpStorage(w, b, i, extra, q);
    var t, t' := w.repo.trades[i], TopUp(w, b, i, extra, q).value.repo.trades[i];
    assert t'.callPending ==> t.callPending && t'.cureDeadline == t.cureDeadline;
  }

  lemma CallStep(w: World, a: Action, id: nat)
    requires GraceFloor(w)
    ensures CallMoves(w, a, Step(w, a), id)
  {
    if Apply(w, a).Done? {
      match a
      case DoCallMargin(i, q) => CallMarginMoves(w, i, q, id);
      case DoTopUp(b, i, extra, q) => TopUpMoves(w, b, i, extra, q, id);
      case DoSetCureGrace(_) =>
      case _ => StepKeepsCalls(w, a);
    }
  }

  lemma {:induction false} GraceNeverShort(ws: seq<World>, acts: seq<Action>, n: nat)
    requires IsRun(ws, acts) && n <= |acts| && IsGenesis(ws[0])
    ensures GraceFloor(ws[n])
  {
    if n > 0 {
      GraceNeverShort(ws, acts, n - 1);
      CallStep(ws[n - 1], acts[n - 1], 0);
    }
  }

  /** Every pending call was opened by one evaluation, and has kept that evaluation's deadline. */
  lemma {:induction false} PendingCallHasOrigin(ws: seq<World>, acts: seq<Action>, n: nat, id: nat) returns (k: nat, d: nat)
    requires IsRun(ws, acts) && n <= |acts| && IsGenesis(ws[0])
    requires CallOpen(ws[n], id)
    ensures OpenedAt(ws, acts, k, n, id, d)
  {
    GraceNeverShort(ws, acts, n - 1);
    CallStep(ws[n - 1], acts[n - 1], id);
    if CallOpen(ws[n - 1], id) {
      k, d := PendingCallHasOrigin(ws, acts, n - 1, id);
    } else {
      k, d := n - 1, ws[n - 1].now + GraceOf(ws[n - 1]);
    }
  }

  /** A default on a margin call happens only after the full cure window of the call that is still
      open: it was opened at some earlier step by an evaluation at an Ok price, was never cleared or
      re-timed since, its window was at least a minute, and the position is still at the call
      threshold on an Ok price. */
  lemma NoEarlyDefault(ws: seq<World>, acts: seq<Action>, n: nat, id: nat, q: Quote)
    requires IsRun(ws, acts) && n < |acts| && IsGenesis(ws[0])
    requires acts[n] == DoDefaultClose(id, q) && DefaultClose(ws[n], id, q).Done?
    ensures q.status.Ok?
    ensures exists k: nat, d: nat :: OpenedAt(ws, acts, k, n, id, d) && d <= ws[n].now && ws[k].now + MIN_GRACE_SECONDS <= ws[n].now
    ensures var t := ws[n].repo.trades[id];
            var c := ws[n].repo.configs[t.asset];
            Judge(Exposure(t, ws[n].now), CollateralValue(t.units, q.value, c.haircutBps).value, c.thresholds).AtCall()
  {
    var k, d := PendingCallHasOrigin(ws, acts, n, id);
    assert OpenedAt(ws, acts, k, n, id, d);
  }
}
