/** Checkpointed interest against the exact integral of drawn principal over time. */
module CreditInterest {
  import opened Prelude
  import opened CreditSpec
  import CreditFunds
  import CreditLiquidation

  const DENOMINATOR: int := SECONDS_PER_YEAR * BPS

  /** The exact interest of a line, times `DENOMINATOR`: drawn principal times rate, second by second. */
  ghost function Exact(ws: seq<World>, acts: seq<Action>, n: nat, line: nat): int
    requires |ws| == |acts| + 1 && n <= |acts|
  {
    if n == 0 then 0 else
      Exact(ws, acts, n - 1, line)
      + if acts[n - 1].Elapse? && line in ws[n - 1].credit.lines
        then ws[n - 1].credit.lines[line].drawn * ws[n - 1].credit.lines[line].rateBps * acts[n - 1].seconds
        else 0
  }

  predicate Checkpoints(w: World, a: Action, line: nat) {
    (a.DoDraw? || a.DoRepay?) && a.line == line && Apply(w, a).Done?
  }

  /** How many draws and repayments the line has seen. */
  ghost function CheckpointCount(ws: seq<World>, acts: seq<Action>, n: nat, line: nat): nat
    requires |ws| == |acts| + 1 && n <= |acts|
  {
    if n == 0 then 0 else
      CheckpointCount(ws, acts, n - 1, line) + if Checkpoints(ws[n - 1], acts[n - 1], line) then 1 else 0
  }

  /** All interest ever repaid on the line. */
  ghost function Repaid(ws: seq<World>, acts: seq<Action>, n: nat, line: nat): int
    requires |ws| == |acts| + 1 && n <= |acts|
  {
    if n == 0 then 0 else
      Repaid(ws, acts, n - 1, line)
      + if acts[n - 1].DoRepay? && Checkpoints(ws[n - 1], acts[n - 1], line)
        then InterestPart(Accrue(ws[n - 1].credit.lines[line], ws[n - 1].now), acts[n - 1].amount)
        else 0
  }

  /** Interest booked on the line so far, repaid or not. */
  ghost function Charged(ws: seq<World>, acts: seq<Action>, n: nat, line: nat): int
    requires |ws| == |acts| + 1 && n <= |acts| && line in ws[n].credit.lines
  {
    ws[n].credit.lines[line].accrued + Repaid(ws, acts, n, line)
  }

  /** The exact interest not yet covered by a checkpoint. */
  function Pending(l: Line, now: nat): int {
    l.drawn * l.rateBps * SatSub(now, l.lastAccrual)
  }

  /** `settled` exact interest was booked as `charged` over `k` checkpoints: never too much, and short by
      less than one stroop each time. */
  predicate Bounded(settled: int, charged: int, k: nat) {
    charged * DENOMINATOR <= settled <= charged * DENOMINATOR + k * (DENOMINATOR - 1)
  }

  predicate OnTrack(l: Line, now: nat, exact: int, charged: int, k: nat) {
    l.drawn >= 0 && l.accrued >= 0 && l.lastAccrual <= now && Bounded(exact - Pending(l, now), charged, k)
  }

  /** A checkpoint books the pending interest, short by less than one stroop. */
  lemma DeltaRoundsDown(l: Line, now: nat)
    requires l.drawn >= 0
    ensures InterestDelta(l, now) >= 0
    ensures InterestDelta(l, now) * DENOMINATOR <= Pending(l, now) <= InterestDelta(l, now) * DENOMINATOR + (DENOMINATOR - 1)
  {
    assert l.drawn * l.rateBps >= 0;
    assert Pending(l, now) >= 0;
    QuotQuot(Pending(l, now), SECONDS_PER_YEAR, BPS);
    var d := InterestDelta(l, now);
    assert (d + 1) * DENOMINATOR == d * DENOMINATOR + DENOMINATOR;
  }

  lemma BoundedAdds(settled: int, charged: int, k: nat, more: int, booked: int)
    requires Bounded(settled, charged, k) && booked * DENOMINATOR <= more <= booked * DENOMINATOR + (DENOMINATOR - 1)
    ensures Bounded(settled + more, charged + booked, k + 1)
  {
  }

  lemma BoundedWithin(settled: int, charged: int, k: nat)
    requires Bounded(settled, charged, k) && k > 0
    ensures Within(settled, charged, k)
  {
  }

  /** `booked` is at most the exact figure and less than `k` stroops below it. */
  predicate Within(exact: int, booked: int, k: nat) {
    booked * DENOMINATOR <= exact < (booked + k) * DENOMINATOR
  }

  lemma CheckpointKeeps(l: Line, l': Line, now: nat, exact: int, charged: int, k: nat)
    requires OnTrack(l, now, exact, charged, k)
    requires l'.lastAccrual == now && l'.drawn >= 0 && l'.accrued >= 0
    ensures OnTrack(l', now, exact, charged + InterestDelta(l, now), k + 1)
  {
    DeltaRoundsDown(l, now);
    assert Pending(l', now) == 0;
    BoundedAdds(exact - Pending(l, now), charged, k, Pending(l, now), InterestDelta(l, now));
  }

  lemma QuietKeeps(l: Line, l': Line, now: nat, passed: nat, exact: int, charged: int, k: nat)
    requires OnTrack(l, now, exact, charged, k) && CreditLiquidation.SameBooks(l, l')
    ensures OnTrack(l', now + passed, exact + l.drawn * l.rateBps * passed, charged, k)
  {
    var f := l.drawn * l.rateBps;
    assert f * (SatSub(now, l.lastAccrual) + passed) == f * SatSub(now, l.lastAccrual) + f * passed;
  }

  lemma CheckpointEffect(w: World, a: Action, line: nat)
    requires Checkpoints(w, a, line) && line in w.credit.lines
    requires w.credit.lines[line].drawn >= 0 && w.credit.lines[line].accrued >= 0
    ensures line in Step(w, a).credit.lines
    ensures var l, l' := w.credit.lines[line], Step(w, a).credit.lines[line];
            var paid := if a.DoRepay? then InterestPart(Accrue(l, w.now), a.amount) else 0;
            && l'.accrued + paid == l.accrued + InterestDelta(l, w.now)
            && l'.lastAccrual == w.now && l'.drawn >= 0 && l'.accrued >= 0
  {
    DeltaRoundsDown(w.credit.lines[line], w.now);
    if a.DoRepay? {
      CreditFunds.RepaymentSplits(Accrue(w.credit.lines[line], w.now), a.amount);
    }
  }

  lemma ClockStep(w: World, a: Action)
    ensures Step(w, a).now == w.now + if a.Elapse? then a.seconds else 0
  {
  }

  /** What one step adds to the history of a line it checkpoints. */
  lemma CheckpointHistory(ws: seq<World>, acts: seq<Action>, n: nat, line: nat)
    requires |ws| == |acts| + 1 && 0 < n <= |acts| && Checkpoints(ws[n - 1], acts[n - 1], line)
    ensures Exact(ws, acts, n, line) == Exact(ws, acts, n - 1, line)
    ensures CheckpointCount(ws, acts, n, line) == CheckpointCount(ws, acts, n - 1, line) + 1
    ensures Repaid(ws, acts, n, line) == Repaid(ws, acts, n - 1, line)
              + if acts[n - 1].DoRepay? then InterestPart(Accrue(ws[n - 1].credit.lines[line], ws[n - 1].now), acts[n - 1].amount) else 0
  {
  }

  lemma QuietHistory(ws: seq<World>, acts: seq<Action>, n: nat, line: nat)
    requires |ws| == |acts| + 1 && 0 < n <= |acts| && !Checkpoints(ws[n - 1], acts[n - 1], line)
    requires line in ws[n - 1].credit.lines
    ensures Exact(ws, acts, n, line) == Exact(ws, acts, n - 1, line)
              + ws[n - 1].credit.lines[line].drawn * ws[n - 1].credit.lines[line].rateBps
                * (if acts[n - 1].Elapse? then acts[n - 1].seconds else 0)
    ensures CheckpointCount(ws, acts, n, line) == CheckpointCount(ws, acts, n - 1, line)
    ensures Repaid(ws, acts, n, line) == Repaid(ws, acts, n - 1, line)
  {
  }

  /** What one step does to a line that stays out of the closed stage. */
  lemma LiveStep(w: World, a: Action, line: nat)
    requires CreditLiquidation.Staged(w)
    requires line in Step(w, a).credit.lines && !Step(w, a).credit.lines[line].status.Closed?
    ensures line in w.credit.lines ==>
              && !w.credit.lines[line].status.Closed?
              && (!Checkpoints(w, a, line) ==> CreditLiquidation.SameBooks(w.credit.lines[line], Step(w, a).credit.lines[line]))
    ensures line !in w.credit.lines ==>
              var l := Step(w, a).credit.lines[line];
              l.drawn == 0 && l.accrued == 0 && l.lastAccrual == Step(w, a).now
    ensures Step(w, a).now == w.now + if a.Elapse? then a.seconds else 0
  {
    ClockStep(w, a);
    if Apply(w, a).Done? {
      CreditLiquidation.ProgressStep(w, a);
      if line in w.credit.lines {
        assert CreditLiquidation.Moves(w, a, Step(w, a), line);
      }
    }
  }

  ghost predicate TrackedAt(ws: seq<World>, acts: seq<Action>, n: nat, line: nat)
    requires |ws| == |acts| + 1 && n <= |acts|
  {
    && line in ws[n].credit.lines
    && OnTrack(ws[n].credit.lines[line], ws[n].now, Exact(ws, acts, n, line), Charged(ws, acts, n, line),
               CheckpointCount(ws, acts, n, line))
  }

  lemma ChargedStep(ws: seq<World>, acts: seq<Action>, n: nat, line: nat)
    requires |ws| == |acts| + 1 && 0 < n <= |acts| && Checkpoints(ws[n - 1], acts[n - 1], line)
    requires line in ws[n - 1].credit.lines && line in ws[n].credit.lines
    requires var l, l' := ws[n - 1].credit.lines[line], ws[n].credit.lines[line];
             var paid := if acts[n - 1].DoRepay? then InterestPart(Accrue(l, ws[n - 1].now), acts[n - 1].amount) else 0;
             l'.accrued + paid == l.accrued + InterestDelta(l, ws[n - 1].now)
    ensures Charged(ws, acts, n, line) == Charged(ws, acts, n - 1, line) + InterestDelta(ws[n - 1].credit.lines[line], ws[n - 1].now)
    ensures Exact(ws, acts, n, line) == Exact(ws, acts, n - 1, line)
    ensures CheckpointCount(ws, acts, n, line) == CheckpointCount(ws, acts, n - 1, line) + 1
  {
    CheckpointHistory(ws, acts, n, line);
  }

  lemma TrackCheckpoint(ws: seq<World>, acts: seq<Action>, n: nat, line: nat)
    requires |ws| == |acts| + 1 && 0 < n <= |acts| && TrackedAt(ws, acts, n - 1, line)
    requires ws[n] == Step(ws[n - 1], acts[n - 1]) && Checkpoints(ws[n - 1], acts[n - 1], line)
    requires ws[n].now == ws[n - 1].now
    ensures TrackedAt(ws, acts, n, line)
  {
    CheckpointEffect(ws[n - 1], acts[n - 1], line);
    ChargedStep(ws, acts, n, line);
    CheckpointKeeps(ws[n - 1].credit.lines[line], ws[n].credit.lines[line], ws[n - 1].now,
                    Exact(ws, acts, n - 1, line), Charged(ws, acts, n - 1, line), CheckpointCount(ws, acts, n - 1, line));
  }

  lemma TrackQuiet(ws: seq<World>, acts: seq<Action>, n: nat, line: nat)
    requires |ws| == |acts| + 1 && 0 < n <= |acts| && TrackedAt(ws, acts, n - 1, line)
    requires !Checkpoints(ws[n - 1], acts[n - 1], line) && line in ws[n].credit.lines
    requires CreditLiquidation.SameBooks(ws[n - 1].credit.lines[line], ws[n].credit.lines[line])
    requires ws[n].now == ws[n - 1].now + if acts[n - 1].Elapse? then acts[n - 1].seconds else 0
    ensures TrackedAt(ws, acts, n, line)
  {
    QuietHistory(ws, acts, n, line);
    QuietKeeps(ws[n - 1].credit.lines[line], ws[n].credit.lines[line], ws[n - 1].now, ws[n].now - ws[n - 1].now,
               Exact(ws, acts, n - 1, line), Charged(ws, acts, n - 1, line), CheckpointCount(ws, acts, n - 1, line));
  }

  lemma TrackOpening(ws: seq<World>, acts: seq<Action>, n: nat, line: nat)
    requires IsRun(ws, acts) && 0 < n <= |acts| && IsGenesis(ws[0])
    requires line !in ws[n - 1].credit.lines && line in ws[n].credit.lines
    requires ws[n].credit.lines[line].drawn == 0 && ws[n].credit.lines[line].accrued == 0
    requires ws[n].credit.lines[line].lastAccrual == ws[n].now
    ensures TrackedAt(ws, acts, n, line)
  {
    NothingBeforeOpening(ws, acts, n, line);
    FreshOnTrack(ws[n].credit.lines[line], ws[n].now);
  }

  lemma FreshOnTrack(l: Line, now: nat)
    requires l.drawn == 0 && l.accrued == 0 && l.lastAccrual == now
    ensures OnTrack(l, now, 0, 0, 0)
  {
    assert Pending(l, now) == 0;
  }

  lemma {:induction false} StaysOnTrack(ws: seq<World>, acts: seq<Action>, n: nat, line: nat)
    requires IsRun(ws, acts) && n <= |acts| && IsGenesis(ws[0])
    requires line in ws[n].credit.lines && !ws[n].credit.lines[line].status.Closed?
    ensures TrackedAt(ws, acts, n, line)
  {
    CreditLiquidation.AlwaysStaged(ws, acts, n - 1);
    LiveStep(ws[n - 1], acts[n - 1], line);
    if line !in ws[n - 1].credit.lines {
      TrackOpening(ws, acts, n, line);
    } else if Checkpoints(ws[n - 1], acts[n - 1], line) {
      StaysOnTrack(ws, acts, n - 1, line);
      TrackCheckpoint(ws, acts, n, line);
    } else {
      StaysOnTrack(ws, acts, n - 1, line);
      TrackQuiet(ws, acts, n, line);
    }
  }

  lemma AbsentEarlier(ws: seq<World>, acts: seq<Action>, n: nat, line: nat)
    requires IsRun(ws, acts) && 1 < n <= |acts| && IsGenesis(ws[0]) && line !in ws[n - 1].credit.lines
    ensures line !in ws[n - 2].credit.lines
  {
    if line in ws[n - 2].credit.lines {
      CreditLiquidation.OutcomeNeverMoves(ws, acts, n - 2, n - 1, line);
    }
  }

  /** A line that is about to be opened has no history. */
  lemma {:induction false} NothingBeforeOpening(ws: seq<World>, acts: seq<Action>, n: nat, line: nat)
    requires IsRun(ws, acts) && n <= |acts| && IsGenesis(ws[0])
    requires n > 0 ==> line !in ws[n - 1].credit.lines
    ensures Exact(ws, acts, n, line) == 0 && Repaid(ws, acts, n, line) == 0 && CheckpointCount(ws, acts, n, line) == 0
  {
    if n > 0 {
      if n > 1 {
        AbsentEarlier(ws, acts, n, line);
      }
      NothingBeforeOpening(ws, acts, n - 1, line);
      AbsentHistory(ws, acts, n, line);
    }
  }

  lemma AbsentHistory(ws: seq<World>, acts: seq<Action>, n: nat, line: nat)
    requires |ws| == |acts| + 1 && 0 < n <= |acts| && line !in ws[n - 1].credit.lines
    ensures Exact(ws, acts, n, line) == Exact(ws, acts, n - 1, line)
    ensures Repaid(ws, acts, n, line) == Repaid(ws, acts, n - 1, line)
    ensures CheckpointCount(ws, acts, n, line) == CheckpointCount(ws, acts, n - 1, line)
  {
    AbsentRefuses(ws[n - 1], acts[n - 1], line);
  }

  lemma AbsentRefuses(w: World, a: Action, line: nat)
    requires line !in w.credit.lines
    ensures !Checkpoints(w, a, line)
  {
  }

  /** Interest charged to any moment, repaid or not, never exceeds the exact figure and falls short of
      it by less than one stroop for each checkpoint and one for the moment itself. */
  lemma InterestWithinAStroopPerCheckpoint(ws: seq<World>, acts: seq<Action>, n: nat, line: nat)
    requires IsRun(ws, acts) && n <= |acts| && IsGenesis(ws[0])
    requires line in ws[n].credit.lines && !ws[n].credit.lines[line].status.Closed?
    ensures Within(Exact(ws, acts, n, line),
                   Charged(ws, acts, n, line) + InterestDelta(ws[n].credit.lines[line], ws[n].now),
                   CheckpointCount(ws, acts, n, line) + 1)
  {
    StaysOnTrack(ws, acts, n, line);
    TrackedWithin(ws, acts, n, line);
  }

  lemma TrackedWithin(ws: seq<World>, acts: seq<Action>, n: nat, line: nat)
    requires |ws| == |acts| + 1 && n <= |acts| && TrackedAt(ws, acts, n, line)
    ensures Within(Exact(ws, acts, n, line),
                   Charged(ws, acts, n, line) + InterestDelta(ws[n].credit.lines[line], ws[n].now),
                   CheckpointCount(ws, acts, n, line) + 1)
  {
    OnTrackWithin(ws[n].credit.lines[line], ws[n].now, Exact(ws, acts, n, line), Charged(ws, acts, n, line),
                  CheckpointCount(ws, acts, n, line));
  }

  lemma OnTrackWithin(l: Line, now: nat, exact: int, charged: int, k: nat)
    requires OnTrack(l, now, exact, charged, k)
    ensures Within(exact, charged + InterestDelta(l, now), k + 1)
  {
    DeltaRoundsDown(l, now);
    BoundedAdds(exact - Pending(l, now), charged, k, Pending(l, now), InterestDelta(l, now));
    BoundedWithin(exact, charged + InterestDelta(l, now), k + 1);
  }
}
