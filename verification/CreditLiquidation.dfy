/** Liquidation of a credit line, over every run: two reads, a frozen outcome, and a final close. */
module CreditLiquidation {
  import opened Prelude
  import opened Risk
  import opened CreditSpec

  /** The price read sees the line at liquidation level and is one the guard stands behind. */
  predicate SawBreach(w: World, line: nat, q: Quote) {
    && line in w.credit.lines && q.status.Ok?
    && var view := ReadLtv(w.credit, w.credit.lines[line], q, w.now);
       view.Done? && view.value.state.Liquidation?
  }

  function Rank(s: LineStatus): nat {
    match s case Open => 0 case Liquidating => 1 case Closed => 2
  }

  /** The figures a liquidation is measured against. */
  predicate SameFrozen(r: Record, r': Record) {
    r'.seizedUnits == r.seizedUnits && r'.price == r.price && r'.debt == r.debt
  }

  /** What a step can do to a line that exists: status moves forward one stage at a time, the breach
      flag is raised only by a poke that saw the breach, and a record's frozen figures stay. */
  predicate Moves(w: World, a: Action, w': World, i: nat)
    requires i in w.credit.lines
  {
    && i in w'.credit.lines
    && var l, l' := w.credit.lines[i], w'.credit.lines[i];
    && (l'.status == l.status
        || (l.status.Open? && l'.status.Liquidating? && a.DoLiquidateLine? && a.line == i)
        || (l.status.Liquidating? && l'.status.Closed? && a.DoClose? && a.line == i))
    && (l'.breachLedger == l.breachLedger || l'.breachLedger.None?
        || (a.DoPoke? && a.line == i && l'.breachLedger == Some(w.ledger)))
    && (a.DoPoke? && a.line == i && w' != w && l'.breachLedger.Some? ==> SawBreach(w, i, a.quote))
    && (l.status.Closed? && l.drawn == 0 && l.accrued == 0 ==> l'.drawn == 0 && l'.accrued == 0)
    && (SameBooks(l, l') || l'.status.Closed? || ((a.DoDraw? || a.DoRepay?) && a.line == i))
  }

  /** Nothing drawn, repaid or checkpointed in between. */
  predicate SameBooks(l: Line, l': Line) {
    l'.drawn == l.drawn && l'.accrued == l.accrued && l'.lastAccrual == l.lastAccrual && l'.rateBps == l.rateBps
  }

  predicate OutcomeBooked(l: Line, r: Record) {
    && r.closed && l.drawn == 0 && l.accrued == 0
    && CollateralValue(r.seizedUnits, r.price, 0) == Done(r.recovered)
    && r.recovered - r.debt == r.surplus - r.shortfall
    && r.surplus >= 0 && r.shortfall >= 0 && (r.surplus == 0 || r.shortfall == 0)
  }

  predicate InStage(w: World, i: nat)
    requires i in w.credit.lines
  {
    match w.credit.lines[i].status
    case Open => i !in w.credit.records
    case Liquidating => i in w.credit.records && !w.credit.records[i].closed
    case Closed => i in w.credit.records && OutcomeBooked(w.credit.lines[i], w.credit.records[i])
  }

  /** Every line's record matches the stage it is in. */
  ghost predicate Staged(w: World) {
    && (forall i | i in w.credit.lines :: i < w.credit.nextLine && InStage(w, i))
    && (forall i | i in w.credit.records :: i in w.credit.lines)
  }

  ghost predicate Progress(w: World, a: Action, w': World) {
    && Staged(w')
    && (forall i | i in w.credit.lines :: Moves(w, a, w', i))
    && (forall i | i in w'.credit.lines && i !in w.credit.lines ::
          w'.credit.lines[i].status.Open? && w'.credit.lines[i].breachLedger.None?
          && w'.credit.lines[i].drawn == 0 && w'.credit.lines[i].accrued == 0 && w'.credit.lines[i].lastAccrual == w'.now)
    && (forall i | i in w.credit.records :: i in w'.credit.records && SameFrozen(w.credit.records[i], w'.credit.records[i]))
    && (forall i | i in w.credit.records && w.credit.records[i].closed :: w'.credit.records[i] == w.credit.records[i])
    && w'.ledger >= w.ledger
  }

  /** Steps that write no record: enough to look at the one line they rewrite. */
  lemma OneLineProgress(w: World, a: Action, w': World, i: nat)
    requires Staged(w) && w'.ledger >= w.ledger && w'.credit.records == w.credit.records
    requires w'.credit.nextLine == w.credit.nextLine
    requires i in w.credit.lines && i in w'.credit.lines && w'.credit.lines == w.credit.lines[i := w'.credit.lines[i]]
    requires w'.credit.lines[i].status == w.credit.lines[i].status && Moves(w, a, w', i)
    requires a.DoPoke? ==> a.line == i
    ensures Progress(w, a, w')
  {
    forall j | j in w'.credit.lines
      ensures InStage(w', j)
    {
      assert InStage(w, j);
    }
  }

  lemma SameLinesProgress(w: World, a: Action, w': World)
    requires Staged(w) && w'.ledger >= w.ledger && !a.DoPoke?
    requires w'.credit.lines == w.credit.lines && w'.credit.records == w.credit.records && w'.credit.nextLine == w.credit.nextLine
    ensures Progress(w, a, w')
  {
    forall j | j in w'.credit.lines
      ensures InStage(w', j)
    {
      assert InStage(w, j);
    }
  }

  /** Vault transactions and reconciliation: only the collateral figure of a line. */
  lemma CollateralProgress(w: World, a: Action, w': World, i: nat)
    requires Staged(w) && w'.ledger == w.ledger && i in w.credit.lines && i in w'.credit.lines && !a.DoPoke?
    requires w'.credit == w.credit.(lines := w.credit.lines[i := w.credit.lines[i].(pledgedUnits := w'.credit.lines[i].pledgedUnits)])
    ensures Progress(w, a, w')
  {
    OneLineProgress(w, a, w', i);
  }

  lemma VaultProgress(w: World, a: Action)
    requires Staged(w) && Apply(w, a).Done?
    requires a.DoPledge? || a.DoRelease? || a.DoRecordLien? || a.DoLiquidateVault?
    ensures Progress(w, a, Apply(w, a).value)
  {
    CollateralProgress(w, a, Apply(w, a).value, a.line);
  }

  lemma OpenProgress(w: World, lender: Address, b: Address, asset: Address, limit: int, rate: nat)
    requires Staged(w) && OpenLine(w, lender, b, asset, limit, rate).Done?
    ensures Progress(w, DoOpen(lender, b, asset, limit, rate), OpenLine(w, lender, b, asset, limit, rate).value)
  {
    var w' := OpenLine(w, lender, b, asset, limit, rate).value;
    forall j | j in w'.credit.lines
      ensures InStage(w', j)
    {
      if j in w.credit.lines { assert InStage(w, j); }
    }
  }

  lemma MoneyProgress(w: World, a: Action)
    requires Staged(w) && Apply(w, a).Done? && (a.DoFund? || a.DoWithdrawUndrawn? || a.DoWithdrawInterest?)
    ensures Progress(w, a, Apply(w, a).value)
  {
    var w' := Apply(w, a).value;
    assert w'.credit.lines == w.credit.lines[a.line := w'.credit.lines[a.line]];
    OneLineProgress(w, a, w', a.line);
  }

  lemma DrawProgress(w: World, b: Address, line: nat, amount: int, to: Address, q: Quote)
    requires Staged(w) && Draw(w, b, line, amount, to, q).Done?
    ensures Progress(w, DoDraw(b, line, amount, to, q), Draw(w, b, line, amount, to, q).value)
  {
    OneLineProgress(w, DoDraw(b, line, amount, to, q), Draw(w, b, line, amount, to, q).value, line);
  }

  /** A closed line has nothing left to repay, so the repayment itself reverts. */
  lemma RepayProgress(w: World, payer: Address, line: nat, amount: int)
    requires Staged(w) && Repay(w, payer, line, amount).Done?
    ensures Progress(w, DoRepay(payer, line, amount), Repay(w, payer, line, amount).value)
  {
    var l := w.credit.lines[line];
    if l.status.Closed? {
      assert InStage(w, line);
      NoDebtNoInterest(l, w.now);
    }
    OneLineProgress(w, DoRepay(payer, line, amount), Repay(w, payer, line, amount).value, line);
  }

  lemma NoDebtNoInterest(l: Line, now: nat)
    requires l.drawn == 0
    ensures InterestDelta(l, now) == 0
  {
    assert 0 * l.rateBps * SatSub(now, l.lastAccrual) == 0;
  }

  lemma PokeProgress(w: World, line: nat, q: Quote)
    requires Staged(w) && Poke(w, line, q).Done?
    ensures Progress(w, DoPoke(line, q), Poke(w, line, q).value)
  {
    OneLineProgress(w, DoPoke(line, q), Poke(w, line, q).value, line);
  }

  lemma LiquidateProgress(w: World, line: nat, q: Quote)
    requires Staged(w) && LiquidateLine(w, line, q).Done?
    ensures Progress(w, DoLiquidateLine(line, q), LiquidateLine(w, line, q).value)
  {
    var w' := LiquidateLine(w, line, q).value;
    forall j | j in w'.credit.lines
      ensures InStage(w', j)
    {
      assert InStage(w, j);
    }
  }

  /** What closing rewrites: the line, emptied, and its record, with the outcome booked. */
  lemma CloseShape(w: World, lender: Address, line: nat)
    requires CloseLiquidated(w, lender, line).Done?
    ensures line in w.credit.lines && w.credit.lines[line].status.Liquidating? && line in w.credit.records
    ensures var w' := CloseLiquidated(w, lender, line).value;
            && line in w'.credit.lines && line in w'.credit.records
            && w'.credit == w.credit.(lines := w.credit.lines[line := w'.credit.lines[line]],
                                      records := w.credit.records[line := w'.credit.records[line]])
            && w'.credit.lines[line].status.Closed? && w'.credit.lines[line].breachLedger.None?
            && SameFrozen(w.credit.records[line], w'.credit.records[line])
            && OutcomeBooked(w'.credit.lines[line], w'.credit.records[line])
  {
  }

  lemma CloseProgress(w: World, lender: Address, line: nat)
    requires Staged(w) && CloseLiquidated(w, lender, line).Done?
    ensures Progress(w, DoClose(lender, line), CloseLiquidated(w, lender, line).value)
  {
    var w' := CloseLiquidated(w, lender, line).value;
    CloseShape(w, lender, line);
    forall j | j in w'.credit.lines
      ensures InStage(w', j)
    {
      assert InStage(w, j);
    }
  }

  lemma ProgressStep(w: World, a: Action)
    requires Staged(w) && Apply(w, a).Done?
    ensures Progress(w, a, Apply(w, a).value)
  {
    match a
    case DoOpen(l, b, asset, limit, rate) => OpenProgress(w, l, b, asset, limit, rate);
    case DoFund(_, _, _) => MoneyProgress(w, a);
    case DoSyncCollateral(line, _) => CollateralProgress(w, a, Apply(w, a).value, line);
    case DoDraw(b, line, amount, to, q) => DrawProgress(w, b, line, amount, to, q);
    case DoRepay(p, line, amount) => RepayProgress(w, p, line, amount);
    case DoPoke(line, q) => PokeProgress(w, line, q);
    case DoLiquidateLine(line, q) => LiquidateProgress(w, line, q);
    case DoClose(l, line) => CloseProgress(w, l, line);
    case DoWithdrawUndrawn(_, _, _) => MoneyProgress(w, a);
    case DoWithdrawInterest(_, _, _) => MoneyProgress(w, a);
    case DoPledge(_, _, _, _) => VaultProgress(w, a);
    case DoRelease(_, _, _, _, _, _) => VaultProgress(w, a);
    case DoRecordLien(_, _, _, _, _) => VaultProgress(w, a);
    case DoLiquidateVault(_, _, _, _) => VaultProgress(w, a);
    case _ => SameLinesProgress(w, a, Apply(w, a).value);
  }

  lemma {:induction false} AlwaysStaged(ws: seq<World>, acts: seq<Action>, n: nat)
    requires IsRun(ws, acts) && n <= |acts| && IsGenesis(ws[0])
    ensures Staged(ws[n])
  {
    if n > 0 {
      AlwaysStaged(ws, acts, n - 1);
      if Apply(ws[n - 1], acts[n - 1]).Done? {
        ProgressStep(ws[n - 1], acts[n - 1]);
      }
    }
  }

  // ----- two reads

  /** Step `k` is the poke that raised the flag now on the line, and every poke since saw the same. */
  ghost predicate FlaggedAt(ws: seq<World>, acts: seq<Action>, k: nat, n: nat, line: nat)
    requires |ws| == |acts| + 1 && n <= |acts|
  {
    && k < n && acts[k].DoPoke? && acts[k].line == line && SawBreach(ws[k], line, acts[k].quote)
    && line in ws[n].credit.lines && ws[n].credit.lines[line].breachLedger == Some(ws[k].ledger)
    && ws[k].ledger <= ws[n].ledger
    && (forall j | k < j < n && acts[j].DoPoke? && acts[j].line == line && Apply(ws[j], acts[j]).Done? ::
          SawBreach(ws[j], line, acts[j].quote))
  }

  predicate PokesLine(a: Action, line: nat) {
    a.DoPoke? && a.line == line
  }

  /** A flag that is up after a step was up before, or was raised by it; and a poke that left it up saw the breach. */
  lemma FlagStep(w: World, a: Action, line: nat)
    requires Staged(w) && line in Step(w, a).credit.lines && Step(w, a).credit.lines[line].breachLedger.Some?
    ensures line in w.credit.lines && w.ledger <= Step(w, a).ledger
    ensures PokesLine(a, line) && Apply(w, a).Done? ==> SawBreach(w, line, a.quote)
    ensures var before, after := w.credit.lines[line].breachLedger, Step(w, a).credit.lines[line].breachLedger;
            after == before || (before.None? && after == Some(w.ledger) && PokesLine(a, line) && Apply(w, a).Done?)
  {
    if Apply(w, a).Done? {
      ProgressStep(w, a);
      assert Moves(w, a, Step(w, a), line);
      if PokesLine(a, line) {
        PokeFlag(w, line, a.quote);
      }
    }
  }

  lemma {:induction false} FlagHasOrigin(ws: seq<World>, acts: seq<Action>, n: nat, line: nat) returns (k: nat)
    requires IsRun(ws, acts) && n <= |acts| && IsGenesis(ws[0])
    requires line in ws[n].credit.lines && ws[n].credit.lines[line].breachLedger.Some?
    ensures FlaggedAt(ws, acts, k, n, line)
  {
    AlwaysStaged(ws, acts, n - 1);
    FlagStep(ws[n - 1], acts[n - 1], line);
    if ws[n - 1].credit.lines[line].breachLedger.Some? {
      k := FlagHasOrigin(ws, acts, n - 1, line);
    } else {
      k := n - 1;
    }
  }

  /** A poke leaves the flag up exactly when it saw the breach, and never re-dates one already up. */
  lemma PokeFlag(w: World, line: nat, q: Quote)
    requires Poke(w, line, q).Done?
    ensures var before, after := w.credit.lines[line].breachLedger, Poke(w, line, q).value.credit.lines[line].breachLedger;
            && (after.Some? <==> SawBreach(w, line, q))
            && (after.Some? ==> after == if before.Some? then before else Some(w.ledger))
  {
  }

  /** A line is liquidated only after a poke at a strictly earlier ledger saw the breach on an Ok price,
      every later poke saw it too, and the liquidating read itself confirms it. */
  lemma TwoReadsBeforeLiquidation(ws: seq<World>, acts: seq<Action>, n: nat, line: nat, q: Quote)
    requires IsRun(ws, acts) && n < |acts| && IsGenesis(ws[0])
    requires acts[n] == DoLiquidateLine(line, q) && LiquidateLine(ws[n], line, q).Done?
    ensures SawBreach(ws[n], line, q)
    ensures exists k: nat :: FlaggedAt(ws, acts, k, n, line) && ws[k].ledger < ws[n].ledger
  {
    var k := FlagHasOrigin(ws, acts, n, line);
    assert FlaggedAt(ws, acts, k, n, line);
  }

  // ----- the outcome

  /** What the liquidating read freezes: the whole counted position, the confirmed price and the debt. */
  lemma LiquidationFreezes(w: World, line: nat, q: Quote)
    requires LiquidateLine(w, line, q).Done?
    ensures var w' := LiquidateLine(w, line, q).value;
            && w'.credit.lines[line].status.Liquidating? && w'.bank == w.bank
            && w'.credit.records[line].seizedUnits == w.credit.lines[line].pledgedUnits
            && w'.credit.records[line].price == q.value
            && w'.credit.records[line].debt == DebtOf(w.credit.lines[line], w.now)
  {
  }

  /** Step `k` liquidated the line at the price `q` and recorded what it saw. */
  predicate RecordedAt(w: World, a: Action, line: nat, q: Quote, r: Record) {
    && a == DoLiquidateLine(line, q) && LiquidateLine(w, line, q).Done? && SawBreach(w, line, q)
    && r.seizedUnits == w.credit.lines[line].pledgedUnits && r.price == q.value
    && r.debt == DebtOf(w.credit.lines[line], w.now)
  }

  /** Only a liquidation of the line creates its record. */
  lemma RecordStep(w: World, a: Action, line: nat) returns (q: Quote)
    requires Staged(w) && line !in w.credit.records && line in Step(w, a).credit.records
    ensures RecordedAt(w, a, line, q, Step(w, a).credit.records[line])
  {
    ProgressStep(w, a);
    assert InStage(Step(w, a), line);
    if line in w.credit.lines {
      assert InStage(w, line) && Moves(w, a, Step(w, a), line);
    }
    q := a.quote;
    LiquidationFreezes(w, line, q);
  }

  /** Over every run, the figures an outcome is measured against are those of the liquidating read that
      put the line there: the whole counted position, the confirmed Ok price and the debt of that moment,
      whatever is repaid, released or reported afterwards. */
  lemma {:induction false} RecordHasOrigin(ws: seq<World>, acts: seq<Action>, n: nat, line: nat) returns (k: nat, q: Quote)
    requires IsRun(ws, acts) && n <= |acts| && IsGenesis(ws[0]) && line in ws[n].credit.records
    ensures k < n && RecordedAt(ws[k], acts[k], line, q, ws[n].credit.records[line])
  {
    AlwaysStaged(ws, acts, n - 1);
    if line in ws[n - 1].credit.records {
      k, q := RecordHasOrigin(ws, acts, n - 1, line);
      if Apply(ws[n - 1], acts[n - 1]).Done? {
        ProgressStep(ws[n - 1], acts[n - 1]);
        assert SameFrozen(ws[n - 1].credit.records[line], ws[n].credit.records[line]);
      }
    } else {
      k := n - 1;
      q := RecordStep(ws[k], acts[k], line);
    }
  }

  /** The status has only moved forward, and neither frozen figures nor a booked outcome have changed. */
  predicate Later(w: World, w': World, line: nat)
    requires line in w.credit.lines
  {
    && line in w'.credit.lines && Rank(w.credit.lines[line].status) <= Rank(w'.credit.lines[line].status)
    && (line in w.credit.records ==>
          && line in w'.credit.records && SameFrozen(w.credit.records[line], w'.credit.records[line])
          && (w.credit.records[line].closed ==> w'.credit.records[line] == w.credit.records[line]))
  }

  lemma StepIsLater(w: World, a: Action, line: nat)
    requires Staged(w) && line in w.credit.lines
    ensures Later(w, Step(w, a), line)
  {
    if Apply(w, a).Done? {
      ProgressStep(w, a);
      assert Moves(w, a, Step(w, a), line);
    }
  }

  lemma BookedOutcome(w: World, line: nat)
    requires Staged(w) && line in w.credit.records && w.credit.records[line].closed
    ensures line in w.credit.lines && OutcomeBooked(w.credit.lines[line], w.credit.records[line])
  {
    assert InStage(w, line);
  }

  lemma {:induction false} LaterOn(ws: seq<World>, acts: seq<Action>, m: nat, n: nat, line: nat)
    requires IsRun(ws, acts) && m <= n <= |acts| && IsGenesis(ws[0]) && line in ws[m].credit.lines
    ensures Later(ws[m], ws[n], line)
    decreases n - m
  {
    if m < n {
      LaterOn(ws, acts, m, n - 1, line);
      AlwaysStaged(ws, acts, n - 1);
      StepIsLater(ws[n - 1], acts[n - 1], line);
    }
  }

  /** From any state of a run to any later one: the status only moves forward, a record's frozen figures
      never change, and a booked outcome never changes at all: it is the frozen value less the frozen debt,
      as a surplus or as a shortfall. */
  lemma OutcomeNeverMoves(ws: seq<World>, acts: seq<Action>, m: nat, n: nat, line: nat)
    requires IsRun(ws, acts) && m <= n <= |acts| && IsGenesis(ws[0]) && line in ws[m].credit.lines
    ensures line in ws[n].credit.lines
    ensures Rank(ws[m].credit.lines[line].status) <= Rank(ws[n].credit.lines[line].status)
    ensures line in ws[m].credit.records ==>
              line in ws[n].credit.records && SameFrozen(ws[m].credit.records[line], ws[n].credit.records[line])
    ensures line in ws[m].credit.records && ws[m].credit.records[line].closed ==>
              ws[n].credit.records[line] == ws[m].credit.records[line]
    ensures line in ws[n].credit.records && ws[n].credit.records[line].closed ==>
              OutcomeBooked(ws[n].credit.lines[line], ws[n].credit.records[line])
  {
    LaterOn(ws, acts, m, n, line);
    AlwaysStaged(ws, acts, n);
    if line in ws[n].credit.records && ws[n].credit.records[line].closed {
      BookedOutcome(ws[n], line);
    }
  }

  /** A closed line stays closed with its outcome booked, and owes nothing at any later time. */
  lemma ClosedOwesNothing(ws: seq<World>, acts: seq<Action>, m: nat, n: nat, line: nat, now: nat)
    requires IsRun(ws, acts) && m <= n <= |acts| && IsGenesis(ws[0])
    requires line in ws[m].credit.lines && ws[m].credit.lines[line].status.Closed?
    ensures line in ws[n].credit.lines && ws[n].credit.lines[line].status.Closed?
    ensures line in ws[n].credit.records && OutcomeBooked(ws[n].credit.lines[line], ws[n].credit.records[line])
    ensures DebtOf(ws[n].credit.lines[line], now) == 0
  {
    OutcomeNeverMoves(ws, acts, m, n, line);
    AlwaysStaged(ws, acts, n);
    assert InStage(ws[n], line);
    NoDebtNoInterest(ws[n].credit.lines[line], now);
  }
}
