/** Why the leg-2 allowance a borrower grants at settlement always covers what non-borrowers may
    collect, for any number of trades settled and closed in any order. */
module RepoAllowance {
  import opened Prelude
  import opened Tokens
  import opened Risk
  import opened RepoSpec
  import RepoEscrow

  // ----- the figures of one trade

  /** The most a trade can owe at maturity, fixed when it is proposed. */
  function Ceiling(t: Trade): int {
    TotalDue(t, t.proposedAt)
  }

  lemma InterestMonotone(cash: int, rate: nat, e: nat, e': nat)
    requires cash >= 0 && e <= e'
    ensures 0 <= AccrueInterest(cash, rate, e) <= AccrueInterest(cash, rate, e')
  {
    var c := cash * rate;
    assert c >= 0;
    MulMono(e, e', c);
    assert 0 <= c * e <= c * e';
    QuotAtLeast(c * e', SECONDS_PER_YEAR, Quot(c * e, SECONDS_PER_YEAR));
    var y, y' := Quot(c * e, SECONDS_PER_YEAR), Quot(c * e', SECONDS_PER_YEAR);
    QuotAtLeast(y', BPS, Quot(y, BPS));
  }

  /** Settling later than the proposal never makes a trade owe more than its ceiling. */
  lemma DueWithinCeiling(t: Trade, settledAt: nat)
    requires t.cash > 0 && t.proposedAt <= settledAt
    ensures 0 < TotalDue(t, settledAt) <= Ceiling(t)
  {
    InterestMonotone(t.cash, t.rateBps, SatSub(t.maturityAt, settledAt), SatSub(t.maturityAt, t.proposedAt));
  }

  /** The expiry a trade's settlement asked for. */
  function SettleExpiry(t: Trade, maxTtl: nat): nat {
    AllowanceExpiry(t.leg1Ledger.GetOr(0), maxTtl, SatSub(t.maturityAt, t.settledAt.GetOr(0)), UNWIND_GRACE_LEDGERS)
  }

  ghost function Claims(w: World, b: Address): map<nat, int> {
    map id | id in w.repo.trades :: ClaimOf(w.repo.trades[id], b)
  }

  function ClaimOf(t: Trade, b: Address): int {
    if t.status.Settled? && t.borrower == b then Ceiling(t) else 0
  }

  /** The sum of the ceilings of the borrower's open trades. */
  ghost function Claimed(w: World, b: Address): int {
    Sum(Claims(w, b))
  }

  ghost function Debts(w: World, b: Address): map<nat, int> {
    map id | id in w.repo.trades ::
      var t := w.repo.trades[id];
      if t.status.Settled? && t.borrower == b then TotalDue(t, t.settledAt.GetOr(0)) else 0
  }

  /** The sum of what the borrower's open trades will owe at unwind. */
  ghost function Owed(w: World, b: Address): int {
    Sum(Debts(w, b))
  }

  function Granted(w: World, usdc: Address, b: Address): Allowance {
    AllowanceOf(w.bank, usdc, b, w.host.self)
  }

  // ----- the invariant

  ghost predicate GoodTrade(w: World, id: nat)
    requires id in w.repo.trades
  {
    var t := w.repo.trades[id];
    && id < w.repo.nextId
    && t.cash > 0 && t.proposedAt <= w.now
    && (t.status.Settled? ==> t.leg1Ledger.Some? && t.settledAt.Some? && t.proposedAt <= t.settledAt.value)
  }

  /** For a borrower `b` that never lends: the allowance covers the tracked due, which covers the
      ceilings of its open trades, for at least as long as each of their settlements asked. */
  ghost predicate Covered(w: World, usdc: Address, b: Address) {
    && (w.repo.usdc == None || w.repo.usdc == Some(usdc))
    && (forall x | x in w.repo.due :: w.repo.due[x] > 0)
    && (forall id | id in w.repo.trades :: GoodTrade(w, id) && w.repo.trades[id].lender != b)
    && Claimed(w, b) <= DueOf(w.repo, b) <= Granted(w, usdc, b).amount
    && DueExpiryOf(w.repo, b) <= Granted(w, usdc, b).expiry
    && (forall id | id in w.repo.trades && w.repo.trades[id].status.Settled? && w.repo.trades[id].borrower == b ::
          SettleExpiry(w.repo.trades[id], w.host.maxTtl) <= DueExpiryOf(w.repo, b))
  }

  /** The discipline the theorem needs: USDC is configured once, `b` never lends, and `b` does not
      itself replace the allowance. */
  predicate Disciplined(host: Host, usdc: Address, b: Address, a: Action) {
    && Authorised(host, a)
    && (a.DoSetUsdc? ==> a.usdc == usdc)
    && (a.DoPropose? ==> a.lender != b)
    && (a.Outside? && a.op.Allow? ==> !(a.op.token == usdc && a.op.owner == b && a.op.spender == host.self))
  }

  lemma ClaimsNonNegative(w: World, b: Address)
    requires forall id | id in w.repo.trades :: GoodTrade(w, id)
    ensures forall id | id in Claims(w, b) :: Claims(w, b)[id] >= 0
    ensures Claimed(w, b) >= 0
  {
    forall id | id in w.repo.trades
      ensures Claims(w, b)[id] >= 0
    {
      DueWithinCeiling(w.repo.trades[id], w.repo.trades[id].proposedAt);
    }
    SumNonNegative(Claims(w, b));
  }

  lemma ClaimedAfter(w: World, w': World, id: nat, b: Address)
    requires id in w'.repo.trades && w'.repo.trades == w.repo.trades[id := w'.repo.trades[id]]
    ensures Claimed(w', b) == Claimed(w, b) + ClaimOf(w'.repo.trades[id], b)
                              - (if id in w.repo.trades then ClaimOf(w.repo.trades[id], b) else 0)
  {
    SumChange(Claims(w, b), Claims(w', b), id);
  }

  /** An open trade's ceiling is part of what is tracked, so releasing it never clamps at zero. */
  lemma CeilingWithinDue(w: World, usdc: Address, b: Address, id: nat)
    requires Covered(w, usdc, b)
    requires id in w.repo.trades && w.repo.trades[id].status.Settled? && w.repo.trades[id].borrower == b
    ensures 0 < Ceiling(w.repo.trades[id]) <= Claimed(w, b) <= DueOf(w.repo, b)
  {
    var t := w.repo.trades[id];
    DueWithinCeiling(t, t.proposedAt);
    ClaimsNonNegative(w, b);
    assert Claims(w, b)[id] == Ceiling(t);
    SumAtLeast(Claims(w, b), id);
  }

  // ----- every transaction keeps it

  /** Transactions that leave the borrower's claims, tracked due and allowance alone. */
  lemma UnrelatedKeeps(w: World, w': World, usdc: Address, b: Address)
    requires Covered(w, usdc, b) && w'.host == w.host
    requires w'.repo.usdc == None || w'.repo.usdc == Some(usdc)
    requires DueOf(w'.repo, b) == DueOf(w.repo, b) && DueExpiryOf(w'.repo, b) == DueExpiryOf(w.repo, b)
    requires Granted(w', usdc, b) == Granted(w, usdc, b)
    requires forall x | x in w'.repo.due :: w'.repo.due[x] > 0
    requires forall id | id in w'.repo.trades :: GoodTrade(w', id) && w'.repo.trades[id].lender != b
    requires Claimed(w', b) <= Claimed(w, b)
    requires forall id | id in w'.repo.trades && w'.repo.trades[id].status.Settled? && w'.repo.trades[id].borrower == b ::
               id in w.repo.trades && w.repo.trades[id].status.Settled? && w.repo.trades[id].borrower == b
               && SettleExpiry(w'.repo.trades[id], w.host.maxTtl) == SettleExpiry(w.repo.trades[id], w.host.maxTtl)
    ensures Covered(w', usdc, b)
  {
  }

  /** A trade of `b` joins: the allowance and the tracked due grow by its ceiling, and both live at
      least as long as it needs. */
  lemma JoinCovers(w: World, w': World, usdc: Address, b: Address, id: nat)
    requires Covered(w, usdc, b)
    requires w'.host == w.host && w'.now == w.now && w'.repo.usdc == w.repo.usdc && w'.repo.nextId == w.repo.nextId
    requires id in w.repo.trades && !w.repo.trades[id].status.Settled?
    requires id in w'.repo.trades && w'.repo.trades == w.repo.trades[id := w'.repo.trades[id]]
    requires w'.repo.trades[id].borrower == b && GoodTrade(w', id) && w'.repo.trades[id].lender != b
    requires Claimed(w', b) <= Claimed(w, b) + Ceiling(w'.repo.trades[id])
    requires DueOf(w'.repo, b) == DueOf(w.repo, b) + Ceiling(w'.repo.trades[id])
    requires DueExpiryOf(w'.repo, b) >= DueExpiryOf(w.repo, b)
    requires DueExpiryOf(w'.repo, b) >= SettleExpiry(w'.repo.trades[id], w.host.maxTtl)
    requires Granted(w', usdc, b) == Allowance(DueOf(w'.repo, b), DueExpiryOf(w'.repo, b))
    requires forall x | x in w'.repo.due :: w'.repo.due[x] > 0
    ensures Covered(w', usdc, b)
  {
    forall j | j in w'.repo.trades
      ensures GoodTrade(w', j) && w'.repo.trades[j].lender != b
    {
      assert j != id ==> GoodTrade(w, j);
    }
  }

  /** What settling does to the figures the invariant speaks of. */
  lemma SettleFacts(w: World, usdc: Address, b: Address, borrower: Address, id: nat)
    requires AcceptAndSettle(w, borrower, id).Done? && w.repo.usdc == Some(usdc)
    requires w.repo.trades[id].cash > 0 && w.repo.trades[id].proposedAt <= w.now && w.repo.trades[id].lender != b
    requires DueOf(w.repo, borrower) >= 0
    ensures var w' := AcceptAndSettle(w, borrower, id).value;
            var t := w.repo.trades[id];
            && w'.host == w.host && w'.now == w.now && w'.repo.usdc == w.repo.usdc && w'.repo.nextId == w.repo.nextId
            && !t.status.Settled?
            && w'.repo == WriteDue(w.repo, borrower, OutstandingAfter(w, t), ExpiryAfter(w, t)).(trades := w'.repo.trades)
            && OutstandingAfter(w, t) > 0
            && w'.repo.trades == w.repo.trades[id := t.(status := Settled, leg1Ledger := Some(w.ledger), settledAt := Some(w.now))]
            && (borrower != b ==>
                  && DueOf(w'.repo, b) == DueOf(w.repo, b) && DueExpiryOf(w'.repo, b) == DueExpiryOf(w.repo, b)
                  && Granted(w', usdc, b) == Granted(w, usdc, b))
            && (borrower == b ==>
                  && DueOf(w'.repo, b) == DueOf(w.repo, b) + Ceiling(t)
                  && DueExpiryOf(w'.repo, b) == ExpiryAfter(w, t)
                  && Granted(w', usdc, b) == Allowance(DueOf(w'.repo, b), DueExpiryOf(w'.repo, b)))
  {
    var t := w.repo.trades[id];
    DueWithinCeiling(t, t.proposedAt);
    assert OutstandingAfter(w, t) > 0;
  }

  lemma SettleCovers(w: World, usdc: Address, b: Address, borrower: Address, id: nat)
    requires Covered(w, usdc, b) && AcceptAndSettle(w, borrower, id).Done?
    ensures Covered(AcceptAndSettle(w, borrower, id).value, usdc, b)
  {
    var w' := AcceptAndSettle(w, borrower, id).value;
    assert GoodTrade(w, id);
    SettleFacts(w, usdc, b, borrower, id);
    ClaimedAfter(w, w', id, b);
    if borrower != b {
      forall j | j in w'.repo.trades
        ensures GoodTrade(w', j) && w'.repo.trades[j].lender != b
      {
        assert j != id ==> GoodTrade(w, j);
      }
      UnrelatedKeeps(w, w', usdc, b);
    } else {
      JoinCovers(w, w', usdc, b, id);
    }
  }

  /** A non-borrower's unwind spends what is due out of the allowance; the borrower's own does not. */
  lemma UnwindSpends(w: World, usdc: Address, b: Address, caller: Address, id: nat)
    requires Unwind(w, caller, id).Done? && w.repo.usdc == Some(usdc)
    ensures var t := w.repo.trades[id];
            Granted(Unwind(w, caller, id).value, usdc, b) == Granted(w, usdc, b).(amount := Granted(w, usdc, b).amount
              - if t.borrower == b && caller != b then TotalDue(t, t.settledAt.value) else 0)
  {
    var t := w.repo.trades[id];
    var total := TotalDue(t, t.settledAt.value);
    var paid := if caller == t.borrower
                then Transfer(w.bank, usdc, t.borrower, t.lender, total)
                else TransferFrom(w.bank, usdc, w.host.self, t.borrower, t.lender, total, w.ledger);
    assert Unwind(w, caller, id).value.bank == Transfer(paid.value, t.asset, w.host.self, t.borrower, t.units).value;
  }

  lemma UnwindFacts(w: World, b: Address, caller: Address, id: nat)
    requires Unwind(w, caller, id).Done?
    ensures var w' := Unwind(w, caller, id).value;
            var t := w.repo.trades[id];
            && t.status.Settled?
            && w'.host == w.host && w'.now == w.now && w'.repo.usdc == w.repo.usdc && w'.repo.nextId == w.repo.nextId
            && w'.repo.trades == w.repo.trades[id := t.(status := Unwound)] && w'.repo.cureGrace == w.repo.cureGrace
            && ReleaseFacts(w.repo, w'.repo, t, b)
            && ((forall x | x in w.repo.due :: w.repo.due[x] > 0) ==> forall x | x in w'.repo.due :: w'.repo.due[x] > 0)
  {
    var t := w.repo.trades[id];
    var closed := t.(status := Unwound);
    var s := w.repo.(trades := w.repo.trades[id := closed]);
    assert Unwind(w, caller, id).value.repo == ReleaseDue(s, closed);
    ReleaseEffect(s, closed, b);
  }

  lemma ReleaseEffect(s: Storage, t: Trade, b: Address)
    ensures ReleaseDue(s, t) == s.(due := ReleaseDue(s, t).due, dueExpiry := ReleaseDue(s, t).dueExpiry)
    ensures ReleaseFacts(s, ReleaseDue(s, t), t, b)
    ensures (forall x | x in s.due :: s.due[x] > 0) ==>
              forall x | x in ReleaseDue(s, t).due :: ReleaseDue(s, t).due[x] > 0
  {
  }

  /** What releasing a trade's ceiling does to the tracked due of `b`. */
  predicate ReleaseFacts(s: Storage, s': Storage, t: Trade, b: Address) {
    if t.borrower != b then DueOf(s', b) == DueOf(s, b) && DueExpiryOf(s', b) == DueExpiryOf(s, b)
    else
      && DueOf(s', b) == Max(DueOf(s, b) - Ceiling(t), 0)
      && DueExpiryOf(s', b) == if DueOf(s', b) > 0 then DueExpiryOf(s, b) else 0
  }

  lemma UnwindCovers(w: World, usdc: Address, b: Address, caller: Address, id: nat)
    requires Covered(w, usdc, b) && Unwind(w, caller, id).Done?
    ensures Covered(Unwind(w, caller, id).value, usdc, b)
  {
    var w' := Unwind(w, caller, id).value;
    var t := w.repo.trades[id];
    UnwindFacts(w, b, caller, id);
    UnwindSpends(w, usdc, b, caller, id);
    assert GoodTrade(w, id);
    DueWithinCeiling(t, t.settledAt.value);
    CloseCovers(w, w', usdc, b, id);
  }

  /** Any closing that releases the tracked due and spends at most the ceiling. */
  lemma CloseCovers(w: World, w': World, usdc: Address, b: Address, id: nat)
    requires Covered(w, usdc, b)
    requires id in w.repo.trades && w.repo.trades[id].status.Settled?
    requires w'.host == w.host && w'.now == w.now && w'.repo.usdc == w.repo.usdc && w'.repo.nextId == w.repo.nextId
    requires w'.repo.trades == w.repo.trades[id := w.repo.trades[id].(status := Unwound)]
          || w'.repo.trades == w.repo.trades[id := w.repo.trades[id].(status := Defaulted)]
    requires ReleaseFacts(w.repo, w'.repo, w.repo.trades[id], b)
    requires Granted(w', usdc, b).expiry == Granted(w, usdc, b).expiry
    requires Granted(w', usdc, b).amount >= Granted(w, usdc, b).amount
               - if w.repo.trades[id].borrower == b then Ceiling(w.repo.trades[id]) else 0
    requires w.repo.trades[id].borrower != b ==> Granted(w', usdc, b) == Granted(w, usdc, b)
    requires forall x | x in w'.repo.due :: w'.repo.due[x] > 0
    ensures Covered(w', usdc, b)
  {
    ClaimedAfter(w, w', id, b);
    assert GoodTrade(w, id);
    if w.repo.trades[id].borrower == b {
      ReleaseCovers(w, w', usdc, b, id);
    } else {
      forall j | j in w'.repo.trades
        ensures GoodTrade(w', j) && w'.repo.trades[j].lender != b
      {
        assert j != id ==> GoodTrade(w, j);
      }
      UnrelatedKeeps(w, w', usdc, b);
    }
  }

  /** Closing one of `b`'s trades: its ceiling leaves the tracked due, and at most that much left the
      allowance. */
  lemma ReleaseCovers(w: World, w': World, usdc: Address, b: Address, id: nat)
    requires Covered(w, usdc, b)
    requires id in w.repo.trades && w.repo.trades[id].status.Settled? && w.repo.trades[id].borrower == b
    requires w'.host == w.host && w'.now == w.now && w'.repo.usdc == w.repo.usdc && w'.repo.nextId == w.repo.nextId
    requires id in w'.repo.trades && w'.repo.trades == w.repo.trades[id := w'.repo.trades[id]]
    requires !w'.repo.trades[id].status.Settled? && GoodTrade(w', id) && w'.repo.trades[id].lender != b
    requires DueOf(w'.repo, b) == Max(DueOf(w.repo, b) - Ceiling(w.repo.trades[id]), 0)
    requires DueOf(w'.repo, b) > 0 ==> DueExpiryOf(w'.repo, b) == DueExpiryOf(w.repo, b)
    requires DueOf(w'.repo, b) <= 0 ==> DueExpiryOf(w'.repo, b) == 0
    requires Granted(w', usdc, b).expiry == Granted(w, usdc, b).expiry
    requires Granted(w', usdc, b).amount >= Granted(w, usdc, b).amount - Ceiling(w.repo.trades[id])
    requires forall x | x in w'.repo.due :: w'.repo.due[x] > 0
    ensures Covered(w', usdc, b)
  {
    ClaimedAfter(w, w', id, b);
    CeilingWithinDue(w, usdc, b, id);
    forall j | j in w'.repo.trades
      ensures GoodTrade(w', j) && w'.repo.trades[j].lender != b
    {
      assert j != id ==> GoodTrade(w, j);
    }
    forall j | j in w'.repo.trades && w'.repo.trades[j].status.Settled? && w'.repo.trades[j].borrower == b
      ensures SettleExpiry(w'.repo.trades[j], w.host.maxTtl) <= DueExpiryOf(w'.repo, b)
    {
      assert j != id && GoodTrade(w', j);
      ClaimsNonNegative(w', b);
      DueWithinCeiling(w'.repo.trades[j], w'.repo.trades[j].proposedAt);
      assert Claims(w', b)[j] == Ceiling(w'.repo.trades[j]);
      SumAtLeast(Claims(w', b), j);
    }
  }

  lemma PayOutGrants(w: World, t: Trade, lenderUnits: int)
    requires PayOut(w, t, lenderUnits).Done?
    ensures forall token, o, s :: AllowanceOf(PayOut(w, t, lenderUnits).value, token, o, s) == AllowanceOf(w.bank, token, o, s)
  {
  }

  lemma DefaultCloseCovers(w: World, usdc: Address, b: Address, id: nat, q: Quote)
    requires Covered(w, usdc, b) && DefaultClose(w, id, q).Done?
    ensures Covered(DefaultClose(w, id, q).value, usdc, b)
  {
    var w' := DefaultClose(w, id, q).value;
    var t := w.repo.trades[id];
    var closed := t.(status := Defaulted);
    var s := w.repo.(trades := w.repo.trades[id := closed]);
    PayOutGrants(w, t, LenderUnits(Exposure(t, w.now), q.value, t.units));
    assert w'.repo == ReleaseDue(s, closed);
    ReleaseEffect(s, closed, b);
    assert GoodTrade(w, id);
    DueWithinCeiling(t, t.proposedAt);
    CloseCovers(w, w', usdc, b, id);
  }

  lemma DefaultAtMaturityCovers(w: World, usdc: Address, b: Address, caller: Address, id: nat, q: Quote)
    requires Covered(w, usdc, b) && DefaultAtMaturity(w, caller, id, q).Done?
    ensures Covered(DefaultAtMaturity(w, caller, id, q).value, usdc, b)
  {
    var w' := DefaultAtMaturity(w, caller, id, q).value;
    var t := w.repo.trades[id];
    PayOutGrants(w, t, LenderUnits(TotalDue(t, t.settledAt.value), q.value, t.units));
    RewriteCovers(w, w', usdc, b, id);
  }

  /** Rewriting a trade without opening it: its claim can only go away. */
  lemma RewriteCovers(w: World, w': World, usdc: Address, b: Address, id: nat)
    requires Covered(w, usdc, b)
    requires w'.host == w.host && w'.now == w.now && w'.repo.nextId >= w.repo.nextId
    requires w'.repo.usdc == w.repo.usdc && w'.repo.due == w.repo.due && w'.repo.dueExpiry == w.repo.dueExpiry
    requires Granted(w', usdc, b) == Granted(w, usdc, b)
    requires id in w'.repo.trades && w'.repo.trades == w.repo.trades[id := w'.repo.trades[id]]
    requires GoodTrade(w', id) && w'.repo.trades[id].lender != b
    requires w'.repo.trades[id].status.Settled? && w'.repo.trades[id].borrower == b ==>
               && id in w.repo.trades && w.repo.trades[id].status.Settled? && w.repo.trades[id].borrower == b
               && Ceiling(w'.repo.trades[id]) == Ceiling(w.repo.trades[id])
               && SettleExpiry(w'.repo.trades[id], w.host.maxTtl) == SettleExpiry(w.repo.trades[id], w.host.maxTtl)
    ensures Covered(w', usdc, b)
  {
    ClaimedAfter(w, w', id, b);
    if id in w.repo.trades {
      assert GoodTrade(w, id);
      DueWithinCeiling(w.repo.trades[id], w.repo.trades[id].proposedAt);
    }
    forall j | j in w'.repo.trades
      ensures GoodTrade(w', j) && w'.repo.trades[j].lender != b
    {
      assert j != id ==> GoodTrade(w, j);
    }
    UnrelatedKeeps(w, w', usdc, b);
  }

  lemma ProposeCovers(w: World, usdc: Address, b: Address, a: Action)
    requires Covered(w, usdc, b) && a.DoPropose? && Disciplined(w.host, usdc, b, a) && Apply(w, a).Done?
    ensures Covered(Apply(w, a).value, usdc, b)
  {
    var w' := Apply(w, a).value;
    RewriteCovers(w, w', usdc, b, w.repo.nextId);
  }

  lemma CancelCovers(w: World, usdc: Address, b: Address, caller: Address, id: nat)
    requires Covered(w, usdc, b) && CancelProposal(w, caller, id).Done?
    ensures Covered(CancelProposal(w, caller, id).value, usdc, b)
  {
    assert GoodTrade(w, id);
    RewriteCovers(w, CancelProposal(w, caller, id).value, usdc, b, id);
  }

  lemma CallMarginCovers(w: World, usdc: Address, b: Address, id: nat, q: Quote)
    requires Covered(w, usdc, b) && CallMargin(w, id, q).Done?
    ensures Covered(CallMargin(w, id, q).value, usdc, b)
  {
    RepoEscrow.CallMarginStorage(w, id, q);
    assert GoodTrade(w, id);
    RewriteCovers(w, CallMargin(w, id, q).value, usdc, b, id);
  }

  lemma TopUpCovers(w: World, usdc: Address, b: Address, borrower: Address, id: nat, extra: int, q: Quote)
    requires Covered(w, usdc, b) && TopUp(w, borrower, id, extra, q).Done?
    ensures Covered(TopUp(w, borrower, id, extra, q).value, usdc, b)
  {
    RepoEscrow.TopUpStorage(w, borrower, id, extra, q);
    assert GoodTrade(w, id);
    RewriteCovers(w, TopUp(w, borrower, id, extra, q).value, usdc, b, id);
  }

  /** Steps that change no trade. */
  lemma SameTradesCover(w: World, w': World, usdc: Address, b: Address)
    requires Covered(w, usdc, b)
    requires w'.host == w.host && w'.now >= w.now && w'.repo.trades == w.repo.trades && w'.repo.nextId >= w.repo.nextId
    requires w'.repo.usdc == None || w'.repo.usdc == Some(usdc)
    requires w'.repo.due == w.repo.due && w'.repo.dueExpiry == w.repo.dueExpiry
    requires Granted(w', usdc, b) == Granted(w, usdc, b)
    ensures Covered(w', usdc, b)
  {
    assert Claims(w', b) == Claims(w, b);
    forall j | j in w'.repo.trades
      ensures GoodTrade(w', j) && w'.repo.trades[j].lender != b
    {
      assert GoodTrade(w, j);
    }
  }

  lemma OtherStepCovers(w: World, usdc: Address, b: Address, a: Action)
    requires Covered(w, usdc, b) && Disciplined(w.host, usdc, b, a) && MovesNoTrade(a) && Apply(w, a).Done?
    ensures Covered(Apply(w, a).value, usdc, b) && Apply(w, a).value.host == w.host
  {
    SameTradesCover(w, Apply(w, a).value, usdc, b);
  }

  lemma TradeStepCovers(w: World, usdc: Address, b: Address, a: Action)
    requires Covered(w, usdc, b) && Disciplined(w.host, usdc, b, a) && !MovesNoTrade(a) && Apply(w, a).Done?
    ensures Covered(Apply(w, a).value, usdc, b)
  {
    match a
    case DoPropose(_, _, _, _, _, _, _, _) => ProposeCovers(w, usdc, b, a);
    case DoCancel(caller, id) => CancelCovers(w, usdc, b, caller, id);
    case DoAccept(borrower, id) => SettleCovers(w, usdc, b, borrower, id);
    case DoUnwind(caller, id) => UnwindCovers(w, usdc, b, caller, id);
    case DoCallMargin(id, q) => CallMarginCovers(w, usdc, b, id, q);
    case DoTopUp(borrower, id, extra, q) => TopUpCovers(w, usdc, b, borrower, id, extra, q);
    case DoDefaultClose(id, q) => DefaultCloseCovers(w, usdc, b, id, q);
    case DoDefaultAtMaturity(caller, id, q) => DefaultAtMaturityCovers(w, usdc, b, caller, id, q);
  }

  lemma CoveredStep(w: World, usdc: Address, b: Address, a: Action)
    requires Covered(w, usdc, b) && Disciplined(w.host, usdc, b, a)
    ensures Covered(Step(w, a), usdc, b) && Step(w, a).host == w.host
  {
    HostConstant(w, a);
    if Apply(w, a).Done? {
      if MovesNoTrade(a) {
        OtherStepCovers(w, usdc, b, a);
      } else {
        TradeStepCovers(w, usdc, b, a);
      }
    }
  }

  lemma HostConstant(w: World, a: Action)
    ensures Step(w, a).host == w.host
  {
  }

  /** What open trades will owe at unwind never exceeds the sum of their ceilings. */
  lemma OwedWithinClaimed(w: World, b: Address)
    requires forall id | id in w.repo.trades :: GoodTrade(w, id)
    ensures Owed(w, b) <= Claimed(w, b)
  {
    forall id | id in w.repo.trades
      ensures Debts(w, b)[id] <= Claims(w, b)[id]
    {
      var t := w.repo.trades[id];
      if t.status.Settled? {
        DueWithinCeiling(t, t.settledAt.value);
      }
    }
    SumPointwise(Debts(w, b), Claims(w, b));
  }

  /** In every reachable state: allowance >= tracked due >= sum of open trades' ceilings >= sum of what
      they will owe; and the allowance lives at least as long as every open trade's settlement asked. */
  lemma {:induction false} AllowanceAlwaysSuffices(ws: seq<World>, acts: seq<Action>, n: nat, usdc: Address, b: Address)
    requires IsRun(ws, acts) && n <= |acts| && IsGenesis(ws[0])
    requires Granted(ws[0], usdc, b).amount >= 0
    requires forall a | a in acts :: Disciplined(ws[0].host, usdc, b, a)
    ensures Covered(ws[n], usdc, b) && ws[n].host == ws[0].host
    ensures Owed(ws[n], b) <= Claimed(ws[n], b) <= DueOf(ws[n].repo, b) <= Granted(ws[n], usdc, b).amount
  {
    if n == 0 {
      assert Claims(ws[0], b) == map[];
    } else {
      AllowanceAlwaysSuffices(ws, acts, n - 1, usdc, b);
      assert acts[n - 1] in acts;
      CoveredStep(ws[n - 1], usdc, b, acts[n - 1]);
    }
    OwedWithinClaimed(ws[n], b);
  }

  // ----- what it buys

  /** A non-borrower's unwind at or after maturity succeeds exactly when the borrower still has the
      money: never for want of allowance, and never for want of escrowed units. */
  lemma NonBorrowerUnwindOnlyNeedsFunds(w: World, usdc: Address, b: Address, caller: Address, id: nat)
    requires Covered(w, usdc, b) && RepoEscrow.WellFormed(w) && w.repo.usdc == Some(usdc) && usdc in w.bank
    requires id in w.repo.trades && w.repo.trades[id].status.Settled? && w.repo.trades[id].borrower == b
    requires w.repo.trades[id].asset in w.bank
    requires RepoEscrow.Surplus(w, w.repo.trades[id].asset) >= 0
    requires caller != b && (caller == w.repo.trades[id].lender || caller == w.host.keeper)
    requires w.now >= w.repo.trades[id].maturityAt
    requires w.ledger <= SettleExpiry(w.repo.trades[id], w.host.maxTtl)
    ensures Unwind(w, caller, id).Done? <==>
            TotalDue(w.repo.trades[id], w.repo.trades[id].settledAt.value) <= BalanceOf(w.bank, usdc, b)
  {
    var t := w.repo.trades[id];
    var total := TotalDue(t, t.settledAt.value);
    assert GoodTrade(w, id);
    DueWithinCeiling(t, t.settledAt.value);
    CeilingWithinDue(w, usdc, b, id);
    EscrowCoversTrade(w, id);
    var paid := TransferFrom(w.bank, usdc, w.host.self, b, t.lender, total, w.ledger);
    assert paid.Done? <==> total <= BalanceOf(w.bank, usdc, b);
    if paid.Done? {
      assert BalanceOf(paid.value, t.asset, w.host.self) == BalanceOf(w.bank, t.asset, w.host.self);
      assert Transfer(paid.value, t.asset, w.host.self, b, t.units).Done?;
    }
  }

  lemma EscrowCoversTrade(w: World, id: nat)
    requires RepoEscrow.WellFormed(w) && id in w.repo.trades && w.repo.trades[id].status.Settled?
    requires RepoEscrow.Surplus(w, w.repo.trades[id].asset) >= 0
    ensures 0 < w.repo.trades[id].units <= BalanceOf(w.bank, w.repo.trades[id].asset, w.host.self)
  {
    var asset := w.repo.trades[id].asset;
    forall j | j in RepoEscrow.Locks(w, asset)
      ensures RepoEscrow.Locks(w, asset)[j] >= 0
    {
      assert RepoEscrow.WellFormedTrade(w.host, w.repo.trades[j]);
    }
    assert RepoEscrow.WellFormedTrade(w.host, w.repo.trades[id]);
    assert RepoEscrow.Locks(w, asset)[id] == w.repo.trades[id].units;
    SumAtLeast(RepoEscrow.Locks(w, asset), id);
  }

  /** The same for every reachable state: whatever was settled, unwound, defaulted or cancelled before,
      a matured trade of a borrower who never lends is collectable while the borrower has the money. */
  lemma ReachableUnwindOnlyNeedsFunds(ws: seq<World>, acts: seq<Action>, n: nat, usdc: Address, b: Address,
                                      caller: Address, id: nat)
    requires IsRun(ws, acts) && n <= |acts| && IsGenesis(ws[0]) && GrantsNothing(ws[0].bank, ws[0].host.self)
    requires Granted(ws[0], usdc, b).amount >= 0
    requires forall a | a in acts :: Disciplined(ws[0].host, usdc, b, a)
    requires ws[n].repo.usdc == Some(usdc) && usdc in ws[n].bank
    requires id in ws[n].repo.trades && ws[n].repo.trades[id].status.Settled? && ws[n].repo.trades[id].borrower == b
    requires ws[n].repo.trades[id].asset in ws[n].bank
    requires RepoEscrow.Held(ws[0], ws[n].repo.trades[id].asset) >= 0
    requires caller != b && (caller == ws[n].repo.trades[id].lender || caller == ws[n].host.keeper)
    requires ws[n].now >= ws[n].repo.trades[id].maturityAt
    requires ws[n].ledger <= SettleExpiry(ws[n].repo.trades[id], ws[n].host.maxTtl)
    ensures Unwind(ws[n], caller, id).Done? <==>
            TotalDue(ws[n].repo.trades[id], ws[n].repo.trades[id].settledAt.GetOr(0)) <= BalanceOf(ws[n].bank, usdc, b)
  {
    AllowanceAlwaysSuffices(ws, acts, n, usdc, b);
    forall a | a in acts
      ensures Authorised(ws[0].host, a)
    {
      assert Disciplined(ws[0].host, usdc, b, a);
    }
    RepoEscrow.EscrowConserved(ws, acts, n);
    assert GoodTrade(ws[n], id);
    NonBorrowerUnwindOnlyNeedsFunds(ws[n], usdc, b, caller, id);
  }

  // ----- a borrower who also lends

  /** What a trade's cash leg must find when somebody other than the borrower unwinds it: enough allowance,
      still alive, and enough money. */
  predicate Collectable(w: World, usdc: Address, t: Trade, granted: Allowance)
    requires t.settledAt.Some?
  {
    var total := TotalDue(t, t.settledAt.value);
    total <= granted.amount && w.ledger <= granted.expiry && total <= BalanceOf(w.bank, usdc, t.borrower)
  }

  /** Nothing but the cash leg stands in the way of `caller` unwinding the trade. */
  predicate Matured(w: World, caller: Address, id: nat) {
    && id in w.repo.trades
    && var t := w.repo.trades[id];
    && t.status.Settled? && t.settledAt.Some? && t.cash > 0 && t.proposedAt <= t.settledAt.value
    && w.now >= t.maturityAt
    && caller != t.borrower && (caller == t.lender || caller == w.host.keeper)
    && t.lender != w.host.self && t.borrower != w.host.self
    && t.asset in w.bank && 0 <= t.units <= BalanceOf(w.bank, t.asset, w.host.self)
  }

  /** Whoever the borrower is and whatever else it did: an unwind by the lender or the keeper succeeds
      exactly when allowance, expiry and balance all suffice at that moment. */
  lemma UnwindNeedsExactly(w: World, usdc: Address, caller: Address, id: nat)
    requires w.repo.usdc == Some(usdc) && usdc in w.bank && Matured(w, caller, id)
    ensures var t := w.repo.trades[id];
            Unwind(w, caller, id).Done? <==> Collectable(w, usdc, t, Granted(w, usdc, t.borrower))
  {
    var t := w.repo.trades[id];
    var total := TotalDue(t, t.settledAt.value);
    DueWithinCeiling(t, t.settledAt.value);
    var paid := TransferFrom(w.bank, usdc, w.host.self, t.borrower, t.lender, total, w.ledger);
    assert paid.Done? <==> Collectable(w, usdc, t, Granted(w, usdc, t.borrower));
    if paid.Done? {
      assert BalanceOf(paid.value, t.asset, w.host.self) == BalanceOf(w.bank, t.asset, w.host.self);
      assert Transfer(paid.value, t.asset, w.host.self, t.borrower, t.units).Done?;
    }
  }

  /** A proposal by `b` as lender replaces its leg-2 allowance, figure and expiry both, and leaves what is
      tracked for it and its balance as they were. */
  lemma ProposalReplaces(w: World, usdc: Address, b: Address, borrower: Address, asset: Address,
                         units: int, cash: int, rate: nat, k: Kind, m: nat)
    requires w.repo.usdc == Some(usdc) && Propose(w, b, borrower, asset, units, cash, rate, k, m).Done?
    ensures var w' := Propose(w, b, borrower, asset, units, cash, rate, k, m).value;
            && m > w.now
            && Granted(w', usdc, b) == Allowance(cash, AllowanceExpiry(w.ledger, w.host.maxTtl, m - w.now, 0))
            && DueOf(w'.repo, b) == DueOf(w.repo, b)
            && (forall t, who :: BalanceOf(w'.bank, t, who) == BalanceOf(w.bank, t, who))
            && w'.host == w.host && w'.now == w.now && w'.ledger == w.ledger && w'.bank.Keys == w.bank.Keys
            && w'.repo.usdc == w.repo.usdc && w'.repo.trades == w.repo.trades[w.repo.nextId := w'.repo.trades[w.repo.nextId]]
            && w.repo.nextId in w'.repo.trades && w'.repo.trades[w.repo.nextId].cash == cash
            && w'.repo.trades[w.repo.nextId].lender == b
  {
  }

  /** Where the allowance theorem stops: once `b` has itself proposed as a lender, each of its matured
      trades is collectable exactly when what it owes fits the new proposal's cash, before the new
      proposal's expiry, and `b` has the money. */
  lemma LendingReplacesAllowance(w: World, usdc: Address, b: Address, borrower: Address, asset: Address,
                                 units: int, cash: int, rate: nat, k: Kind, m: nat, caller: Address, id: nat)
    requires w.repo.usdc == Some(usdc) && Propose(w, b, borrower, asset, units, cash, rate, k, m).Done?
    requires usdc in w.bank && w.repo.nextId !in w.repo.trades
    requires Matured(w, caller, id) && w.repo.trades[id].borrower == b
    ensures var w' := Propose(w, b, borrower, asset, units, cash, rate, k, m).value;
            var t := w.repo.trades[id];
            var total := TotalDue(t, t.settledAt.value);
            && m > w.now
            && (Unwind(w', caller, id).Done? <==>
                 && total <= cash
                 && w.ledger <= AllowanceExpiry(w.ledger, w.host.maxTtl, m - w.now, 0)
                 && total <= BalanceOf(w.bank, usdc, b))
  {
    ProposalReplaces(w, usdc, b, borrower, asset, units, cash, rate, k, m);
    var w' := Propose(w, b, borrower, asset, units, cash, rate, k, m).value;
    assert w'.repo.trades[id] == w.repo.trades[id];
    UnwindNeedsExactly(w', usdc, caller, id);
  }

  /** Settling a proposal takes its cash back out of its lender's allowance, and nothing out of what is
      tracked for that lender as a borrower. */
  lemma SettlingSpendsAllowance(w: World, usdc: Address, b: Address, borrower: Address, id: nat)
    requires w.repo.usdc == Some(usdc) && AcceptAndSettle(w, borrower, id).Done?
    requires w.repo.trades[id].lender == b && borrower != b && w.repo.trades[id].cash > 0
    ensures var w' := AcceptAndSettle(w, borrower, id).value;
            && Granted(w', usdc, b).amount == Granted(w, usdc, b).amount - w.repo.trades[id].cash
            && Granted(w', usdc, b).expiry == Granted(w, usdc, b).expiry
            && DueOf(w'.repo, b) == DueOf(w.repo, b)
  {
    var t := w.repo.trades[id];
    var due, expiry := OutstandingAfter(w, t), ExpiryAfter(w, t);
    var escrowed := Transfer(w.bank, t.asset, borrower, w.host.self, t.units).value;
    var paid := TransferFrom(escrowed, usdc, w.host.self, t.lender, borrower, t.cash, w.ledger).value;
    assert AcceptAndSettle(w, borrower, id).value.bank ==
           Approve(paid, usdc, borrower, w.host.self, due, expiry, w.ledger, w.host.maxTtl).value;
    assert AcceptAndSettle(w, borrower, id).value.repo.due == WriteDue(w.repo, borrower, due, expiry).due;
  }

  /** So the counterparty's settlement of the very proposal that replaced the allowance leaves nothing in
      it: whatever the figure was, no other trade of `b` can then be collected by anybody but `b`. */
  lemma SettledProposalLeavesNothing(w: World, usdc: Address, b: Address, borrower: Address, asset: Address,
                                     units: int, cash: int, rate: nat, k: Kind, m: nat)
    requires w.repo.usdc == Some(usdc) && borrower != b
    requires Propose(w, b, borrower, asset, units, cash, rate, k, m).Done?
    requires AcceptAndSettle(Propose(w, b, borrower, asset, units, cash, rate, k, m).value, borrower, w.repo.nextId).Done?
    ensures var w' := AcceptAndSettle(Propose(w, b, borrower, asset, units, cash, rate, k, m).value, borrower, w.repo.nextId).value;
            Granted(w', usdc, b).amount == 0 && DueOf(w'.repo, b) == DueOf(w.repo, b)
  {
    ProposalReplaces(w, usdc, b, borrower, asset, units, cash, rate, k, m);
    SettlingSpendsAllowance(Propose(w, b, borrower, asset, units, cash, rate, k, m).value, usdc, b, borrower, w.repo.nextId);
  }

  // ----- how long it lives

  /** The ledger maturity plus grace falls on, counted without saturation. */
  function Earliest(ledger: nat, secondsAhead: nat, graceLedgers: nat): nat {
    ledger + secondsAhead / SECONDS_PER_LEDGER + graceLedgers
  }

  /** The furthest whole bucket the host accepts. */
  function HostBucket(ledger: nat, maxTtl: nat): nat {
    FurthestExpiry(ledger, maxTtl) / EXPIRY_BUCKET
  }

  /** The bucket an expiry falls on: two past the earliest ledger's own, or the host's last. */
  function ExpiryBucket(ledger: nat, maxTtl: nat, secondsAhead: nat, graceLedgers: nat): nat {
    Min(Earliest(ledger, secondsAhead, graceLedgers) / EXPIRY_BUCKET + 2, HostBucket(ledger, maxTtl))
  }

  lemma BucketOf(x: nat, y: nat)
    ensures x <= y ==> x / EXPIRY_BUCKET <= y / EXPIRY_BUCKET
  {
  }

  lemma SaturatedEarliest(ledger: nat, secondsAhead: nat, graceLedgers: nat)
    ensures SatAdd32(SatAdd32(ledger, Min(secondsAhead / SECONDS_PER_LEDGER, U32_MAX)), graceLedgers)
            == Min(Earliest(ledger, secondsAhead, graceLedgers), U32_MAX)
  {
  }

  /** None of the 32-bit saturations ever shows: the host's cap is met before they are. */
  lemma ExpiryIsABucket(ledger: nat, maxTtl: nat, secondsAhead: nat, graceLedgers: nat)
    ensures AllowanceExpiry(ledger, maxTtl, secondsAhead, graceLedgers)
            == ExpiryBucket(ledger, maxTtl, secondsAhead, graceLedgers) * EXPIRY_BUCKET
  {
    var e := Earliest(ledger, secondsAhead, graceLedgers);
    SaturatedEarliest(ledger, secondsAhead, graceLedgers);
    BucketOf(FurthestExpiry(ledger, maxTtl), U32_MAX);
    BucketOf(e, U32_MAX);
    BucketOf(U32_MAX, e);
  }

  /** The allowance outlives maturity and its grace exactly when the host's cap does; uncapped, it
      does so by between one and two buckets. */
  lemma ExpiryOutlivesMaturity(ledger: nat, maxTtl: nat, secondsAhead: nat, graceLedgers: nat)
    ensures var e := Earliest(ledger, secondsAhead, graceLedgers);
            var x := AllowanceExpiry(ledger, maxTtl, secondsAhead, graceLedgers);
            var cap := HostBucket(ledger, maxTtl) * EXPIRY_BUCKET;
            && (x >= e <==> cap >= e)
            && (x < cap ==> e + EXPIRY_BUCKET < x <= e + 2 * EXPIRY_BUCKET)
  {
    ExpiryIsABucket(ledger, maxTtl, secondsAhead, graceLedgers);
  }

  /** Two ledgers compute the same expiry exactly when it falls on the same bucket, which is what lets an
      authorisation simulated at one be used at the other. Uncapped, that is when no bucket boundary lies
      between their earliest ledgers; capped, when none lies between their furthest. */
  lemma SimulationAgrees(l: nat, l': nat, maxTtl: nat, secondsAhead: nat, secondsAhead': nat, graceLedgers: nat)
    ensures var e, e' := Earliest(l, secondsAhead, graceLedgers) / EXPIRY_BUCKET, Earliest(l', secondsAhead', graceLedgers) / EXPIRY_BUCKET;
            var h, h' := HostBucket(l, maxTtl), HostBucket(l', maxTtl);
            var same := AllowanceExpiry(l, maxTtl, secondsAhead, graceLedgers) == AllowanceExpiry(l', maxTtl, secondsAhead', graceLedgers);
            && (same <==> Min(e + 2, h) == Min(e' + 2, h'))
            && (e + 2 <= h && e' + 2 <= h' ==> (same <==> e == e'))
            && (e + 2 >= h && e' + 2 >= h' ==> (same <==> h == h'))
  {
    ExpiryIsABucket(l, maxTtl, secondsAhead, graceLedgers);
    ExpiryIsABucket(l', maxTtl, secondsAhead', graceLedgers);
  }
}
