/** What takes a borrower's leg-2 allowance away and what restores it, over every run and whatever the borrower
    does as a lender beside. */
module RepoRestore {
  import opened Prelude
  import opened Tokens
  import opened Risk
  import opened RepoSpec
  import opened RepoAllowance
  import RepoDue

  // ----- taken away

  /** Cancelling its latest proposal as a lender leaves an address no allowance at all, whatever its own trades
      need; cancelling any other one leaves the allowance alone. What is tracked for it stays either way. */
  lemma CancellingClearsAllowance(w: World, usdc: Address, b: Address, id: nat)
    requires w.repo.usdc == Some(usdc) && CancelProposal(w, b, id).Done?
    ensures var w' := CancelProposal(w, b, id).value;
            && DueOf(w'.repo, b) == DueOf(w.repo, b) && Claimed(w', b) == Claimed(w, b)
            && (if w.repo.trades[id].lender == b && b in w.repo.latest && w.repo.latest[b] == id
                then Granted(w', usdc, b).amount == 0
                else Granted(w', usdc, b) == Granted(w, usdc, b))
  {
    ClaimedAfter(w, CancelProposal(w, b, id).value, id, b);
  }

  // ----- what every reachable state keeps, without any discipline

  predicate SoundTrade(w: World, id: nat)
    requires id in w.repo.trades
  {
    var t := w.repo.trades[id];
    && id < w.repo.nextId && t.cash > 0 && t.asset in w.repo.configs
    && (t.status.Settled? ==> t.leg1Ledger.Some? && t.settledAt.Some?)
    && t.proposedAt <= w.now && (t.settledAt.Some? ==> t.proposedAt <= t.settledAt.value)
  }

  predicate IsOpenOf(t: Trade, b: Address) {
    t.status.Settled? && t.borrower == b
  }

  /** The tracked expiry is late enough for every open trade. */
  predicate InTime(w: World, b: Address, id: nat)
    requires id in w.repo.trades
  {
    IsOpenOf(w.repo.trades[id], b) ==> SettleExpiry(w.repo.trades[id], w.host.maxTtl) <= DueExpiryOf(w.repo, b)
  }

  ghost predicate Kept(w: World, b: Address) {
    forall id | id in w.repo.trades :: SoundTrade(w, id) && InTime(w, b, id)
  }

  ghost predicate HasOpen(w: World, b: Address) {
    exists id :: id in w.repo.trades && IsOpenOf(w.repo.trades[id], b)
  }

  /** A step that rewrites one trade and takes no expiry from a borrower who still has an open one. */
  lemma RewriteKept(w: World, w': World, id: nat, b: Address)
    requires Kept(w, b) && w'.host == w.host && w'.now >= w.now && w'.repo.nextId >= w.repo.nextId
    requires w.repo.configs.Keys <= w'.repo.configs.Keys
    requires id in w'.repo.trades && w'.repo.trades == w.repo.trades[id := w'.repo.trades[id]]
    requires SoundTrade(w', id) && InTime(w', b, id)
    requires HasOpen(w', b) ==> DueExpiryOf(w'.repo, b) >= DueExpiryOf(w.repo, b)
    ensures Kept(w', b)
  {
    forall j | j in w'.repo.trades
      ensures SoundTrade(w', j) && InTime(w', b, j)
    {
      if j != id {
        assert SoundTrade(w, j) && InTime(w, b, j) && w'.repo.trades[j] == w.repo.trades[j];
        assert IsOpenOf(w'.repo.trades[j], b) ==> HasOpen(w', b);
      }
    }
  }

  lemma SameTradesKept(w: World, w': World, b: Address)
    requires Kept(w, b) && w'.host == w.host && w'.now >= w.now && w'.repo.nextId >= w.repo.nextId
    requires w.repo.configs.Keys <= w'.repo.configs.Keys
    requires w'.repo.trades == w.repo.trades && w'.repo.dueExpiry == w.repo.dueExpiry
    ensures Kept(w', b)
  {
    forall j | j in w'.repo.trades
      ensures SoundTrade(w', j) && InTime(w', b, j)
    {
      assert SoundTrade(w, j) && InTime(w, b, j);
    }
  }

  lemma SettleKept(w: World, borrower: Address, id: nat, b: Address)
    requires Kept(w, b) && AcceptAndSettle(w, borrower, id).Done? && DueOf(w.repo, borrower) >= 0
    ensures Kept(AcceptAndSettle(w, borrower, id).value, b)
  {
    var w', t := AcceptAndSettle(w, borrower, id).value, w.repo.trades[id];
    assert SoundTrade(w, id);
    RepoEscrow.SettleStorage(w, borrower, id);
    DueWithinCeiling(t, t.proposedAt);
    SettleExpiries(w, borrower, id, b);
    RewriteKept(w, w', id, b);
  }

  lemma SettleExpiries(w: World, borrower: Address, id: nat, b: Address)
    requires AcceptAndSettle(w, borrower, id).Done? && DueOf(w.repo, borrower) >= 0
    requires Ceiling(w.repo.trades[id]) > 0
    ensures DueExpiryOf(AcceptAndSettle(w, borrower, id).value.repo, b)
            == if b == borrower then ExpiryAfter(w, w.repo.trades[id]) else DueExpiryOf(w.repo, b)
    ensures AcceptAndSettle(w, borrower, id).value.now == w.now
  {
  }

  /** A closing that releases the trade's share: the expiry goes only with the last open trade. */
  lemma ReleaseKept(w: World, w': World, id: nat, closed: Trade, b: Address)
    requires Kept(w, b) && w'.host == w.host && w'.now == w.now && id in w.repo.trades
    requires closed == w.repo.trades[id].(status := closed.status) && !closed.status.Settled?
    requires w'.repo == ReleaseDue(w.repo.(trades := w.repo.trades[id := closed]), closed)
    requires RepoDue.AllLend(w') && DueOf(w'.repo, b) >= Claimed(w', b)
    ensures Kept(w', b)
  {
    assert SoundTrade(w, id);
    ReleaseEffect(w.repo.(trades := w.repo.trades[id := closed]), closed, b);
    if HasOpen(w', b) {
      var j :| j in w'.repo.trades && IsOpenOf(w'.repo.trades[j], b);
      RepoDue.ClaimWithinClaimed(w', b, j);
      RepoDue.CeilingPositive(w'.repo.trades[j]);
    }
    RewriteKept(w, w', id, b);
  }

  lemma UnwindKept(w: World, caller: Address, id: nat, b: Address)
    requires Kept(w, b) && Unwind(w, caller, id).Done?
    requires var w' := Unwind(w, caller, id).value; RepoDue.AllLend(w') && DueOf(w'.repo, b) >= Claimed(w', b)
    ensures Kept(Unwind(w, caller, id).value, b)
  {
    var closed := w.repo.trades[id].(status := Unwound);
    assert Unwind(w, caller, id).value.repo == ReleaseDue(w.repo.(trades := w.repo.trades[id := closed]), closed);
    ReleaseKept(w, Unwind(w, caller, id).value, id, closed, b);
  }

  lemma DefaultCloseKept(w: World, id: nat, q: Quote, b: Address)
    requires Kept(w, b) && DefaultClose(w, id, q).Done?
    requires var w' := DefaultClose(w, id, q).value; RepoDue.AllLend(w') && DueOf(w'.repo, b) >= Claimed(w', b)
    ensures Kept(DefaultClose(w, id, q).value, b)
  {
    var closed := w.repo.trades[id].(status := Defaulted);
    assert DefaultClose(w, id, q).value.repo == ReleaseDue(w.repo.(trades := w.repo.trades[id := closed]), closed);
    ReleaseKept(w, DefaultClose(w, id, q).value, id, closed, b);
  }

  lemma DefaultAtMaturityKept(w: World, caller: Address, id: nat, q: Quote, b: Address)
    requires Kept(w, b) && DefaultAtMaturity(w, caller, id, q).Done?
    ensures Kept(DefaultAtMaturity(w, caller, id, q).value, b)
  {
    assert SoundTrade(w, id);
    RewriteKept(w, DefaultAtMaturity(w, caller, id, q).value, id, b);
  }

  lemma ProposeKept(w: World, a: Action, b: Address)
    requires Kept(w, b) && a.DoPropose? && Apply(w, a).Done?
    ensures Kept(Apply(w, a).value, b)
  {
    RewriteKept(w, Apply(w, a).value, w.repo.nextId, b);
  }

  lemma QuietKept(w: World, a: Action, b: Address)
    requires Kept(w, b) && Apply(w, a).Done? && (MovesNoTrade(a) || a.DoCancel? || a.DoCallMargin? || a.DoTopUp?)
    ensures Kept(Apply(w, a).value, b)
  {
    var w' := Apply(w, a).value;
    match a
    case DoCancel(_, id) =>
      assert SoundTrade(w, id);
      RewriteKept(w, w', id, b);
    case DoCallMargin(id, q) =>
      RepoEscrow.CallMarginStorage(w, id, q);
      assert SoundTrade(w, id) && InTime(w, b, id);
      RewriteKept(w, w', id, b);
    case DoTopUp(borrower, id, extra, q) =>
      RepoEscrow.TopUpStorage(w, borrower, id, extra, q);
      assert SoundTrade(w, id) && InTime(w, b, id);
      RewriteKept(w, w', id, b);
    case _ => SettingKept(w, a, b);
  }

  lemma SettingKept(w: World, a: Action, b: Address)
    requires Kept(w, b) && Apply(w, a).Done? && MovesNoTrade(a)
    ensures Kept(Apply(w, a).value, b)
  {
    SameTradesKept(w, Apply(w, a).value, b);
  }

  lemma KeptStep(w: World, a: Action, b: Address)
    requires Kept(w, b) && Apply(w, a).Done? && (forall x :: DueOf(w.repo, x) >= 0)
    requires RepoDue.AllLend(Apply(w, a).value) && DueOf(Apply(w, a).value.repo, b) >= Claimed(Apply(w, a).value, b)
    ensures Kept(Apply(w, a).value, b)
  {
    match a
    case DoPropose(_, _, _, _, _, _, _, _) => ProposeKept(w, a, b);
    case DoAccept(borrower, id) => SettleKept(w, borrower, id, b);
    case DoUnwind(caller, id) => UnwindKept(w, caller, id, b);
    case DoDefaultClose(id, q) => DefaultCloseKept(w, id, q, b);
    case DoDefaultAtMaturity(caller, id, q) => DefaultAtMaturityKept(w, caller, id, q, b);
    case _ => QuietKept(w, a, b);
  }

  /** Every due is what it claims to be, at `n` and so far. */
  lemma DueAt(ws: seq<World>, acts: seq<Action>, n: nat)
    requires IsRun(ws, acts) && IsGenesis(ws[0]) && n <= |acts|
    ensures RepoDue.AllLend(ws[n]) && forall x :: DueOf(ws[n].repo, x) >= Claimed(ws[n], x) >= 0
  {
    RepoDue.AlwaysExact(ws, acts, n);
    forall x
      ensures DueOf(ws[n].repo, x) >= Claimed(ws[n], x) >= 0
    {
      RepoDue.StuckNonNegative(ws, acts, n, x);
      RepoDue.ClaimedNonNegative(ws[n], x);
    }
  }

  lemma {:induction false} AlwaysKept(ws: seq<World>, acts: seq<Action>, n: nat, b: Address)
    requires IsRun(ws, acts) && IsGenesis(ws[0]) && n <= |acts|
    ensures Kept(ws[n], b)
  {
    if n > 0 {
      AlwaysKept(ws, acts, n - 1, b);
      DueAt(ws, acts, n - 1);
      DueAt(ws, acts, n);
      if Apply(ws[n - 1], acts[n - 1]).Done? {
        KeptStep(ws[n - 1], acts[n - 1], b);
      }
    }
  }

  // ----- restored

  /** The allowance is enough, and lives long enough, for the trade to be collected from its borrower. */
  predicate Backed(w: World, usdc: Address, t: Trade)
    requires t.settledAt.Some?
  {
    && TotalDue(t, t.settledAt.value) <= Granted(w, usdc, t.borrower).amount
    && SettleExpiry(t, w.host.maxTtl) <= Granted(w, usdc, t.borrower).expiry
  }

  lemma SettlementGrants(w: World, usdc: Address, b: Address, id: nat)
    requires w.repo.usdc == Some(usdc) && AcceptAndSettle(w, b, id).Done? && DueOf(w.repo, b) >= 0 && Ceiling(w.repo.trades[id]) > 0
    ensures var w' := AcceptAndSettle(w, b, id).value;
            Granted(w', usdc, b) == Allowance(DueOf(w'.repo, b), DueExpiryOf(w'.repo, b))
  {
  }

  lemma BackedByDue(w: World, usdc: Address, b: Address, id: nat)
    requires Kept(w, b) && RepoDue.AllLend(w) && DueOf(w.repo, b) >= Claimed(w, b)
    requires Granted(w, usdc, b) == Allowance(DueOf(w.repo, b), DueExpiryOf(w.repo, b))
    requires id in w.repo.trades && IsOpenOf(w.repo.trades[id], b)
    ensures w.repo.trades[id].settledAt.Some? && Backed(w, usdc, w.repo.trades[id])
  {
    var t := w.repo.trades[id];
    assert SoundTrade(w, id) && InTime(w, b, id);
    DueWithinCeiling(t, t.settledAt.value);
    RepoDue.ClaimWithinClaimed(w, b, id);
  }

  /** Over every run, however `b` lent, cancelled or approved before: its own next settlement restores the
      allowance to exactly what is tracked for it, and every open trade of `b` is backed again, in amount and
      in time. */
  lemma OwnSettlementRestores(ws: seq<World>, acts: seq<Action>, n: nat, usdc: Address, b: Address, settled: nat, id: nat)
    requires IsRun(ws, acts) && IsGenesis(ws[0]) && n < |acts|
    requires ws[n].repo.usdc == Some(usdc) && acts[n] == DoAccept(b, settled) && Apply(ws[n], acts[n]).Done?
    ensures Granted(ws[n + 1], usdc, b) == Allowance(DueOf(ws[n + 1].repo, b), DueExpiryOf(ws[n + 1].repo, b))
    ensures Granted(ws[n + 1], usdc, b).amount >= Claimed(ws[n + 1], b)
    ensures id in ws[n + 1].repo.trades && IsOpenOf(ws[n + 1].repo.trades[id], b) ==>
              ws[n + 1].repo.trades[id].settledAt.Some? && Backed(ws[n + 1], usdc, ws[n + 1].repo.trades[id])
  {
    DueAt(ws, acts, n);
    DueAt(ws, acts, n + 1);
    AlwaysKept(ws, acts, n + 1, b);
    RepoDue.CeilingPositive(ws[n].repo.trades[settled]);
    SettlementGrants(ws[n], usdc, b, settled);
    if id in ws[n + 1].repo.trades && IsOpenOf(ws[n + 1].repo.trades[id], b) {
      BackedByDue(ws[n + 1], usdc, b, id);
    }
  }

  // ----- a default at maturity never fails for want of collateral

  lemma PayOutWorks(w: World, t: Trade, lenderUnits: int)
    requires 0 <= lenderUnits <= t.units <= BalanceOf(w.bank, t.asset, w.host.self) && t.units > 0 && t.lender != w.host.self
    ensures PayOut(w, t, lenderUnits).Done?
  {
    assert t.asset in w.bank;
    var paid := Transfer(w.bank, t.asset, w.host.self, t.lender, lenderUnits);
    assert paid.Done? && BalanceOf(paid.value, t.asset, w.host.self) == BalanceOf(w.bank, t.asset, w.host.self) - lenderUnits;
  }

  /** In every reachable state a settled trade can be defaulted at maturity exactly by its lender or the keeper,
      once its grace is over and on a positive Ok price: never refused for want of collateral, of a stored
      settlement or of a configuration. */
  lemma DefaultAtMaturityExactly(ws: seq<World>, acts: seq<Action>, n: nat, caller: Address, id: nat, q: Quote)
    requires IsRun(ws, acts) && IsGenesis(ws[0]) && n <= |acts|
    requires GrantsNothing(ws[0].bank, ws[0].host.self) && forall a | a in acts :: Authorised(ws[0].host, a)
    requires id in ws[n].repo.trades && ws[n].repo.trades[id].status.Settled?
    requires RepoEscrow.Held(ws[0], ws[n].repo.trades[id].asset) >= 0
    ensures var w := ws[n];
            DefaultAtMaturity(w, caller, id, q).Done? <==>
            && (caller == w.repo.trades[id].lender || caller == w.host.keeper)
            && w.now >= w.repo.trades[id].maturityAt + w.repo.maturityGrace.GetOr(DEFAULT_GRACE_SECONDS)
            && q.status.Ok? && q.value > 0
  {
    var w, t := ws[n], ws[n].repo.trades[id];
    AlwaysKept(ws, acts, n, t.borrower);
    RepoEscrow.EscrowConserved(ws, acts, n);
    assert SoundTrade(w, id) && RepoEscrow.WellFormedTrade(w.host, t);
    EscrowCoversTrade(w, id);
    DueWithinCeiling(t, t.settledAt.value);
    if q.value > 0 {
      PayOutWorks(w, t, LenderUnits(TotalDue(t, t.settledAt.value), q.value, t.units));
    }
  }
}
