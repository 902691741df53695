/** What the tracked due of a borrower is, exactly, over every run: the ceilings of its open trades plus
    those of the trades it was defaulted on at maturity, which are never taken out. */
module RepoDue {
  import opened Prelude
  import opened Risk
  import opened RepoSpec
  import opened RepoAllowance

  /** The step defaults one of `b`'s trades at maturity. */
  predicate StrandsCeiling(w: World, a: Action, b: Address) {
    a.DoDefaultAtMaturity? && a.id in w.repo.trades && w.repo.trades[a.id].borrower == b && Apply(w, a).Done?
  }

  function StrandedBy(w: World, a: Action, b: Address): int {
    if StrandsCeiling(w, a, b) then Ceiling(w.repo.trades[a.id]) else 0
  }

  function Total(xs: seq<int>): int {
    if xs == [] then 0 else Total(xs[..|xs| - 1]) + xs[|xs| - 1]
  }

  lemma {:induction false} TotalSign(xs: seq<int>)
    requires forall i | 0 <= i < |xs| :: xs[i] >= 0
    ensures Total(xs) >= 0 && (Total(xs) == 0 <==> forall i | 0 <= i < |xs| :: xs[i] == 0)
  {
    if xs != [] {
      TotalSign(xs[..|xs| - 1]);
    }
  }

  ghost function Stranded(ws: seq<World>, acts: seq<Action>, n: nat, b: Address): seq<int>
    requires |ws| == |acts| + 1 && n <= |acts|
  {
    seq(n, i requires 0 <= i < n => StrandedBy(ws[i], acts[i], b))
  }

  /** The ceilings left behind by defaults at maturity in the first `n` steps. */
  ghost function Stuck(ws: seq<World>, acts: seq<Action>, n: nat, b: Address): int
    requires |ws| == |acts| + 1 && n <= |acts|
  {
    Total(Stranded(ws, acts, n, b))
  }

  lemma StuckStep(ws: seq<World>, acts: seq<Action>, n: nat, b: Address)
    requires |ws| == |acts| + 1 && 0 < n <= |acts|
    ensures Stuck(ws, acts, n, b) == Stuck(ws, acts, n - 1, b) + StrandedBy(ws[n - 1], acts[n - 1], b)
  {
    assert Stranded(ws, acts, n, b)[..n - 1] == Stranded(ws, acts, n - 1, b);
  }

  /** Every stored trade lends something, so every ceiling is positive. */
  ghost predicate AllLend(w: World) {
    forall id | id in w.repo.trades :: w.repo.trades[id].cash > 0 && id < w.repo.nextId
  }

  lemma CeilingPositive(t: Trade)
    requires t.cash > 0
    ensures Ceiling(t) > 0
  {
    DueWithinCeiling(t, t.proposedAt);
  }

  lemma ClaimWithinClaimed(w: World, b: Address, id: nat)
    requires AllLend(w) && id in w.repo.trades
    ensures 0 <= ClaimOf(w.repo.trades[id], b) <= Claimed(w, b)
  {
    forall j | j in w.repo.trades
      ensures Claims(w, b)[j] >= 0
    {
      CeilingPositive(w.repo.trades[j]);
    }
    SumAtLeast(Claims(w, b), id);
  }

  lemma ClaimedNonNegative(w: World, b: Address)
    requires AllLend(w)
    ensures Claimed(w, b) >= 0
  {
    forall j | j in w.repo.trades
      ensures Claims(w, b)[j] >= 0
    {
      CeilingPositive(w.repo.trades[j]);
    }
    SumNonNegative(Claims(w, b));
  }

  /** What a step does to the tracked due, measured against the claims of open trades. */
  ghost predicate Balances(w: World, w': World, b: Address, stranded: int) {
    && AllLend(w')
    && DueOf(w'.repo, b) - Claimed(w', b) == DueOf(w.repo, b) - Claimed(w, b) + stranded
  }

  /** A step that rewrites one trade, moving the tracked due exactly as the claim moves. */
  lemma RewriteBalances(w: World, w': World, b: Address, id: nat, stranded: int)
    requires AllLend(w) && w'.repo.nextId >= w.repo.nextId
    requires id in w'.repo.trades && w'.repo.trades == w.repo.trades[id := w'.repo.trades[id]]
    requires id < w'.repo.nextId && w'.repo.trades[id].cash > 0
    requires DueOf(w'.repo, b) == DueOf(w.repo, b) + stranded + ClaimOf(w'.repo.trades[id], b)
                                  - (if id in w.repo.trades then ClaimOf(w.repo.trades[id], b) else 0)
    ensures Balances(w, w', b, stranded)
  {
    ClaimedAfter(w, w', id, b);
  }

  lemma SettleBalances(w: World, borrower: Address, id: nat, b: Address)
    requires AllLend(w) && AcceptAndSettle(w, borrower, id).Done? && DueOf(w.repo, borrower) >= 0
    ensures Balances(w, AcceptAndSettle(w, borrower, id).value, b, 0)
  {
    var w' := AcceptAndSettle(w, borrower, id).value;
    var t := w.repo.trades[id];
    RepoEscrow.SettleStorage(w, borrower, id);
    CeilingPositive(t);
    SettleDue(w, borrower, id, b);
    assert Ceiling(w'.repo.trades[id]) == Ceiling(t);
    RewriteBalances(w, w', b, id, 0);
  }

  lemma SettleDue(w: World, borrower: Address, id: nat, b: Address)
    requires AcceptAndSettle(w, borrower, id).Done? && DueOf(w.repo, borrower) >= 0 && Ceiling(w.repo.trades[id]) > 0
    ensures DueOf(AcceptAndSettle(w, borrower, id).value.repo, b)
            == DueOf(w.repo, b) + if b == borrower then Ceiling(w.repo.trades[id]) else 0
  {
  }

  /** A closing that releases the trade's ceiling. */
  lemma ReleaseBalances(w: World, w': World, id: nat, closed: Trade, b: Address)
    requires AllLend(w) && id in w.repo.trades && w.repo.trades[id].status.Settled?
    requires closed == w.repo.trades[id].(status := closed.status) && !closed.status.Settled?
    requires w'.repo == ReleaseDue(w.repo.(trades := w.repo.trades[id := closed]), closed)
    requires DueOf(w.repo, b) >= Claimed(w, b)
    ensures Balances(w, w', b, 0)
  {
    ReleaseEffect(w.repo.(trades := w.repo.trades[id := closed]), closed, b);
    ClaimWithinClaimed(w, b, id);
    RewriteBalances(w, w', b, id, 0);
  }

  lemma UnwindBalances(w: World, caller: Address, id: nat, b: Address)
    requires AllLend(w) && Unwind(w, caller, id).Done? && DueOf(w.repo, b) >= Claimed(w, b)
    ensures Balances(w, Unwind(w, caller, id).value, b, 0)
  {
    var closed := w.repo.trades[id].(status := Unwound);
    assert Unwind(w, caller, id).value.repo == ReleaseDue(w.repo.(trades := w.repo.trades[id := closed]), closed);
    ReleaseBalances(w, Unwind(w, caller, id).value, id, closed, b);
  }

  lemma DefaultCloseBalances(w: World, id: nat, q: Quote, b: Address)
    requires AllLend(w) && DefaultClose(w, id, q).Done? && DueOf(w.repo, b) >= Claimed(w, b)
    ensures Balances(w, DefaultClose(w, id, q).value, b, 0)
  {
    var closed := w.repo.trades[id].(status := Defaulted);
    assert DefaultClose(w, id, q).value.repo == ReleaseDue(w.repo.(trades := w.repo.trades[id := closed]), closed);
    ReleaseBalances(w, DefaultClose(w, id, q).value, id, closed, b);
  }

  /** The closing that releases nothing: the ceiling stays tracked although the trade is gone. */
  lemma DefaultAtMaturityBalances(w: World, caller: Address, id: nat, q: Quote, b: Address)
    requires AllLend(w) && DefaultAtMaturity(w, caller, id, q).Done?
    ensures id in w.repo.trades
    ensures Balances(w, DefaultAtMaturity(w, caller, id, q).value, b,
                     if w.repo.trades[id].borrower == b then Ceiling(w.repo.trades[id]) else 0)
  {
    var w' := DefaultAtMaturity(w, caller, id, q).value;
    assert w'.repo == w.repo.(trades := w.repo.trades[id := w.repo.trades[id].(status := Defaulted)]);
    RewriteBalances(w, w', b, id, if w.repo.trades[id].borrower == b then Ceiling(w.repo.trades[id]) else 0);
  }

  lemma QuietBalances(w: World, a: Action, b: Address)
    requires AllLend(w) && Apply(w, a).Done?
    requires MovesNoTrade(a) || a.DoPropose? || a.DoCancel? || a.DoCallMargin? || a.DoTopUp?
    ensures Balances(w, Apply(w, a).value, b, 0)
  {
    var w' := Apply(w, a).value;
    match a
    case DoPropose(_, _, _, _, _, _, _, _) => RewriteBalances(w, w', b, w.repo.nextId, 0);
    case DoCancel(_, id) => RewriteBalances(w, w', b, id, 0);
    case DoCallMargin(id, q) =>
      RepoEscrow.CallMarginStorage(w, id, q);
      RewriteBalances(w, w', b, id, 0);
    case DoTopUp(borrower, id, extra, q) =>
      RepoEscrow.TopUpStorage(w, borrower, id, extra, q);
      RewriteBalances(w, w', b, id, 0);
    case _ => SameTradesBalance(w, a, b);
  }

  lemma SameTradesBalance(w: World, a: Action, b: Address)
    requires AllLend(w) && Apply(w, a).Done? && MovesNoTrade(a)
    ensures Balances(w, Apply(w, a).value, b, 0)
  {
    var w' := Apply(w, a).value;
    assert w'.repo.trades == w.repo.trades && w'.repo.due == w.repo.due && w'.repo.nextId >= w.repo.nextId;
    assert Claims(w', b) == Claims(w, b);
  }

  lemma DueStep(w: World, a: Action, b: Address)
    requires AllLend(w) && forall x :: DueOf(w.repo, x) >= Claimed(w, x)
    ensures Balances(w, Step(w, a), b, StrandedBy(w, a, b))
  {
    if Apply(w, a).Done? {
      match a
      case DoAccept(borrower, id) =>
        ClaimedNonNegative(w, borrower);
        assert DueOf(w.repo, borrower) >= Claimed(w, borrower);
        SettleBalances(w, borrower, id, b);
      case DoUnwind(caller, id) => UnwindBalances(w, caller, id, b);
      case DoDefaultClose(id, q) => DefaultCloseBalances(w, id, q, b);
      case DoDefaultAtMaturity(caller, id, q) => DefaultAtMaturityBalances(w, caller, id, q, b);
      case _ => QuietBalances(w, a, b);
    }
  }

  lemma StrandedSign(w: World, a: Action, b: Address)
    requires AllLend(w)
    ensures StrandedBy(w, a, b) >= 0 && (StrandedBy(w, a, b) == 0 <==> !StrandsCeiling(w, a, b))
  {
    if StrandsCeiling(w, a, b) {
      CeilingPositive(w.repo.trades[a.id]);
    }
  }

  lemma StuckNonNegative(ws: seq<World>, acts: seq<Action>, n: nat, b: Address)
    requires |ws| == |acts| + 1 && n <= |acts| && forall i | 0 <= i < n :: AllLend(ws[i])
    ensures Stuck(ws, acts, n, b) >= 0
    ensures Stuck(ws, acts, n, b) == 0 <==> forall i | 0 <= i < n :: StrandedBy(ws[i], acts[i], b) == 0
  {
    var xs := Stranded(ws, acts, n, b);
    forall i | 0 <= i < n
      ensures xs[i] >= 0 && xs[i] == StrandedBy(ws[i], acts[i], b)
    {
      StrandedSign(ws[i], acts[i], b);
    }
    TotalSign(xs);
  }

  ghost predicate Exact(ws: seq<World>, acts: seq<Action>, n: nat)
    requires |ws| == |acts| + 1 && n <= |acts|
  {
    forall b :: DueOf(ws[n].repo, b) == Claimed(ws[n], b) + Stuck(ws, acts, n, b)
  }

  ghost predicate AllLendUpTo(ws: seq<World>, n: nat)
    requires n < |ws|
  {
    forall i | 0 <= i <= n :: AllLend(ws[i])
  }

  lemma ExactAtGenesis(ws: seq<World>, acts: seq<Action>)
    requires |ws| == |acts| + 1 && IsGenesis(ws[0])
    ensures Exact(ws, acts, 0) && AllLendUpTo(ws, 0)
  {
    forall b
      ensures Claimed(ws[0], b) == 0
    {
      assert Claims(ws[0], b) == map[];
    }
  }

  lemma {:induction false} AlwaysExact(ws: seq<World>, acts: seq<Action>, n: nat)
    requires IsRun(ws, acts) && IsGenesis(ws[0]) && n <= |acts|
    ensures Exact(ws, acts, n) && AllLendUpTo(ws, n)
  {
    if n == 0 {
      ExactAtGenesis(ws, acts);
    } else {
      AlwaysExact(ws, acts, n - 1);
      var w, a := ws[n - 1], acts[n - 1];
      forall b
        ensures DueOf(w.repo, b) >= Claimed(w, b)
      {
        StuckNonNegative(ws, acts, n - 1, b);
      }
      forall b
        ensures DueOf(ws[n].repo, b) == Claimed(ws[n], b) + Stuck(ws, acts, n, b)
      {
        DueStep(w, a, b);
        StuckStep(ws, acts, n, b);
      }
      DueStep(w, a, 0);
    }
  }

  /** Over every run, with no condition on anybody's behaviour: what is tracked for a borrower is the sum of
      its open trades' ceilings plus the ceilings left behind by defaults at maturity. The two are equal
      exactly when none of its trades was ever defaulted at maturity. */
  lemma DueIsExact(ws: seq<World>, acts: seq<Action>, n: nat, b: Address)
    requires IsRun(ws, acts) && IsGenesis(ws[0]) && n <= |acts|
    ensures DueOf(ws[n].repo, b) == Claimed(ws[n], b) + Stuck(ws, acts, n, b) && Stuck(ws, acts, n, b) >= 0
    ensures DueOf(ws[n].repo, b) == Claimed(ws[n], b) <==> forall i | 0 <= i < n :: !StrandsCeiling(ws[i], acts[i], b)
  {
    AlwaysExact(ws, acts, n);
    StuckNonNegative(ws, acts, n, b);
    forall i | 0 <= i < n
      ensures StrandedBy(ws[i], acts[i], b) == 0 <==> !StrandsCeiling(ws[i], acts[i], b)
    {
      StrandedSign(ws[i], acts[i], b);
    }
  }
}
