/** The bilateral repo contract updating its stored entries and the tokens in place
    (contracts/repo-dvp/src/lib.rs). Every entry point commits exactly the transaction `RepoSpec` gives
    for it, or reverts and leaves storage and tokens as they were. */
module RepoContract {
  import opened Prelude
  import opened Risk
  import opened TokenLedger
  import opened RepoSpec

  class RepoDvp {
    const host: Host
    const tokens: Ledger
    var usdc: Option<Address>
    var configs: map<Address, AssetConfig>
    var disabled: set<Address>
    var trades: map<nat, Trade>
    var nextId: nat
    var latest: map<Address, nat>
    var cureGrace: Option<nat>
    var maturityGrace: Option<nat>
    var paused: bool
    var due: map<Address, int>
    var dueExpiry: map<Address, nat>

    function Stored(): Storage
      reads this
    {
      Storage(usdc, configs, disabled, trades, nextId, latest, cureGrace, maturityGrace, paused, due, dueExpiry)
    }

    function At(now: nat, ledger: nat): World
      reads this, tokens
    {
      World(host, Stored(), tokens.bank, now, ledger)
    }

    constructor (host: Host, tokens: Ledger)
      ensures this.host == host && this.tokens == tokens && Stored() == EMPTY_STORAGE
    {
      this.host, this.tokens := host, tokens;
      usdc, configs, disabled, trades, nextId, latest := None, map[], {}, map[], 0, map[];
      cureGrace, maturityGrace, paused, due, dueExpiry := None, None, false, map[], map[];
    }

    // ----- settings

    method SetUsdcToken(token: Address, now: nat, ledger: nat)
      modifies this
      ensures SetUsdc(old(At(now, ledger)), token) == Done(At(now, ledger))
    {
      usdc := Some(token);
    }

    method SetCureWindow(seconds: nat, now: nat, ledger: nat) returns (ok: bool)
      modifies this
      ensures Committed(old(At(now, ledger)), At(now, ledger), SetCureGrace(old(At(now, ledger)), seconds), ok)
    {
      if seconds < MIN_GRACE_SECONDS { return false; }
      cureGrace := Some(seconds);
      return true;
    }

    method SetMaturityWindow(seconds: nat, now: nat, ledger: nat) returns (ok: bool)
      modifies this
      ensures Committed(old(At(now, ledger)), At(now, ledger), SetMaturityGrace(old(At(now, ledger)), seconds), ok)
    {
      if seconds < MIN_GRACE_SECONDS { return false; }
      maturityGrace := Some(seconds);
      return true;
    }

    method Configure(asset: Address, config: AssetConfig, now: nat, ledger: nat) returns (ok: bool)
      modifies this
      ensures Committed(old(At(now, ledger)), At(now, ledger), ConfigureAsset(old(At(now, ledger)), asset, config), ok)
    {
      if config.haircutBps > BPS || !config.thresholds.Valid() { return false; }
      configs := configs[asset := config];
      return true;
    }

    method SetAssetUse(asset: Address, enabled: bool, now: nat, ledger: nat) returns (ok: bool)
      modifies this
      ensures Committed(old(At(now, ledger)), At(now, ledger), SetAssetEnabled(old(At(now, ledger)), asset, enabled), ok)
    {
      if asset !in configs { return false; }
      disabled := if enabled then disabled - {asset} else disabled + {asset};
      return true;
    }

    // ----- the borrower's tracked due

    method StoreDue(borrower: Address, amount: int, expiry: nat)
      modifies this
      ensures Stored() == WriteDue(old(Stored()), borrower, amount, expiry)
    {
      if amount > 0 {
        due := due[borrower := amount];
        dueExpiry := dueExpiry[borrower := expiry];
      } else {
        due := due - {borrower};
        dueExpiry := dueExpiry - {borrower};
      }
    }

    method Release(trade: Trade)
      modifies this
      ensures Stored() == ReleaseDue(old(Stored()), trade)
    {
      var ceiling := TotalDue(trade, trade.proposedAt);
      var remaining := Max(DueOf(Stored(), trade.borrower) - ceiling, 0);
      var expiry := DueExpiryOf(Stored(), trade.borrower);
      StoreDue(trade.borrower, remaining, expiry);
    }

    /** Stores a closed trade and takes its ceiling out of what its borrower owes. */
    method Retire(id: nat, trade: Trade)
      modifies this
      ensures Stored() == ReleaseDue(old(Stored()).(trades := old(trades)[id := trade]), trade)
    {
      trades := trades[id := trade];
      Release(trade);
    }

    // ----- the life of a trade

    /** Mints the next id and stores the proposal under it. */
    method RecordProposal(trade: Trade) returns (id: nat)
      modifies this
      ensures id == old(nextId)
      ensures Stored() == WithProposal(old(Stored()), trade)
    {
      id := nextId;
      nextId := id + 1;
      latest := latest[trade.lender := id];
      trades := trades[id := trade];
    }

    method ProposeTrade(lender: Address, borrower: Address, asset: Address, units: int, cash: int, rateBps: nat,
                        kind: Kind, maturityAt: nat, now: nat, ledger: nat) returns (id: nat, ok: bool)
      modifies this, tokens
      ensures Committed(old(At(now, ledger)), At(now, ledger),
                        Propose(old(At(now, ledger)), lender, borrower, asset, units, cash, rateBps, kind, maturityAt), ok)
      ensures ok ==> id == old(nextId)
    {
      id := nextId;
      if asset in disabled || units <= 0 || cash <= 0 || maturityAt <= now { return id, false; }
      if asset !in configs || usdc.None? { return id, false; }
      var expiry := AllowanceExpiry(ledger, host.maxTtl, maturityAt - now, 0);
      var granted := tokens.Grant(usdc.value, lender, host.self, cash, expiry, ledger, host.maxTtl);
      if !granted { return id, false; }
      id := RecordProposal(Trade(lender, borrower, asset, units, cash, rateBps, kind, maturityAt, now, Proposed,
                                 None, None, false, 0, None));
      return id, true;
    }

    method Cancel(caller: Address, id: nat, now: nat, ledger: nat) returns (ok: bool)
      modifies this, tokens
      ensures Committed(old(At(now, ledger)), At(now, ledger), CancelProposal(old(At(now, ledger)), caller, id), ok)
    {
      if id !in trades { return false; }
      var trade := trades[id];
      if !trade.status.Proposed? { return false; }
      if caller != trade.lender && caller != trade.borrower { return false; }
      if caller == trade.lender && trade.lender in latest && latest[trade.lender] == id {
        if usdc.None? { return false; }
        var expiry := AllowanceExpiry(ledger, host.maxTtl, 0, 0);
        var granted := tokens.Grant(usdc.value, trade.lender, host.self, 0, expiry, ledger, host.maxTtl);
        if !granted { return false; }
      }
      trade := trade.(status := Cancelled);
      trades := trades[id := trade];
      return true;
    }

    /** Both legs and the leg-2 allowance, in order; any failure undoes the ones before it. */
    method MoveLegs(trade: Trade, borrower: Address, token: Address, outstanding: int, expiry: nat, ledger: nat)
      returns (ok: bool)
      modifies tokens
      ensures Committed(old(tokens.bank), tokens.bank,
                        SettleLegs(old(tokens.bank), host, trade, borrower, token, outstanding, expiry, ledger), ok)
    {
      var saved := tokens.bank;
      ok := tokens.Send(trade.asset, borrower, host.self, trade.units);
      if ok { ok := tokens.Pull(token, host.self, trade.lender, borrower, trade.cash, ledger); }
      if ok { ok := tokens.Grant(token, borrower, host.self, outstanding, expiry, ledger, host.maxTtl); }
      if !ok { tokens.Restore(saved); }
    }

    method Accept(borrower: Address, id: nat, now: nat, ledger: nat) returns (ok: bool)
      modifies this, tokens
      ensures Committed(old(At(now, ledger)), At(now, ledger), AcceptAndSettle(old(At(now, ledger)), borrower, id), ok)
    {
      if paused || id !in trades { return false; }
      var trade := trades[id];
      if trade.asset in disabled || !trade.status.Proposed? || trade.borrower != borrower { return false; }
      if now >= trade.maturityAt || trade.asset !in configs || usdc.None? { return false; }
      var outstanding := DueOf(Stored(), borrower) + TotalDue(trade, trade.proposedAt);
      var expiry := Max(AllowanceExpiry(ledger, host.maxTtl, SatSub(trade.maturityAt, now), UNWIND_GRACE_LEDGERS),
                        DueExpiryOf(Stored(), borrower));
      var moved := MoveLegs(trade, borrower, usdc.value, outstanding, expiry, ledger);
      if !moved { return false; }
      StoreDue(borrower, outstanding, expiry);
      trade := trade.(status := Settled, leg1Ledger := Some(ledger), settledAt := Some(now));
      trades := trades[id := trade];
      return true;
    }

    method PayBack(trade: Trade, caller: Address, token: Address, total: int, ledger: nat) returns (ok: bool)
      modifies tokens
      ensures Committed(old(tokens.bank), tokens.bank, UnwindLegs(old(tokens.bank), host, trade, caller, token, total, ledger), ok)
    {
      var saved := tokens.bank;
      if caller == trade.borrower {
        ok := tokens.Send(token, trade.borrower, trade.lender, total);
      } else {
        ok := tokens.Pull(token, host.self, trade.borrower, trade.lender, total, ledger);
      }
      if ok { ok := tokens.Send(trade.asset, host.self, trade.borrower, trade.units); }
      if !ok { tokens.Restore(saved); }
    }

    method UnwindTrade(caller: Address, id: nat, now: nat, ledger: nat) returns (ok: bool)
      modifies this, tokens
      ensures Committed(old(At(now, ledger)), At(now, ledger), Unwind(old(At(now, ledger)), caller, id), ok)
    {
      if id !in trades { return false; }
      var trade := trades[id];
      if !trade.status.Settled? { return false; }
      if caller != trade.lender && caller != trade.borrower && caller != host.keeper { return false; }
      if now < trade.maturityAt || trade.settledAt.None? || usdc.None? { return false; }
      var total := TotalDue(trade, trade.settledAt.value);
      var moved := PayBack(trade, caller, usdc.value, total, ledger);
      if !moved { return false; }
      Retire(id, trade.(status := Unwound));
      return true;
    }

    method Call(id: nat, q: Quote, now: nat, ledger: nat) returns (ok: bool)
      modifies this
      ensures Committed(old(At(now, ledger)), At(now, ledger), CallMargin(old(At(now, ledger)), id, q), ok)
    {
      if id !in trades { return false; }
      var trade := trades[id];
      if !trade.status.Settled? || trade.asset !in configs { return false; }
      var config := configs[trade.asset];
      var evaluated := EvaluateMargin(trade, config, q, now);
      if evaluated.Revert? || evaluated.value.None? { return false; }
      var reading := evaluated.value.value;
      if reading.state.AtCall() {
        if config.thresholds.callBps == 0 { return false; }
        var target := CallTarget(reading.exposure, config.thresholds);
        trade := trade.(callAmount := Max(target - reading.collateral, 0));
        if !trade.callPending {
          trade := trade.(callPending := true, cureDeadline := Some(now + cureGrace.GetOr(DEFAULT_GRACE_SECONDS)));
        }
        trades := trades[id := trade];
      } else if trade.callPending {
        trade := ClearCall(trade);
        trades := trades[id := trade];
      }
      return true;
    }

    method AddCollateral(borrower: Address, id: nat, extra: int, q: Quote, now: nat, ledger: nat) returns (ok: bool)
      modifies this, tokens
      ensures Committed(old(At(now, ledger)), At(now, ledger), TopUp(old(At(now, ledger)), borrower, id, extra, q), ok)
    {
      if extra <= 0 || id !in trades { return false; }
      var trade := trades[id];
      if !trade.status.Settled? || trade.borrower != borrower { return false; }
      var saved := tokens.bank;
      var moved := tokens.Send(trade.asset, borrower, host.self, extra);
      if !moved { return false; }
      trade := trade.(units := trade.units + extra);
      if trade.callPending {
        var evaluated := if trade.asset in configs then EvaluateMargin(trade, configs[trade.asset], q, now) else Revert;
        if evaluated.Revert? {
          tokens.Restore(saved);
          return false;
        }
        if evaluated.value.Some? && !evaluated.value.value.state.AtCall() {
          trade := ClearCall(trade);
        }
      }
      trades := trades[id := trade];
      return true;
    }

    method PayOutUnits(trade: Trade, lenderUnits: int, now: nat, ledger: nat) returns (ok: bool)
      modifies tokens
      ensures Committed(old(tokens.bank), tokens.bank, PayOut(old(At(now, ledger)), trade, lenderUnits), ok)
    {
      var saved := tokens.bank;
      var borrowerUnits := trade.units - lenderUnits;
      ok := tokens.Send(trade.asset, host.self, trade.lender, lenderUnits);
      if ok && borrowerUnits > 0 { ok := tokens.Send(trade.asset, host.self, trade.borrower, borrowerUnits); }
      if !ok { tokens.Restore(saved); }
    }

    method CloseDefaulted(id: nat, q: Quote, now: nat, ledger: nat) returns (ok: bool)
      modifies this, tokens
      ensures Committed(old(At(now, ledger)), At(now, ledger), DefaultClose(old(At(now, ledger)), id, q), ok)
    {
      if id !in trades { return false; }
      var trade := trades[id];
      if !trade.status.Settled? || !trade.callPending || trade.cureDeadline.None? { return false; }
      if now < trade.cureDeadline.value || trade.asset !in configs { return false; }
      var evaluated := EvaluateMargin(trade, configs[trade.asset], q, now);
      if evaluated.Revert? || evaluated.value.None? { return false; }
      var reading := evaluated.value.value;
      if !reading.state.AtCall() || reading.price <= 0 { return false; }
      var paid := PayOutUnits(trade, LenderUnits(reading.exposure, reading.price, trade.units), now, ledger);
      if !paid { return false; }
      Retire(id, trade.(status := Defaulted));
      return true;
    }

    method CloseUnpaid(caller: Address, id: nat, q: Quote, now: nat, ledger: nat) returns (ok: bool)
      modifies this, tokens
      ensures Committed(old(At(now, ledger)), At(now, ledger), DefaultAtMaturity(old(At(now, ledger)), caller, id, q), ok)
    {
      if id !in trades { return false; }
      var trade := trades[id];
      if !trade.status.Settled? || (caller != trade.lender && caller != host.keeper) { return false; }
      if now < trade.maturityAt + maturityGrace.GetOr(DEFAULT_GRACE_SECONDS) { return false; }
      if trade.settledAt.None? || trade.asset !in configs || !q.status.Ok? || q.value <= 0 { return false; }
      var owed := TotalDue(trade, trade.settledAt.value);
      var paid := PayOutUnits(trade, LenderUnits(owed, q.value, trade.units), now, ledger);
      if !paid { return false; }
      trade := trade.(status := Defaulted);
      trades := trades[id := trade];
      return true;
    }
  }
}
