/** The credit line and the pledge vault as two contract objects that share the tokens and call each other
    in place (contracts/credit-line/src/lib.rs, contracts/pledge-vault/src/lib.rs). Every entry point
    commits exactly the transaction `CreditSpec` gives for it, or reverts and leaves both contracts and
    the tokens as they were. */
module CreditContract {
  import opened Prelude
  import opened Risk
  import opened TokenLedger
  import opened CreditSpec

  class CreditLine {
    const host: Host
    const tokens: Ledger
    var configs: map<Address, CreditConfig>
    var lines: map<nat, Line>
    var nextLine: nat
    var vault: Option<Address>
    var claimable: map<nat, int>
    var records: map<nat, Record>
    var drawsPaused: bool

    function Stored(): Credit
      reads this
    {
      Credit(configs, lines, nextLine, vault, claimable, records, drawsPaused)
    }

    /** The whole system as seen from here; `v` is what the vault holds. */
    function At(v: Vault, now: nat, ledger: nat): World
      reads this, tokens
    {
      World(host, Stored(), v, tokens.bank, now, ledger)
    }

    constructor (host: Host, tokens: Ledger)
      ensures this.host == host && this.tokens == tokens && Stored() == EMPTY_CREDIT
    {
      this.host, this.tokens := host, tokens;
      configs, lines, nextLine, vault := map[], map[], 0, None;
      claimable, records, drawsPaused := map[], map[], false;
    }

    method Configure(asset: Address, config: CreditConfig, ghost v: Vault, now: nat, ledger: nat) returns (ok: bool)
      modifies this
      ensures Committed(old(At(v, now, ledger)), At(v, now, ledger), ConfigureCredit(old(At(v, now, ledger)), asset, config), ok)
    {
      if !config.thresholds.Valid() { return false; }
      configs := configs[asset := config];
      return true;
    }

    method Open(lender: Address, borrower: Address, asset: Address, limit: int, rateBps: nat,
                ghost v: Vault, now: nat, ledger: nat) returns (id: nat, ok: bool)
      modifies this
      ensures Committed(old(At(v, now, ledger)), At(v, now, ledger),
                        OpenLine(old(At(v, now, ledger)), lender, borrower, asset, limit, rateBps), ok)
    {
      id := nextLine;
      if limit <= 0 { return id, false; }
      nextLine := id + 1;
      lines := lines[id := Line(lender, borrower, asset, limit, 0, 0, 0, rateBps, CreditSpec.Open, now, 0, Healthy, None, 0, None)];
      return id, true;
    }

    method AddFunds(lender: Address, line: nat, amount: int, ghost v: Vault, now: nat, ledger: nat) returns (ok: bool)
      modifies this, tokens
      ensures Committed(old(At(v, now, ledger)), At(v, now, ledger), Fund(old(At(v, now, ledger)), lender, line, amount), ok)
    {
      if amount <= 0 || line !in lines { return false; }
      var state := lines[line];
      if state.lender != lender || state.status.Closed? || state.asset !in configs { return false; }
      ok := tokens.Send(configs[state.asset].usdc, lender, host.credit, amount);
      if !ok { return; }
      state := state.(funded := state.funded + amount);
      lines := lines[line := state];
    }

    /** The report a vault makes when it stores a position. */
    method Sync(caller: Address, line: nat, asset: Address, units: int, ghost v: Vault, now: nat, ledger: nat) returns (ok: bool)
      modifies this
      ensures Committed(old(At(v, now, ledger)), At(v, now, ledger),
                        SyncFromVault(old(At(v, now, ledger)), caller, line, asset, units), ok)
    {
      if vault != Some(caller) || units < 0 || line !in lines { return false; }
      var state := lines[line];
      if state.asset != asset { return false; }
      state := state.(pledgedUnits := units);
      lines := lines[line := state];
      return true;
    }

    method Reconcile(line: nat, units: int, ghost v: Vault, now: nat, ledger: nat) returns (ok: bool)
      modifies this
      ensures Committed(old(At(v, now, ledger)), At(v, now, ledger), SyncCollateral(old(At(v, now, ledger)), line, units), ok)
    {
      if units < 0 || line !in lines { return false; }
      lines := lines[line := lines[line].(pledgedUnits := units)];
      return true;
    }

    method DrawFunds(borrower: Address, line: nat, amount: int, to: Address, q: Quote,
                     ghost v: Vault, now: nat, ledger: nat) returns (ok: bool)
      modifies this, tokens
      ensures Committed(old(At(v, now, ledger)), At(v, now, ledger), Draw(old(At(v, now, ledger)), borrower, line, amount, to, q), ok)
    {
      if drawsPaused || amount <= 0 || line !in lines { return false; }
      var state := lines[line];
      if state.borrower != borrower || !state.status.Open? { return false; }
      state := state.(accrued := state.accrued + InterestDelta(state, now), lastAccrual := now);
      if amount > state.funded - state.drawn || state.drawn + amount > state.limit { return false; }
      if state.asset !in configs || !q.status.Ok? { return false; }
      var config := configs[state.asset];
      var collateral := CollateralValue(state.pledgedUnits, q.value, config.haircutBps);
      if collateral.Revert? { return false; }
      var margin := Judge(state.drawn + state.accrued + amount, collateral.value, config.thresholds);
      if !margin.Healthy? { return false; }
      ok := tokens.Send(config.usdc, host.credit, to, amount);
      if !ok { return; }
      state := state.(drawn := state.drawn + amount, margin := margin);
      lines := lines[line := state];
    }

    /** Applies a payment to a line already brought up to date: interest first, then principal. */
    method Book(state: Line, amount: int) returns (updated: Line, applied: int, interest: int, remaining: int)
      ensures applied == Min(amount, state.accrued + state.drawn)
      ensures interest == InterestPart(state, amount)
      ensures remaining == applied - interest - PrincipalPart(state, amount)
      ensures updated == state.(accrued := state.accrued - interest, drawn := state.drawn - PrincipalPart(state, amount))
    {
      updated := state;
      applied := Min(amount, updated.accrued + updated.drawn);
      remaining := applied;
      interest := Min(remaining, updated.accrued);
      updated := updated.(accrued := updated.accrued - interest);
      remaining := remaining - interest;
      var principal := Min(remaining, updated.drawn);
      updated := updated.(drawn := updated.drawn - principal);
      remaining := remaining - principal;
    }

    method Pay(payer: Address, line: nat, amount: int, ghost v: Vault, now: nat, ledger: nat) returns (applied: int, ok: bool)
      modifies this, tokens
      ensures Committed(old(At(v, now, ledger)), At(v, now, ledger), Repay(old(At(v, now, ledger)), payer, line, amount), ok)
      ensures ok ==> line in old(lines) && applied == Min(amount, DebtOf(old(lines)[line], now))
    {
      applied := 0;
      if amount <= 0 || line !in lines { return applied, false; }
      var state := Accrue(lines[line], now);
      if state.accrued + state.drawn <= 0 { return applied, false; }
      var interest, remaining;
      var due := state;
      state, applied, interest, remaining := Book(due, amount);
      if remaining != 0 || state.asset !in configs { return applied, false; }
      ok := tokens.Send(configs[state.asset].usdc, payer, host.credit, applied);
      if !ok { return; }
      claimable := claimable[line := ClaimableOf(Stored(), line) + interest];
      lines := lines[line := state];
    }

    method PokeLine(line: nat, q: Quote, ghost v: Vault, now: nat, ledger: nat) returns (ok: bool)
      modifies this
      ensures Committed(old(At(v, now, ledger)), At(v, now, ledger), Poke(old(At(v, now, ledger)), line, q), ok)
    {
      if line !in lines { return false; }
      var state := lines[line];
      var read := ReadLtv(Stored(), state, q, now);
      if read.Revert? { return false; }
      var view := read.value;
      state := state.(margin := view.state);
      if view.state.AtCall() {
        if state.unhealthySince.None? { state := state.(unhealthySince := Some(now)); }
      } else {
        state := state.(unhealthySince := None);
      }
      if view.state.Liquidation? && q.status.Ok? {
        if state.breachLedger.None? { state := state.(breachLedger := Some(ledger), breachLtvBps := view.ltvBps); }
      } else {
        state := state.(breachLedger := None, breachLtvBps := 0);
      }
      lines := lines[line := state];
      return true;
    }

    method Liquidate(line: nat, q: Quote, ghost v: Vault, now: nat, ledger: nat) returns (ok: bool)
      modifies this
      ensures Committed(old(At(v, now, ledger)), At(v, now, ledger), LiquidateLine(old(At(v, now, ledger)), line, q), ok)
    {
      if line !in lines { return false; }
      var state := lines[line];
      if state.breachLedger.None? || ledger <= state.breachLedger.value || !state.status.Open? { return false; }
      var read := ReadLtv(Stored(), state, q, now);
      if read.Revert? || !q.status.Ok? || !read.value.state.Liquidation? { return false; }
      records := records[line := Record(state.pledgedUnits, q.value, read.value.debt, false, 0, 0, 0)];
      state := state.(status := Liquidating, margin := Liquidation);
      lines := lines[line := state];
      return true;
    }

    method Close(lender: Address, line: nat, ghost v: Vault, now: nat, ledger: nat) returns (ok: bool)
      modifies this, tokens
      ensures Committed(old(At(v, now, ledger)), At(v, now, ledger), CloseLiquidated(old(At(v, now, ledger)), lender, line), ok)
    {
      if line !in lines || line !in records { return false; }
      var state := lines[line];
      if state.lender != lender || !state.status.Liquidating? { return false; }
      var record := records[line];
      var value := CollateralValue(record.seizedUnits, record.price, 0);
      if value.Revert? { return false; }
      var recovered := value.value;
      var surplus := Max(recovered - record.debt, 0);
      var shortfall := Max(record.debt - recovered, 0);
      if surplus > 0 {
        if state.asset !in configs { return false; }
        var sent := tokens.Send(configs[state.asset].usdc, lender, state.borrower, surplus);
        if !sent { return false; }
      }
      state := state.(funded := state.funded - state.drawn);
      state := state.(drawn := 0, accrued := 0, pledgedUnits := 0, margin := Healthy);
      state := state.(breachLedger := None, breachLtvBps := 0, unhealthySince := None, status := Closed);
      lines := lines[line := state];
      record := record.(closed := true, recovered := recovered, surplus := surplus, shortfall := shortfall);
      records := records[line := record];
      return true;
    }

    /** The stored figure falls before the money leaves; a failed transfer undoes that too. */
    method TakeUndrawn(lender: Address, line: nat, amount: int, ghost v: Vault, now: nat, ledger: nat) returns (ok: bool)
      modifies this, tokens
      ensures Committed(old(At(v, now, ledger)), At(v, now, ledger), WithdrawUndrawn(old(At(v, now, ledger)), lender, line, amount), ok)
    {
      if amount <= 0 || line !in lines { return false; }
      var state := lines[line];
      if state.lender != lender || amount > state.funded - state.drawn { return false; }
      var saved := lines;
      lines := lines[line := state.(funded := state.funded - amount)];
      ok := false;
      if state.asset in configs { ok := tokens.Send(configs[state.asset].usdc, host.credit, lender, amount); }
      if !ok { lines := saved; }
    }

    method TakeInterest(lender: Address, line: nat, amount: int, ghost v: Vault, now: nat, ledger: nat) returns (ok: bool)
      modifies this, tokens
      ensures Committed(old(At(v, now, ledger)), At(v, now, ledger), WithdrawInterest(old(At(v, now, ledger)), lender, line, amount), ok)
    {
      if amount <= 0 || line !in lines { return false; }
      var state := lines[line];
      var owed := ClaimableOf(Stored(), line);
      if state.lender != lender || amount > owed { return false; }
      var saved := claimable;
      claimable := claimable[line := owed - amount];
      ok := false;
      if state.asset in configs { ok := tokens.Send(configs[state.asset].usdc, host.credit, lender, amount); }
      if !ok { claimable := saved; }
    }
  }

  class PledgeVault {
    const host: Host
    const tokens: Ledger
    const creditLine: CreditLine
    var configs: map<Address, VaultConfig>
    var positions: map<(nat, Address), Position>
    var gateway: Option<Address>
    var pledgesPaused: bool

    function Stored(): Vault
      reads this
    {
      Vault(configs, positions, gateway, pledgesPaused)
    }

    /** Both contracts move the same tokens and agree on each other's address. */
    predicate Wired()
      reads this
    {
      creditLine.host == host && creditLine.tokens == tokens
    }

    function At(now: nat, ledger: nat): World
      reads this, creditLine, tokens
    {
      World(host, creditLine.Stored(), Stored(), tokens.bank, now, ledger)
    }

    constructor (host: Host, tokens: Ledger, creditLine: CreditLine)
      requires creditLine.host == host && creditLine.tokens == tokens
      ensures Wired() && this.host == host && this.tokens == tokens && this.creditLine == creditLine && Stored() == EMPTY_VAULT
    {
      this.host, this.tokens, this.creditLine := host, tokens, creditLine;
      configs, positions, gateway, pledgesPaused := map[], map[], None, false;
    }

    method Configure(asset: Address, config: VaultConfig, now: nat, ledger: nat) returns (ok: bool)
      modifies this
      ensures Committed(old(At(now, ledger)), At(now, ledger), ConfigureVault(old(At(now, ledger)), asset, config), ok)
    {
      if !config.thresholds.Valid() { return false; }
      configs := configs[asset := config];
      return true;
    }

    /** Writes the position and reports it; a refused report undoes the write. */
    method Store(line: nat, asset: Address, position: Position, now: nat, ledger: nat) returns (ok: bool)
      requires Wired()
      modifies this, creditLine
      ensures Committed(old(At(now, ledger)), At(now, ledger), StoreAndSync(old(At(now, ledger)), line, asset, position), ok)
    {
      var saved := positions;
      positions := positions[(line, asset) := position];
      ok := creditLine.Sync(host.vault, line, asset, position.units, Stored(), now, ledger);
      if !ok { positions := saved; }
    }

    /** Moves escrowed units in, nothing for a lien, and stores the larger position. */
    method TakeIn(line: nat, asset: Address, held: Position, units: int, from: Address, mode: CustodyMode, now: nat, ledger: nat)
      returns (ok: bool)
      requires Wired()
      modifies this, creditLine, tokens
      ensures Committed(old(At(now, ledger)), At(now, ledger), Deposit(old(At(now, ledger)), line, asset, held, units, from, mode), ok)
    {
      var saved := tokens.bank;
      var position := held;
      if mode.Escrow? {
        var sent := tokens.Send(asset, from, host.vault, units);
        if !sent { return false; }
        position := position.(units := position.units + units);
      } else {
        position := position.(pending := position.pending + units);
      }
      position := position.(mode := mode);
      ok := Store(line, asset, position, now, ledger);
      if !ok { tokens.Restore(saved); }
    }

    method PledgeUnits(borrower: Address, line: nat, asset: Address, units: int, now: nat, ledger: nat) returns (ok: bool)
      requires Wired()
      modifies this, creditLine, tokens
      ensures Committed(old(At(now, ledger)), At(now, ledger), Pledge(old(At(now, ledger)), borrower, line, asset, units), ok)
    {
      if pledgesPaused || units <= 0 || asset !in configs || line !in creditLine.lines { return false; }
      if creditLine.lines[line].borrower != borrower || creditLine.lines[line].asset != asset { return false; }
      var mode := configs[asset].mode;
      var position := PositionOf(Stored(), line, asset);
      if !(position.units == 0 && position.pending == 0) && position.mode != mode { return false; }
      ok := TakeIn(line, asset, position, units, borrower, mode, now, ledger);
    }

    /** Moves escrowed units out, nothing for a lien, and stores what is left of the position. */
    method TakeOut(line: nat, asset: Address, position: Position, units: int, to: Address, now: nat, ledger: nat) returns (ok: bool)
      requires Wired()
      modifies this, creditLine, tokens
      ensures Committed(old(At(now, ledger)), At(now, ledger),
                        Withdrawal(old(At(now, ledger)), line, asset, position, units, to), ok)
    {
      var saved := tokens.bank;
      if position.mode.Escrow? {
        var sent := tokens.Send(asset, host.vault, to, units);
        if !sent { return false; }
      }
      ok := Store(line, asset, position.(units := position.units - units), now, ledger);
      if !ok { tokens.Restore(saved); }
    }

    method ReleaseUnits(borrower: Address, line: nat, asset: Address, units: int, vq: Quote, cq: Quote, now: nat, ledger: nat)
      returns (ok: bool)
      requires Wired()
      modifies this, creditLine, tokens
      ensures Committed(old(At(now, ledger)), At(now, ledger), Release(old(At(now, ledger)), borrower, line, asset, units, vq, cq), ok)
    {
      if units <= 0 || asset !in configs || line !in creditLine.lines { return false; }
      var state := creditLine.lines[line];
      if state.borrower != borrower { return false; }
      var position := PositionOf(Stored(), line, asset);
      if units > position.units { return false; }
      if DebtOf(state, now) > 0 {
        if !vq.status.Ok? { return false; }
        var read := ReadLtv(creditLine.Stored(), state, cq, now);
        var collateral := CollateralValue(position.units - units, vq.value, configs[asset].haircutBps);
        if read.Revert? || collateral.Revert? { return false; }
        var margin := Judge(read.value.debt, collateral.value, configs[asset].thresholds);
        if !margin.Healthy? { return false; }
      }
      ok := TakeOut(line, asset, position, units, borrower, now, ledger);
    }

    method ConfirmLien(caller: Address, line: nat, asset: Address, units: int, lienRef: string, now: nat, ledger: nat)
      returns (ok: bool)
      requires Wired()
      modifies this, creditLine
      ensures Committed(old(At(now, ledger)), At(now, ledger), RecordLien(old(At(now, ledger)), caller, line, asset, units, lienRef), ok)
    {
      if gateway != Some(caller) || units <= 0 { return false; }
      var position := PositionOf(Stored(), line, asset);
      if units > position.pending || asset !in configs { return false; }
      position := position.(pending := position.pending - units);
      position := position.(units := position.units + units);
      position := position.(lienRef := Some(lienRef));
      ok := Store(line, asset, position, now, ledger);
    }

    method Seize(line: nat, asset: Address, units: int, to: Address, now: nat, ledger: nat) returns (ok: bool)
      requires Wired()
      modifies this, creditLine, tokens
      ensures Committed(old(At(now, ledger)), At(now, ledger), LiquidateVault(old(At(now, ledger)), line, asset, units, to), ok)
    {
      if units <= 0 { return false; }
      var position := PositionOf(Stored(), line, asset);
      if units > position.units || asset !in configs { return false; }
      ok := TakeOut(line, asset, position, units, to, now, ledger);
    }
  }
}
