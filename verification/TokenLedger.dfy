/** The token contracts as one object that several contracts move value through in place. */
module TokenLedger {
  import opened Prelude
  import opened Tokens

  class Ledger {
    var bank: Bank

    constructor (bank: Bank)
      ensures this.bank == bank
    {
      this.bank := bank;
    }

    method Send(token: Address, from: Address, to: Address, amount: int) returns (ok: bool)
      modifies this
      ensures Committed(old(bank), bank, Transfer(old(bank), token, from, to, amount), ok)
    {
      if token !in bank || amount < 0 || BalanceOf(bank, token, from) < amount { return false; }
      bank := Credit(bank, token, from, -amount);
      bank := Credit(bank, token, to, amount);
      return true;
    }

    method Grant(token: Address, owner: Address, spender: Address, amount: int, expiry: nat, ledger: nat, maxTtl: nat)
      returns (ok: bool)
      modifies this
      ensures Committed(old(bank), bank, Approve(old(bank), token, owner, spender, amount, expiry, ledger, maxTtl), ok)
    {
      if token !in bank || amount < 0 { return false; }
      if amount > 0 && !(ledger <= expiry <= FurthestExpiry(ledger, maxTtl)) { return false; }
      var t := bank[token];
      bank := bank[token := t.(allowances := t.allowances[(owner, spender) := Allowance(amount, expiry)])];
      return true;
    }

    method Pull(token: Address, spender: Address, from: Address, to: Address, amount: int, ledger: nat)
      returns (ok: bool)
      modifies this
      ensures Committed(old(bank), bank, TransferFrom(old(bank), token, spender, from, to, amount, ledger), ok)
    {
      var a := AllowanceOf(bank, token, from, spender);
      if amount > 0 && (amount > a.amount || ledger > a.expiry) { return false; }
      ok := Send(token, from, to, amount);
      if ok && amount > 0 {
        var t := bank[token];
        bank := bank[token := t.(allowances := t.allowances[(from, spender) := a.(amount := a.amount - amount)])];
      }
    }

    /** The host undoing what a reverted invocation had moved. */
    method Restore(saved: Bank)
      modifies this
      ensures bank == saved
    {
      bank := saved;
    }
  }
}
