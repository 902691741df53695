/** The token contracts the protocol moves value through: balances, and allowances that are one
    figure per (owner, spender) pair, which `Approve` replaces. */
module Tokens {
  import opened Prelude

  datatype Allowance = Allowance(amount: int, expiry: nat)

  datatype Token = Token(balances: map<Address, int>, allowances: map<(Address, Address), Allowance>)

  /** Every token contract on the ledger, by address. */
  type Bank = map<Address, Token>

  function BalanceOf(bank: Bank, token: Address, who: Address): int {
    if token in bank && who in bank[token].balances then bank[token].balances[who] else 0
  }

  function AllowanceOf(bank: Bank, token: Address, owner: Address, spender: Address): Allowance {
    if token in bank && (owner, spender) in bank[token].allowances
    then bank[token].allowances[(owner, spender)]
    else Allowance(0, 0)
  }

  /** Where nothing is recorded, nothing is held and nothing granted. */
  lemma Unrecorded(bank: Bank, token: Address, who: Address, spender: Address)
    ensures token !in bank || who !in bank[token].balances ==> BalanceOf(bank, token, who) == 0
    ensures token !in bank || (who, spender) !in bank[token].allowances ==> AllowanceOf(bank, token, who, spender) == Allowance(0, 0)
  {
  }

  /** What moving `amount` from `from` to `to` does to the balance of `who`. */
  function Delta(from: Address, to: Address, amount: int, who: Address): int {
    (if who == to then amount else 0) - (if who == from then amount else 0)
  }

  function Credit(bank: Bank, token: Address, who: Address, amount: int): Bank
    requires token in bank
  {
    bank[token := bank[token].(balances := bank[token].balances[who := BalanceOf(bank, token, who) + amount])]
  }

  function Transfer(bank: Bank, token: Address, from: Address, to: Address, amount: int): (r: Result<Bank>)
    ensures r.Done? <==> token in bank && 0 <= amount <= BalanceOf(bank, token, from)
    ensures r.Done? ==> forall t, who :: BalanceOf(r.value, t, who) ==
                          BalanceOf(bank, t, who) + if t == token then Delta(from, to, amount, who) else 0
    ensures r.Done? ==> forall t, o, s :: AllowanceOf(r.value, t, o, s) == AllowanceOf(bank, t, o, s)
    ensures r.Done? ==> r.value.Keys == bank.Keys
  {
    if token !in bank || amount < 0 || BalanceOf(bank, token, from) < amount then Revert else
    Done(Credit(Credit(bank, token, from, -amount), token, to, amount))
  }

  /** The furthest ledger an entry created at `ledger` may live to. */
  function FurthestExpiry(ledger: nat, maxTtl: nat): nat {
    SatSub(SatAdd32(ledger, maxTtl), 1)
  }

  function Approve(bank: Bank, token: Address, owner: Address, spender: Address, amount: int,
                   expiry: nat, ledger: nat, maxTtl: nat): (r: Result<Bank>)
    ensures r.Done? <==> token in bank && amount >= 0 &&
                         (amount > 0 ==> ledger <= expiry <= FurthestExpiry(ledger, maxTtl))
    ensures r.Done? ==> forall t, who :: BalanceOf(r.value, t, who) == BalanceOf(bank, t, who)
    ensures r.Done? ==> forall t, o, s :: AllowanceOf(r.value, t, o, s) ==
                          if t == token && o == owner && s == spender then Allowance(amount, expiry)
                          else AllowanceOf(bank, t, o, s)
    ensures r.Done? ==> r.value.Keys == bank.Keys
  {
    if token !in bank || amount < 0 then Revert else
    :- Require(amount > 0 ==> ledger <= expiry <= FurthestExpiry(ledger, maxTtl));
    Done(bank[token := bank[token].(allowances := bank[token].allowances[(owner, spender) := Allowance(amount, expiry)])])
  }

  /** Spends out of the allowance `from` gave `spender`; its expiry stays what it was. */
  function TransferFrom(bank: Bank, token: Address, spender: Address, from: Address, to: Address,
                        amount: int, ledger: nat): (r: Result<Bank>)
    ensures r.Done? <==>
            && token in bank && 0 <= amount <= BalanceOf(bank, token, from)
            && (amount > 0 ==> amount <= AllowanceOf(bank, token, from, spender).amount
                               && ledger <= AllowanceOf(bank, token, from, spender).expiry)
    ensures r.Done? ==> forall t, who :: BalanceOf(r.value, t, who) ==
                          BalanceOf(bank, t, who) + if t == token then Delta(from, to, amount, who) else 0
    ensures r.Done? ==> forall t, o, s :: AllowanceOf(r.value, t, o, s) ==
                          var a := AllowanceOf(bank, t, o, s);
                          if t == token && o == from && s == spender then a.(amount := a.amount - amount) else a
    ensures r.Done? ==> r.value.Keys == bank.Keys
  {
    var moved :- Transfer(bank, token, from, to, amount);
    var a := AllowanceOf(bank, token, from, spender);
    :- Require(amount > 0 ==> amount <= a.amount && ledger <= a.expiry);
    if amount == 0 then Done(moved) else
      Done(moved[token := moved[token].(allowances := moved[token].allowances[(from, spender) := a.(amount := a.amount - amount)])])
  }

  /** What the rest of the world may do to the token contracts. */
  datatype TokenOp =
    | Send(token: Address, from: Address, to: Address, amount: int)
    | SendFrom(token: Address, spender: Address, from: Address, to: Address, amount: int)
    | Allow(token: Address, owner: Address, spender: Address, amount: int, expiry: nat)
    | Mint(token: Address, to: Address, amount: int)
  {
    /** The address whose signature the token contract demands (`None`: the token's own issuer). */
    function Signer(): Option<Address> {
      match this
      case Send(_, from, _, _) => Some(from)
      case SendFrom(_, spender, _, _, _) => Some(spender)
      case Allow(_, owner, _, _, _) => Some(owner)
      case Mint(_, _, _) => None
    }

    /** Whether the operation pays `who`. */
    predicate Pays(who: Address) {
      match this
      case Send(_, _, to, _) => to == who
      case SendFrom(_, _, _, to, _) => to == who
      case Allow(_, _, _, _, _) => false
      case Mint(_, to, _) => to == who
    }

    function Apply(bank: Bank, ledger: nat, maxTtl: nat): Result<Bank> {
      match this
      case Send(token, from, to, amount) => Transfer(bank, token, from, to, amount)
      case SendFrom(token, spender, from, to, amount) => TransferFrom(bank, token, spender, from, to, amount, ledger)
      case Allow(token, owner, spender, amount, expiry) => Approve(bank, token, owner, spender, amount, expiry, ledger, maxTtl)
      case Mint(token, to, amount) =>
        :- Require(token in bank && amount >= 0);
        Done(Credit(bank, token, to, amount))
    }
  }

  /** `who` has given nobody the right to spend its tokens. */
  ghost predicate GrantsNothing(bank: Bank, who: Address) {
    forall t, s :: AllowanceOf(bank, t, who, s).amount <= 0
  }

  /** Nobody else can take tokens from an address that grants no allowances, and its holdings change
      only when somebody pays it. */
  lemma OthersCannotTake(bank: Bank, op: TokenOp, ledger: nat, maxTtl: nat, who: Address)
    requires GrantsNothing(bank, who) && op.Signer() != Some(who)
    requires op.Apply(bank, ledger, maxTtl).Done?
    ensures var after := op.Apply(bank, ledger, maxTtl).value;
            && GrantsNothing(after, who)
            && (forall t :: BalanceOf(after, t, who) >= BalanceOf(bank, t, who))
            && (!op.Pays(who) ==> forall t :: BalanceOf(after, t, who) == BalanceOf(bank, t, who))
  {
    var after := op.Apply(bank, ledger, maxTtl).value;
    match op
    case Send(_, _, _, _) =>
    case SendFrom(token, spender, from, to, amount) =>
      assert from == who ==> AllowanceOf(bank, token, who, spender).amount <= 0;
    case Allow(_, _, _, _, _) =>
    case Mint(token, to, amount) =>
      assert forall t, s :: AllowanceOf(after, t, who, s) == AllowanceOf(bank, t, who, s);
  }
}
