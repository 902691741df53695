/** Vocabulary shared by every model: options, transaction outcomes, the arithmetic of the
    contract language, and finite sums. */
module Prelude {

  type Address = nat

  datatype Option<+T> = None | Some(value: T) {
    function GetOr(default: T): T {
      if Some? then value else default
    }
  }

  /** The outcome of one transaction: either its whole effect commits, or it reverts and nothing
      changes. A panic of the contract is a `Revert`. */
  datatype Result<+T> = Done(value: T) | Revert {
    predicate IsFailure() { Revert? }

    function PropagateFailure<U>(): Result<U>
      requires Revert?
    {
      Revert
    }

    function Extract(): T
      requires Done?
    {
      value
    }
  }

  /** An assertion inside a transaction: `:- Require(c);` reverts unless `c` holds. */
  datatype Check = Pass | Fail {
    predicate IsFailure() { Fail? }

    function PropagateFailure<U>(): Result<U>
      requires Fail?
    {
      Revert
    }
  }

  function Require(condition: bool): Check {
    if condition then Pass else Fail
  }

  /** A call that committed `r`'s whole effect, or reverted and left what it worked on as it was. */
  predicate Committed<T(==)>(before: T, after: T, r: Result<T>, ok: bool) {
    ok == r.Done? && after == if ok then r.value else before
  }

  /** How a pledged asset is held: in the vault itself, or under a lien at its issuer or custodian. */
  datatype CustodyMode = Escrow | IssuerLien | CustodianLien

  /** How long a queued change of any contract waits before it can be executed. */
  const TIMELOCK_DELAY_SECONDS: nat := 48 * 60 * 60

  // ----- arithmetic of the contract language

  const U32_MAX: nat := 0xFFFF_FFFF
  const BPS: int := 10_000
  const PRICE_SCALE: int := 10_000_000
  const SECONDS_PER_YEAR: int := 365 * 24 * 60 * 60

  function Min(a: int, b: int): int {
    if a <= b then a else b
  }

  function Max(a: int, b: int): int {
    if a <= b then b else a
  }

  function Abs(a: int): int {
    if a < 0 then -a else a
  }

  /** Unsigned subtraction that stops at zero. */
  function SatSub(a: nat, b: nat): nat {
    if a <= b then 0 else a - b
  }

  function SatAdd32(a: nat, b: nat): nat {
    if a + b <= U32_MAX then a + b else U32_MAX
  }

  function SatMul32(a: nat, b: nat): nat {
    if a * b <= U32_MAX then a * b else U32_MAX
  }

  /** Signed division that truncates toward zero. */
  function Quot(a: int, b: int): (q: int)
    requires b > 0
    ensures a >= 0 ==> q >= 0 && q * b <= a < (q + 1) * b
    ensures a <= 0 ==> q <= 0 && (q - 1) * b < a <= q * b
  {
    if a >= 0 then a / b else -((-a) / b)
  }

  /** Dividing by two factors in turn is dividing once by their product. */
  lemma QuotQuot(a: int, b: int, c: int)
    requires a >= 0 && b > 0 && c > 0
    ensures Quot(Quot(a, b), c) * (b * c) <= a < (Quot(Quot(a, b), c) + 1) * (b * c)
  {
    var p := Quot(a, b);
    var q := Quot(p, c);
    assert q * c * b <= p * b by { MulMono(q * c, p, b); }
    assert p + 1 <= (q + 1) * c;
    assert (p + 1) * b <= (q + 1) * c * b by { MulMono(p + 1, (q + 1) * c, b); }
    MulAssoc(q, c, b);
    MulAssoc(q + 1, c, b);
  }

  lemma MulMono(a: int, b: int, c: int)
    requires a <= b && 0 <= c
    ensures a * c <= b * c
  {
  }

  lemma MulAssoc(a: int, b: int, c: int)
    ensures a * b * c == a * (c * b)
  {
  }

  /** A quotient orders the same way as the products it comes from. */
  lemma QuotAtLeast(a: int, b: int, k: int)
    requires a >= 0 && b > 0
    ensures Quot(a, b) >= k <==> a >= k * b
  {
    var q := Quot(a, b);
    if q >= k {
      MulMono(k, q, b);
    } else {
      MulMono(q + 1, k, b);
    }
  }

  // ----- finite sums

  /** The sum of a map's values. */
  ghost function Sum<K(!new)>(m: map<K, int>): int
    decreases |m|
  {
    if m == map[] then 0 else
      var k :| k in m;
      m[k] + Sum(m - {k})
  }

  lemma {:induction false} SumRemove<K(!new)>(m: map<K, int>, k: K)
    requires k in m
    ensures Sum(m) == m[k] + Sum(m - {k})
    decreases |m|
  {
    var c :| c in m && Sum(m) == m[c] + Sum(m - {c});
    if c != k {
      SumRemove(m - {c}, k);
      SumRemove(m - {k}, c);
      assert m - {c} - {k} == m - {k} - {c};
    }
  }

  lemma SumUpdate<K(!new)>(m: map<K, int>, k: K, v: int)
    ensures Sum(m[k := v]) == Sum(m) - (if k in m then m[k] else 0) + v
  {
    SumRemove(m[k := v], k);
    if k in m {
      SumRemove(m, k);
      assert m[k := v] - {k} == m - {k};
    } else {
      assert m[k := v] - {k} == m;
    }
  }

  /** Two maps that agree everywhere but at `k` have sums that differ only by what they hold there. */
  lemma SumChange<K(!new)>(m: map<K, int>, m': map<K, int>, k: K)
    requires k in m' && m' == m[k := m'[k]]
    ensures Sum(m') == Sum(m) - (if k in m then m[k] else 0) + m'[k]
  {
    SumUpdate(m, k, m'[k]);
  }

  lemma {:induction false} SumNonNegative<K(!new)>(m: map<K, int>)
    requires forall k | k in m :: m[k] >= 0
    ensures Sum(m) >= 0
    decreases |m|
  {
    if m != map[] {
      var k :| k in m;
      SumRemove(m, k);
      SumNonNegative(m - {k});
    }
  }

  /** A sum of non-negative terms is at least each of them. */
  lemma SumAtLeast<K(!new)>(m: map<K, int>, k: K)
    requires k in m
    requires forall j | j in m :: m[j] >= 0
    ensures Sum(m) >= m[k]
  {
    SumRemove(m, k);
    SumNonNegative(m - {k});
  }

  lemma {:induction false} SumPointwise<K(!new)>(m: map<K, int>, m': map<K, int>)
    requires m.Keys == m'.Keys
    requires forall k | k in m :: m[k] <= m'[k]
    ensures Sum(m) <= Sum(m')
    decreases |m|
  {
    if m != map[] {
      var k :| k in m;
      SumRemove(m, k);
      SumRemove(m', k);
      SumPointwise(m - {k}, m' - {k});
    } else {
      assert m' == map[];
    }
  }

  lemma {:induction false} SumZero<K(!new)>(m: map<K, int>)
    requires forall k | k in m :: m[k] == 0
    ensures Sum(m) == 0
    decreases |m|
  {
    if m != map[] {
      var k :| k in m;
      SumRemove(m, k);
      SumZero(m - {k});
    }
  }
}
