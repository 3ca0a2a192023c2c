/** The token contract's balance rows and what they add up to.

    A row lives in the owner's scope under the symbol code's primary key, so
    the table is modelled as one map keyed by (owner, code). `Total` is the
    sum of the balances held under one code; the lemmas below say how it moves
    when one row is inserted, changed or erased, and how it bounds each row. */
module Holdings {
  import opened Eosio

  datatype AccountKey = AccountKey(owner: Name, code: SymbolCode)

  /** A balance row: the amount held and whether the owner has claimed it. */
  datatype Account = Account(balance: int, claimed: bool)

  type Accounts = map<AccountKey, Account>

  /** What the row under `k` contributes to the total of code `c`. */
  function Held(m: Accounts, k: AccountKey, c: SymbolCode): int
  {
    if k in m && k.code == c then m[k].balance else 0
  }

  /** The owner's balance in code `c`; 0 when there is no row. */
  function Balance(m: Accounts, owner: Name, c: SymbolCode): int
  {
    Held(m, AccountKey(owner, c), c)
  }

  ghost function Pick(m: Accounts): (k: AccountKey)
    requires m != map[]
    ensures k in m
  {
    var k :| k in m; k
  }

  /** The sum of all balances held under code `c`. */
  ghost function Total(m: Accounts, c: SymbolCode): int
    decreases |m|
  {
    if m == map[] then 0
    else
      var k := Pick(m);
      Held(m, k, c) + Total(m - {k}, c)
  }

  ghost predicate NoNegative(m: Accounts)
  {
    forall k :: k in m ==> m[k].balance >= 0
  }

  /** Every row that was claimed before and still exists is still claimed. */
  ghost predicate ClaimsKept(before: Accounts, after: Accounts)
  {
    forall k :: k in before && k in after && before[k].claimed ==> after[k].claimed
  }

  /** The total does not depend on which row the definition picks first. */
  lemma {:induction false} TotalPick(m: Accounts, k: AccountKey, c: SymbolCode)
    requires k in m
    ensures Total(m, c) == Held(m, k, c) + Total(m - {k}, c)
    decreases |m|
  {
    var j := Pick(m);
    if j != k {
      TotalPick(m - {j}, k, c);
      TotalPick(m - {k}, j, c);
      assert m - {j} - {k} == m - {k} - {j};
      assert Held(m - {j}, k, c) == Held(m, k, c);
      assert Held(m - {k}, j, c) == Held(m, j, c);
    }
  }

  /** Changing, inserting or erasing the single row `k` moves every total by
      exactly the change in what that row holds. */
  lemma TotalFrame(m: Accounts, m': Accounts, k: AccountKey, c: SymbolCode)
    requires m - {k} == m' - {k}
    ensures Total(m', c) == Total(m, c) - Held(m, k, c) + Held(m', k, c)
  {
    if k in m {
      TotalPick(m, k, c);
    } else {
      assert m - {k} == m;
    }
    if k in m' {
      TotalPick(m', k, c);
    } else {
      assert m' - {k} == m';
    }
  }

  lemma TotalFrameAll(m: Accounts, m': Accounts, k: AccountKey)
    requires m - {k} == m' - {k}
    ensures forall c :: Total(m', c) == Total(m, c) - Held(m, k, c) + Held(m', k, c)
  {
    forall c
      ensures Total(m', c) == Total(m, c) - Held(m, k, c) + Held(m', k, c)
    {
      TotalFrame(m, m', k, c);
    }
  }

  /** A change confined to row `k` is also confined to any pair of rows
      holding `k`. */
  lemma FramePair(m: Accounts, m': Accounts, k: AccountKey, j: AccountKey)
    requires m - {k} == m' - {k}
    ensures m - {k, j} == m' - {k, j} && m - {j, k} == m' - {j, k}
  {
    assert m - {k, j} == (m - {k}) - {j};
    assert m' - {k, j} == (m' - {k}) - {j};
    assert {j, k} == {k, j};
  }

  /** A code nobody holds a row in has total 0. */
  lemma {:induction false} TotalUnheld(m: Accounts, c: SymbolCode)
    requires forall k :: k in m ==> k.code != c
    ensures Total(m, c) == 0
    decreases |m|
  {
    if m != map[] {
      TotalUnheld(m - {Pick(m)}, c);
    }
  }

  lemma {:induction false} TotalNonNegative(m: Accounts, c: SymbolCode)
    requires NoNegative(m)
    ensures Total(m, c) >= 0
    decreases |m|
  {
    if m != map[] {
      TotalNonNegative(m - {Pick(m)}, c);
    }
  }

  /** With no negative balance, no row holds more than the total. */
  lemma {:induction false} HeldBelowTotal(m: Accounts, k: AccountKey, c: SymbolCode)
    requires NoNegative(m)
    ensures 0 <= Held(m, k, c) <= Total(m, c)
  {
    if k in m {
      TotalPick(m, k, c);
      TotalNonNegative(m - {k}, c);
    } else {
      TotalNonNegative(m, c);
    }
  }

  /** The rows after `sub_balance` took `amount` from row `k`: the row is
      erased when it held exactly `amount`, and decremented otherwise. */
  function Debited(m: Accounts, k: AccountKey, amount: int): (r: Accounts)
    requires k in m && m[k].balance >= amount
    ensures r - {k} == m - {k}
    ensures k in r <==> m[k].balance != amount
    ensures k in r ==> r[k] == Account(m[k].balance - amount, m[k].claimed)
    ensures Held(r, k, k.code) == Held(m, k, k.code) - amount
    ensures r.Keys <= m.Keys
    ensures NoNegative(m) ==> NoNegative(r)
    ensures ClaimsKept(m, r)
    ensures forall c :: Total(r, c) == Total(m, c) - (if c == k.code then amount else 0)
  {
    var r := if m[k].balance == amount then m - {k}
             else m[k := Account(m[k].balance - amount, m[k].claimed)];
    assert r - {k} == m - {k};
    TotalFrameAll(m, r, k);
    r
  }

  /** The rows after `add_balance` gave `amount` to row `k`: a missing row is
      created with the given claim flag, an existing one keeps its flag. */
  function Credited(m: Accounts, k: AccountKey, amount: int, claimed: bool): (r: Accounts)
    ensures r - {k} == m - {k}
    ensures k in r && r[k].balance == Held(m, k, k.code) + amount
    ensures r[k].claimed == (if k in m then m[k].claimed else claimed)
    ensures r.Keys == m.Keys + {k}
    ensures NoNegative(m) && amount >= 0 ==> NoNegative(r)
    ensures ClaimsKept(m, r)
    ensures forall c :: Total(r, c) == Total(m, c) + (if c == k.code then amount else 0)
  {
    var r := if k in m then m[k := Account(m[k].balance + amount, m[k].claimed)]
             else m[k := Account(amount, claimed)];
    assert r - {k} == m - {k};
    TotalFrameAll(m, r, k);
    r
  }

  /** The rows after `do_claim` on an existing row `k`: same balance, claimed. */
  function Claimed(m: Accounts, k: AccountKey): (r: Accounts)
    requires k in m
    ensures r - {k} == m - {k}
    ensures k in r && r[k] == Account(m[k].balance, true)
    ensures m[k].claimed ==> r == m
    ensures r.Keys == m.Keys
    ensures NoNegative(m) ==> NoNegative(r)
    ensures ClaimsKept(m, r)
    ensures forall c :: Total(r, c) == Total(m, c)
  {
    var r := if m[k].claimed then m else m[k := Account(m[k].balance, true)];
    assert r - {k} == m - {k};
    TotalFrameAll(m, r, k);
    r
  }

  /** Claiming twice is claiming once. */
  lemma ClaimIdempotent(m: Accounts, k: AccountKey)
    requires k in m
    ensures k in Claimed(m, k) && Claimed(Claimed(m, k), k) == Claimed(m, k)
  {
  }
}
