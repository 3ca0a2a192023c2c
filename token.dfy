/** The `metpacktoken` contract: a per-symbol currency record and per-owner
    balance rows, changed in place by guarded table operations. An action
    that fails one of its assertions leaves both tables as they were. */
module Token {
  import opened Eosio
  import opened Holdings

  /** The failed assertion an aborted action reports. */
  datatype Error =
    | InvalidSupply           // "invalid supply"
    | MaxSupplyNotPositive    // "max-supply must be positive"
    | SymbolExists            // "token with symbol already exists"
    | SymbolMissing           // no currency record under the symbol's code
    | PrecisionMismatch       // "symbol precision mismatch"
    | MemoTooLong             // "memo has more than 256 bytes"
    | InvalidQuantity         // "invalid quantity"
    | NotPositive             // "must issue/retire/transfer positive quantity"
    | ExceedsAvailableSupply  // "quantity exceeds available supply"
    | SelfTransfer            // "cannot transfer to self"
    | NoBalanceObject         // "no balance object found"
    | Overdrawn               // "overdrawn balance"
    | AdditionOverflow        // the asset's own range check on `+=`
    | TransferRejected        // the crowdsale's transfer check aborted
    | RowMissing              // "Balance row already deleted or never existed..."
    | NonZeroBalance          // "Cannot close because the balance is not zero."

  /** The currency record of one symbol code. Supply and maximum supply are
      assets of the same symbol, kept here as one symbol and two amounts. */
  datatype CurrencyStats = CurrencyStats(symbol: Symbol, supply: int, maxSupply: int, issuer: Name)

  /** The crowdsale's `chcktransfer` action, as seen by the ledger: it is
      sent the sender, the quantity and the sender's balance before the
      transfer, and either returns (true) or aborts the transaction (false). */
  type Hook = (Name, Asset, int) -> bool

  ghost predicate CurrencyOk(c: SymbolCode, st: CurrencyStats)
  {
    && st.symbol.code == c
    && 0 < st.maxSupply <= MaxAmount
    && 0 <= st.supply <= st.maxSupply
  }

  /** Supply stays within the maximum, no balance is negative, every row
      belongs to an existing currency, and the balances of each currency add
      up to its supply. */
  ghost predicate Consistent(stats: map<SymbolCode, CurrencyStats>, accounts: Accounts)
  {
    && NoNegative(accounts)
    && (forall k :: k in accounts ==> k.code in stats)
    && (forall c :: c in stats ==> CurrencyOk(c, stats[c]) && Total(accounts, c) == stats[c].supply)
  }

  /** Moving the supply of `c` by `delta` and the rows' total of `c` by the
      same amount, touching only rows of `c`, keeps the tables consistent. */
  lemma SupplyMoved(stats: map<SymbolCode, CurrencyStats>, a: Accounts, a': Accounts, c: SymbolCode, delta: int)
    requires Consistent(stats, a)
    requires c in stats && 0 <= stats[c].supply + delta <= stats[c].maxSupply
    requires NoNegative(a')
    requires forall k :: k in a' ==> k in a || k.code == c
    requires forall c' :: Total(a', c') == Total(a, c') + (if c' == c then delta else 0)
    ensures Consistent(stats[c := stats[c].(supply := stats[c].supply + delta)], a')
  {
  }

  /** Everything a transfer checks before it commits. */
  predicate TransferCommits(stats: map<SymbolCode, CurrencyStats>, accounts: Accounts,
                            from: Name, to: Name, quantity: Asset, memo: Memo, hook: Hook)
  {
    var c := quantity.symbol.code;
    var fk := AccountKey(from, c);
    && from != to
    && c in stats
    && AssetIsValid(quantity)
    && quantity.amount > 0
    && quantity.symbol == stats[c].symbol
    && |memo| <= MaxMemoBytes
    && fk in accounts
    && accounts[fk].balance >= quantity.amount as int
    && (from == Crowdsale || hook(from, quantity, accounts[fk].balance))
  }

  /** Everything an issue checks before it commits; the last condition is
      the nested transfer's, whose crowdsale check sees the issuer's balance
      after the credit. */
  predicate IssueCommits(stats: map<SymbolCode, CurrencyStats>, accounts: Accounts,
                         to: Name, quantity: Asset, memo: Memo, hook: Hook)
  {
    var c := quantity.symbol.code;
    && IssueChecks(stats, quantity, memo).Ok?
    && var issuer := stats[c].issuer;
       (to == issuer || issuer == Crowdsale ||
        hook(issuer, quantity, Balance(accounts, issuer, c) + quantity.amount as int))
  }

  /** The assertions `issue` makes before it changes anything, in order;
      the first that fails is the one reported. */
  function IssueChecks(stats: map<SymbolCode, CurrencyStats>, quantity: Asset, memo: Memo): (r: Outcome<Error>)
    ensures var c := quantity.symbol.code;
            r.Ok? <==>
              && |memo| <= MaxMemoBytes
              && c in stats
              && AssetIsValid(quantity)
              && quantity.amount > 0
              && quantity.symbol == stats[c].symbol
              && quantity.amount as int <= stats[c].maxSupply - stats[c].supply
    ensures |memo| > MaxMemoBytes ==> r == Abort(MemoTooLong)
    ensures |memo| <= MaxMemoBytes && quantity.symbol.code !in stats ==> r == Abort(SymbolMissing)
    ensures var c := quantity.symbol.code;
            |memo| <= MaxMemoBytes && c in stats && !AssetIsValid(quantity) ==> r == Abort(InvalidQuantity)
    ensures var c := quantity.symbol.code;
            |memo| <= MaxMemoBytes && c in stats && AssetIsValid(quantity) && quantity.amount <= 0 ==>
              r == Abort(NotPositive)
    ensures var c := quantity.symbol.code;
            && |memo| <= MaxMemoBytes && c in stats && AssetIsValid(quantity) && quantity.amount > 0
            && quantity.symbol != stats[c].symbol
            ==> r == Abort(PrecisionMismatch)
    ensures var c := quantity.symbol.code;
            && |memo| <= MaxMemoBytes && c in stats && AssetIsValid(quantity) && quantity.amount > 0
            && quantity.symbol == stats[c].symbol && quantity.amount as int > stats[c].maxSupply - stats[c].supply
            ==> r == Abort(ExceedsAvailableSupply)
  {
    var c := quantity.symbol.code;
    if |memo| > MaxMemoBytes then Abort(MemoTooLong)
    else if c !in stats then Abort(SymbolMissing)
    else if !AssetIsValid(quantity) then Abort(InvalidQuantity)
    else if quantity.amount <= 0 then Abort(NotPositive)
    else if quantity.symbol != stats[c].symbol then Abort(PrecisionMismatch)
    else if quantity.amount as int > stats[c].maxSupply - stats[c].supply then Abort(ExceedsAvailableSupply)
    else Ok
  }

  /** `after` is `before` with `amount` of code `c` moved from `from` to `to`:
      the sender's row is erased exactly when it is emptied, and is claimed
      otherwise; the receiver has a row; no other row changes. */
  ghost predicate Moved(before: Accounts, after: Accounts, from: Name, to: Name, c: SymbolCode, amount: int)
  {
    var fk, tk := AccountKey(from, c), AccountKey(to, c);
    && after - {fk, tk} == before - {fk, tk}
    && Balance(after, from, c) == Balance(before, from, c) - amount
    && Balance(after, to, c) == Balance(before, to, c) + amount
    && (fk in after <==> Balance(before, from, c) != amount)
    && (fk in after ==> after[fk].claimed)
    && tk in after
  }

  /** The sender's side of a transfer: its row claimed, then debited by
      `amount` (and erased when that empties it). */
  function Withdrawn(a: Accounts, k: AccountKey, amount: int): (r: Accounts)
    requires k in a && a[k].balance >= amount
    ensures r - {k} == a - {k}
    ensures k in r <==> a[k].balance != amount
    ensures k in r ==> r[k] == Account(a[k].balance - amount, true)
    ensures Held(r, k, k.code) == Held(a, k, k.code) - amount
    ensures r.Keys <= a.Keys
    ensures NoNegative(a) ==> NoNegative(r)
    ensures ClaimsKept(a, r)
    ensures forall c :: Total(r, c) == Total(a, c) - (if c == k.code then amount else 0)
  {
    Debited(Claimed(a, k), k, amount)
  }

  /** The rows after the body of a transfer of `amount` of code `c`: the
      sender's row claimed and debited, the receiver's credited (a new row
      gets the flag `claimTo`) and, when `claimTo` holds, claimed. */
  function TransferredRows(a: Accounts, from: Name, to: Name, c: SymbolCode, amount: int, claimTo: bool): (r: Accounts)
    requires from != to && amount >= 0
    requires AccountKey(from, c) in a && a[AccountKey(from, c)].balance >= amount
    ensures Moved(a, r, from, to, c, amount)
    ensures var tk := AccountKey(to, c);
            r[tk].claimed == (claimTo || (tk in a && a[tk].claimed))
    ensures forall c' :: Total(r, c') == Total(a, c')
    ensures r.Keys <= a.Keys + {AccountKey(to, c)}
    ensures NoNegative(a) ==> NoNegative(r)
    ensures ClaimsKept(a, r)
  {
    var fk, tk := AccountKey(from, c), AccountKey(to, c);
    var a2 := Withdrawn(a, fk, amount);
    var a3 := Credited(a2, tk, amount, claimTo);
    var r := if claimTo then Claimed(a3, tk) else a3;
    FramePair(a, a2, fk, tk);
    FramePair(a2, a3, tk, fk);
    FramePair(a3, r, tk, fk);
    r
  }

  /** The rows after an issue of `amount` of code `c`: the issuer is
      credited (a new row is claimed) and, when `to` is someone else, the
      amount is then transferred from the issuer to `to`. */
  function IssuedRows(a: Accounts, issuer: Name, to: Name, c: SymbolCode, amount: int): (r: Accounts)
    requires amount >= 0 && NoNegative(a)
    ensures forall c' :: Total(r, c') == Total(a, c') + (if c' == c then amount else 0)
    ensures r.Keys <= a.Keys + {AccountKey(issuer, c), AccountKey(to, c)}
    ensures NoNegative(r)
    ensures ClaimsKept(a, r)
    ensures to == issuer ==>
              && r - {AccountKey(to, c)} == a - {AccountKey(to, c)}
              && Balance(r, to, c) == Balance(a, to, c) + amount
              && AccountKey(to, c) in r
              && r[AccountKey(to, c)].claimed == (AccountKey(to, c) !in a || a[AccountKey(to, c)].claimed)
    ensures to != issuer ==>
              var ik, tk := AccountKey(issuer, c), AccountKey(to, c);
              && r - {ik, tk} == a - {ik, tk}
              && Balance(r, to, c) == Balance(a, to, c) + amount
              && Balance(r, issuer, c) == Balance(a, issuer, c)
              && (ik in r <==> Balance(a, issuer, c) != 0)
              && (ik in r ==> r[ik].claimed)
              && tk in r
              && r[tk].claimed == (tk in a && a[tk].claimed)
  {
    var ik, tk := AccountKey(issuer, c), AccountKey(to, c);
    var a1 := Credited(a, ik, amount, true);
    if to == issuer then
      a1
    else
      var r := TransferredRows(a1, issuer, to, c, amount, false);
      FramePair(a, a1, ik, tk);
      r
  }

  /** The rows after `recover` moved the whole balance of row `k` to the
      issuer's row `ik` of the same code: the row is erased, then the issuer
      is credited (a new issuer row is claimed). */
  function Recovered(a: Accounts, k: AccountKey, ik: AccountKey): (r: Accounts)
    requires k in a && k.code == ik.code && NoNegative(a)
    ensures forall c :: Total(r, c) == Total(a, c)
    ensures NoNegative(r)
    ensures ClaimsKept(a, r)
    ensures k == ik ==> r == Claimed(a, k)
    ensures k != ik ==>
              && r - {k, ik} == a - {k, ik}
              && k !in r
              && Held(r, ik, ik.code) == Held(a, ik, ik.code) + a[k].balance
              && ik in r
              && r[ik].claimed == (ik !in a || a[ik].claimed)
  {
    var value := a[k].balance;
    var a1 := Debited(a, k, value);
    var r := Credited(a1, ik, value, true);
    if k == ik then
      r
    else
      FramePair(a, a1, k, ik);
      FramePair(a1, r, ik, k);
      r
  }

  /** The currency table after the supply of `c` moved by `delta`. */
  function Resupplied(stats: map<SymbolCode, CurrencyStats>, c: SymbolCode, delta: int): (r: map<SymbolCode, CurrencyStats>)
    requires c in stats
    ensures r.Keys == stats.Keys
    ensures r[c].supply == stats[c].supply + delta
    ensures r[c] == stats[c].(supply := r[c].supply)
    ensures forall c' :: c' in stats && c' != c ==> r[c'] == stats[c']
  {
    stats[c := stats[c].(supply := stats[c].supply + delta)]
  }

  /** The nested transfer of an issue commits exactly when the issue does. */
  lemma IssueTransferCommits(stats: map<SymbolCode, CurrencyStats>, a: Accounts, mid: Accounts,
                             to: Name, quantity: Asset, memo: Memo, hook: Hook)
    requires NoNegative(a)
    requires var c := quantity.symbol.code;
             && IssueChecks(stats, quantity, memo).Ok?
             && to != stats[c].issuer
             && mid == Credited(a, AccountKey(stats[c].issuer, c), quantity.amount as int, true)
    ensures var c := quantity.symbol.code;
            TransferCommits(Resupplied(stats, c, quantity.amount as int), mid, stats[c].issuer, to, quantity, memo, hook)
              == IssueCommits(stats, a, to, quantity, memo, hook)
  {
  }

  class Ledger {
    /** The `stat` table: one record per symbol code. */
    var stats: map<SymbolCode, CurrencyStats>
    /** The `accounts` tables of all owners. */
    var accounts: Accounts

    ghost predicate Valid()
      reads this
    {
      Consistent(stats, accounts)
    }

    constructor ()
      ensures Valid() && stats == map[] && accounts == map[]
    {
      stats := map[];
      accounts := map[];
    }

    /** `sub_balance`: take `amount` from the owner's row. */
    method SubBalance(owner: Name, c: SymbolCode, amount: int) returns (r: Outcome<Error>)
      modifies this`accounts
      ensures var k := AccountKey(owner, c);
              && (r.Ok? <==> k in old(accounts) && old(accounts)[k].balance >= amount)
              && (r.Ok? ==> accounts == Debited(old(accounts), k, amount))
              && (k !in old(accounts) ==> r == Abort(NoBalanceObject))
      ensures r.Abort? ==> accounts == old(accounts)
    {
      var k := AccountKey(owner, c);
      if k !in accounts {
        return Abort(NoBalanceObject);
      }
      var row := accounts[k];
      if row.balance < amount {
        return Abort(Overdrawn);
      }
      if row.balance == amount {
        accounts := accounts - {k};
      } else {
        accounts := accounts[k := row.(balance := row.balance - amount)];
      }
      r := Ok;
    }

    /** `add_balance`: give `amount` to the owner, creating the row with the
        given claim flag when there is none. */
    method AddBalance(owner: Name, c: SymbolCode, amount: int, claimed: bool) returns (r: Outcome<Error>)
      modifies this`accounts
      ensures var k := AccountKey(owner, c);
              && (r.Ok? <==> k !in old(accounts) || -MaxAmount <= old(accounts)[k].balance + amount <= MaxAmount)
              && (r.Ok? ==> accounts == Credited(old(accounts), k, amount, claimed))
      ensures r.Abort? ==> r == Abort(AdditionOverflow) && accounts == old(accounts)
    {
      var k := AccountKey(owner, c);
      if k !in accounts {
        accounts := accounts[k := Account(amount, claimed)];
      } else {
        var row := accounts[k];
        var sum := row.balance + amount;
        if sum < -MaxAmount || MaxAmount < sum {
          return Abort(AdditionOverflow);
        }
        accounts := accounts[k := row.(balance := sum)];
      }
      r := Ok;
    }

    /** `do_claim`: an unclaimed row is erased and emplaced again, claimed,
        with the same balance; a claimed row is left alone. */
    method DoClaim(owner: Name, c: SymbolCode) returns (r: Outcome<Error>)
      modifies this`accounts
      ensures var k := AccountKey(owner, c);
              && (r.Ok? <==> k in old(accounts))
              && (r.Ok? ==> accounts == Claimed(old(accounts), k))
      ensures r.Abort? ==> r == Abort(NoBalanceObject) && accounts == old(accounts)
    {
      var k := AccountKey(owner, c);
      if k !in accounts {
        return Abort(NoBalanceObject);
      }
      var row := accounts[k];
      if !row.claimed {
        var value := row.balance;
        accounts := accounts - {k};
        assert k !in accounts;  // "there must be no balance object"
        accounts := accounts[k := Account(value, true)];
      }
      r := Ok;
    }

    /** `create`: register a currency with supply 0. */
    method Create(issuer: Name, maximumSupply: Asset) returns (r: Outcome<Error>)
      requires Valid()
      modifies this
      ensures Valid()
      ensures accounts == old(accounts)
      ensures var c := maximumSupply.symbol.code;
              && (r.Ok? <==> AssetIsValid(maximumSupply) && maximumSupply.amount > 0 && c !in old(stats))
              && (r.Ok? ==> stats == old(stats)[c := CurrencyStats(maximumSupply.symbol, 0, maximumSupply.amount as int, issuer)])
              && (AssetIsValid(maximumSupply) && maximumSupply.amount > 0 && c in old(stats) ==> r == Abort(SymbolExists))
      ensures r.Abort? ==> stats == old(stats)
    {
      var c := maximumSupply.symbol.code;
      if !AssetIsValid(maximumSupply) {
        return Abort(InvalidSupply);
      }
      if maximumSupply.amount <= 0 {
        return Abort(MaxSupplyNotPositive);
      }
      if c in stats {
        return Abort(SymbolExists);
      }
      TotalUnheld(accounts, c);
      stats := stats[c := CurrencyStats(maximumSupply.symbol, 0, maximumSupply.amount as int, issuer)];
      r := Ok;
    }

    /** `update`: replace the issuer of an existing currency; its supply and
        maximum supply stay as they were. */
    method Update(issuer: Name, symbol: Symbol) returns (r: Outcome<Error>)
      requires Valid()
      modifies this
      ensures Valid()
      ensures accounts == old(accounts)
      ensures var c := symbol.code;
              && (r.Ok? <==> c in old(stats) && old(stats)[c].symbol == symbol)
              && (r.Ok? ==> stats == old(stats)[c := old(stats)[c].(issuer := issuer)])
              && (c !in old(stats) ==> r == Abort(SymbolMissing))
      ensures r.Abort? ==> stats == old(stats)
    {
      var c := symbol.code;
      if c !in stats {
        return Abort(SymbolMissing);
      }
      var st := stats[c];
      if st.symbol != symbol {
        return Abort(PrecisionMismatch);
      }
      stats := stats[c := st.(issuer := issuer)];
      r := Ok;
    }

    /** `transfer`: move `quantity` from `from` to `to`. The sender's row is
        claimed first; the receiver's row is claimed too unless the sender is
        the issuer, in which case a new receiver row stays unclaimed. */
    method Transfer(from: Name, to: Name, quantity: Asset, memo: Memo, hook: Hook) returns (r: Outcome<Error>)
      requires Valid()
      modifies this
      ensures Valid()
      ensures stats == old(stats)
      ensures r.Ok? <==> TransferCommits(old(stats), old(accounts), from, to, quantity, memo, hook)
      ensures from == to ==> r == Abort(SelfTransfer)
      ensures r.Abort? ==> accounts == old(accounts)
      ensures var c := quantity.symbol.code;
              r.Ok? ==>
                accounts == TransferredRows(old(accounts), from, to, c, quantity.amount as int, from != old(stats)[c].issuer)
    {
      if from == to {
        return Abort(SelfTransfer);
      }
      var c := quantity.symbol.code;
      if c !in stats {
        return Abort(SymbolMissing);
      }
      var st := stats[c];
      if !AssetIsValid(quantity) {
        return Abort(InvalidQuantity);
      }
      if quantity.amount <= 0 {
        return Abort(NotPositive);
      }
      if quantity.symbol != st.symbol {
        return Abort(PrecisionMismatch);
      }
      if |memo| > MaxMemoBytes {
        return Abort(MemoTooLong);
      }
      var fk, tk := AccountKey(from, c), AccountKey(to, c);
      var amount := quantity.amount as int;
      // the crowdsale's check is sent the sender's balance as it is now and
      // runs after this action's body, so its verdict is applied last
      var accepted := true;
      if from != Crowdsale {
        if fk !in accounts {
          return Abort(NoBalanceObject);
        }
        accepted := hook(from, quantity, accounts[fk].balance);
      }
      var a0 := accounts;
      r := DoClaim(from, c);
      if r.Abort? {
        return;
      }
      r := SubBalance(from, c, amount);
      if r.Abort? {
        accounts := a0;
        return;
      }
      // the receiver's row plus the amount stays within the supply
      HeldBelowTotal(accounts, tk, c);
      r := AddBalance(to, c, amount, from != st.issuer);
      assert r.Ok?;
      if from != st.issuer {
        r := DoClaim(to, c);
        assert r.Ok?;
      }
      assert accounts == TransferredRows(a0, from, to, c, amount, from != st.issuer);
      if !accepted {
        accounts := a0;
        return Abort(TransferRejected);
      }
    }

    /** The first half of `issue`: raise the supply of `c` by `amount` and
        credit the issuer, whose new row is claimed. */
    method Mint(c: SymbolCode, amount: int)
      requires Valid()
      requires c in stats && 0 < amount <= stats[c].maxSupply - stats[c].supply
      modifies this
      ensures Valid()
      ensures stats == Resupplied(old(stats), c, amount)
      ensures accounts == Credited(old(accounts), AccountKey(old(stats)[c].issuer, c), amount, true)
    {
      var st := stats[c];
      ghost var stats0, accounts0 := stats, accounts;
      stats := Resupplied(stats, c, amount);
      // the issuer's row plus the amount stays within the new supply
      HeldBelowTotal(accounts, AccountKey(st.issuer, c), c);
      var r := AddBalance(st.issuer, c, amount, true);
      assert r.Ok?;
      SupplyMoved(stats0, accounts0, accounts, c, amount);
    }

    /** `issue`: raise the supply by `quantity`, credit the issuer, and, when
        `to` is someone else, transfer the quantity from the issuer to `to`
        (the nested transfer runs after the issue, in the same transaction). */
    method Issue(to: Name, quantity: Asset, memo: Memo, hook: Hook) returns (r: Outcome<Error>)
      requires Valid()
      modifies this
      ensures Valid()
      ensures r.Ok? <==> IssueCommits(old(stats), old(accounts), to, quantity, memo, hook)
      ensures r.Abort? ==> stats == old(stats) && accounts == old(accounts)
      ensures r.Ok? ==> stats == Resupplied(old(stats), quantity.symbol.code, quantity.amount as int)
      ensures var c := quantity.symbol.code;
              r.Ok? ==> accounts == IssuedRows(old(accounts), old(stats)[c].issuer, to, c, quantity.amount as int)
    {
      r := IssueChecks(stats, quantity, memo);
      if r.Abort? {
        return;
      }
      var c := quantity.symbol.code;
      var st := stats[c];
      var stats0, accounts0 := stats, accounts;
      var amount := quantity.amount as int;
      Mint(c, amount);
      if to != st.issuer {
        ghost var ik := AccountKey(st.issuer, c);
        ghost var mid := accounts;
        assert mid == Credited(accounts0, ik, amount, true);
        r := Transfer(st.issuer, to, quantity, memo, hook);
        IssueTransferCommits(stats0, accounts0, mid, to, quantity, memo, hook);
        if r.Abort? {
          stats, accounts := stats0, accounts0;
          return;
        }
      }
    }

    /** `retire`: lower the supply by `quantity` and take it from the issuer. */
    method Retire(quantity: Asset, memo: Memo) returns (r: Outcome<Error>)
      requires Valid()
      modifies this
      ensures Valid()
      ensures var c := quantity.symbol.code;
              var ik := AccountKey(if c in old(stats) then old(stats)[c].issuer else Name(0), c);
              && (r.Ok? <==>
                    && |memo| <= MaxMemoBytes
                    && c in old(stats)
                    && AssetIsValid(quantity)
                    && quantity.amount > 0
                    && quantity.symbol == old(stats)[c].symbol
                    && ik in old(accounts)
                    && old(accounts)[ik].balance >= quantity.amount as int)
              && (r.Ok? ==>
                    && stats == Resupplied(old(stats), c, -(quantity.amount as int))
                    && accounts == Debited(old(accounts), ik, quantity.amount as int))
      ensures r.Abort? ==> stats == old(stats) && accounts == old(accounts)
    {
      if |memo| > MaxMemoBytes {
        return Abort(MemoTooLong);
      }
      var c := quantity.symbol.code;
      if c !in stats {
        return Abort(SymbolMissing);
      }
      var st := stats[c];
      if !AssetIsValid(quantity) {
        return Abort(InvalidQuantity);
      }
      if quantity.amount <= 0 {
        return Abort(NotPositive);
      }
      if quantity.symbol != st.symbol {
        return Abort(PrecisionMismatch);
      }
      var stats0 := stats;
      var amount := quantity.amount as int;
      stats := Resupplied(stats, c, -amount);
      HeldBelowTotal(accounts, AccountKey(st.issuer, c), c);
      r := SubBalance(st.issuer, c, amount);
      if r.Abort? {
        stats := stats0;
        return;
      }
    }

    /** `claim`: the owner claims their own row. */
    method Claim(owner: Name, symbol: Symbol) returns (r: Outcome<Error>)
      requires Valid()
      modifies this
      ensures Valid()
      ensures stats == old(stats)
      ensures var k := AccountKey(owner, symbol.code);
              && (r.Ok? <==> k in old(accounts))
              && (r.Ok? ==> accounts == Claimed(old(accounts), k))
      ensures r.Abort? ==> accounts == old(accounts)
    {
      r := DoClaim(owner, symbol.code);
    }

    /** `recover`: the issuer takes back the whole balance of a row its owner
        never claimed; a claimed or missing row is left alone. */
    method Recover(owner: Name, symbol: Symbol) returns (r: Outcome<Error>)
      requires Valid()
      modifies this
      ensures Valid()
      ensures stats == old(stats)
      ensures ClaimsKept(old(accounts), accounts)
      ensures r.Ok? <==> symbol.code in old(stats)
      ensures var k := AccountKey(owner, symbol.code);
              r.Abort? || k !in old(accounts) || old(accounts)[k].claimed ==> accounts == old(accounts)
      ensures var c := symbol.code;
              var k := AccountKey(owner, c);
              r.Ok? && k in old(accounts) && !old(accounts)[k].claimed ==>
                accounts == Recovered(old(accounts), k, AccountKey(old(stats)[c].issuer, c))
    {
      var c := symbol.code;
      if c !in stats {
        return Abort(SymbolMissing);
      }
      var st := stats[c];
      var k := AccountKey(owner, c);
      r := Ok;
      if k in accounts && !accounts[k].claimed {
        var value := accounts[k].balance;
        ghost var a0 := accounts;
        r := SubBalance(owner, c, value);
        assert r.Ok?;
        HeldBelowTotal(accounts, AccountKey(st.issuer, c), c);
        r := AddBalance(st.issuer, c, value, true);
        assert r.Ok?;
        assert accounts == Recovered(a0, k, AccountKey(st.issuer, c));
      }
    }

    /** `open`: make sure the owner has a row, inserting an empty unclaimed
        one if there is none. */
    method Open(owner: Name, symbol: Symbol) returns (r: Outcome<Error>)
      requires Valid()
      modifies this
      ensures Valid()
      ensures stats == old(stats)
      ensures var c := symbol.code;
              var k := AccountKey(owner, c);
              && (r.Ok? <==> c in old(stats) && old(stats)[c].symbol == symbol)
              && (r.Ok? && k in old(accounts) ==> accounts == old(accounts))
              && (r.Ok? && k !in old(accounts) ==> accounts == old(accounts)[k := Account(0, false)])
      ensures r.Abort? ==> accounts == old(accounts)
    {
      var c := symbol.code;
      if c !in stats {
        return Abort(SymbolMissing);
      }
      if stats[c].symbol != symbol {
        return Abort(PrecisionMismatch);
      }
      var k := AccountKey(owner, c);
      if k !in accounts {
        ghost var a0 := accounts;
        accounts := accounts[k := Account(0, false)];
        TotalFrameAll(a0, accounts, k);
      }
      r := Ok;
    }

    /** `close`: erase the owner's row, which must exist and be empty. */
    method Close(owner: Name, symbol: Symbol) returns (r: Outcome<Error>)
      requires Valid()
      modifies this
      ensures Valid()
      ensures stats == old(stats)
      ensures var k := AccountKey(owner, symbol.code);
              && (r.Ok? <==> k in old(accounts) && old(accounts)[k].balance == 0)
              && (r.Ok? ==> accounts == old(accounts) - {k})
              && (k !in old(accounts) ==> r == Abort(RowMissing))
      ensures r.Abort? ==> accounts == old(accounts)
    {
      var k := AccountKey(owner, symbol.code);
      if k !in accounts {
        return Abort(RowMissing);
      }
      if accounts[k].balance != 0 {
        return Abort(NonZeroBalance);
      }
      ghost var a0 := accounts;
      accounts := accounts - {k};
      TotalFrameAll(a0, accounts, k);
      r := Ok;
    }
  }
}
