/** The team vesting registry: listings of token contracts, each with the
    running total of credit promised to team members, and the members
    themselves with their credit.

    Both tables live in the contract's own scope. A listing's primary key is
    the raw value of its token contract's name; a member's is the raw value
    of the member's name. */
module Team {
  import opened Eosio

  /** A listing (`stat` row): the token contract, its currency, the airdrop
      time, the lockup period and the total credit promised so far. */
  datatype Listing = Listing(tokenContract: Name, currency: Symbol, airdropTimestamp: uint32,
                             lockupPeriodSeconds: uint32, totalCredit: uint64)

  /** A team member row: the account and the credit promised to it. */
  datatype Member = Member(accountName: Name, credit: Asset)

  datatype Error =
    | DuplicatePrimaryKey     // the table already holds a row under the new row's primary key
    | PrimaryKeyChanged       // a modification would change the row's primary key
    | ContractNotInitialized  // "contract not initialized"
    | MemberExists            // "team member already in table"

  /** `totalCredit += amount` on a 64-bit unsigned field with a signed
      64-bit operand: the operand is converted to unsigned and the sum
      wraps around modulo 2^64. */
  function AddWrapping(total: uint64, amount: int64): (r: uint64)
    ensures (r as int - total as int - amount as int) % Uint64Modulus == 0
    ensures 0 <= total as int + amount as int < Uint64Modulus ==> r as int == total as int + amount as int
  {
    ((total as int + amount as int) % Uint64Modulus) as uint64
  }

  function Sum(credits: seq<int64>): int
  {
    if credits == [] then 0 else Sum(credits[..|credits| - 1]) + credits[|credits| - 1] as int
  }

  /** The total credit after adding `credits`, in order, one member at a time. */
  function Accumulated(total: uint64, credits: seq<int64>): uint64
  {
    if credits == [] then total
    else AddWrapping(Accumulated(total, credits[..|credits| - 1]), credits[|credits| - 1])
  }

  /** However the members' credits wrap on the way, the total credit is the
      starting total plus the sum of the credits, modulo 2^64. */
  lemma {:induction false} AccumulatedIsSumModulo(total: uint64, credits: seq<int64>)
    ensures Accumulated(total, credits) as int == (total as int + Sum(credits)) % Uint64Modulus
  {
    if credits != [] {
      var init, last := credits[..|credits| - 1], credits[|credits| - 1];
      AccumulatedIsSumModulo(total, init);
      var t := Accumulated(total, init);
      var r := AddWrapping(t, last);
      // r and t + last differ by a multiple of 2^64, and so do t and total + Sum(init)
      var q1 := (t as int + last as int) / Uint64Modulus;
      var q2 := (total as int + Sum(init)) / Uint64Modulus;
      assert r as int == t as int + last as int - q1 * Uint64Modulus;
      assert t as int == total as int + Sum(init) - q2 * Uint64Modulus;
      assert total as int + Sum(credits) == r as int + (q1 + q2) * Uint64Modulus;
      ModuloOfShift(r as int, q1 + q2);
    }
  }

  lemma ModuloOfShift(x: int, q: int)
    requires 0 <= x < Uint64Modulus
    ensures (x + q * Uint64Modulus) % Uint64Modulus == x
  {
  }

  /** With nothing negative and no overflow, the total credit is the exact sum. */
  lemma {:induction false} AccumulatedExact(total: uint64, credits: seq<int64>)
    requires total as int + Sum(credits) < Uint64Modulus
    requires forall i :: 0 <= i < |credits| ==> credits[i] >= 0
    ensures Accumulated(total, credits) as int == total as int + Sum(credits)
  {
    AccumulatedIsSumModulo(total, credits);
    SumNonNegative(credits);
  }

  lemma {:induction false} SumNonNegative(credits: seq<int64>)
    requires forall i :: 0 <= i < |credits| ==> credits[i] >= 0
    ensures Sum(credits) >= 0
  {
    if credits != [] {
      SumNonNegative(credits[..|credits| - 1]);
    }
  }

  class Vault {
    /** The `stats` table: listings by the raw value of the token contract. */
    var stats: map<uint64, Listing>
    /** The `team` table: members by the raw value of their name. */
    var team: map<uint64, Member>

    /** Every row is stored under its own primary key. */
    ghost predicate Valid()
      reads this
    {
      && (forall key :: key in stats ==> stats[key].tokenContract.value == key)
      && (forall key :: key in team ==> team[key].accountName.value == key)
    }

    constructor ()
      ensures Valid() && stats == map[] && team == map[]
    {
      stats := map[];
      team := map[];
    }

    /** `addtoken`, as written: the existing row is looked up under the raw
        symbol code, while rows are stored under the token contract's name.
        A missing row is inserted, which aborts when the name's key is taken;
        a found row is overwritten, which aborts unless its key is the name's.
        Either way the listing's total credit starts again from 0. */
    method AddToken(tokenContract: Name, curr: Symbol, airdropTime: uint32, lockupPeriod: uint32)
      returns (r: Outcome<Error>)
      requires Valid()
      modifies this
      ensures Valid()
      ensures team == old(team)
      ensures var lookup, key := curr.code.raw, tokenContract.value;
              && (r.Ok? <==> if lookup in old(stats) then key == lookup else key !in old(stats))
              && (r.Ok? ==> stats == old(stats)[key := Listing(tokenContract, curr, airdropTime, lockupPeriod, 0)])
              && (r.Abort? ==> stats == old(stats))
              && (r.Abort? && lookup !in old(stats) ==> r.error == DuplicatePrimaryKey)
              && (r.Abort? && lookup in old(stats) ==> r.error == PrimaryKeyChanged)
    {
      var lookup := curr.code.raw;
      var row := Listing(tokenContract, curr, airdropTime, lockupPeriod, 0);
      if lookup !in stats {
        if tokenContract.value in stats {
          return Abort(DuplicatePrimaryKey);
        }
        stats := stats[tokenContract.value := row];
      } else {
        if tokenContract.value != lookup {
          return Abort(PrimaryKeyChanged);
        }
        stats := stats[lookup := row];
      }
      r := Ok;
    }

    /** `addtoken` with the lookup under the row's own primary key: it
        inserts or overwrites the listing and never aborts. */
    method AddTokenKeyed(tokenContract: Name, curr: Symbol, airdropTime: uint32, lockupPeriod: uint32)
      requires Valid()
      modifies this
      ensures Valid()
      ensures team == old(team)
      ensures stats == old(stats)[tokenContract.value := Listing(tokenContract, curr, airdropTime, lockupPeriod, 0)]
    {
      // insert when nothing is under the key, overwrite what is there otherwise
      stats := stats[tokenContract.value := Listing(tokenContract, curr, airdropTime, lockupPeriod, 0)];
    }

    /** `addmember`: add the credit to the listing of `contractName`, then
        insert the member. Adding a member twice aborts, and the abort also
        undoes the credit already added. */
    method AddMember(memberName: Name, contractName: Name, memberCredit: Asset) returns (r: Outcome<Error>)
      requires Valid()
      modifies this
      ensures Valid()
      ensures var key, m := contractName.value, memberName.value;
              && (r.Ok? <==> key in old(stats) && m !in old(team))
              && (key !in old(stats) ==> r == Abort(ContractNotInitialized))
              && (key in old(stats) && m in old(team) ==> r == Abort(MemberExists))
              && (r.Abort? ==> stats == old(stats) && team == old(team))
              && (r.Ok? ==>
                    && stats == old(stats)[key := old(stats)[key].(totalCredit := AddWrapping(old(stats)[key].totalCredit, memberCredit.amount))]
                    && team == old(team)[m := Member(memberName, memberCredit)])
    {
      var key := contractName.value;
      if key !in stats {
        return Abort(ContractNotInitialized);
      }
      var stats0 := stats;
      var listing := stats[key];
      stats := stats[key := listing.(totalCredit := AddWrapping(listing.totalCredit, memberCredit.amount))];
      if memberName.value in team {
        stats := stats0;
        return Abort(MemberExists);
      }
      team := team[memberName.value := Member(memberName, memberCredit)];
      r := Ok;
    }
  }

  /** Adding the same token twice, as a redeployment during testing would:
      the second call finds nothing under the symbol code, tries to insert
      under the contract's name again, and aborts. */
  method AddTokenTwiceAborts() returns (first: Outcome<Error>, second: Outcome<Error>)
    ensures first == Ok && second == Abort(DuplicatePrimaryKey)
  {
    var v := new Vault();
    var contract, curr := Name(1), Symbol(SymbolCode(2), 4);
    first := v.AddToken(contract, curr, 10, 20);
    second := v.AddToken(contract, curr, 30, 40);
  }

  /** With the lookup under the primary key, the second call overwrites the
      listing, and members can then be added against it. */
  method AddTokenKeyedTwiceUpdates() returns (listing: Listing, added: Outcome<Error>)
    ensures listing == Listing(Name(1), Symbol(SymbolCode(2), 4), 30, 40, 0)
    ensures added == Ok
  {
    var v := new Vault();
    var contract, curr := Name(1), Symbol(SymbolCode(2), 4);
    v.AddTokenKeyed(contract, curr, 10, 20);
    v.AddTokenKeyed(contract, curr, 30, 40);
    listing := v.stats[contract.value];
    added := v.AddMember(Name(5), contract, Asset(100, curr));
  }
}
