/**
 Post-block balance increments (`crates/mega-evm/src/block/eips.rs`).

 The increments are not made in place: a state is built from the untouched database and committed
 afterwards. The increments come from a map, but the loop itself accepts any list of pairs, so the
 model does too.
 */
module BalanceIncrements {
  import opened Common
  import opened StateDb

  const U256_MODULUS: int := 0x1_0000000000000000_0000000000000000_0000000000000000_0000000000000000

  type Increments = seq<(Address, nat)>

  function Wrap(balance: nat): Word {
    balance % U256_MODULUS
  }

  /** The touched account holding the database's info with the balance raised. */
  function Raised(db: Database, a: Address, amount: nat): Account {
    var info := InfoOf(db, a);
    Account(info.(balance := Wrap(info.balance + amount)), map[], true, false, false)
  }

  /** The new balance is the 256-bit sum: it is in range and differs from the full sum by multiples of 2^256. */
  lemma RaisedModulo(db: Database, a: Address, amount: nat)
    ensures var r := Raised(db, a, amount).info.balance;
            && 0 <= r < 0x1_0000000000000000_0000000000000000_0000000000000000_0000000000000000
            && exists q: nat :: r + q * U256_MODULUS == InfoOf(db, a).balance + amount
    ensures Raised(db, a, amount).info == InfoOf(db, a).(balance := Raised(db, a, amount).info.balance)
  {
    var full := InfoOf(db, a).balance + amount;
    assert Wrap(full) + (full / U256_MODULUS) * U256_MODULUS == full;
  }

  /** The increment that decides an address: the last nonzero one in the list. */
  function LastFor(incs: Increments, a: Address): nat {
    if incs == [] then 0
    else
      var last := incs[|incs| - 1];
      if last.0 == a && last.1 != 0 then last.1 else LastFor(incs[..|incs| - 1], a)
  }

  function SumFor(incs: Increments, a: Address): nat {
    if incs == [] then 0
    else
      var last := incs[|incs| - 1];
      SumFor(incs[..|incs| - 1], a) + (if last.0 == a then last.1 else 0)
  }

  /** First phase: build the state; nothing is written to the database. */
  method TransactBalanceIncrements(incs: Increments, db: Database) returns (st: EvmState)
    ensures forall a :: a in st <==> LastFor(incs, a) != 0
    ensures forall a :: a in st ==> st[a] == Raised(db, a, LastFor(incs, a))
  {
    st := map[];
    for i := 0 to |incs|
      invariant forall a :: a in st <==> LastFor(incs[..i], a) != 0
      invariant forall a :: a in st ==> st[a] == Raised(db, a, LastFor(incs[..i], a))
    {
      assert incs[..i + 1][..i] == incs[..i];
      var (address, amount) := incs[i];
      if amount == 0 {
        continue;
      }
      st := st[address := Raised(db, address, amount)];
    }
    assert incs[..|incs|] == incs;
  }

  /** The state the first phase builds, as a function. */
  ghost function Delta(incs: Increments, db: Database): (st: EvmState)
    ensures forall a :: a in st <==> LastFor(incs, a) != 0
    ensures forall a :: a in st ==> st[a] == Raised(db, a, LastFor(incs, a))
  {
    if incs == [] then map[]
    else
      var (b, n) := incs[|incs| - 1];
      var front := Delta(incs[..|incs| - 1], db);
      if n == 0 then front else front[b := Raised(db, b, n)]
  }

  /** The reference: increment in place, one after the other, skipping zeros. */
  function Direct(db: Database, incs: Increments): Database {
    if incs == [] then db
    else
      var (a, n) := incs[|incs| - 1];
      var front := Direct(db, incs[..|incs| - 1]);
      if n == 0 then front else front[a := Stored(Raised(front, a, n).info, StorageOf(front, a))]
  }

  /** No balance leaves the 256-bit range. */
  ghost predicate NoOverflow(db: Database, incs: Increments) {
    forall a :: InfoOf(db, a).balance + SumFor(incs, a) < U256_MODULUS
  }

  lemma {:induction false} NoOverflowFront(db: Database, incs: Increments)
    requires incs != [] && NoOverflow(db, incs)
    ensures NoOverflow(db, incs[..|incs| - 1])
  {
    forall b ensures InfoOf(db, b).balance + SumFor(incs[..|incs| - 1], b) < U256_MODULUS {
      assert SumFor(incs[..|incs| - 1], b) <= SumFor(incs, b);
      assert InfoOf(db, b).balance + SumFor(incs, b) < U256_MODULUS;
    }
  }

  /** Raising one balance, in place or through a committed account, when nothing overflows. */
  lemma {:induction false} RaiseOne(db: Database, a: Address, n: nat)
    requires n != 0 && InfoOf(db, a).balance + n < U256_MODULUS
    ensures Raised(db, a, n).info == InfoOf(db, a).(balance := InfoOf(db, a).balance + n)
    ensures CommitAccount(Lookup(db, a), Raised(db, a, n)) == Some(Stored(Raised(db, a, n).info, StorageOf(db, a)))
  {
    assert Wrap(InfoOf(db, a).balance + n) == InfoOf(db, a).balance + n;
    assert Changed(Raised(db, a, n).storage) == map[];
    assert StorageOf(db, a) + map[] == StorageOf(db, a);
  }

  /** The account with its balance raised; an increment of zero does not create it. */
  function Credited(db: Database, a: Address, n: nat): Option<Stored> {
    if n == 0 then Lookup(db, a)
    else Some(Stored(InfoOf(db, a).(balance := InfoOf(db, a).balance + n), StorageOf(db, a)))
  }

  lemma CreditedInjective(db: Database, a: Address, m: nat, n: nat)
    ensures Credited(db, a, m) == Credited(db, a, n) <==> m == n
  {
  }

  /** Incrementing in place adds each address's total and nothing else. */
  lemma {:induction false} DirectMeaning(db: Database, incs: Increments, a: Address)
    requires NoOverflow(db, incs)
    ensures Lookup(Direct(db, incs), a) ==
            Credited(db, a, SumFor(incs, a))
    decreases |incs|
  {
    if incs != [] {
      var front := incs[..|incs| - 1];
      NoOverflowFront(db, incs);
      DirectMeaning(db, front, a);
      var (b, n) := incs[|incs| - 1];
      var d := Direct(db, front);
      assert InfoOf(d, a).balance == InfoOf(db, a).balance + SumFor(front, a);
      assert InfoOf(db, a).balance + SumFor(incs, a) < U256_MODULUS;
      if n != 0 && a == b {
        RaiseOne(d, a, n);
      }
    }
  }

  lemma {:induction false} LastAtMostSum(incs: Increments, a: Address)
    ensures LastFor(incs, a) <= SumFor(incs, a)
    ensures LastFor(incs, a) == 0 <==> SumFor(incs, a) == 0
  {
    if incs != [] {
      LastAtMostSum(incs[..|incs| - 1], a);
    }
  }

  /** Committing the delta adds each address's last increment and nothing else. */
  lemma {:induction false} TwoPhaseMeaning(db: Database, incs: Increments, a: Address)
    requires NoOverflow(db, incs)
    ensures Lookup(Commit(db, Delta(incs, db)), a) ==
            Credited(db, a, LastFor(incs, a))
  {
    LastAtMostSum(incs, a);
    assert InfoOf(db, a).balance + SumFor(incs, a) < U256_MODULUS;
    CommitRaised(db, Delta(incs, db), a, LastFor(incs, a));
  }

  /** Committing a state that raises one account, or leaves it out. */
  lemma {:induction false} CommitRaised(db: Database, st: EvmState, a: Address, n: nat)
    requires InfoOf(db, a).balance + n < U256_MODULUS
    requires (a in st <==> n != 0) && (a in st ==> st[a] == Raised(db, a, n))
    ensures Lookup(Commit(db, st), a) == Credited(db, a, n)
  {
    CommitPointwise(db, st, a);
    if n != 0 {
      RaiseOne(db, a, n);
    }
  }

  /** No address carries two nonzero increments. */
  ghost predicate NoRepeats(incs: Increments) {
    forall i, j :: 0 <= i < j < |incs| && incs[i].0 == incs[j].0 ==> incs[i].1 == 0 || incs[j].1 == 0
  }

  lemma {:induction false} SumZero(incs: Increments, a: Address)
    ensures SumFor(incs, a) == 0 <==> forall i :: 0 <= i < |incs| && incs[i].0 == a ==> incs[i].1 == 0
  {
    if incs != [] {
      var front := incs[..|incs| - 1];
      SumZero(front, a);
      assert forall i :: 0 <= i < |front| ==> front[i] == incs[i];
    }
  }

  /** The last nonzero increment of an address is its sum exactly when there is at most one. */
  lemma {:induction false} LastIsSum(incs: Increments, a: Address)
    ensures LastFor(incs, a) == SumFor(incs, a) <==>
            forall i, j :: 0 <= i < j < |incs| && incs[i].0 == a && incs[j].0 == a ==> incs[i].1 == 0 || incs[j].1 == 0
  {
    if incs != [] {
      var n := |incs| - 1;
      var front := incs[..n];
      LastIsSum(front, a);
      SumZero(front, a);
      LastAtMostSum(front, a);
      assert forall i :: 0 <= i < n ==> front[i] == incs[i];
      if incs[n].0 == a && incs[n].1 != 0 && SumFor(front, a) != 0 {
        var i :| 0 <= i < n && front[i].0 == a && front[i].1 != 0;
        assert incs[i].0 == a && incs[n].0 == a && incs[i].1 != 0 && incs[n].1 != 0;
      }
    }
  }

  /**
   Both ways give the same database exactly when no address carries two nonzero increments; a list
   that repeats one loses all but the last.
   */
  lemma {:induction false} TwoPhaseEqualsDirect(db: Database, incs: Increments)
    requires NoOverflow(db, incs)
    ensures Commit(db, Delta(incs, db)) == Direct(db, incs) <==> NoRepeats(incs)
  {
    if NoRepeats(incs) {
      forall a ensures Lookup(Commit(db, Delta(incs, db)), a) == Lookup(Direct(db, incs), a) {
        LastIsSum(incs, a);
        SameAt(db, incs, a);
      }
      SameDatabase(Commit(db, Delta(incs, db)), Direct(db, incs));
    } else {
      var i, j :| 0 <= i < j < |incs| && incs[i].0 == incs[j].0 && incs[i].1 != 0 && incs[j].1 != 0;
      LastIsSum(incs, incs[i].0);
      SameAt(db, incs, incs[i].0);
    }
  }

  lemma {:induction false} SameAt(db: Database, incs: Increments, a: Address)
    requires NoOverflow(db, incs)
    ensures Lookup(Commit(db, Delta(incs, db)), a) == Lookup(Direct(db, incs), a) <==>
            LastFor(incs, a) == SumFor(incs, a)
  {
    TwoPhaseMeaning(db, incs, a);
    DirectMeaning(db, incs, a);
    CreditedInjective(db, a, LastFor(incs, a), SumFor(incs, a));
  }

  // ---------------------------------------------------------------------------------------------
  // Conservation
  // ---------------------------------------------------------------------------------------------

  /** The sum of all balances. */
  ghost function Total(db: Database): nat {
    if db == map[] then 0
    else
      var a :| a in db;
      db[a].info.balance + Total(db - {a})
  }

  /** The total does not depend on the order of summation. */
  lemma {:induction false} TotalAt(db: Database, a: Address)
    requires a in db
    ensures Total(db) == db[a].info.balance + Total(db - {a})
    decreases |db|
  {
    var b :| b in db && Total(db) == db[b].info.balance + Total(db - {b});
    if a != b {
      TotalAt(db - {b}, a);
      TotalAt(db - {a}, b);
      assert db - {b} - {a} == db - {a} - {b};
    }
  }

  lemma {:induction false} TotalUpdate(db: Database, a: Address, s: Stored)
    ensures Total(db[a := s]) == Total(db) - InfoOf(db, a).balance + s.info.balance
  {
    TotalAt(db[a := s], a);
    assert db[a := s] - {a} == db - {a};
    if a in db {
      TotalAt(db, a);
    } else {
      assert db - {a} == db;
    }
  }

  function SumOf(incs: Increments): nat {
    if incs == [] then 0 else SumOf(incs[..|incs| - 1]) + incs[|incs| - 1].1
  }

  lemma {:induction false} RaiseConserves(db: Database, a: Address, n: nat)
    requires InfoOf(db, a).balance + n < U256_MODULUS
    ensures Total(db[a := Stored(Raised(db, a, n).info, StorageOf(db, a))]) == Total(db) + n
  {
    assert Wrap(InfoOf(db, a).balance + n) == InfoOf(db, a).balance + n;
    TotalUpdate(db, a, Stored(Raised(db, a, n).info, StorageOf(db, a)));
  }

  lemma {:induction false} DirectConserves(db: Database, incs: Increments)
    requires NoOverflow(db, incs)
    ensures Total(Direct(db, incs)) == Total(db) + SumOf(incs)
  {
    if incs != [] {
      var front := incs[..|incs| - 1];
      var (a, n) := incs[|incs| - 1];
      NoOverflowFront(db, incs);
      DirectConserves(db, front);
      assert InfoOf(Direct(db, front), a).balance + n < U256_MODULUS by {
        DirectMeaning(db, front, a);
        assert InfoOf(db, a).balance + SumFor(incs, a) < U256_MODULUS;
      }
      RaiseConserves(Direct(db, front), a, n);
    }
  }

  lemma {:induction false} TotalMonotone(d: Database, e: Database)
    requires forall a :: a in d ==> d[a].info.balance <= InfoOf(e, a).balance
    ensures Total(d) <= Total(e)
    decreases |d|
  {
    if d != map[] {
      var a :| a in d;
      TotalAt(d, a);
      if a in e {
        TotalAt(e, a);
        TotalMonotone(d - {a}, e - {a});
      } else {
        TotalMonotone(d - {a}, e);
      }
    }
  }

  lemma {:induction false} TotalStrict(d: Database, e: Database, b: Address)
    requires forall a :: InfoOf(d, a).balance <= InfoOf(e, a).balance
    requires InfoOf(d, b).balance < InfoOf(e, b).balance
    ensures Total(d) < Total(e)
  {
    TotalAt(e, b);
    if b in d {
      TotalAt(d, b);
    } else {
      assert d - {b} == d;
    }
    forall a | a in d - {b} ensures (d - {b})[a].info.balance <= InfoOf(e - {b}, a).balance {
      assert InfoOf(d, a).balance <= InfoOf(e, a).balance;
    }
    TotalMonotone(d - {b}, e - {b});
  }

  lemma {:induction false} TwoPhaseBelowDirect(db: Database, incs: Increments, a: Address)
    requires NoOverflow(db, incs)
    ensures InfoOf(Commit(db, Delta(incs, db)), a).balance <= InfoOf(Direct(db, incs), a).balance
    ensures LastFor(incs, a) != SumFor(incs, a) ==>
              InfoOf(Commit(db, Delta(incs, db)), a).balance < InfoOf(Direct(db, incs), a).balance
  {
    TwoPhaseMeaning(db, incs, a);
    DirectMeaning(db, incs, a);
    LastAtMostSum(incs, a);
    BalanceOfLookup(Commit(db, Delta(incs, db)), db, a, LastFor(incs, a));
    BalanceOfLookup(Direct(db, incs), db, a, SumFor(incs, a));
  }

  lemma BalanceOfLookup(d: Database, db: Database, a: Address, n: nat)
    requires Lookup(d, a) == Credited(db, a, n)
    ensures InfoOf(d, a).balance == InfoOf(db, a).balance + n
  {
  }

  /**
   Committing the delta raises the total by exactly the sum of the increments if and only if no
   address carries two nonzero ones; otherwise balance is lost.
   */
  lemma {:induction false} TwoPhaseConserves(db: Database, incs: Increments)
    requires NoOverflow(db, incs)
    ensures Total(Commit(db, Delta(incs, db))) <= Total(db) + SumOf(incs)
    ensures Total(Commit(db, Delta(incs, db))) == Total(db) + SumOf(incs) <==> NoRepeats(incs)
  {
    var two, direct := Commit(db, Delta(incs, db)), Direct(db, incs);
    TwoPhaseEqualsDirect(db, incs);
    DirectConserves(db, incs);
    if !NoRepeats(incs) {
      var i, j :| 0 <= i < j < |incs| && incs[i].0 == incs[j].0 && incs[i].1 != 0 && incs[j].1 != 0;
      LastIsSum(incs, incs[i].0);
      LostBalance(db, incs, incs[i].0, two, direct);
    }
  }

  lemma {:induction false} LostBalance(db: Database, incs: Increments, b: Address, two: Database, direct: Database)
    requires NoOverflow(db, incs) && LastFor(incs, b) != SumFor(incs, b)
    requires two == Commit(db, Delta(incs, db)) && direct == Direct(db, incs)
    ensures Total(two) < Total(direct)
  {
    forall a ensures InfoOf(two, a).balance <= InfoOf(direct, a).balance {
      TwoPhaseBelowDirect(db, incs, a);
    }
    TwoPhaseBelowDirect(db, incs, b);
    TotalStrict(two, direct, b);
  }
}
