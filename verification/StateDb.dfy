/**
 Accounts, the state an execution returns, and committing it to the database.

 A helper or an execution returns the accounts it read or wrote; the flags on each account decide
 what committing does with it (`crates/mega-evm/src/system/mod.rs`, `system/deploy.rs`). Code is
 identified by its hash, and a hash by the program it belongs to.
 */
module StateDb {
  import opened Common

  type Word = nat

  /** Flat Solidity slots, and the elements of the dynamic arrays declared at flat slots. */
  datatype Slot = Flat(index: nat) | Element(array: nat, position: nat)

  datatype Code = NoCode | RegistryV1 | RegistryV2 | OtherCode(id: nat)

  datatype Info = Info(balance: Word, nonce: nat, code: Code)

  const NO_INFO := Info(0, 0, NoCode)

  datatype SlotValue = SlotValue(original: Word, present: Word)

  /** One account of a returned state. */
  datatype Account = Account(
    info: Info, storage: map<Slot, SlotValue>, touched: bool, created: bool, destroyed: bool)

  type EvmState = map<Address, Account>

  datatype Stored = Stored(info: Info, storage: map<Slot, Word>)

  type Database = map<Address, Stored>

  function Lookup(db: Database, a: Address): Option<Stored> {
    if a in db then Some(db[a]) else None
  }

  /** A slot that was never written holds zero. */
  function ReadSlot(storage: map<Slot, Word>, s: Slot): Word {
    if s in storage then storage[s] else 0
  }

  function InfoOf(db: Database, a: Address): Info {
    if a in db then db[a].info else NO_INFO
  }

  function StorageOf(db: Database, a: Address): map<Slot, Word> {
    if a in db then db[a].storage else map[]
  }

  /** The slots whose value the execution changed. */
  function Changed(storage: map<Slot, SlotValue>): map<Slot, Word> {
    map s | s in storage && storage[s].original != storage[s].present :: storage[s].present
  }

  /** A read-only record: it is seen by the state hook but changes nothing. */
  function ReadOnly(info: Info, storage: map<Slot, SlotValue>): Account {
    Account(info, storage, false, false, false)
  }

  /** What committing one account leaves in the database; state clearing is always on. */
  function CommitAccount(before: Option<Stored>, acc: Account): Option<Stored> {
    if !acc.touched then before
    else if acc.destroyed then None
    else if acc.created then Some(Stored(acc.info, Changed(acc.storage)))
    else if acc.info == NO_INFO then None
    else
      var kept := if before.Some? then before.value.storage else map[];
      Some(Stored(acc.info, kept + Changed(acc.storage)))
  }

  function After(db: Database, st: EvmState, a: Address): Option<Stored> {
    if a in st then CommitAccount(Lookup(db, a), st[a]) else Lookup(db, a)
  }

  function Commit(db: Database, st: EvmState): Database {
    map a | a in db.Keys + st.Keys && After(db, st, a).Some? :: After(db, st, a).value
  }

  /** Committing decides every account on its own. */
  lemma CommitPointwise(db: Database, st: EvmState, a: Address)
    ensures Lookup(Commit(db, st), a) == After(db, st, a)
  {
  }

  /**
   What a commit leaves of a touched account, read back: a destroyed or emptied account is gone, a created
   one holds only what was written, any other holds what was written over what it held. An account that was
   not touched is as before.
   */
  lemma CommitReads(db: Database, st: EvmState, a: Address, s: Slot)
    ensures var after := Commit(db, st);
            if a !in st || !st[a].touched then Lookup(after, a) == Lookup(db, a)
            else if st[a].destroyed || (st[a].info == NO_INFO && !st[a].created) then a !in after
            else
              && a in after && after[a].info == st[a].info
              && ReadSlot(after[a].storage, s) ==
                 if s in st[a].storage && st[a].storage[s].original != st[a].storage[s].present
                 then st[a].storage[s].present
                 else if st[a].created then 0 else ReadSlot(StorageOf(db, a), s)
  {
    CommitPointwise(db, st, a);
  }

  /** Two databases with the same accounts are the same database. */
  lemma SameDatabase(d: Database, e: Database)
    requires forall a :: Lookup(d, a) == Lookup(e, a)
    ensures d == e
  {
    forall a ensures a in d <==> a in e {
      assert Lookup(d, a) == Lookup(e, a);
    }
    forall a | a in d ensures d[a] == e[a] {
      assert Lookup(d, a) == Lookup(e, a);
    }
  }

  predicate IsWitness(st: EvmState) {
    forall a :: a in st ==> !st[a].touched
  }

  /** Witness records change nothing. */
  lemma WitnessChangesNothing(db: Database, st: EvmState)
    requires IsWitness(st)
    ensures Commit(db, st) == db
  {
    forall a ensures Lookup(Commit(db, st), a) == Lookup(db, a) {
      CommitPointwise(db, st, a);
    }
    SameDatabase(Commit(db, st), db);
  }

  /** Committing several states in order. */
  function CommitAll(db: Database, sts: seq<EvmState>): Database {
    if sts == [] then db else Commit(CommitAll(db, sts[..|sts| - 1]), sts[|sts| - 1])
  }

  lemma CommitAllAppend(db: Database, sts: seq<EvmState>, st: EvmState)
    ensures CommitAll(db, sts + [st]) == Commit(CommitAll(db, sts), st)
  {
    assert (sts + [st])[..|sts|] == sts;
  }

  lemma {:induction false} CommitAllConcat(db: Database, ss: seq<EvmState>, ts: seq<EvmState>)
    ensures CommitAll(db, ss + ts) == CommitAll(CommitAll(db, ss), ts)
  {
    if ts == [] {
      assert ss + ts == ss;
    } else {
      var n := |ts| - 1;
      assert ss + ts == (ss + ts[..n]) + [ts[n]];
      CommitAllAppend(db, ss + ts[..n], ts[n]);
      CommitAllConcat(db, ss, ts[..n]);
    }
  }

  /** States that do not mention an account leave it alone, whatever they do to others. */
  lemma {:induction false} CommitAllUntouched(db: Database, sts: seq<EvmState>, a: Address)
    requires forall i :: 0 <= i < |sts| ==> a !in sts[i]
    ensures Lookup(CommitAll(db, sts), a) == Lookup(db, a)
  {
    if sts != [] {
      var n := |sts| - 1;
      CommitAllUntouched(db, sts[..n], a);
      CommitPointwise(CommitAll(db, sts[..n]), sts[n], a);
    }
  }

  /** What committing leaves of an account depends on what there was of it before. */
  lemma {:induction false} CommitAllAt(d: Database, e: Database, sts: seq<EvmState>, a: Address)
    requires Lookup(d, a) == Lookup(e, a)
    ensures Lookup(CommitAll(d, sts), a) == Lookup(CommitAll(e, sts), a)
  {
    if sts != [] {
      var n := |sts| - 1;
      CommitAllAt(d, e, sts[..n], a);
      CommitPointwise(CommitAll(d, sts[..n]), sts[n], a);
      CommitPointwise(CommitAll(e, sts[..n]), sts[n], a);
    }
  }
}
