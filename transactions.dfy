/** Sequences of transactions against the ledger: the timelock's two
    instructions interleaved with anything a key holder can do directly through
    the token program.  Each transaction commits whole or not at all.  The
    lemmas here state what holds over every such history. */
module Transactions {
  import opened Wrappers
  import opened BoundedInts
  import opened Accounts
  import opened TokenProgram
  import opened Timelock

  datatype Instruction =
    | LockIx(lockAccounts: LockAccounts, bump: uint8, lockDuration: int64)
    | UnlockIx(unlockAccounts: UnlockAccounts)
    | TransferIx(source: Pubkey, destination: Pubkey, authority: Pubkey, amount: uint64)
    | SetOwnerIx(account: Pubkey, currentAuthority: Pubkey, newOwner: Pubkey)

  /** One transaction: an instruction, the cluster time it runs at, and the
      keys that signed it. */
  datatype Transaction = Transaction(instruction: Instruction, now: int64, signers: set<Pubkey>)

  function Execute(rev: Revision, c: Chain, tx: Transaction): Result<Chain, Error>
  {
    match tx.instruction
    case LockIx(a, bump, lockDuration) => LockStep(rev, c, a, bump, lockDuration, tx.now, tx.signers)
    case UnlockIx(a) => UnlockStep(rev, c, a, tx.now)
    case TransferIx(source, destination, authority, amount) =>
      (match Transfer(c.tokens, source, destination, authority, amount, tx.signers)
       case Err(e) => Err(e)
       case Ok(tokens) => Ok(c.(tokens := tokens)))
    case SetOwnerIx(account, currentAuthority, newOwner) =>
      match SetOwner(c.tokens, account, currentAuthority, newOwner, tx.signers)
      case Err(e) => Err(e)
      case Ok(tokens) => Ok(c.(tokens := tokens))
  }

  /** A failed transaction is rolled back. */
  function Apply(rev: Revision, c: Chain, tx: Transaction): Chain
  {
    match Execute(rev, c, tx)
    case Ok(next) => next
    case Err(_) => c
  }

  function Run(rev: Revision, c: Chain, txs: seq<Transaction>): Chain
    decreases |txs|
  {
    if txs == [] then c else Run(rev, Apply(rev, c, txs[0]), txs[1..])
  }

  /** Every transaction in the history is signed by key holders only. */
  predicate SignedByKeys(txs: seq<Transaction>)
  {
    forall i :: 0 <= i < |txs| ==> KeySigners(txs[i].signers)
  }

  predicate LocksAt(tx: Transaction, addr: Pubkey)
  {
    tx.instruction.LockIx? && tx.instruction.lockAccounts.timelock == addr
  }

  /** `tx`, executed in state `c`, is an unlock the program accepts that
      releases the tokens of `account`: it names the account as the custody
      account and goes through the timelock that owns it, while that timelock
      is live, at or after its unlock time, into the token account its record
      names; and it closes the record. */
  predicate Releases(rev: Revision, c: Chain, tx: Transaction, account: Pubkey)
  {
    && tx.instruction.UnlockIx?
    && account in c.tokens
    && var a := tx.instruction.unlockAccounts;
       && a.timelockedTokens == account
       && UnlockStep(rev, c, a, tx.now).Ok?
       && a.timelock == c.tokens[account].owner
       && a.timelock in c.timelocks
       && tx.now >= c.timelocks[a.timelock].unlockTimestamp
       && a.receiverTokens == c.timelocks[a.timelock].receiverTokenAccount
       && a.timelock !in UnlockStep(rev, c, a, tx.now).value.timelocks
  }

  /** The `i`-th transaction of the history releases the tokens of `account`,
      in the state the earlier transactions left. */
  predicate ReleasedAt(rev: Revision, c: Chain, txs: seq<Transaction>, i: nat, account: Pubkey)
    requires i < |txs|
  {
    Releases(rev, Run(rev, c, txs[..i]), txs[i], account)
  }

  /** The state before the `(i+1)`-th transaction of a history is the state
      before the `i`-th transaction of its tail, run from the first step's result. */
  lemma RunPrefixShift(rev: Revision, c: Chain, txs: seq<Transaction>, i: nat)
    requires 0 < i <= |txs|
    ensures Run(rev, c, txs[..i]) == Run(rev, Apply(rev, c, txs[0]), txs[1..][..i - 1])
  {
    assert txs[..i][1..] == txs[1..][..i - 1];
  }

  // ---------------------------------------------------------------------------
  // Invariants of every history

  /** One transaction keeps every timelock at the address derived from it, with
      the canonical bump. */
  lemma ApplyKeepsConsistent(rev: Revision, c: Chain, tx: Transaction)
    requires Consistent(c.timelocks)
    ensures Consistent(Apply(rev, c, tx).timelocks)
  {
  }

  lemma {:induction false} RunKeepsConsistent(rev: Revision, c: Chain, txs: seq<Transaction>)
    requires Consistent(c.timelocks)
    ensures Consistent(Run(rev, c, txs).timelocks)
    decreases |txs|
  {
    if txs != [] {
      ApplyKeepsConsistent(rev, c, txs[0]);
      RunKeepsConsistent(rev, Apply(rev, c, txs[0]), txs[1..]);
    }
  }

  /** No history creates or destroys a token account, nor a token. */
  lemma {:induction false} RunConservesSupply(rev: Revision, c: Chain, txs: seq<Transaction>)
    ensures Run(rev, c, txs).tokens.Keys == c.tokens.Keys
    ensures Supply(Run(rev, c, txs).tokens) == Supply(c.tokens)
    decreases |txs|
  {
    if txs != [] {
      RunConservesSupply(rev, Apply(rev, c, txs[0]), txs[1..]);
    }
  }

  /** A record is never rewritten: while an address holds a timelock, every
      transaction leaves the record as it was, or closes it. */
  lemma ApplyNeverRewritesRecord(rev: Revision, c: Chain, tx: Transaction, addr: Pubkey)
    requires addr in c.timelocks
    ensures addr in Apply(rev, c, tx).timelocks ==> Apply(rev, c, tx).timelocks[addr] == c.timelocks[addr]
  {
  }

  /** A record disappears only through an unlock of that address that released
      the whole custody balance to the receiver it names. */
  lemma ApplyClosesOnlyByRelease(rev: Revision, c: Chain, tx: Transaction, addr: Pubkey)
    requires addr in c.timelocks && addr !in Apply(rev, c, tx).timelocks
    ensures tx.instruction.UnlockIx? && tx.instruction.unlockAccounts.timelock == addr
    ensures var a := tx.instruction.unlockAccounts;
            && UnlockStep(rev, c, a, tx.now).Ok?
            && tx.now >= c.timelocks[addr].unlockTimestamp
            && a.receiverTokens == c.timelocks[addr].receiverTokenAccount
            && (a.timelockedTokens != a.receiverTokens ==>
                  Apply(rev, c, tx).tokens[a.timelockedTokens].amount == 0)
  {
  }

  // ---------------------------------------------------------------------------
  // Custody

  /** In one transaction signed by key holders, an account owned by a derived
      address keeps its owner, and it loses tokens only when the transaction
      is an accepted, on-time unlock through the timelock that owns it. */
  lemma ApplyKeepsCustody(rev: Revision, c: Chain, tx: Transaction, account: Pubkey)
    requires account in c.tokens && c.tokens[account].owner.Derived?
    requires KeySigners(tx.signers)
    ensures account in Apply(rev, c, tx).tokens
    ensures Apply(rev, c, tx).tokens[account].owner == c.tokens[account].owner
    ensures || Apply(rev, c, tx).tokens[account].amount >= c.tokens[account].amount
            || Releases(rev, c, tx, account)
  {
  }

  /** Over any history signed by key holders, an account owned by a derived
      address keeps its owner, and its balance falls only if some transaction
      of the history released it. */
  lemma {:induction false} RunKeepsCustody(rev: Revision, c: Chain, txs: seq<Transaction>, account: Pubkey)
    requires account in c.tokens && c.tokens[account].owner.Derived?
    requires SignedByKeys(txs)
    ensures account in Run(rev, c, txs).tokens
    ensures Run(rev, c, txs).tokens[account].owner == c.tokens[account].owner
    ensures || Run(rev, c, txs).tokens[account].amount >= c.tokens[account].amount
            || exists i :: 0 <= i < |txs| && ReleasedAt(rev, c, txs, i, account)
    decreases |txs|
  {
    if txs != [] {
      var c1 := Apply(rev, c, txs[0]);
      ApplyKeepsCustody(rev, c, txs[0], account);
      RunKeepsCustody(rev, c1, txs[1..], account);
      if Releases(rev, c, txs[0], account) {
        assert txs[..0] == [];
        assert ReleasedAt(rev, c, txs, 0, account);
      } else if j :| 0 <= j < |txs[1..]| && ReleasedAt(rev, c1, txs[1..], j, account) {
        RunPrefixShift(rev, c, txs, j + 1);
        assert ReleasedAt(rev, c, txs, j + 1, account);
      }
    }
  }

  /** After a lock, whatever key holders do, the initializer included, the
      locked tokens stay owned by the timelock's address, and their balance
      falls below the locked amount only through an accepted unlock: one that
      names them and goes through the owning timelock at or after its unlock
      time. */
  lemma LockedTokensStayInCustody(rev: Revision, c: Chain, lock: Transaction, txs: seq<Transaction>)
    requires lock.instruction.LockIx? && Execute(rev, c, lock).Ok?
    requires SignedByKeys(txs)
    ensures var a := lock.instruction.lockAccounts;
            var after := Run(rev, Apply(rev, c, lock), txs);
            && a.tokensToLock in after.tokens
            && after.tokens[a.tokensToLock].owner == a.timelock
            && (|| after.tokens[a.tokensToLock].amount >= c.tokens[a.tokensToLock].amount
                || exists i :: 0 <= i < |txs| && ReleasedAt(rev, Apply(rev, c, lock), txs, i, a.tokensToLock))
  {
    var a := lock.instruction.lockAccounts;
    RunKeepsCustody(rev, Apply(rev, c, lock), txs, a.tokensToLock);
  }

  // ---------------------------------------------------------------------------
  // Where the locked tokens go, with the custody account bound to the record

  /** With the fix, every live record's custody account exists and is owned by
      the record's address. */
  predicate CustodyRecorded(c: Chain)
  {
    forall addr <- c.timelocks ::
      && c.timelocks[addr].tempTokenAccount in c.tokens
      && c.tokens[c.timelocks[addr].tempTokenAccount].owner == addr
  }

  /** Every live record whose custody account is `account` releases into
      `receiverTokens`. */
  predicate BoundTo(timelocks: map<Pubkey, Timelock>, account: Pubkey, receiverTokens: Pubkey)
  {
    forall addr <- timelocks ::
      timelocks[addr].tempTokenAccount == account ==> timelocks[addr].receiverTokenAccount == receiverTokens
  }

  lemma ApplyKeepsCustodyRecorded(c: Chain, tx: Transaction)
    requires Consistent(c.timelocks) && CustodyRecorded(c)
    requires KeySigners(tx.signers)
    ensures CustodyRecorded(Apply(CustodyBound, c, tx))
  {
  }

  lemma {:induction false} RunKeepsCustodyRecorded(c: Chain, txs: seq<Transaction>)
    requires Consistent(c.timelocks) && CustodyRecorded(c)
    requires SignedByKeys(txs)
    ensures CustodyRecorded(Run(CustodyBound, c, txs))
    decreases |txs|
  {
    if txs != [] {
      ApplyKeepsCustodyRecorded(c, txs[0]);
      ApplyKeepsConsistent(CustodyBound, c, txs[0]);
      RunKeepsCustodyRecorded(Apply(CustodyBound, c, txs[0]), txs[1..]);
    }
  }

  /** No key-signed transaction binds a derived-owned account to a new receiver:
      a lock needs the custody account's owner to sign. */
  lemma ApplyKeepsBound(c: Chain, tx: Transaction, account: Pubkey, receiverTokens: Pubkey)
    requires account in c.tokens && c.tokens[account].owner.Derived?
    requires KeySigners(tx.signers)
    requires BoundTo(c.timelocks, account, receiverTokens)
    ensures BoundTo(Apply(CustodyBound, c, tx).timelocks, account, receiverTokens)
  {
  }

  /** With the fix, every release from a custody account bound to
      `receiverTokens`, anywhere in a key-signed history, pays `receiverTokens`. */
  lemma {:induction false} ReleasesPayBoundReceiver(c: Chain, txs: seq<Transaction>, account: Pubkey,
                                                    receiverTokens: Pubkey)
    requires account in c.tokens && c.tokens[account].owner.Derived?
    requires SignedByKeys(txs)
    requires BoundTo(c.timelocks, account, receiverTokens)
    ensures forall i :: 0 <= i < |txs| && ReleasedAt(CustodyBound, c, txs, i, account) ==>
              txs[i].instruction.unlockAccounts.receiverTokens == receiverTokens
    decreases |txs|
  {
    if txs != [] {
      var c1 := Apply(CustodyBound, c, txs[0]);
      ApplyKeepsCustody(CustodyBound, c, txs[0], account);
      ApplyKeepsBound(c, txs[0], account, receiverTokens);
      ReleasesPayBoundReceiver(c1, txs[1..], account, receiverTokens);
      forall i | 0 <= i < |txs| && ReleasedAt(CustodyBound, c, txs, i, account)
        ensures txs[i].instruction.unlockAccounts.receiverTokens == receiverTokens
      {
        if i == 0 {
          assert txs[..0] == [];
        } else {
          RunPrefixShift(CustodyBound, c, txs, i);
          assert ReleasedAt(CustodyBound, c1, txs[1..], i - 1, account);
        }
      }
    }
  }

  /** With the fix, the locked tokens reach no account but the receiver token
      account named at lock time: every release from the custody account, in
      any key-signed history after the lock, pays that account, and by
      `LockedTokensStayInCustody` nothing else takes tokens out. */
  lemma LockedTokensReachOnlyReceiver(c: Chain, lock: Transaction, txs: seq<Transaction>)
    requires Consistent(c.timelocks) && CustodyRecorded(c)
    requires lock.instruction.LockIx? && KeySigners(lock.signers) && Execute(CustodyBound, c, lock).Ok?
    requires SignedByKeys(txs)
    ensures var a := lock.instruction.lockAccounts;
            forall i :: 0 <= i < |txs| && ReleasedAt(CustodyBound, Apply(CustodyBound, c, lock), txs, i, a.tokensToLock) ==>
              txs[i].instruction.unlockAccounts.receiverTokens == a.receiverTokens
  {
    var a := lock.instruction.lockAccounts;
    var c1 := Apply(CustodyBound, c, lock);
    // no earlier record holds the freshly locked account: its owner was the
    // signing initializer, not a derived address
    assert BoundTo(c1.timelocks, a.tokensToLock, a.receiverTokens);
    ReleasesPayBoundReceiver(c1, txs, a.tokensToLock, a.receiverTokens);
  }

  // ---------------------------------------------------------------------------
  // One-shot release

  /** A closed address stays closed until a lock creates a record there again. */
  lemma {:induction false} RunKeepsClosed(rev: Revision, c: Chain, txs: seq<Transaction>, addr: Pubkey)
    requires addr !in c.timelocks
    requires forall i :: 0 <= i < |txs| ==> !LocksAt(txs[i], addr)
    ensures addr !in Run(rev, c, txs).timelocks
    decreases |txs|
  {
    if txs != [] {
      RunKeepsClosed(rev, Apply(rev, c, txs[0]), txs[1..], addr);
    }
  }

  /** Once an unlock has released a timelock, every later unlock of that
      address fails for want of a record, whoever calls it and whenever, unless
      a new lock has been made there in between. */
  lemma ReleaseIsOneShot(rev: Revision, c: Chain, unlock: Transaction, txs: seq<Transaction>, again: Transaction)
    requires unlock.instruction.UnlockIx? && Execute(rev, c, unlock).Ok?
    requires forall i :: 0 <= i < |txs| ==> !LocksAt(txs[i], unlock.instruction.unlockAccounts.timelock)
    requires again.instruction.UnlockIx?
    requires again.instruction.unlockAccounts.timelock == unlock.instruction.unlockAccounts.timelock
    ensures Execute(rev, Run(rev, Apply(rev, c, unlock), txs), again) == Err(AccountNotInitialized)
  {
    RunKeepsClosed(rev, Apply(rev, c, unlock), txs, unlock.instruction.unlockAccounts.timelock);
  }

  // ---------------------------------------------------------------------------
  // Uniqueness and the time gate

  /** One live timelock per receiver: two live records naming the same
      receiver are the same record. */
  lemma OneTimelockPerReceiver(c: Chain, addr1: Pubkey, addr2: Pubkey)
    requires Consistent(c.timelocks)
    requires addr1 in c.timelocks && addr2 in c.timelocks
    requires c.timelocks[addr1].receiverAccount == c.timelocks[addr2].receiverAccount
    ensures addr1 == addr2
  {
  }

  /** While a receiver's timelock is live, every lock for that receiver fails,
      whatever bump it passes. */
  lemma LockWhileLiveFails(rev: Revision, c: Chain, addr: Pubkey, a: LockAccounts, bump: uint8,
                           lockDuration: int64, now: int64, signers: set<Pubkey>)
    requires Consistent(c.timelocks) && addr in c.timelocks
    requires a.receiver == c.timelocks[addr].receiverAccount
    ensures LockStep(rev, c, a, bump, lockDuration, now, signers).Err?
  {
  }

  /** Once the unlock time has come, the receiver's unlock of a consistent
      timelock succeeds whenever the timelock still owns the custody account
      and the receiver's balance has room. */
  lemma UnlockSucceedsWhenDue(rev: Revision, c: Chain, a: UnlockAccounts, now: int64)
    requires Consistent(c.timelocks)
    requires UnlockAccountsValid(rev, c, a)
    requires now >= c.timelocks[a.timelock].unlockTimestamp
    requires c.tokens[a.timelockedTokens].owner == a.timelock
    requires a.timelockedTokens == a.receiverTokens
             || c.tokens[a.receiverTokens].amount as int + c.tokens[a.timelockedTokens].amount as int <= UINT64_MAX
    ensures UnlockStep(rev, c, a, now).Ok?
  {
  }
}
