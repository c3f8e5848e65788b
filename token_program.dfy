/** The two token-program instructions the timelock relies on, over the map of
    token accounts: `set_authority` for the account-owner authority, and
    `transfer`.  Each either fails or returns the new map of token accounts. */
module TokenProgram {
  import opened Wrappers
  import opened BoundedInts
  import opened Accounts

  /** A token account: who may move its tokens, and how many it holds. */
  datatype TokenAccount = TokenAccount(owner: Pubkey, amount: uint64)

  type Tokens = map<Pubkey, TokenAccount>

  /** The number of tokens held over all accounts. */
  ghost function Supply(tokens: Tokens): nat
    decreases |tokens|
  {
    if tokens == map[] then 0
    else
      var k :| k in tokens;
      tokens[k].amount as nat + Supply(tokens - {k})
  }

  /** Any account's balance can be split off the supply, whichever key the
      definition happens to pick first. */
  lemma {:induction false} SupplyRemove(tokens: Tokens, k: Pubkey)
    requires k in tokens
    ensures Supply(tokens) == tokens[k].amount as nat + Supply(tokens - {k})
    decreases |tokens|
  {
    var j :| j in tokens && Supply(tokens) == tokens[j].amount as nat + Supply(tokens - {j});
    if j != k {
      assert tokens - {j} - {k} == tokens - {k} - {j};
      SupplyRemove(tokens - {j}, k);
      SupplyRemove(tokens - {k}, j);
    }
  }

  /** Replacing one account changes the supply by the difference of balances. */
  lemma SupplyUpdate(tokens: Tokens, k: Pubkey, v: TokenAccount)
    requires k in tokens
    ensures Supply(tokens[k := v]) == Supply(tokens) - tokens[k].amount as nat + v.amount as nat
  {
    SupplyRemove(tokens, k);
    SupplyRemove(tokens[k := v], k);
    assert tokens[k := v] - {k} == tokens - {k};
  }

  /** `set_authority(AccountOwner)`: the current owner, signing, hands the
      account to a new owner.  Only the owner changes. */
  function SetOwner(tokens: Tokens, account: Pubkey, currentAuthority: Pubkey,
                    newOwner: Pubkey, signers: set<Pubkey>): (r: Result<Tokens, Error>)
    ensures r.Ok? <==> account in tokens && tokens[account].owner == currentAuthority
                       && currentAuthority in signers
    ensures account in tokens && tokens[account].owner != currentAuthority ==> r == Err(OwnerMismatch)
    ensures r.Ok? ==> r.value.Keys == tokens.Keys
    ensures r.Ok? ==> r.value[account].owner == newOwner
                      && r.value[account].amount == tokens[account].amount
    ensures r.Ok? ==> forall k <- tokens :: k != account ==> r.value[k] == tokens[k]
    ensures r.Ok? ==> Supply(r.value) == Supply(tokens)
  {
    if account !in tokens then Err(AccountNotInitialized)
    else if tokens[account].owner != currentAuthority then Err(OwnerMismatch)
    else if currentAuthority !in signers then Err(MissingSigner)
    else
      var updated := tokens[account := tokens[account].(owner := newOwner)];
      SupplyUpdate(tokens, account, updated[account]);
      Ok(updated)
  }

  /** `transfer`: the owner of `source`, signing, moves `amount` tokens to
      `destination`.  A transfer from an account to itself changes nothing. */
  function Transfer(tokens: Tokens, source: Pubkey, destination: Pubkey, authority: Pubkey,
                    amount: uint64, signers: set<Pubkey>): (r: Result<Tokens, Error>)
    ensures r.Ok? <==> && source in tokens && destination in tokens
                       && amount <= tokens[source].amount
                       && tokens[source].owner == authority && authority in signers
                       && (source == destination
                           || tokens[destination].amount as int + amount as int <= UINT64_MAX)
    ensures (&& source in tokens && destination in tokens && amount <= tokens[source].amount
             && tokens[source].owner != authority) ==> r == Err(OwnerMismatch)
    ensures r.Ok? ==> r.value.Keys == tokens.Keys
    ensures r.Ok? ==> forall k <- tokens :: r.value[k].owner == tokens[k].owner
    ensures r.Ok? ==> forall k <- tokens :: k != source && k != destination ==> r.value[k] == tokens[k]
    ensures r.Ok? && source != destination ==>
              && r.value[source].amount as int == tokens[source].amount as int - amount as int
              && r.value[destination].amount as int == tokens[destination].amount as int + amount as int
    ensures r.Ok? && source == destination ==> r.value == tokens
    ensures r.Ok? ==> Supply(r.value) == Supply(tokens)
  {
    if source !in tokens || destination !in tokens then Err(AccountNotInitialized)
    else if tokens[source].amount < amount then Err(InsufficientFunds)
    else if tokens[source].owner != authority then Err(OwnerMismatch)
    else if authority !in signers then Err(MissingSigner)
    else if source == destination then Ok(tokens)
    else if tokens[destination].amount as int + amount as int > UINT64_MAX then Err(TokenOverflow)
    else
      var debited := tokens[source := tokens[source].(amount := tokens[source].amount - amount)];
      var credited := debited[destination := debited[destination].(amount := debited[destination].amount + amount)];
      SupplyUpdate(tokens, source, debited[source]);
      SupplyUpdate(debited, destination, credited[destination]);
      Ok(credited)
  }
}
