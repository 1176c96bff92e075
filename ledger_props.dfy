/**
 * What the ledger's operations promise: each keeps the accounting invariant,
 * each refusal leaves storage alone, and the effects of a successful call are
 * exactly those the contract documents.
 */
module LedgerProperties {
  import opened Types
  import opened KeySpace
  import opened LedgerSpec

  // The storage helpers.

  /** `add_to_balance` reads back as the new balance, clamped at 0, and stores only positive balances. */
  lemma AddToBalanceReadBack(b: map<Bytes, int>, owner: Bytes, amount: int, a: Bytes)
    ensures var n := ReadIntAt(b, owner) + amount;
            ReadIntAt(AddToBalance(b, owner, amount), a)
            == if a != owner then ReadIntAt(b, a) else if n > 0 then n else 0
    ensures owner in AddToBalance(b, owner, amount) <==> ReadIntAt(b, owner) + amount > 0
    ensures (forall k | k in b :: b[k] > 0) ==> (forall k | k in AddToBalance(b, owner, amount) :: AddToBalance(b, owner, amount)[k] > 0)
  {
  }

  lemma OwnedByUpdate(owners: map<Bytes, Bytes>, id: Bytes, to: Bytes, a: Bytes)
    ensures OwnedBy(owners[id := to], a)
            == if a == to then OwnedBy(owners, a) + {id} else OwnedBy(owners, a) - {id}
  {
  }

  lemma OwnedByRemove(owners: map<Bytes, Bytes>, id: Bytes, a: Bytes)
    ensures OwnedBy(owners - {id}, a) == OwnedBy(owners, a) - {id}
  {
  }

  /** The symbol `symbol()` reports is, byte for byte, the prefix of every token id the contract mints. */
  lemma SymbolIsIdPrefix(id: Bytes)
    requires IsGhostId(id)
    ensures |Symbol()| == |TOKEN_SYMBOL_B| <= |id|
    ensures forall i | 0 <= i < |Symbol()| :: Symbol()[i] as int == id[i] as int
  {
    assert forall i | 0 <= i < |TOKEN_SYMBOL_B| :: id[i] == TOKEN_SYMBOL_B[i];
  }

  lemma EmptyInv()
    ensures Inv(Empty)
  {
  }

  /** With the invariant, a live token's owner reads as a 20-byte address, and a token that is not live as the empty address. */
  lemma OwnerOfLive(s: Ledger, id: Bytes)
    requires Inv(s)
    ensures IsAddress(OwnerOf(s, id)) <==> id in s.owners
  {
  }

  // transfer

  /** A transfer the owner has not witnessed, and a transfer to the owner, change no storage. */
  lemma TransferWithoutStorageChange(s: Ledger, w: set<Bytes>, to: Bytes, id: Bytes)
    requires IsAddress(to)
    ensures OwnerOf(s, id) !in w ==> Transfer(s, w, to, id) == Step(s, Done(false))
    ensures OwnerOf(s, id) in w && OwnerOf(s, id) == to ==> Transfer(s, w, to, id) == Step(s, Done(true))
  {
  }

  /**
   * A transfer keeps the accounting invariant and the supply. When it moves
   * a token to a new owner, the owner record, the index entry and both
   * balances follow the token and nothing else changes.
   */
  lemma TransferKeepsInv(s: Ledger, w: set<Bytes>, to: Bytes, id: Bytes)
    ensures var r := Transfer(s, w, to, id);
            && (Inv(s) ==> Inv(r.post))
            && TotalSupply(r.post) == TotalSupply(s)
            && (r.out.Abort? ==> r.post == s)
  {
    var owner := OwnerOf(s, id);
    if Inv(s) && IsAddress(to) && owner in w && owner != to && IsAddress(owner) {
      assert id in s.owners;
      MoveKeepsInv(s, owner, to, id);
    }
  }

  /** The storage writes of a transfer to a new owner keep the invariant. */
  lemma MoveKeepsInv(s: Ledger, owner: Bytes, to: Bytes, id: Bytes)
    requires Inv(s)
    requires id in s.owners && s.owners[id] == owner && owner != to && IsAddress(to)
    ensures Inv(Transfer(s, {owner}, to, id).post)
    ensures TotalSupply(Transfer(s, {owner}, to, id).post) == TotalSupply(s)
  {
    TransferKeepsShape(s, owner, to, id);
    TransferKeepsBalances(s, owner, to, id);
    TransferKeepsIndex(s, owner, to, id);
  }

  lemma TransferKeepsShape(s: Ledger, owner: Bytes, to: Bytes, id: Bytes)
    requires OwnersWellFormed(s) && SupplyCountsTokens(s) && ContentFollowsTokens(s) && AuthListValid(s)
    requires id in s.owners && s.owners[id] == owner && owner != to && IsAddress(to)
    ensures var t := Transfer(s, {owner}, to, id).post;
            && OwnersWellFormed(t) && SupplyCountsTokens(t) && ContentFollowsTokens(t) && AuthListValid(t)
            && TotalSupply(t) == TotalSupply(s)
  {
  }

  lemma TransferKeepsBalances(s: Ledger, owner: Bytes, to: Bytes, id: Bytes)
    requires BalancesCountTokens(s) && IsAddress(owner)
    requires id in s.owners && s.owners[id] == owner && owner != to && IsAddress(to)
    ensures BalancesCountTokens(Transfer(s, {owner}, to, id).post)
  {
    MoveKeepsBalances(s, owner, to, id);
  }

  lemma TransferKeepsIndex(s: Ledger, owner: Bytes, to: Bytes, id: Bytes)
    requires IndexMirrorsOwners(s) && IsAddress(owner)
    requires id in s.owners && s.owners[id] == owner && owner != to && IsAddress(to)
    ensures IndexMirrorsOwners(Transfer(s, {owner}, to, id).post)
  {
    MoveKeepsIndex(s, owner, to, id);
  }

  lemma MoveKeepsBalances(s: Ledger, owner: Bytes, to: Bytes, id: Bytes)
    requires BalancesCountTokens(s)
    requires id in s.owners && s.owners[id] == owner && owner != to && IsAddress(to)
    ensures BalancesCountTokens(s.(owners := s.owners[id := to],
                                   balances := AddToBalance(AddToBalance(s.balances, owner, -1), to, 1)))
  {
    var owners := s.owners[id := to];
    var balances := AddToBalance(AddToBalance(s.balances, owner, -1), to, 1);
    forall a
      ensures ReadIntAt(balances, a) == |OwnedBy(owners, a)|
    {
      OwnedByUpdate(s.owners, id, to, a);
      AddToBalanceReadBack(s.balances, owner, -1, a);
      AddToBalanceReadBack(AddToBalance(s.balances, owner, -1), to, 1, a);
      if a == owner {
        assert id in OwnedBy(s.owners, owner);
      } else if a == to {
        assert id !in OwnedBy(s.owners, to);
      }
    }
    AddToBalanceReadBack(s.balances, owner, -1, owner);
    AddToBalanceReadBack(AddToBalance(s.balances, owner, -1), to, 1, to);
  }

  lemma MoveKeepsIndex(s: Ledger, owner: Bytes, to: Bytes, id: Bytes)
    requires IndexMirrorsOwners(s)
    requires id in s.owners && s.owners[id] == owner && owner != to
    ensures IndexMirrorsOwners(s.(owners := s.owners[id := to],
                                  index := s.index - {(owner, id)} + {(to, id)}))
  {
    var t := s.(owners := s.owners[id := to], index := s.index - {(owner, id)} + {(to, id)});
    forall p | p in t.index
      ensures p.1 in t.owners && t.owners[p.1] == p.0
    {
      if p != (to, id) {
        assert p in s.index && p != (owner, id);
      }
    }
  }

  lemma TransferMovesToken(s: Ledger, w: set<Bytes>, to: Bytes, id: Bytes)
    requires Transfer(s, w, to, id).out == Done(true)
    requires OwnerOf(s, id) != to
    ensures var t := Transfer(s, w, to, id).post;
            var from := OwnerOf(s, id);
            && id in s.owners
            && OwnerOf(t, id) == to
            && (to, id) in t.index && (from, id) !in t.index
            && t.locked == s.locked && t.meta == s.meta && t.views == s.views
  {
  }

  /** A successful transfer to a new owner moves one unit of balance and the token between the two token sets. */
  lemma TransferMovesBalance(s: Ledger, w: set<Bytes>, to: Bytes, id: Bytes)
    requires BalancesCountTokens(s)
    requires Transfer(s, w, to, id).out == Done(true)
    requires OwnerOf(s, id) != to
    ensures var t := Transfer(s, w, to, id).post;
            var from := OwnerOf(s, id);
            && BalanceOf(t, from) == Done(ReadIntAt(s.balances, from) - 1)
            && BalanceOf(t, to) == Done(ReadIntAt(s.balances, to) + 1)
            && OwnedBy(t.owners, to) == OwnedBy(s.owners, to) + {id}
            && OwnedBy(t.owners, from) == OwnedBy(s.owners, from) - {id}
  {
    var from := OwnerOf(s, id);
    assert id in s.owners && IsAddress(from);
    assert id in OwnedBy(s.owners, from);
    var t := Transfer(s, w, to, id).post;
    assert t.owners == s.owners[id := to];
    assert t.balances == AddToBalance(AddToBalance(s.balances, from, -1), to, 1);
    OwnedByUpdate(s.owners, id, to, to);
    OwnedByUpdate(s.owners, id, to, from);
    AddToBalanceReadBack(s.balances, from, -1, from);
    AddToBalanceReadBack(AddToBalance(s.balances, from, -1), to, 1, from);
    AddToBalanceReadBack(s.balances, from, -1, to);
    AddToBalanceReadBack(AddToBalance(s.balances, from, -1), to, 1, to);
  }

  // mint

  /** A negative configured fee or a failed fee payment raises before any write. */
  lemma MintRefusals(s: Ledger, account: Bytes, meta: Bytes, content: Bytes, paid: bool, id: Bytes)
    ensures GetMintFee(s) < 0 ==> Mint(s, account, meta, content, paid, id) == Step(s, Abort(NegativeMintFee))
    ensures GetMintFee(s) >= 0 && !paid ==> Mint(s, account, meta, content, paid, id) == Step(s, Abort(FeePaymentFailed))
    ensures Mint(s, account, meta, content, paid, id).out.Abort? ==> Mint(s, account, meta, content, paid, id).post == s
  {
  }

  lemma InternalMintKeepsInv(s: Ledger, account: Bytes, meta: Bytes, content: Bytes, id: Bytes)
    ensures Inv(s) && FreshId(s, id) ==> Inv(InternalMint(s, account, meta, content, id).post)
  {
    if Inv(s) && FreshId(s, id) && IsAddress(account) {
      InternalMintKeepsShape(s, account, meta, content, id);
      InternalMintKeepsBalances(s, account, meta, content, id);
      InternalMintKeepsIndex(s, account, meta, content, id);
      InternalMintKeepsSupply(s, account, meta, content, id);
    }
  }

  lemma InternalMintKeepsShape(s: Ledger, account: Bytes, meta: Bytes, content: Bytes, id: Bytes)
    requires OwnersWellFormed(s) && ContentFollowsTokens(s) && AuthListValid(s)
    requires FreshId(s, id) && IsAddress(account)
    ensures var t := InternalMint(s, account, meta, content, id).post;
            OwnersWellFormed(t) && ContentFollowsTokens(t) && AuthListValid(t)
  {
  }

  lemma InternalMintKeepsBalances(s: Ledger, account: Bytes, meta: Bytes, content: Bytes, id: Bytes)
    requires BalancesCountTokens(s)
    requires id !in s.owners && IsAddress(account)
    ensures BalancesCountTokens(InternalMint(s, account, meta, content, id).post)
  {
    AddKeepsBalances(s, account, id);
  }

  lemma InternalMintKeepsIndex(s: Ledger, account: Bytes, meta: Bytes, content: Bytes, id: Bytes)
    requires IndexMirrorsOwners(s)
    requires id !in s.owners && IsAddress(account)
    ensures IndexMirrorsOwners(InternalMint(s, account, meta, content, id).post)
  {
    AddKeepsIndex(s, account, id);
  }

  lemma InternalMintKeepsSupply(s: Ledger, account: Bytes, meta: Bytes, content: Bytes, id: Bytes)
    requires SupplyCountsTokens(s)
    requires id !in s.owners && IsAddress(account)
    ensures SupplyCountsTokens(InternalMint(s, account, meta, content, id).post)
  {
    assert |s.owners[id := account]| == |s.owners| + 1;
  }

  lemma AddKeepsBalances(s: Ledger, account: Bytes, id: Bytes)
    requires BalancesCountTokens(s)
    requires id !in s.owners && IsAddress(account)
    ensures BalancesCountTokens(s.(owners := s.owners[id := account],
                                   balances := AddToBalance(s.balances, account, 1)))
  {
    var owners := s.owners[id := account];
    var balances := AddToBalance(s.balances, account, 1);
    forall a
      ensures ReadIntAt(balances, a) == |OwnedBy(owners, a)|
    {
      OwnedByUpdate(s.owners, id, account, a);
      AddToBalanceReadBack(s.balances, account, 1, a);
    }
    AddToBalanceReadBack(s.balances, account, 1, account);
  }

  lemma AddKeepsIndex(s: Ledger, account: Bytes, id: Bytes)
    requires IndexMirrorsOwners(s)
    requires id !in s.owners
    ensures IndexMirrorsOwners(s.(owners := s.owners[id := account], index := s.index + {(account, id)}))
  {
  }

  /**
   * A mint whose fee is paid creates the token: it returns the id, raises the
   * counter by one, and writes the owner record, index entry, locked content
   * and metadata; view counters are untouched.
   */
  lemma MintCreatesToken(s: Ledger, account: Bytes, meta: Bytes, content: Bytes, paid: bool, id: Bytes)
    requires GetMintFee(s) >= 0 && paid && IsAddress(account)
    ensures var t := Mint(s, account, meta, content, paid, id).post;
            && Mint(s, account, meta, content, paid, id).out == Done(id)
            && ReadInt(t.tokenCount) == ReadInt(s.tokenCount) + 1
            && OwnerOf(t, id) == account
            && (account, id) in t.index
            && ReadBytesAt(t.locked, id) == content
            && GetMeta(t, id) == meta
            && t.owners.Keys == s.owners.Keys + {id}
            && t.views == s.views
  {
  }

  /**
   * A paid mint of a fresh id keeps the invariant and raises the owner's
   * balance and the supply by exactly one: it creates exactly one token.
   */
  lemma MintCountsToken(s: Ledger, account: Bytes, meta: Bytes, content: Bytes, paid: bool, id: Bytes)
    requires Inv(s) && FreshId(s, id)
    requires GetMintFee(s) >= 0 && paid && IsAddress(account)
    ensures var t := Mint(s, account, meta, content, paid, id).post;
            && Inv(t)
            && BalanceOf(t, account) == Done(ReadIntAt(s.balances, account) + 1)
            && TotalSupply(t) == TotalSupply(s) + 1
            && OwnedBy(t.owners, account) == OwnedBy(s.owners, account) + {id}
  {
    InternalMintKeepsInv(s, account, meta, content, id);
    OwnedByUpdate(s.owners, id, account, account);
    AddToBalanceReadBack(s.balances, account, 1, account);
  }

  // burn

  /** A burn the owner has not witnessed returns false and changes nothing. */
  lemma BurnRefused(s: Ledger, w: set<Bytes>, id: Bytes)
    requires OwnerOf(s, id) !in w
    ensures Burn(s, w, id) == Step(s, Done(false))
  {
  }

  lemma BurnKeepsInv(s: Ledger, w: set<Bytes>, id: Bytes)
    ensures Inv(s) ==> Inv(Burn(s, w, id).post)
    ensures Burn(s, w, id).out.Abort? ==> Burn(s, w, id).post == s
  {
    var owner := OwnerOf(s, id);
    if Inv(s) && owner in w && IsAddress(owner) {
      assert id in s.owners;
      BurnKeepsShape(s, w, id);
      BurnKeepsBalances(s, w, id);
      BurnKeepsIndex(s, w, id);
    }
  }

  lemma BurnKeepsShape(s: Ledger, w: set<Bytes>, id: Bytes)
    requires OwnersWellFormed(s) && SupplyCountsTokens(s) && ContentFollowsTokens(s) && AuthListValid(s)
    requires id in s.owners && s.owners[id] in w && IsAddress(s.owners[id])
    ensures var t := Burn(s, w, id).post;
            OwnersWellFormed(t) && SupplyCountsTokens(t) && ContentFollowsTokens(t) && AuthListValid(t)
  {
    assert (s.owners - {id}).Keys == s.owners.Keys - {id};
  }

  lemma BurnKeepsBalances(s: Ledger, w: set<Bytes>, id: Bytes)
    requires BalancesCountTokens(s)
    requires id in s.owners && s.owners[id] in w && IsAddress(s.owners[id])
    ensures BalancesCountTokens(Burn(s, w, id).post)
  {
    RemoveKeepsBalances(s, s.owners[id], id);
  }

  lemma BurnKeepsIndex(s: Ledger, w: set<Bytes>, id: Bytes)
    requires IndexMirrorsOwners(s)
    requires id in s.owners && s.owners[id] in w && IsAddress(s.owners[id])
    ensures IndexMirrorsOwners(Burn(s, w, id).post)
  {
    RemoveKeepsIndex(s, s.owners[id], id);
  }

  lemma RemoveKeepsBalances(s: Ledger, owner: Bytes, id: Bytes)
    requires BalancesCountTokens(s)
    requires id in s.owners && s.owners[id] == owner
    ensures BalancesCountTokens(s.(owners := s.owners - {id},
                                   balances := AddToBalance(s.balances, owner, -1)))
  {
    var owners := s.owners - {id};
    var balances := AddToBalance(s.balances, owner, -1);
    forall a
      ensures ReadIntAt(balances, a) == |OwnedBy(owners, a)|
    {
      OwnedByRemove(s.owners, id, a);
      AddToBalanceReadBack(s.balances, owner, -1, a);
      if a == owner {
        assert id in OwnedBy(s.owners, owner);
      }
    }
    AddToBalanceReadBack(s.balances, owner, -1, owner);
  }

  lemma RemoveKeepsIndex(s: Ledger, owner: Bytes, id: Bytes)
    requires IndexMirrorsOwners(s)
    requires id in s.owners && s.owners[id] == owner
    ensures IndexMirrorsOwners(s.(owners := s.owners - {id}, index := s.index - {(owner, id)}))
  {
    var t := s.(owners := s.owners - {id}, index := s.index - {(owner, id)});
    forall p | p in t.index
      ensures p.1 in t.owners && t.owners[p.1] == p.0
    {
      assert p in s.index;
    }
  }

  /**
   * A successful burn deletes the owner record, the index entry and the
   * metadata, and lowers the owner's balance and the supply by one; the
   * locked content and its view counter stay in storage.
   */
  lemma BurnDestroysToken(s: Ledger, w: set<Bytes>, id: Bytes)
    requires Inv(s)
    requires Burn(s, w, id).out == Done(true)
    ensures var t := Burn(s, w, id).post;
            var owner := OwnerOf(s, id);
            && id in s.owners && id !in t.owners && id !in t.meta
            && (owner, id) !in t.index
            && OwnedBy(t.owners, owner) == OwnedBy(s.owners, owner) - {id}
            && BalanceOf(t, owner) == Done(ReadIntAt(s.balances, owner) - 1)
            && TotalSupply(t) == TotalSupply(s) - 1
            && t.locked == s.locked && t.views == s.views
  {
    var owner := OwnerOf(s, id);
    assert id in s.owners;
    assert id in OwnedBy(s.owners, owner);
    OwnedByRemove(s.owners, id, owner);
    AddToBalanceReadBack(s.balances, owner, -1, owner);
  }

  /** A burned token cannot be burned again: the second call changes nothing and does not succeed. */
  lemma BurnIsFinal(s: Ledger, w: set<Bytes>, id: Bytes, w2: set<Bytes>)
    requires Inv(s)
    requires Burn(s, w, id).out == Done(true)
    ensures var t := Burn(s, w, id).post;
            && Burn(t, w2, id).post == t
            && Burn(t, w2, id).out != Done(true)
            && ([] !in w2 ==> Burn(t, w2, id).out == Done(false))
  {
    BurnDestroysToken(s, w, id);
  }

  // getLockedContent

  /**
   * Reading locked content raises for anyone but the witnessed owner and then
   * changes nothing; for the owner it changes only that token's view counter,
   * by exactly one.
   */
  lemma LockedContentGate(s: Ledger, w: set<Bytes>, id: Bytes, other: Bytes)
    requires other != id
    ensures OwnerOf(s, id) !in w ==> GetLockedContent(s, w, id) == Step(s, Abort(LockedContentProhibited))
    ensures OwnerOf(s, id) in w ==>
              var t := GetLockedContent(s, w, id).post;
              && GetLockedContent(s, w, id).out == Done(ReadBytesAt(s.locked, id))
              && LockedViewCount(t, id) == LockedViewCount(s, id) + 1
              && LockedViewCount(t, other) == LockedViewCount(s, other)
              && t.(views := s.views) == s
  {
  }

  /** The owner of a freshly minted token reads back the payload stored at mint. */
  lemma RevealAfterMint(s: Ledger, account: Bytes, meta: Bytes, content: Bytes, id: Bytes, w: set<Bytes>)
    requires IsAddress(account) && account in w
    ensures var t := InternalMint(s, account, meta, content, id).post;
            var r := GetLockedContent(t, w, id);
            && r.out == Done(content)
            && LockedViewCount(r.post, id) == LockedViewCount(s, id) + 1
  {
  }

  /** Transfers and burns never touch locked content or view counters. */
  lemma LockedContentSurvives(s: Ledger, w: set<Bytes>, to: Bytes, id: Bytes)
    ensures Transfer(s, w, to, id).post.locked == s.locked
    ensures Transfer(s, w, to, id).post.views == s.views
    ensures Burn(s, w, id).post.locked == s.locked
    ensures Burn(s, w, id).post.views == s.views
  {
  }

  // deploy

  /** Deploy succeeds once, for the owner: it sets the flag, the counter, the fee and the list `[OWNER]`. */
  lemma DeployOnce(s: Ledger, w: set<Bytes>)
    ensures !Verify(w) || s.deployed ==> Deploy(s, w) == Step(s, Done(false))
    ensures Verify(w) && !s.deployed ==>
              var t := Deploy(s, w).post;
              && Deploy(s, w).out == Done(true)
              && t.deployed && ReadInt(t.tokenCount) == 0
              && GetMintFee(t) == DEPLOY_FEE && t.auth == Some([OWNER])
              && t.owners == s.owners && t.balances == s.balances && t.supply == s.supply
              && t.index == s.index && t.locked == s.locked && t.meta == s.meta && t.views == s.views
    ensures Inv(s) ==> Inv(Deploy(s, w).post)
  {
  }

  /**
   * `mint` has no deploy check and an absent fee reads as 0, so a paid mint
   * goes through on empty storage; a later deploy then writes TOKEN_COUNT 0
   * over the count of that mint, while the minted token stays live.
   */
  lemma MintBeforeDeploy(account: Bytes, meta: Bytes, content: Bytes, id: Bytes)
    requires IsAddress(account)
    ensures var m := Mint(Empty, account, meta, content, true, id);
            var d := Deploy(m.post, {OWNER});
            && m.out == Done(id) && ReadInt(m.post.tokenCount) == 1
            && d.out == Done(true) && ReadInt(d.post.tokenCount) == 0
            && id in d.post.owners && TotalSupply(d.post) == 1
  {
  }

  /** A second deploy fails and leaves the state of the first. */
  lemma DeployTwice(s: Ledger, w: set<Bytes>, w2: set<Bytes>)
    requires Deploy(s, w).out == Done(true)
    ensures Deploy(Deploy(s, w).post, w2) == Step(Deploy(s, w).post, Done(false))
  {
  }

  // fee and authority

  /** `verify()` ignores the authorised list: an authorised address other than OWNER can change nothing. */
  lemma VerifyIgnoresAuthList(s: Ledger, a: Bytes, fee: int, address: Bytes, authorized: bool)
    requires s.auth.Some? && a in s.auth.value && a != OWNER
    ensures SetMintFee(s, {a}, fee) == Step(s, Abort(AssertionFailed))
    ensures SetAuthorizedAddress(s, {a}, address, authorized) == Step(s, Done(false))
  {
  }

  /** Any fee is stored, negative included, and read back; a negative one then blocks every mint. */
  lemma SetMintFeeStoresAnyFee(s: Ledger, w: set<Bytes>, fee: int, account: Bytes, meta: Bytes,
                               content: Bytes, paid: bool, id: Bytes)
    requires Verify(w)
    ensures SetMintFee(s, w, fee).out == Done(fee)
    ensures GetMintFee(SetMintFee(s, w, fee).post) == fee
    ensures fee < 0 ==> Mint(SetMintFee(s, w, fee).post, account, meta, content, paid, id).out == Abort(NegativeMintFee)
  {
  }

  lemma {:induction false} RemoveFirstMultiset(s: seq<Bytes>, x: Bytes)
    requires x in s
    ensures multiset(RemoveFirst(s, x)) == multiset(s) - multiset{x}
    decreases |s|
  {
    if s[0] != x {
      RemoveFirstMultiset(s[1..], x);
      assert s == [s[0]] + s[1..];
    } else {
      assert s == [x] + s[1..];
    }
  }

  /** On a list without duplicates, `remove` drops exactly the address and keeps the list duplicate-free. */
  lemma RemoveFirstNoDup(s: seq<Bytes>, x: Bytes)
    requires x in s && NoDup(s)
    ensures NoDup(RemoveFirst(s, x))
    ensures forall y :: y in RemoveFirst(s, x) <==> y in s && y != x
  {
    RemoveFirstMultiset(s, x);
    var r := RemoveFirst(s, x);
    assert forall y :: y in r <==> y in multiset(r);
    assert forall y :: y in s <==> y in multiset(s);
    NoDupMultiplicity(s);
    MultiplicityNoDup(r);
  }

  lemma {:induction false} NoDupMultiplicity(s: seq<Bytes>)
    requires NoDup(s)
    ensures forall y :: multiset(s)[y] <= 1
    decreases |s|
  {
    if s != [] {
      NoDupMultiplicity(s[1..]);
      assert s == [s[0]] + s[1..];
      assert s[0] !in s[1..];
    }
  }

  lemma {:induction false} MultiplicityNoDup(s: seq<Bytes>)
    requires forall y :: multiset(s)[y] <= 1
    ensures NoDup(s)
    decreases |s|
  {
    if s != [] {
      assert s == [s[0]] + s[1..];
      assert forall y :: multiset(s[1..])[y] <= multiset(s)[y];
      MultiplicityNoDup(s[1..]);
      assert s[0] !in s[1..] by {
        assert multiset(s)[s[0]] == 1 + multiset(s[1..])[s[0]];
      }
      forall i, j | 0 <= i < j < |s|
        ensures s[i] != s[j]
      {
        if i > 0 {
          assert s[i] == s[1..][i - 1] && s[j] == s[1..][j - 1];
        } else {
          assert s[j] in s[1..];
        }
      }
    }
  }

  /**
   * `set_authorized_address` returns false without `verify()`; adding a
   * listed address leaves the list as it is; removing an unlisted address
   * raises; otherwise the address is listed afterwards exactly when
   * `authorized`, and no other address changes its membership.
   */
  lemma SetAuthorizedAddressSpec(s: Ledger, w: set<Bytes>, address: Bytes, authorized: bool)
    requires AuthListValid(s)
    ensures !Verify(w) ==> SetAuthorizedAddress(s, w, address, authorized) == Step(s, Done(false))
    ensures Verify(w) && !s.deployed ==> SetAuthorizedAddress(s, w, address, authorized) == Step(s, Abort(DeserializeFailed))
    ensures Verify(w) && s.deployed && authorized && address in s.auth.value ==>
              SetAuthorizedAddress(s, w, address, authorized) == Step(s, Done(true))
    ensures Verify(w) && s.deployed && !authorized && address !in s.auth.value ==>
              SetAuthorizedAddress(s, w, address, authorized) == Step(s, Abort(NotInList))
    ensures var r := SetAuthorizedAddress(s, w, address, authorized);
            && (r.out == Done(true) ==> (address in r.post.auth.value <==> authorized))
            && (r.out == Done(true) ==> forall y | y != address :: y in r.post.auth.value <==> y in s.auth.value)
  {
    if Verify(w) && s.deployed && !authorized && address in s.auth.value {
      RemoveFirstNoDup(s.auth.value, address);
    }
  }

  /** Adding or removing an authorised address keeps the invariant: the list stays duplicate-free. */
  lemma SetAuthorizedAddressKeepsInv(s: Ledger, w: set<Bytes>, address: Bytes, authorized: bool)
    ensures Inv(s) ==> Inv(SetAuthorizedAddress(s, w, address, authorized).post)
  {
    if Inv(s) && Verify(w) && s.deployed && !authorized && address in s.auth.value {
      RemoveFirstNoDup(s.auth.value, address);
    } else if Inv(s) && Verify(w) && s.deployed && authorized && address !in s.auth.value {
      var l := s.auth.value + [address];
      forall i, j | 0 <= i < j < |l|
        ensures l[i] != l[j]
      {
        if j == |l| - 1 {
          assert l[i] in s.auth.value;
        }
      }
    }
  }

  /** The owner can remove itself from the authorised list, so the list may lose OWNER after deploy. */
  lemma OwnerCanBeDeauthorized(s: Ledger, w: set<Bytes>)
    requires Verify(w) && !s.deployed
    ensures var d := Deploy(s, w).post;
            var r := SetAuthorizedAddress(d, w, OWNER, false);
            && r.out == Done(true)
            && r.post.auth == Some([])
  {
    assert RemoveFirst([OWNER], OWNER) == [OWNER][1..] == [];
  }
}
