/**
 * The contract as it runs: one object whose fields are the storage records,
 * updated in place by the storage helpers (`set_owner_of`, `add_token`,
 * `add_to_balance`, ...) in the order the entry points call them. Each entry
 * point is proved to leave exactly the storage, and return exactly the
 * result, that the ledger specification in LedgerSpec gives.
 *
 * A raise reverts every write of the invocation; `Restore` models that
 * revert. The witness set `w` stands for `check_witness`, `paid` for the
 * result of the GAS fee transfer, and `id` for the token id `internal_mint`
 * derives from the transaction hash.
 */
module Contract {
  import opened Types
  import opened KeySpace
  import opened LedgerSpec
  import LedgerProperties
  import BatchProperties

  class NftContract {
    var owners: map<Bytes, Bytes>        // TOKEN_PREFIX + id
    var index: set<(Bytes, Bytes)>       // ACCOUNT_PREFIX + owner + id
    var balances: map<Bytes, int>        // BALANCE_PREFIX + owner
    var supply: Option<int>              // SUPPLY_PREFIX
    var locked: map<Bytes, Bytes>        // LOCKED_PREFIX + id
    var meta: map<Bytes, Bytes>          // META_PREFIX + id
    var views: map<Bytes, int>           // LOCKED_VIEW_COUNT + id
    var tokenCount: Option<int>          // TOKEN_COUNT
    var mintFee: Option<int>             // MINT_FEE
    var auth: Option<seq<Bytes>>         // AUTH_ADDRESSES
    var deployed: bool                   // DEPLOYED

    /** The storage as a ledger value. */
    function View(): Ledger
      reads this
    {
      Ledger(owners, index, balances, supply, locked, meta, views, tokenCount, mintFee, auth, deployed)
    }

    /** A contract whose storage holds nothing yet. */
    constructor ()
      ensures View() == Empty
    {
      owners, index, balances, supply := map[], {}, map[], None;
      locked, meta, views := map[], map[], map[];
      tokenCount, mintFee, auth, deployed := None, None, None, false;
    }

    /** The host's revert after a raise: storage goes back to what it was when the invocation began. */
    method Restore(saved: Ledger)
      modifies this
      ensures View() == saved
    {
      owners, index, balances, supply, locked, meta, views, tokenCount, mintFee, auth, deployed :=
        saved.owners, saved.index, saved.balances, saved.supply, saved.locked, saved.meta, saved.views,
        saved.tokenCount, saved.mintFee, saved.auth, saved.deployed;
    }

    // Storage helpers.

    /** `get_owner_of`: the stored owner, or the empty address; on a ledger that keeps the invariant, an address exactly for a live token. */
    method GetOwnerOf(id: Bytes) returns (owner: Bytes)
      ensures id in owners ==> owner == owners[id]
      ensures id !in owners ==> owner == []
      ensures Inv(View()) ==> (IsAddress(owner) <==> id in owners)
    {
      if Inv(View()) {
        LedgerProperties.OwnerOfLive(View(), id);
      }
      owner := if id in owners then owners[id] else [];
    }

    /** `set_owner_of`. */
    method SetOwnerOf(id: Bytes, owner: Bytes)
      modifies this
      ensures View() == old(View()).(owners := old(owners)[id := owner])
    {
      owners := owners[id := owner];
    }

    /** `remove_owner_of`. */
    method RemoveOwnerOf(id: Bytes)
      modifies this
      ensures View() == old(View()).(owners := old(owners) - {id})
    {
      owners := owners - {id};
    }

    /** `add_token`: writes the owner's index entry for the token. */
    method AddToken(owner: Bytes, id: Bytes)
      modifies this
      ensures View() == old(View()).(index := old(index) + {(owner, id)})
    {
      index := index + {(owner, id)};
    }

    /** `remove_token`. */
    method RemoveToken(owner: Bytes, id: Bytes)
      modifies this
      ensures View() == old(View()).(index := old(index) - {(owner, id)})
    {
      index := index - {(owner, id)};
    }

    /** `add_meta`. */
    method AddMeta(id: Bytes, m: Bytes)
      modifies this
      ensures View() == old(View()).(meta := old(meta)[id := m])
    {
      meta := meta[id := m];
    }

    /** `remove_meta`. */
    method RemoveMeta(id: Bytes)
      modifies this
      ensures View() == old(View()).(meta := old(meta) - {id})
    {
      meta := meta - {id};
    }

    /** `get_meta`: the stored metadata, empty when there is none; on a ledger that keeps the invariant, present exactly for live tokens. */
    method GetMetaOf(id: Bytes) returns (m: Bytes)
      ensures id in meta ==> m == meta[id]
      ensures id !in meta ==> m == []
      ensures Inv(View()) ==> (id in meta <==> id in owners)
    {
      m := if id in meta then meta[id] else [];
    }

    /** `add_locked_content`. */
    method AddLockedContent(id: Bytes, content: Bytes)
      modifies this
      ensures View() == old(View()).(locked := old(locked)[id := content])
    {
      locked := locked[id := content];
    }

    /** `get_locked_content`: the stored content, empty when there is none; every live token has some. */
    method GetLockedContentOf(id: Bytes) returns (content: Bytes)
      ensures id in locked ==> content == locked[id]
      ensures id !in locked ==> content == []
      ensures Inv(View()) && id in owners ==> id in locked
    {
      content := if id in locked then locked[id] else [];
    }

    /** `remove_locked_content`, which no entry point calls. */
    method RemoveLockedContent(id: Bytes)
      modifies this
      ensures View() == old(View()).(locked := old(locked) - {id})
    {
      locked := locked - {id};
    }

    /** `get_locked_view_counter`: how often the locked content was read, 0 when never. */
    method GetLockedViewCounter(id: Bytes) returns (n: int)
      ensures id in views ==> n == views[id]
      ensures id !in views ==> n == 0
    {
      n := if id in views then views[id] else 0;
    }

    /** `incr_locked_view_counter`. */
    method IncrLockedViewCounter(id: Bytes)
      modifies this
      ensures View() == old(View()).(views := old(views)[id := LockedViewCount(old(View()), id) + 1])
    {
      var n := GetLockedViewCounter(id);
      views := views[id := n + 1];
    }

    /** `add_to_supply`. */
    method AddToSupply(amount: int)
      modifies this
      ensures View() == old(View()).(supply := Some(LedgerSpec.TotalSupply(old(View())) + amount))
    {
      var total := TotalSupply();
      supply := Some(total + amount);
    }

    /**
     * `add_to_balance`: the assertion in `balanceOf` fails (`ok` is false and
     * nothing is written) unless the owner is a 20-byte address; otherwise a
     * positive balance is stored and any other is deleted.
     */
    method AddToBalance(owner: Bytes, amount: int) returns (ok: bool)
      modifies this
      ensures ok == IsAddress(owner)
      ensures ok ==> View() == old(View()).(balances := LedgerSpec.AddToBalance(old(balances), owner, amount))
      ensures !ok ==> View() == old(View())
    {
      var old_ := BalanceOf(owner);
      if old_.Abort? {
        return false;
      }
      var n := old_.value + amount;
      if n > 0 {
        balances := balances[owner := n];
      } else {
        balances := balances - {owner};
      }
      ok := true;
    }

    /** `set_mint_fee`: stores the fee and reads it back. */
    method StoreMintFee(fee: int) returns (r: int)
      modifies this
      ensures View() == old(View()).(mintFee := Some(fee))
      ensures r == fee
    {
      mintFee := Some(fee);
      r := GetMintFee();
    }

    // Read-only entry points.

    /** `totalSupply()`: 0 before the first mint; on a ledger that keeps the invariant, the number of live tokens. */
    method TotalSupply() returns (n: int)
      ensures supply.None? ==> n == 0
      ensures supply.Some? ==> n == supply.value
      ensures Inv(View()) ==> n == |owners|
    {
      n := if supply.Some? then supply.value else 0;
    }

    /** `balanceOf(owner)`: raises unless the owner is a 20-byte address; on a ledger that keeps the invariant, the number of tokens it owns. */
    method BalanceOf(owner: Bytes) returns (r: Outcome<int>)
      ensures IsAddress(owner) <==> r.Done?
      ensures !IsAddress(owner) ==> r == Abort(AssertionFailed)
      ensures r.Done? ==> r.value == ReadIntAt(balances, owner)
      ensures Inv(View()) && IsAddress(owner) ==> r == Done(|OwnedBy(owners, owner)|)
    {
      if |owner| != 20 {
        return Abort(AssertionFailed);
      }
      r := Done(if owner in balances then balances[owner] else 0);
    }

    /** `getMintFee()`: the stored fee, 0 while no MINT_FEE is stored. */
    method GetMintFee() returns (fee: int)
      ensures mintFee.None? ==> fee == 0
      ensures mintFee.Some? ==> fee == mintFee.value
    {
      fee := if mintFee.Some? then mintFee.value else 0;
    }

    /** `getLockedContentViewCount(id)`. */
    method GetLockedContentViewCount(id: Bytes) returns (n: int)
      ensures n == LockedViewCount(View(), id)
      ensures id !in views ==> n == 0
    {
      n := GetLockedViewCounter(id);
    }

    /** `verify()`: true exactly when the owner's witness is present; the authorised list plays no part. */
    method Verify(w: set<Bytes>) returns (ok: bool)
      ensures ok <==> OWNER in w
    {
      ok := OWNER in w;
    }

    // State-changing entry points.

    /** `transfer(to, id, data)`. */
    method Transfer(w: set<Bytes>, to: Bytes, id: Bytes) returns (r: Outcome<bool>)
      modifies this
      ensures View() == LedgerSpec.Transfer(old(View()), w, to, id).post
      ensures r == LedgerSpec.Transfer(old(View()), w, to, id).out
      ensures Inv(old(View())) ==> Inv(View())
    {
      ghost var s0 := View();
      if |to| != 20 {
        return Abort(AssertionFailed);
      }
      var owner := GetOwnerOf(id);
      if owner !in w {
        return Done(false);
      }
      if owner != to {
        var ok := AddToBalance(owner, -1);
        if !ok {
          return Abort(AssertionFailed);
        }
        RemoveToken(owner, id);
        ok := AddToBalance(to, 1);
        AddToken(to, id);
        SetOwnerOf(id, to);
      }
      r := Done(true);
      LedgerProperties.TransferKeepsInv(s0, w, to, id);
    }

    /** `burn(id)`, that is `internal_burn(id)`: the writes before the balance assertion are reverted when it fails. */
    method Burn(w: set<Bytes>, id: Bytes) returns (r: Outcome<bool>)
      modifies this
      ensures View() == LedgerSpec.Burn(old(View()), w, id).post
      ensures r == LedgerSpec.Burn(old(View()), w, id).out
      ensures Inv(old(View())) ==> Inv(View())
    {
      var s0 := View();
      var owner := GetOwnerOf(id);
      if owner !in w {
        return Done(false);
      }
      RemoveToken(owner, id);
      RemoveMeta(id);
      RemoveOwnerOf(id);
      var ok := AddToBalance(owner, -1);
      if !ok {
        Restore(s0);
        return Abort(AssertionFailed);
      }
      AddToSupply(-1);
      r := Done(true);
      LedgerProperties.BurnKeepsInv(s0, w, id);
    }

    /** `multiBurn(ids)`: burns each id in turn and collects the results; a raise reverts the whole batch. */
    method MultiBurn(w: set<Bytes>, ids: seq<Bytes>) returns (r: Outcome<seq<bool>>)
      modifies this
      ensures View() == LedgerSpec.MultiBurn(old(View()), w, ids).post
      ensures r == LedgerSpec.MultiBurn(old(View()), w, ids).out
      ensures Inv(old(View())) ==> Inv(View())
    {
      var s0 := View();
      var burned: seq<bool> := [];
      var i := 0;
      while i < |ids|
        invariant 0 <= i <= |ids|
        invariant LedgerSpec.MultiBurn(s0, w, ids[..i]) == Step(View(), Done(burned))
      {
        var b := Burn(w, ids[i]);
        assert ids[..i + 1][..i] == ids[..i];
        if b.Abort? {
          BatchProperties.MultiBurnPrefixAbort(s0, w, ids, i + 1);
          Restore(s0);
          return Abort(b.fault);
        }
        burned := burned + [b.value];
        i := i + 1;
      }
      assert ids[..i] == ids;
      r := Done(burned);
      if Inv(s0) {
        BatchProperties.MultiBurnKeepsInv(s0, w, ids);
      }
    }

    /**
     * `internal_mint(account, meta, content, data)` with `id` the derived
     * token id: bumps TOKEN_COUNT, writes the token's records, and is reverted
     * when the balance assertion on `account` fails.
     */
    method InternalMint(account: Bytes, m: Bytes, content: Bytes, id: Bytes) returns (r: Outcome<Bytes>)
      modifies this
      ensures View() == LedgerSpec.InternalMint(old(View()), account, m, content, id).post
      ensures r == LedgerSpec.InternalMint(old(View()), account, m, content, id).out
    {
      var s0 := View();
      var count := if tokenCount.Some? then tokenCount.value else 0;
      tokenCount := Some(count + 1);
      AddToken(account, id);
      AddLockedContent(id, content);
      AddMeta(id, m);
      SetOwnerOf(id, account);
      var ok := AddToBalance(account, 1);
      if !ok {
        Restore(s0);
        return Abort(AssertionFailed);
      }
      AddToSupply(1);
      assert View() == s0.(tokenCount := Some(count + 1), index := s0.index + {(account, id)},
                           locked := s0.locked[id := content], meta := s0.meta[id := m],
                           owners := s0.owners[id := account],
                           balances := LedgerSpec.AddToBalance(s0.balances, account, 1),
                           supply := Some(LedgerSpec.TotalSupply(s0) + 1));
      r := Done(id);
    }

    /** `mint(account, meta, content, data)`: refuses a negative fee, collects the fee, then mints. */
    method Mint(account: Bytes, m: Bytes, content: Bytes, paid: bool, id: Bytes) returns (r: Outcome<Bytes>)
      modifies this
      ensures View() == LedgerSpec.Mint(old(View()), account, m, content, paid, id).post
      ensures r == LedgerSpec.Mint(old(View()), account, m, content, paid, id).out
      ensures Inv(old(View())) && FreshId(old(View()), id) ==> Inv(View())
    {
      var fee := GetMintFee();
      if fee < 0 {
        return Abort(NegativeMintFee);
      }
      if !paid {
        return Abort(FeePaymentFailed);
      }
      ghost var s0 := View();
      r := InternalMint(account, m, content, id);
      LedgerProperties.InternalMintKeepsInv(s0, account, m, content, id);
    }

    /**
     * `multiMint(account, metas, contents, data)`: mints once per metadata
     * entry with the locked content at the same position; `paid[i]` and
     * `ids[i]` belong to the i-th mint. A raise reverts the whole batch.
     */
    method MultiMint(account: Bytes, metas: seq<Bytes>, contents: seq<Bytes>, paid: seq<bool>, ids: seq<Bytes>)
      returns (r: Outcome<seq<Bytes>>)
      requires |paid| == |metas| && |ids| == |metas|
      modifies this
      ensures View() == LedgerSpec.MultiMint(old(View()), account, metas, contents, paid, ids).post
      ensures r == LedgerSpec.MultiMint(old(View()), account, metas, contents, paid, ids).out
      ensures Inv(old(View())) && FreshIds(old(View()), ids) ==> Inv(View())
    {
      var s0 := View();
      var nfts: seq<Bytes> := [];
      var i := 0;
      while i < |metas|
        invariant 0 <= i <= |metas|
        invariant LedgerSpec.MultiMint(s0, account, metas[..i], contents, paid[..i], ids[..i]) == Step(View(), Done(nfts))
      {
        BatchProperties.MultiMintNext(s0, account, metas, contents, paid, ids, i, View(), nfts);
        if i >= |contents| {
          Restore(s0);
          return Abort(IndexOutOfRange);
        }
        var t := Mint(account, metas[i], contents[i], paid[i], ids[i]);
        if t.Abort? {
          Restore(s0);
          return Abort(t.fault);
        }
        nfts := nfts + [t.value];
        i := i + 1;
      }
      assert metas[..i] == metas && paid[..i] == paid && ids[..i] == ids;
      r := Done(nfts);
      if Inv(s0) && FreshIds(s0, ids) {
        BatchProperties.MultiMintKeepsInv(s0, account, metas, contents, paid, ids);
      }
    }

    /** `getLockedContent(id)`: only the token's owner may read it, and every read is counted. */
    method GetLockedContent(w: set<Bytes>, id: Bytes) returns (r: Outcome<Bytes>)
      modifies this
      ensures View() == LedgerSpec.GetLockedContent(old(View()), w, id).post
      ensures r == LedgerSpec.GetLockedContent(old(View()), w, id).out
      ensures Inv(old(View())) ==> Inv(View())
    {
      var owner := GetOwnerOf(id);
      if owner !in w {
        return Abort(LockedContentProhibited);
      }
      IncrLockedViewCounter(id);
      var content := GetLockedContentOf(id);
      r := Done(content);
    }

    /** `deploy()`: once, by the owner; sets the flag, TOKEN_COUNT, the fee and the list `[OWNER]`. */
    method Deploy(w: set<Bytes>) returns (r: bool)
      modifies this
      ensures View() == LedgerSpec.Deploy(old(View()), w).post
      ensures Done(r) == LedgerSpec.Deploy(old(View()), w).out
      ensures Inv(old(View())) ==> Inv(View())
    {
      LedgerProperties.DeployOnce(View(), w);
      if OWNER !in w {
        return false;
      }
      if deployed {
        return false;
      }
      deployed := true;
      tokenCount := Some(0);
      mintFee := Some(DEPLOY_FEE);
      var list: seq<Bytes> := [];
      list := list + [OWNER];
      assert list == [OWNER];
      auth := Some(list);
      r := true;
    }

    /** `setMintFee(fee)`: asserts `verify()`, then stores any fee, negative included. */
    method SetMintFee(w: set<Bytes>, fee: int) returns (r: Outcome<int>)
      modifies this
      ensures View() == LedgerSpec.SetMintFee(old(View()), w, fee).post
      ensures r == LedgerSpec.SetMintFee(old(View()), w, fee).out
      ensures Inv(old(View())) ==> Inv(View())
    {
      var ok := Verify(w);
      if !ok {
        return Abort(AssertionFailed);
      }
      var stored := StoreMintFee(fee);
      r := Done(stored);
    }

    /**
     * The scan `set_authorized_address` makes before appending: it visits the
     * whole list and remembers whether any entry equals the address.
     */
    static method IsListed(list: seq<Bytes>, address: Bytes) returns (found: bool)
      ensures found <==> address in list
    {
      found := false;
      var k := 0;
      while k < |list|
        invariant 0 <= k <= |list|
        invariant found <==> address in list[..k]
      {
        assert list[..k + 1] == list[..k] + [list[k]];
        if list[k] == address {
          found := true;
        }
        k := k + 1;
      }
      assert list[..k] == list;
    }

    /**
     * `set_authorized_address(address, authorized)`: adds the address when it
     * is not yet listed (a full scan of the list decides), or removes its first
     * occurrence, raising when it is not listed.
     */
    method SetAuthorizedAddress(w: set<Bytes>, address: Bytes, authorized: bool) returns (r: Outcome<bool>)
      modifies this
      ensures View() == LedgerSpec.SetAuthorizedAddress(old(View()), w, address, authorized).post
      ensures r == LedgerSpec.SetAuthorizedAddress(old(View()), w, address, authorized).out
      ensures Inv(old(View())) ==> Inv(View())
    {
      ghost var s0 := View();
      var ok := Verify(w);
      if !ok {
        return Done(false);
      }
      if auth.None? {
        return Abort(DeserializeFailed);
      }
      var list := auth.value;
      if authorized {
        var found := IsListed(list, address);
        if !found {
          list := list + [address];
        }
        auth := Some(list);
      } else {
        if address !in list {
          return Abort(NotInList);
        }
        auth := Some(RemoveFirst(list, address));
      }
      r := Done(true);
      LedgerProperties.SetAuthorizedAddressKeepsInv(s0, w, address, authorized);
    }
  }
}
