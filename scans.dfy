/**
 * The prefix scans `tokens()` and `tokensOf(owner)` over the flat store,
 * related to the ledger's records.
 */
module ScanProperties {
  import opened Types
  import opened KeySpace
  import opened LedgerSpec

  /** The per-token records present are exactly those stored. */
  lemma TokenRecordsIff(s: Ledger, r: Record)
    requires r.TokenOwner? || r.LockedContent? || r.Metadata? || r.ViewCounter?
    ensures r in TokenRecords(s) <==> InStorage(s, r)
  {
    match r
    case TokenOwner(id) =>
      if id in s.owners { assert r in (set id | id in s.owners :: TokenOwner(id)); }
    case LockedContent(id) =>
      if id in s.locked { assert r in (set id | id in s.locked :: LockedContent(id)); }
    case Metadata(id) =>
      if id in s.meta { assert r in (set id | id in s.meta :: Metadata(id)); }
    case ViewCounter(id) =>
      if id in s.views { assert r in (set id | id in s.views :: ViewCounter(id)); }
  }

  /** The per-owner records present are exactly those stored. */
  lemma OwnerRecordsIff(s: Ledger, r: Record)
    requires r.OwnerToken? || r.Balance?
    ensures r in OwnerRecords(s) <==> InStorage(s, r)
  {
    match r
    case OwnerToken(owner, id) =>
      if (owner, id) in s.index { assert r in (set p | p in s.index :: OwnerToken(p.0, p.1)); }
    case Balance(owner) =>
      if owner in s.balances { assert r in (set a | a in s.balances :: Balance(a)); }
  }

  /** The set of present records lists exactly the records in storage. */
  lemma PresentIff(s: Ledger, r: Record)
    ensures r in Present(s) <==> InStorage(s, r)
  {
    if r.TokenOwner? || r.LockedContent? || r.Metadata? || r.ViewCounter? {
      TokenRecordsIff(s, r);
      assert r !in OwnerRecords(s) && r !in FixedRecords(s);
    } else if r.OwnerToken? || r.Balance? {
      OwnerRecordsIff(s, r);
      assert r !in TokenRecords(s) && r !in FixedRecords(s);
    } else {
      assert r !in TokenRecords(s) && r !in OwnerRecords(s);
    }
  }

  /** Every record a ledger that keeps the invariant holds is well formed, so no two share a key. */
  lemma StoredWellFormed(s: Ledger, r: Record)
    requires OwnersWellFormed(s) && IndexMirrorsOwners(s) && BalancesCountTokens(s) && ContentFollowsTokens(s)
    requires r in Present(s)
    ensures WellFormed(r)
  {
    PresentIff(s, r);
    match r
    case OwnerToken(owner, id) =>
      assert id in s.owners && s.owners[id] == owner;
    case Metadata(id) =>
      assert id in s.owners;
    case _ =>
  }

  /** Prefixing is injective, so an image under a prefix has as many keys as ids. */
  lemma {:induction false} PrefixImageCard(p: Bytes, xs: set<Bytes>)
    ensures |set x | x in xs :: p + x| == |xs|
    decreases |xs|
  {
    if xs != {} {
      var x :| x in xs;
      var rest := xs - {x};
      PrefixImageCard(p, rest);
      var img := set y | y in xs :: p + y;
      var imgRest := set y | y in rest :: p + y;
      assert img == imgRest + {p + x};
      forall y | y in rest
        ensures p + y != p + x
      {
        if p + y == p + x {
          StripPrefix(p, y, x);
        }
      }
      assert p + x !in imgRest;
    }
  }

  /** The keys `tokens()` could find: each live token's key and, once written, TOKEN_COUNT. */
  function TokenScanImage(s: Ledger): set<Bytes> {
    (set id | id in s.owners :: TokenKey(id)) + (if s.tokenCount.Some? then {TOKEN_COUNT} else {})
  }

  /** A key the token scan finds is a live token's key or TOKEN_COUNT. */
  lemma TokensScanSound(s: Ledger, k: Bytes)
    requires OwnersWellFormed(s) && IndexMirrorsOwners(s) && BalancesCountTokens(s) && ContentFollowsTokens(s)
    requires k in Tokens(s)
    ensures k in TokenScanImage(s)
  {
    assert k in StoreKeys(s);
    var r :| r in Present(s) && KeyOf(r) == k;
    StoredWellFormed(s, r);
    PresentIff(s, r);
    TokenScanDomain(r);
    if r.TokenOwner? {
      assert k in (set id | id in s.owners :: TokenKey(id));
    }
  }

  /** The token scan finds every live token's key, and TOKEN_COUNT once it is written. */
  lemma TokensScanComplete(s: Ledger, k: Bytes)
    requires k in TokenScanImage(s)
    ensures k in Tokens(s)
  {
    var r: Record;
    if s.tokenCount.Some? && k == TOKEN_COUNT {
      r := TokenCounter;
    } else {
      var id :| id in s.owners && TokenKey(id) == k;
      r := TokenOwner(id);
    }
    PresentIff(s, r);
    assert KeyOf(r) == k;
    assert k in StoreKeys(s);
  }

  /**
   * `tokens()` finds the key of every live token and, once the counter has
   * been written, the counter's key TOKEN_COUNT as well.
   */
  lemma TokensScan(s: Ledger)
    requires Inv(s)
    ensures Tokens(s) == TokenScanImage(s)
  {
    forall k | k in Tokens(s)
      ensures k in TokenScanImage(s)
    {
      TokensScanSound(s, k);
    }
    forall k | k in TokenScanImage(s)
      ensures k in Tokens(s)
    {
      TokensScanComplete(s, k);
    }
  }

  /** Once TOKEN_COUNT is written, the scan image holds one key per live token plus TOKEN_COUNT. */
  lemma TokenScanImageCard(s: Ledger)
    requires OwnersWellFormed(s) && s.tokenCount.Some?
    ensures TOKEN_COUNT in TokenScanImage(s)
    ensures |TokenScanImage(s)| == |s.owners| + 1
  {
    var img := set id | id in s.owners :: TokenKey(id);
    assert img == set x | x in s.owners.Keys :: TOKEN_PREFIX + x;
    PrefixImageCard(TOKEN_PREFIX, s.owners.Keys);
    forall id | id in s.owners
      ensures TokenKey(id) != TOKEN_COUNT
    {
      TokenCountIsNoTokenKey(id);
    }
    assert TOKEN_COUNT !in img;
    assert TokenScanImage(s) == img + {TOKEN_COUNT};
  }

  /** After deploy (or any mint), `tokens()` yields one key more than the total supply. */
  lemma TokensScanCount(s: Ledger)
    requires Inv(s) && s.tokenCount.Some?
    ensures TOKEN_COUNT in Tokens(s)
    ensures |Tokens(s)| == TotalSupply(s) + 1
  {
    TokensScan(s);
    TokenScanImageCard(s);
  }

  /** The keys `tokensOf(a)` should find: one index key per token `a` owns. */
  function AccountScanImage(s: Ledger, a: Bytes): set<Bytes> {
    set id | id in OwnedBy(s.owners, a) :: IndexKey(a, id)
  }

  /** There is one index key per token `a` owns. */
  lemma AccountScanImageCard(s: Ledger, a: Bytes)
    ensures |AccountScanImage(s, a)| == |OwnedBy(s.owners, a)|
  {
    assert AccountScanImage(s, a) == set x | x in OwnedBy(s.owners, a) :: AccountPrefix(a) + x;
    PrefixImageCard(AccountPrefix(a), OwnedBy(s.owners, a));
  }

  /** Every key the scan of `a`'s account prefix finds is the index key of a token `a` owns. */
  lemma TokensOfSound(s: Ledger, a: Bytes, k: Bytes)
    requires OwnersWellFormed(s) && IndexMirrorsOwners(s) && BalancesCountTokens(s) && ContentFollowsTokens(s)
    requires IsAddress(a) && k in StoreKeys(s) && AccountPrefix(a) <= k
    ensures k in AccountScanImage(s, a)
  {
    var r :| r in Present(s) && KeyOf(r) == k;
    StoredWellFormed(s, r);
    PresentIff(s, r);
    AccountScanDomain(r, a);
    assert (a, r.id) in s.index;
    assert r.id in OwnedBy(s.owners, a);
  }

  /** The scan of `a`'s account prefix finds the index key of every token `a` owns. */
  lemma TokensOfComplete(s: Ledger, a: Bytes, k: Bytes)
    requires IndexMirrorsOwners(s)
    requires k in AccountScanImage(s, a)
    ensures k in StoreKeys(s) && AccountPrefix(a) <= k
  {
    var id :| id in OwnedBy(s.owners, a) && IndexKey(a, id) == k;
    assert (a, id) in s.index;
    PresentIff(s, OwnerToken(a, id));
    assert KeyOf(OwnerToken(a, id)) == k;
    assert k[..|AccountPrefix(a)|] == AccountPrefix(a);
  }

  /**
   * `tokensOf(owner)` finds exactly the index keys of the tokens the owner
   * holds, as many as `balanceOf(owner)` reports.
   */
  lemma TokensOfScan(s: Ledger, a: Bytes)
    requires Inv(s) && IsAddress(a)
    ensures TokensOf(s, a) == Done(AccountScanImage(s, a))
    ensures BalanceOf(s, a) == Done(|TokensOf(s, a).value|)
  {
    var scan := set k | k in StoreKeys(s) && AccountPrefix(a) <= k;
    forall k | k in scan
      ensures k in AccountScanImage(s, a)
    {
      TokensOfSound(s, a, k);
    }
    forall k | k in AccountScanImage(s, a)
      ensures k in scan
    {
      TokensOfComplete(s, a, k);
    }
    assert scan == AccountScanImage(s, a);
    AccountScanImageCard(s, a);
  }
}
