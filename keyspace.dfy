/**
 * The flat storage namespace of the contract: the fixed keys, the key prefixes,
 * the `mk_*` key builders, and the proof that the records the ledger writes
 * never share a key.
 */
module KeySpace {
  import opened Types

  // Prefixes, byte for byte.
  const ACCOUNT_PREFIX: Bytes := [0x41]                  // "A"
  const TOKEN_PREFIX: Bytes := [0x54]                    // "T"
  const LOCKED_PREFIX: Bytes := [0x4C, 0x43]             // "LC"
  const BALANCE_PREFIX: Bytes := [0x42]                  // "B"
  const SUPPLY_PREFIX: Bytes := [0x53]                   // "S"
  const META_PREFIX: Bytes := [0x4D]                     // "M"
  const LOCKED_VIEW_COUNT: Bytes := [0x4C, 0x56, 0x43]   // "LVC"

  // Fixed keys.
  const TOKEN_COUNT: Bytes := [0x54, 0x43]               // "TC"
  const MINT_FEE: Bytes := [0x4D, 0x49, 0x4E, 0x54, 0x5F, 0x46, 0x45, 0x45]        // "MINT_FEE"
  const AUTH_ADDRESSES: Bytes := [0x41, 0x55, 0x54, 0x48, 0x5F, 0x41, 0x44, 0x44, 0x52]  // "AUTH_ADDR"
  const DEPLOYED: Bytes := [0x64, 0x65, 0x70, 0x6C, 0x6F, 0x79, 0x65, 0x64]        // "deployed"

  /** The token symbol as bytes; every token id the contract mints starts with it. */
  const TOKEN_SYMBOL_B: Bytes := [0x47, 0x48, 0x4F, 0x53, 0x54]  // "GHOST"

  /** A UInt160 script hash. */
  predicate IsAddress(a: Bytes) {
    |a| == 20
  }

  /** A token id as `internal_mint` builds it: the symbol bytes followed by the entropy bytes. */
  predicate IsGhostId(id: Bytes) {
    TOKEN_SYMBOL_B <= id
  }

  // The key builders.

  function AccountPrefix(owner: Bytes): Bytes {
    ACCOUNT_PREFIX + owner
  }

  /** The per-owner index key that `add_token` and `remove_token` build. */
  function IndexKey(owner: Bytes, id: Bytes): Bytes {
    AccountPrefix(owner) + id
  }

  function BalanceKey(owner: Bytes): Bytes {
    BALANCE_PREFIX + owner
  }

  function TokenKey(id: Bytes): Bytes {
    TOKEN_PREFIX + id
  }

  function LockedKey(id: Bytes): Bytes {
    LOCKED_PREFIX + id
  }

  function MetaKey(id: Bytes): Bytes {
    META_PREFIX + id
  }

  function ViewCountKey(id: Bytes): Bytes {
    LOCKED_VIEW_COUNT + id
  }

  /** Every builder is a fixed prefix followed by its argument, so equal keys have equal arguments. */
  lemma {:induction false} StripPrefix(p: Bytes, x: Bytes, y: Bytes)
    requires p + x == p + y
    ensures x == y
  {
    assert x == (p + x)[|p|..];
    assert y == (p + y)[|p|..];
  }

  lemma AccountPrefixInjective(a1: Bytes, a2: Bytes)
    requires AccountPrefix(a1) == AccountPrefix(a2)
    ensures a1 == a2
  {
    StripPrefix(ACCOUNT_PREFIX, a1, a2);
  }

  /** Two index keys of 20-byte owners are equal only for the same owner and token. */
  lemma IndexKeyInjective(a1: Bytes, id1: Bytes, a2: Bytes, id2: Bytes)
    requires IsAddress(a1) && IsAddress(a2)
    requires IndexKey(a1, id1) == IndexKey(a2, id2)
    ensures a1 == a2 && id1 == id2
  {
    var k := IndexKey(a1, id1);
    assert a1 == k[1..21] == a2;
    assert id1 == k[21..] == id2;
  }

  lemma BalanceKeyInjective(a1: Bytes, a2: Bytes)
    requires BalanceKey(a1) == BalanceKey(a2)
    ensures a1 == a2
  {
    StripPrefix(BALANCE_PREFIX, a1, a2);
  }

  lemma TokenKeyInjective(id1: Bytes, id2: Bytes)
    requires TokenKey(id1) == TokenKey(id2)
    ensures id1 == id2
  {
    StripPrefix(TOKEN_PREFIX, id1, id2);
  }

  lemma LockedKeyInjective(id1: Bytes, id2: Bytes)
    requires LockedKey(id1) == LockedKey(id2)
    ensures id1 == id2
  {
    StripPrefix(LOCKED_PREFIX, id1, id2);
  }

  lemma MetaKeyInjective(id1: Bytes, id2: Bytes)
    requires MetaKey(id1) == MetaKey(id2)
    ensures id1 == id2
  {
    StripPrefix(META_PREFIX, id1, id2);
  }

  lemma ViewCountKeyInjective(id1: Bytes, id2: Bytes)
    requires ViewCountKey(id1) == ViewCountKey(id2)
    ensures id1 == id2
  {
    StripPrefix(LOCKED_VIEW_COUNT, id1, id2);
  }

  /** One storage record of the contract, named by what it holds. */
  datatype Record =
    | TokenOwner(id: Bytes)                  // owner of a live token
    | OwnerToken(owner: Bytes, id: Bytes)    // per-owner token index entry
    | Balance(owner: Bytes)
    | Supply
    | LockedContent(id: Bytes)
    | Metadata(id: Bytes)
    | ViewCounter(id: Bytes)
    | TokenCounter
    | MintFeeSetting
    | AuthorizedAddresses
    | DeployedFlag

  /** The storage key under which a record is kept. */
  function KeyOf(r: Record): Bytes {
    match r
    case TokenOwner(id) => TokenKey(id)
    case OwnerToken(owner, id) => IndexKey(owner, id)
    case Balance(owner) => BalanceKey(owner)
    case Supply => SUPPLY_PREFIX
    case LockedContent(id) => LockedKey(id)
    case Metadata(id) => MetaKey(id)
    case ViewCounter(id) => ViewCountKey(id)
    case TokenCounter => TOKEN_COUNT
    case MintFeeSetting => MINT_FEE
    case AuthorizedAddresses => AUTH_ADDRESSES
    case DeployedFlag => DEPLOYED
  }

  /**
   * The records the ledger writes: owners are 20-byte addresses and the ids
   * of token records are GHOST ids. A view counter can be written for any id.
   */
  predicate WellFormed(r: Record) {
    match r
    case TokenOwner(id) => IsGhostId(id)
    case OwnerToken(owner, id) => IsAddress(owner) && IsGhostId(id)
    case Balance(owner) => IsAddress(owner)
    case LockedContent(id) => IsGhostId(id)
    case Metadata(id) => IsGhostId(id)
    case _ => true
  }

  /** The first byte of a record's key. */
  function FirstByte(r: Record): int {
    match r
    case TokenOwner(_) => 0x54
    case TokenCounter => 0x54
    case OwnerToken(_, _) => 0x41
    case AuthorizedAddresses => 0x41
    case Balance(_) => 0x42
    case Supply => 0x53
    case LockedContent(_) => 0x4C
    case ViewCounter(_) => 0x4C
    case Metadata(_) => 0x4D
    case MintFeeSetting => 0x4D
    case DeployedFlag => 0x64
  }

  /** The byte that distinguishes records sharing a first key byte. */
  function SecondByte(r: Record): int
    requires WellFormed(r)
  {
    match r
    case TokenOwner(_) => 0x47          // "TG..."
    case TokenCounter => 0x43           // "TC"
    case LockedContent(_) => 0x43       // "LCG..."
    case ViewCounter(_) => 0x56         // "LVC..."
    case Metadata(_) => 0x47            // "MG..."
    case MintFeeSetting => 0x49         // "MI..."
    case _ => 0
  }

  lemma KeyBytes(r: Record)
    requires WellFormed(r)
    ensures |KeyOf(r)| >= 1 && KeyOf(r)[0] as int == FirstByte(r)
    ensures (r.TokenOwner? || r.TokenCounter? || r.LockedContent? || r.ViewCounter? || r.Metadata? || r.MintFeeSetting?)
            ==> |KeyOf(r)| >= 2 && KeyOf(r)[1] as int == SecondByte(r)
    ensures r.OwnerToken? ==> |KeyOf(r)| >= 26
  {
    match r
    case TokenOwner(id) =>
      assert KeyOf(r)[1] == id[0] == TOKEN_SYMBOL_B[0];
    case LockedContent(id) =>
      assert KeyOf(r)[1] == LOCKED_PREFIX[1];
    case Metadata(id) =>
      assert KeyOf(r)[1] == id[0] == TOKEN_SYMBOL_B[0];
    case ViewCounter(id) =>
      assert KeyOf(r)[1] == LOCKED_VIEW_COUNT[1];
    case _ =>
  }

  /**
   * No two well-formed records share a key: the flat namespace holds every
   * entity of the ledger without cross-entity collisions.
   */
  lemma KeyOfInjective(r1: Record, r2: Record)
    requires WellFormed(r1) && WellFormed(r2)
    requires KeyOf(r1) == KeyOf(r2)
    ensures r1 == r2
  {
    KeyBytes(r1);
    KeyBytes(r2);
    var k := KeyOf(r1);
    assert FirstByte(r1) == FirstByte(r2) by {
      assert k[0] == KeyOf(r2)[0];
    }
    match r1
    case TokenOwner(id) =>
      assert r2.TokenOwner? by { assert k[1] == KeyOf(r2)[1]; }
      TokenKeyInjective(id, r2.id);
    case OwnerToken(owner, id) =>
      assert r2.OwnerToken? by { assert |k| == |KeyOf(r2)|; }
      IndexKeyInjective(owner, id, r2.owner, r2.id);
    case Balance(owner) =>
      BalanceKeyInjective(owner, r2.owner);
    case LockedContent(id) =>
      assert r2.LockedContent? by { assert k[1] == KeyOf(r2)[1]; }
      LockedKeyInjective(id, r2.id);
    case Metadata(id) =>
      assert r2.Metadata? by { assert k[1] == KeyOf(r2)[1]; }
      MetaKeyInjective(id, r2.id);
    case ViewCounter(id) =>
      assert r2.ViewCounter? by { assert k[1] == KeyOf(r2)[1]; }
      ViewCountKeyInjective(id, r2.id);
    case TokenCounter =>
      assert k[1] == KeyOf(r2)[1];
    case MintFeeSetting =>
      assert k[1] == KeyOf(r2)[1];
    case AuthorizedAddresses =>
      assert |k| == |KeyOf(r2)|;
    case _ =>
  }

  /**
   * The global token scan over TOKEN_PREFIX is not exact: it finds the owner
   * records, and also the fixed key TOKEN_COUNT, which is no token's key.
   */
  lemma TokenScanDomain(r: Record)
    requires WellFormed(r)
    ensures TOKEN_PREFIX <= KeyOf(r) <==> r.TokenOwner? || r.TokenCounter?
  {
    KeyBytes(r);
  }

  /** The per-owner scan over AccountPrefix(owner) finds exactly that owner's index entries. */
  lemma AccountScanDomain(r: Record, owner: Bytes)
    requires WellFormed(r) && IsAddress(owner)
    ensures AccountPrefix(owner) <= KeyOf(r) <==> r.OwnerToken? && r.owner == owner
  {
    KeyBytes(r);
    if AccountPrefix(owner) <= KeyOf(r) {
      var k := KeyOf(r);
      assert FirstByte(r) == 0x41 by { assert k[0] == AccountPrefix(owner)[0]; }
      assert !r.AuthorizedAddresses? by { assert |k| >= 21; }
      assert k[1..21] == owner;
      assert k[1..21] == r.owner;
    }
  }

  /** No token id of the contract's own form builds the key TOKEN_COUNT. */
  lemma TokenCountIsNoTokenKey(id: Bytes)
    requires IsGhostId(id)
    ensures TokenKey(id) != TOKEN_COUNT
    ensures TOKEN_PREFIX <= TOKEN_COUNT
  {
    KeyBytes(TokenOwner(id));
  }
}
