/**
 * The NEP-11 ledger of the GhostMarket NFT contract as a state machine over
 * its storage. Each public operation is a function from the storage before
 * the call to the storage after it and the call's result. A raise leaves the
 * storage as it was, because the host reverts every write of a failed call.
 *
 * The host services are parameters: `w` is the set of addresses whose
 * witness the transaction carries (`check_witness`), `paid` is the result of
 * the GAS `transfer` that collects the mint fee, and a minted token's id is
 * supplied by the caller in place of the transaction-hash entropy.
 */
module LedgerSpec {
  import opened Types
  import opened KeySpace

  /** Script hash of the contract owner. */
  const OWNER: Bytes := [0x96, 0x57, 0x6C, 0x0E, 0x2A, 0x2A, 0x1C, 0x21, 0xC4, 0xAC,
                         0x5E, 0xBD, 0x29, 0x33, 0x31, 0x15, 0x25, 0x41, 0x1F, 0x40]

  /** The mint fee `deploy` configures. */
  const DEPLOY_FEE: int := 10000000

  const TOKEN_SYMBOL: string := "GHOST"

  function Symbol(): string {
    TOKEN_SYMBOL
  }

  function Decimals(): int {
    0
  }

  /** The contract's storage, one field per key shape of KeySpace. */
  datatype Ledger = Ledger(
    owners: map<Bytes, Bytes>,     // TOKEN_PREFIX + id         -> owner
    index: set<(Bytes, Bytes)>,    // ACCOUNT_PREFIX + owner + id, as (owner, id)
    balances: map<Bytes, int>,     // BALANCE_PREFIX + owner    -> count
    supply: Option<int>,           // SUPPLY_PREFIX
    locked: map<Bytes, Bytes>,     // LOCKED_PREFIX + id        -> payload
    meta: map<Bytes, Bytes>,       // META_PREFIX + id          -> serialized metadata
    views: map<Bytes, int>,        // LOCKED_VIEW_COUNT + id    -> count
    tokenCount: Option<int>,       // TOKEN_COUNT
    mintFee: Option<int>,          // MINT_FEE
    auth: Option<seq<Bytes>>,      // AUTH_ADDRESSES
    deployed: bool)                // DEPLOYED

  /** The storage of a freshly installed contract. */
  const Empty: Ledger := Ledger(map[], {}, map[], None, map[], map[], map[], None, None, None, false)

  /** The storage after a call, and the call's result. */
  datatype Step<+T> = Step(post: Ledger, out: Outcome<T>)

  // Reads. A missing key reads as the empty byte string, whose `to_int()` is 0.

  function ReadInt(v: Option<int>): int {
    if v.Some? then v.value else 0
  }

  function ReadIntAt(m: map<Bytes, int>, k: Bytes): int {
    if k in m then m[k] else 0
  }

  function ReadBytesAt(m: map<Bytes, Bytes>, k: Bytes): Bytes {
    if k in m then m[k] else []
  }

  /** `get_owner_of`: the stored owner, or the empty address when the token is not live. */
  function OwnerOf(s: Ledger, id: Bytes): Bytes {
    ReadBytesAt(s.owners, id)
  }

  /** `balanceOf`: asserts a 20-byte address, then reads the balance. */
  function BalanceOf(s: Ledger, owner: Bytes): Outcome<int> {
    if !IsAddress(owner) then Abort(AssertionFailed) else Done(ReadIntAt(s.balances, owner))
  }

  function TotalSupply(s: Ledger): int {
    ReadInt(s.supply)
  }

  function GetMintFee(s: Ledger): int {
    ReadInt(s.mintFee)
  }

  function LockedViewCount(s: Ledger, id: Bytes): int {
    ReadIntAt(s.views, id)
  }

  function GetMeta(s: Ledger, id: Bytes): Bytes {
    ReadBytesAt(s.meta, id)
  }

  /** `verify()`: only the contract owner's witness counts; the authorised list is not consulted. */
  function Verify(w: set<Bytes>): bool {
    OWNER in w
  }

  /** The tokens whose owner record names `a`. */
  function OwnedBy(owners: map<Bytes, Bytes>, a: Bytes): set<Bytes> {
    set id | id in owners && owners[id] == a
  }

  /** `add_to_balance` once its address assertion has passed: a balance that is not positive is deleted. */
  function AddToBalance(b: map<Bytes, int>, owner: Bytes, amount: int): map<Bytes, int> {
    var n := ReadIntAt(b, owner) + amount;
    if n > 0 then b[owner := n] else b - {owner}
  }

  function AddToSupply(s: Ledger, amount: int): Option<int> {
    Some(TotalSupply(s) + amount)
  }

  /** `transfer(to, id, data)`. */
  function Transfer(s: Ledger, w: set<Bytes>, to: Bytes, id: Bytes): Step<bool> {
    if !IsAddress(to) then Step(s, Abort(AssertionFailed))
    else
      var owner := OwnerOf(s, id);
      if owner !in w then Step(s, Done(false))
      else if owner == to then Step(s, Done(true))
      else if !IsAddress(owner) then Step(s, Abort(AssertionFailed))
      else
        Step(s.(owners := s.owners[id := to],
                index := s.index - {(owner, id)} + {(to, id)},
                balances := AddToBalance(AddToBalance(s.balances, owner, -1), to, 1)),
             Done(true))
  }

  /** `internal_burn(id)`, which `burn` calls. Locked content and the view counter stay. */
  function Burn(s: Ledger, w: set<Bytes>, id: Bytes): Step<bool> {
    var owner := OwnerOf(s, id);
    if owner !in w then Step(s, Done(false))
    else if !IsAddress(owner) then Step(s, Abort(AssertionFailed))
    else
      Step(s.(index := s.index - {(owner, id)},
              meta := s.meta - {id},
              owners := s.owners - {id},
              balances := AddToBalance(s.balances, owner, -1),
              supply := AddToSupply(s, -1)),
           Done(true))
  }

  /** `internal_mint(account, meta, lockedContent, data)` with `id` as the derived token id. */
  function InternalMint(s: Ledger, account: Bytes, meta: Bytes, content: Bytes, id: Bytes): Step<Bytes> {
    if !IsAddress(account) then Step(s, Abort(AssertionFailed))
    else
      Step(s.(tokenCount := Some(ReadInt(s.tokenCount) + 1),
              index := s.index + {(account, id)},
              locked := s.locked[id := content],
              meta := s.meta[id := meta],
              owners := s.owners[id := account],
              balances := AddToBalance(s.balances, account, 1),
              supply := AddToSupply(s, 1)),
           Done(id))
  }

  /** `mint`: reject a negative fee, collect the fee, then mint. */
  function Mint(s: Ledger, account: Bytes, meta: Bytes, content: Bytes, paid: bool, id: Bytes): Step<Bytes> {
    if GetMintFee(s) < 0 then Step(s, Abort(NegativeMintFee))
    else if !paid then Step(s, Abort(FeePaymentFailed))
    else InternalMint(s, account, meta, content, id)
  }

  /** `multiBurn`: burn each id in turn; one raise reverts them all. */
  function MultiBurn(s: Ledger, w: set<Bytes>, ids: seq<Bytes>): Step<seq<bool>>
    decreases |ids|
  {
    if ids == [] then Step(s, Done([]))
    else
      var n := |ids| - 1;
      var before := MultiBurn(s, w, ids[..n]);
      if before.out.Abort? then Step(s, Abort(before.out.fault))
      else
        var last := Burn(before.post, w, ids[n]);
        if last.out.Abort? then Step(s, Abort(last.out.fault))
        else Step(last.post, Done(before.out.value + [last.out.value]))
  }

  /**
   * `multiMint`: mint once per metadata entry, pairing it with the locked
   * content at the same position; `paid[i]` and `ids[i]` belong to the i-th mint.
   */
  function MultiMint(s: Ledger, account: Bytes, metas: seq<Bytes>, contents: seq<Bytes>,
                     paid: seq<bool>, ids: seq<Bytes>): Step<seq<Bytes>>
    requires |paid| == |metas| && |ids| == |metas|
    decreases |metas|
  {
    if metas == [] then Step(s, Done([]))
    else
      var n := |metas| - 1;
      var before := MultiMint(s, account, metas[..n], contents, paid[..n], ids[..n]);
      if before.out.Abort? then Step(s, Abort(before.out.fault))
      else if n >= |contents| then Step(s, Abort(IndexOutOfRange))
      else
        var last := Mint(before.post, account, metas[n], contents[n], paid[n], ids[n]);
        if last.out.Abort? then Step(s, Abort(last.out.fault))
        else Step(last.post, Done(before.out.value + [last.out.value]))
  }

  /** `getLockedContent(id)`: only the current owner may read; each read is counted. */
  function GetLockedContent(s: Ledger, w: set<Bytes>, id: Bytes): Step<Bytes> {
    if OwnerOf(s, id) !in w then Step(s, Abort(LockedContentProhibited))
    else
      Step(s.(views := s.views[id := LockedViewCount(s, id) + 1]),
           Done(ReadBytesAt(s.locked, id)))
  }

  /** `deploy()`: once, by the owner. */
  function Deploy(s: Ledger, w: set<Bytes>): Step<bool> {
    if OWNER !in w || s.deployed then Step(s, Done(false))
    else
      Step(s.(deployed := true,
              tokenCount := Some(0),
              mintFee := Some(DEPLOY_FEE),
              auth := Some([OWNER])),
           Done(true))
  }

  /** `setMintFee(fee)`: any fee, negative included, once `verify()` holds. */
  function SetMintFee(s: Ledger, w: set<Bytes>, fee: int): Step<int> {
    if !Verify(w) then Step(s, Abort(AssertionFailed))
    else Step(s.(mintFee := Some(fee)), Done(fee))
  }

  /** The list after Python's `list.remove(x)`: its first occurrence of `x` is gone. */
  function RemoveFirst(s: seq<Bytes>, x: Bytes): seq<Bytes>
    requires x in s
  {
    if s[0] == x then s[1..] else [s[0]] + RemoveFirst(s[1..], x)
  }

  /** `set_authorized_address(address, authorized)`. */
  function SetAuthorizedAddress(s: Ledger, w: set<Bytes>, address: Bytes, authorized: bool): Step<bool> {
    if !Verify(w) then Step(s, Done(false))
    else if s.auth.None? then Step(s, Abort(DeserializeFailed))
    else
      var auth := s.auth.value;
      if authorized then
        Step(s.(auth := Some(if address in auth then auth else auth + [address])), Done(true))
      else if address !in auth then Step(s, Abort(NotInList))
      else Step(s.(auth := Some(RemoveFirst(auth, address))), Done(true))
  }

  // The flat store and its prefix scans.

  /** The per-token records present in storage. */
  function TokenRecords(s: Ledger): set<Record> {
    (set id | id in s.owners :: TokenOwner(id))
    + (set id | id in s.locked :: LockedContent(id))
    + (set id | id in s.meta :: Metadata(id))
    + (set id | id in s.views :: ViewCounter(id))
  }

  /** The per-owner records present in storage. */
  function OwnerRecords(s: Ledger): set<Record> {
    (set p | p in s.index :: OwnerToken(p.0, p.1))
    + (set a | a in s.balances :: Balance(a))
  }

  /** The fixed-key records present in storage. */
  function FixedRecords(s: Ledger): set<Record> {
    (if s.supply.Some? then {Supply} else {})
    + (if s.tokenCount.Some? then {TokenCounter} else {})
    + (if s.mintFee.Some? then {MintFeeSetting} else {})
    + (if s.auth.Some? then {AuthorizedAddresses} else {})
    + (if s.deployed then {DeployedFlag} else {})
  }

  /** The records present in storage. */
  function Present(s: Ledger): set<Record> {
    TokenRecords(s) + OwnerRecords(s) + FixedRecords(s)
  }

  /** Whether a record is in storage. */
  predicate InStorage(s: Ledger, r: Record) {
    match r
    case TokenOwner(id) => id in s.owners
    case OwnerToken(owner, id) => (owner, id) in s.index
    case Balance(owner) => owner in s.balances
    case Supply => s.supply.Some?
    case LockedContent(id) => id in s.locked
    case Metadata(id) => id in s.meta
    case ViewCounter(id) => id in s.views
    case TokenCounter => s.tokenCount.Some?
    case MintFeeSetting => s.mintFee.Some?
    case AuthorizedAddresses => s.auth.Some?
    case DeployedFlag => s.deployed
  }

  /** The keys present in the flat store. */
  function StoreKeys(s: Ledger): set<Bytes> {
    set r | r in Present(s) :: KeyOf(r)
  }

  /** `tokens()`: the keys a scan of TOKEN_PREFIX finds. */
  function Tokens(s: Ledger): set<Bytes> {
    set k | k in StoreKeys(s) && TOKEN_PREFIX <= k
  }

  /** `tokensOf(owner)`: the keys a scan of the owner's account prefix finds. */
  function TokensOf(s: Ledger, owner: Bytes): Outcome<set<Bytes>> {
    if !IsAddress(owner) then Abort(AssertionFailed)
    else Done(set k | k in StoreKeys(s) && AccountPrefix(owner) <= k)
  }

  // The accounting invariant.

  /** No address occurs twice in the list. */
  predicate NoDup(s: seq<Bytes>) {
    forall i, j | 0 <= i < j < |s| :: s[i] != s[j]
  }

  /** Every live token has a GHOST id and a 20-byte owner. */
  ghost predicate OwnersWellFormed(s: Ledger) {
    forall id | id in s.owners :: IsGhostId(id) && IsAddress(s.owners[id])
  }

  /** The per-owner index holds exactly the (owner, id) pairs of the owner records. */
  ghost predicate IndexMirrorsOwners(s: Ledger) {
    && (forall p | p in s.index :: p.1 in s.owners && s.owners[p.1] == p.0)
    && (forall id | id in s.owners :: (s.owners[id], id) in s.index)
  }

  /** A balance is stored only when positive, and reads as the number of tokens its owner holds. */
  ghost predicate BalancesCountTokens(s: Ledger) {
    && (forall a | a in s.balances :: IsAddress(a) && s.balances[a] > 0)
    && (forall a :: ReadIntAt(s.balances, a) == |OwnedBy(s.owners, a)|)
  }

  /** The supply is the number of live tokens. */
  ghost predicate SupplyCountsTokens(s: Ledger) {
    TotalSupply(s) == |s.owners|
  }

  /** Metadata exists exactly for live tokens; locked content outlives its token. */
  ghost predicate ContentFollowsTokens(s: Ledger) {
    && s.meta.Keys == s.owners.Keys
    && s.owners.Keys <= s.locked.Keys
    && (forall id | id in s.locked :: IsGhostId(id))
  }

  /** The authorised list is stored exactly once deployed, and holds no address twice. */
  ghost predicate AuthListValid(s: Ledger) {
    && (s.auth.Some? <==> s.deployed)
    && (s.auth.Some? ==> NoDup(s.auth.value))
  }

  /** What every reachable storage satisfies: the accounting invariant and the shape of every record. */
  ghost predicate Inv(s: Ledger) {
    && OwnersWellFormed(s)
    && IndexMirrorsOwners(s)
    && BalancesCountTokens(s)
    && SupplyCountsTokens(s)
    && ContentFollowsTokens(s)
    && AuthListValid(s)
  }

  /** A token id `mint` may use: of the contract's own form and not live. */
  predicate FreshId(s: Ledger, id: Bytes) {
    IsGhostId(id) && id !in s.owners
  }

  /** Ids for a batch of mints: each fresh, no two equal. */
  predicate FreshIds(s: Ledger, ids: seq<Bytes>) {
    && (forall i | 0 <= i < |ids| :: FreshId(s, ids[i]))
    && (forall i, j | 0 <= i < j < |ids| :: ids[i] != ids[j])
  }
}
