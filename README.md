# GhostMarket NEP-11 NFT ledger in Dafny

This project models the ledger core of `contracts/NEP11/GhostMarket.NFT.py`, the
GhostMarket NFT contract for the NEO N3 NEP-11 standard, and proves properties of it.

The contract keeps all its state in one flat key-value store. The keys are:

- `T`+id: the owner of a live token;
- `A`+owner+id: the owner's token index entry;
- `B`+owner: the owner's balance;
- `S`: the total supply;
- `LC`+id: the token's locked content;
- `M`+id: the token's metadata;
- `LVC`+id: how many times the locked content was read;
- the fixed keys `TC` (mint counter), `MINT_FEE`, `AUTH_ADDR` (the authorised-address list) and `deployed`.

The model has these modules:

- **Types**: byte strings, `Option`, and the outcome of a public call. An outcome is either a returned value or a raise with its reason.
- **KeySpace**: the prefixes, the fixed keys and the `mk_*` key builders. It proves that the records the contract writes never share a key (`KeyOfInjective`). This is why the store can be modelled as one map per key shape. It also states which records the prefix scans behind `tokens()` and `tokensOf()` find.
- **LedgerSpec**: the storage as a datatype `Ledger` with one field per key shape. Each public operation is a function from the storage before the call to the storage after it and the call's result. A raise leaves the storage unchanged, because the host reverts every write of a failed invocation. The module also defines the accounting invariant `Inv`: every balance is the number of tokens its owner holds, the supply is the number of live tokens, the index mirrors the owner records, every live token has metadata and locked content, and the authorised list holds no duplicates.
- **LedgerProperties**, **ScanProperties** and **BatchProperties**: the lemmas about the single operations, the prefix scans and the `multiBurn`/`multiMint` batches.
- **Scenario**: one token's life cycle computed on concrete values.
- **Contract**: the class `NftContract`. Its fields are the storage records. Its storage helpers (`set_owner_of`, `add_token`, `add_to_balance`, …) update the fields in place, and its entry points call them in the source's order. The batch entry points and the list search in `set_authorized_address` are loops. Each state-changing entry point is proved to leave exactly the storage, and return exactly the result, that LedgerSpec gives. A raise after some writes restores the snapshot taken at entry (`Restore`), which models the host revert.

Host services are parameters:

- `check_witness` is a set `w` of witnessed addresses;
- the GAS fee transfer in `mint` is a boolean `paid`;
- the token id that `internal_mint` derives from the transaction hash is a parameter `id`. The invariant lemmas require it to be fresh: it starts with `GHOST` and is not live.

The `len(owner) == 20` assertion inside `balanceOf` also runs whenever `add_to_balance` is called. The model keeps it as an `AssertionFailed` raise.

Where the code and its documentation disagree, the model follows the code:

- `internal_burn` deletes neither the locked content nor the view counter. Only the index entry, the metadata and the owner record go.
- `verify()` accepts only `OWNER`'s witness. So `setMintFee` and `set_authorized_address` are gated by `OWNER` alone, and the authorised list is never consulted.
- `setMintFee` stores any fee, negative included. Only `mint` rejects a negative fee.
- A failed fee payment in `mint` raises. It does not return false.
- `OWNER` can remove itself from the authorised list.
- `mint` has no `deployed` check, and an absent `MINT_FEE` reads as 0. Until `OWNER` stores a fee with `setMintFee`, which has no `deployed` check either, anyone can mint for free before deploy. `deploy` then writes TOKEN_COUNT 0 over the count of those mints, so the counter is not strictly increasing (`LedgerProperties.MintBeforeDeploy`). It also replaces any fee set before it with DEPLOY_FEE (`LedgerProperties.DeployOnce`).
- `tokens()` scans the prefix `T`, which also finds the fixed key `TC`. After deploy it yields one key more than the supply (`ScanProperties.TokensScanCount`).

## Model

| member | source | states |
|---|---|---|
| KeySpace.StripPrefix | contracts/NEP11/GhostMarket.NFT.py:737-753 | a key built as prefix plus argument determines the argument |
| KeySpace.AccountPrefixInjective | contracts/NEP11/GhostMarket.NFT.py:737-738 | different owners have different account prefixes |
| KeySpace.IndexKeyInjective | contracts/NEP11/GhostMarket.NFT.py:664-671 | two index keys of 20-byte owners are equal only for the same owner and the same token |
| KeySpace.BalanceKeyInjective | contracts/NEP11/GhostMarket.NFT.py:740-741 | different owners have different balance keys |
| KeySpace.TokenKeyInjective | contracts/NEP11/GhostMarket.NFT.py:743-744 | different ids have different owner-record keys |
| KeySpace.LockedKeyInjective | contracts/NEP11/GhostMarket.NFT.py:746-747 | different ids have different locked-content keys |
| KeySpace.MetaKeyInjective | contracts/NEP11/GhostMarket.NFT.py:749-750 | different ids have different metadata keys |
| KeySpace.ViewCountKeyInjective | contracts/NEP11/GhostMarket.NFT.py:752-753 | different ids have different view-counter keys |
| KeySpace.KeyBytes | contracts/NEP11/GhostMarket.NFT.py:59-75 | the first key byte of each record kind, and the second byte that tells apart kinds sharing a first byte (`T`/`TC`, `LC`/`LVC`, `M`+id/`MINT_FEE`) |
| KeySpace.KeyOfInjective | contracts/NEP11/GhostMarket.NFT.py:59-75 | no two well-formed records (GHOST ids, 20-byte owners) share a storage key, across all entities |
| KeySpace.TokenScanDomain | contracts/NEP11/GhostMarket.NFT.py:280-288 | a scan of prefix `T` matches exactly the owner records and the fixed key `TC` |
| KeySpace.AccountScanDomain | contracts/NEP11/GhostMarket.NFT.py:213-227 | a scan of an owner's account prefix matches exactly that owner's index entries |
| KeySpace.TokenCountIsNoTokenKey | contracts/NEP11/GhostMarket.NFT.py:60-72 | `TC` starts with the token prefix but is no GHOST token's owner-record key |
| LedgerProperties.AddToBalanceReadBack | contracts/NEP11/GhostMarket.NFT.py:724-732 | after `add_to_balance`, the balance reads as the new value when it is positive and as 0 otherwise; the key is present exactly when the new value is positive; other balances are untouched |
| LedgerProperties.OwnedByUpdate | contracts/NEP11/GhostMarket.NFT.py:677-679 | rewriting a token's owner moves it from every other owner's token set into the new owner's |
| LedgerProperties.OwnedByRemove | contracts/NEP11/GhostMarket.NFT.py:673-675 | deleting an owner record removes the token from its owner's token set |
| LedgerProperties.SymbolIsIdPrefix | contracts/NEP11/GhostMarket.NFT.py:48-49 | the reported symbol is, byte for byte, the prefix of every minted token id |
| LedgerProperties.EmptyInv | contracts/NEP11/GhostMarket.NFT.py:187-211 | empty storage satisfies the accounting invariant: supply and every balance read as 0 |
| LedgerProperties.OwnerOfLive | contracts/NEP11/GhostMarket.NFT.py:681-684 | under the invariant, `get_owner_of` yields a 20-byte address exactly for a live token |
| LedgerProperties.TransferWithoutStorageChange | contracts/NEP11/GhostMarket.NFT.py:250-266 | a transfer the owner has not witnessed returns false, and one to the current owner returns true, both with storage unchanged |
| LedgerProperties.TransferKeepsInv | contracts/NEP11/GhostMarket.NFT.py:250-266 | every transfer from storage that keeps the accounting invariant keeps it; every transfer keeps the supply; a raise leaves storage unchanged |
| LedgerProperties.MoveKeepsInv | contracts/NEP11/GhostMarket.NFT.py:258-264 | moving a live token to another address keeps the invariant and the supply |
| LedgerProperties.TransferKeepsShape | contracts/NEP11/GhostMarket.NFT.py:258-264 | moving a live token keeps the ids and owners well formed, the supply equal to the number of live tokens, metadata and locked content attached to live tokens, and the authorised list valid |
| LedgerProperties.TransferKeepsBalances | contracts/NEP11/GhostMarket.NFT.py:258-264 | the writes of a transfer keep every balance equal to its owner's token count |
| LedgerProperties.TransferKeepsIndex | contracts/NEP11/GhostMarket.NFT.py:258-264 | the writes of a transfer keep the index a mirror of the owner records |
| LedgerProperties.MoveKeepsBalances | contracts/NEP11/GhostMarket.NFT.py:258-264 | the -1 on the old balance and the +1 on the new keep every balance equal to its owner's token count |
| LedgerProperties.MoveKeepsIndex | contracts/NEP11/GhostMarket.NFT.py:258-264 | moving the index entry together with the owner record keeps the index a mirror of the owner records |
| LedgerProperties.TransferMovesToken | contracts/NEP11/GhostMarket.NFT.py:258-264 | a successful transfer to another address needs a live token, makes `to` the owner, moves the index entry from the old owner to `to`, and leaves locked content, metadata and view counters as they were |
| LedgerProperties.TransferMovesBalance | contracts/NEP11/GhostMarket.NFT.py:258-264 | the same transfer lowers the old owner's balance by 1, raises the new owner's by 1, and moves the token from one owner's token set to the other's |
| LedgerProperties.MintRefusals | contracts/NEP11/GhostMarket.NFT.py:343-350 | a negative fee raises `NegativeMintFee` and a failed payment raises `FeePaymentFailed`, in that order; every raise leaves storage unchanged |
| LedgerProperties.InternalMintKeepsInv | contracts/NEP11/GhostMarket.NFT.py:610-649 | minting a fresh id into storage that keeps the accounting invariant keeps it |
| LedgerProperties.InternalMintKeepsShape | contracts/NEP11/GhostMarket.NFT.py:640-645 | minting a fresh GHOST id to an address keeps ids and owners well formed, gives the new token metadata and locked content, and leaves the authorised list alone |
| LedgerProperties.InternalMintKeepsBalances | contracts/NEP11/GhostMarket.NFT.py:643-644 | the writes of a mint of a new id keep every balance equal to its owner's token count |
| LedgerProperties.InternalMintKeepsIndex | contracts/NEP11/GhostMarket.NFT.py:640-643 | the writes of a mint of a new id keep the index a mirror of the owner records |
| LedgerProperties.InternalMintKeepsSupply | contracts/NEP11/GhostMarket.NFT.py:645 | the supply +1 of a mint of a new id keeps the supply equal to the number of live tokens |
| LedgerProperties.AddKeepsBalances | contracts/NEP11/GhostMarket.NFT.py:643-644 | the +1 on the new owner's balance keeps every balance equal to its owner's token count |
| LedgerProperties.AddKeepsIndex | contracts/NEP11/GhostMarket.NFT.py:640-643 | writing the index entry with the owner record keeps the index a mirror of the owner records |
| LedgerProperties.MintCreatesToken | contracts/NEP11/GhostMarket.NFT.py:610-649 | a paid mint to an address returns the id, raises TOKEN_COUNT by 1, writes the owner record, the index entry, the locked content and the metadata, adds exactly that id to the live tokens and leaves view counters alone |
| LedgerProperties.MintCountsToken | contracts/NEP11/GhostMarket.NFT.py:610-649 | a paid mint of a fresh id keeps the ledger invariant and raises the owner's balance and the supply by exactly 1, adding exactly that id to the owner's tokens |
| LedgerProperties.BurnRefused | contracts/NEP11/GhostMarket.NFT.py:594-597 | a burn the owner has not witnessed returns false and changes nothing |
| LedgerProperties.BurnKeepsInv | contracts/NEP11/GhostMarket.NFT.py:582-608 | every burn from storage that keeps the accounting invariant keeps it; a raise leaves storage unchanged |
| LedgerProperties.BurnKeepsShape | contracts/NEP11/GhostMarket.NFT.py:599-605 | burning a live token keeps ids and owners well formed, the supply equal to the number of live tokens, metadata exactly on live tokens, and the authorised list valid |
| LedgerProperties.BurnKeepsBalances | contracts/NEP11/GhostMarket.NFT.py:599-605 | the writes of a burn keep every balance equal to its owner's token count |
| LedgerProperties.BurnKeepsIndex | contracts/NEP11/GhostMarket.NFT.py:599-605 | the writes of a burn keep the index a mirror of the owner records |
| LedgerProperties.RemoveKeepsBalances | contracts/NEP11/GhostMarket.NFT.py:601-602 | deleting the owner record and applying -1 keeps every balance equal to its owner's token count |
| LedgerProperties.RemoveKeepsIndex | contracts/NEP11/GhostMarket.NFT.py:599-601 | deleting the index entry with the owner record keeps the index a mirror |
| LedgerProperties.BurnDestroysToken | contracts/NEP11/GhostMarket.NFT.py:599-605 | a successful burn removes the owner record, the index entry and the metadata; lowers the balance and the supply by 1; and leaves the locked content and the view counter in place |
| LedgerProperties.BurnIsFinal | contracts/NEP11/GhostMarket.NFT.py:594-597 | once burnt, a token cannot be burnt again: a second burn changes nothing and does not return true, whoever witnesses, and returns false unless the empty address is witnessed |
| LedgerProperties.LockedContentGate | contracts/NEP11/GhostMarket.NFT.py:426-433 | a read not witnessed by the owner raises with the counter unchanged; the owner's read returns the stored payload, raises that token's counter by exactly 1, and changes nothing else |
| LedgerProperties.RevealAfterMint | contracts/NEP11/GhostMarket.NFT.py:426-433 | the owner's first read after a mint returns the payload given to the mint |
| LedgerProperties.LockedContentSurvives | contracts/NEP11/GhostMarket.NFT.py:599-605 | transfer and burn leave locked content and view counters as they were |
| LedgerProperties.DeployOnce | contracts/NEP11/GhostMarket.NFT.py:493-509 | deploy returns false with no change unless `OWNER` has witnessed and the contract is not deployed yet; otherwise it sets `deployed`, TOKEN_COUNT 0, fee DEPLOY_FEE and the list `[OWNER]`, leaves every token record (owners, index, balances, supply, locked content, metadata, view counters) as it was, and keeps the invariant |
| LedgerProperties.DeployTwice | contracts/NEP11/GhostMarket.NFT.py:496-497 | a second deploy returns false and leaves the state of the first |
| LedgerProperties.MintBeforeDeploy | contracts/NEP11/GhostMarket.NFT.py:330-350 | with no deploy check and an absent fee reading as 0, a paid mint on empty storage returns its id with TOKEN_COUNT 1; a later deploy succeeds and resets TOKEN_COUNT to 0 while the token stays live and the supply stays 1 |
| LedgerProperties.VerifyIgnoresAuthList | contracts/NEP11/GhostMarket.NFT.py:468-484 | a listed address other than `OWNER` can neither set the fee nor change the list |
| LedgerProperties.SetMintFeeStoresAnyFee | contracts/NEP11/GhostMarket.NFT.py:403-410 | the owner can store any fee, negative included, and it is read back; a negative fee then makes every mint raise |
| LedgerProperties.RemoveFirstMultiset | contracts/NEP11/GhostMarket.NFT.py:462 | `list.remove` drops exactly one occurrence of the address |
| LedgerProperties.RemoveFirstNoDup | contracts/NEP11/GhostMarket.NFT.py:462 | on a duplicate-free list, `remove` drops exactly that address and keeps the list duplicate-free |
| LedgerProperties.NoDupMultiplicity | contracts/NEP11/GhostMarket.NFT.py:450-457 | a list with no address twice holds every address at most once as a multiset |
| LedgerProperties.MultiplicityNoDup | contracts/NEP11/GhostMarket.NFT.py:450-457 | a list holding every address at most once as a multiset has no address twice |
| LedgerProperties.SetAuthorizedAddressSpec | contracts/NEP11/GhostMarket.NFT.py:435-466 | on any storage whose authorised list is stored exactly once deployed and holds no duplicates: without `verify()` the call returns false with no change; before deploy it raises; adding a listed address changes nothing; removing an unlisted one raises; otherwise the address is listed afterwards exactly when `authorized`, and no other address changes |
| LedgerProperties.SetAuthorizedAddressKeepsInv | contracts/NEP11/GhostMarket.NFT.py:450-463 | adding or removing an authorised address keeps the invariant, so the list never holds an address twice |
| LedgerProperties.OwnerCanBeDeauthorized | contracts/NEP11/GhostMarket.NFT.py:462-464 | right after deploy, the owner can empty the authorised list by removing itself |
| ScanProperties.PresentIff | contracts/NEP11/GhostMarket.NFT.py:59-75 | a record is present in the flat store exactly when the ledger holds it |
| ScanProperties.TokenRecordsIff | contracts/NEP11/GhostMarket.NFT.py:743-753 | a per-token record is present exactly when the ledger holds the owner record, locked content, metadata or view counter it stands for |
| ScanProperties.OwnerRecordsIff | contracts/NEP11/GhostMarket.NFT.py:737-741 | a per-owner record is present exactly when the ledger holds that index entry or balance |
| ScanProperties.StoredWellFormed | contracts/NEP11/GhostMarket.NFT.py:59-75 | under the invariant, every stored record has a GHOST id and a 20-byte owner, so no two stored records share a key |
| ScanProperties.PrefixImageCard | contracts/NEP11/GhostMarket.NFT.py:737-753 | prefixing a set of ids yields as many keys as ids |
| ScanProperties.TokensScanSound | contracts/NEP11/GhostMarket.NFT.py:280-288 | every key `tokens()` finds is a live token's key or `TC` |
| ScanProperties.TokensScanComplete | contracts/NEP11/GhostMarket.NFT.py:280-288 | `tokens()` finds every live token's key, and `TC` once it is written |
| ScanProperties.TokensScan | contracts/NEP11/GhostMarket.NFT.py:280-288 | `tokens()` yields exactly the keys of the live tokens, plus `TC` once written |
| ScanProperties.TokenScanImageCard | contracts/NEP11/GhostMarket.NFT.py:280-288 | once `TC` is written, the scan yields one key per live token plus `TC` |
| ScanProperties.TokensScanCount | contracts/NEP11/GhostMarket.NFT.py:280-288 | after deploy, `tokens()` yields `TC` and exactly totalSupply + 1 keys |
| ScanProperties.AccountScanImageCard | contracts/NEP11/GhostMarket.NFT.py:213-227 | an owner's index keys are as many as the tokens the owner holds |
| ScanProperties.TokensOfSound | contracts/NEP11/GhostMarket.NFT.py:213-227 | every key `tokensOf(owner)` finds is the index key of a token the owner holds |
| ScanProperties.TokensOfComplete | contracts/NEP11/GhostMarket.NFT.py:213-227 | `tokensOf(owner)` finds the index key of every token the owner holds |
| ScanProperties.TokensOfScan | contracts/NEP11/GhostMarket.NFT.py:213-227 | `tokensOf(owner)` yields exactly the index keys of the owner's tokens, and as many of them as `balanceOf(owner)` reports |
| BatchProperties.CountTrue | contracts/NEP11/GhostMarket.NFT.py:314-328 | the number of burns a `multiBurn` result reports is at most its length, and equals its length exactly when every entry is true |
| BatchProperties.BurnStep | contracts/NEP11/GhostMarket.NFT.py:582-608 | a burn that returns true removes a live token and one unit of supply; any other burn changes nothing |
| BatchProperties.MultiBurnPrefixAbort | contracts/NEP11/GhostMarket.NFT.py:314-328 | a raise in any burn of the batch makes the whole batch raise with that fault and revert |
| BatchProperties.MultiBurnKeepsInv | contracts/NEP11/GhostMarket.NFT.py:314-328 | `multiBurn` keeps the invariant, reverts on a raise and never makes a token live |
| BatchProperties.MultiBurnResults | contracts/NEP11/GhostMarket.NFT.py:314-328 | a completed `multiBurn` reports one result per id and the supply falls by exactly the number of burns reported |
| BatchProperties.MultiBurnGone | contracts/NEP11/GhostMarket.NFT.py:314-328 | every token a completed `multiBurn` reports burnt is no longer live afterwards |
| BatchProperties.MultiMintPrefixAbort | contracts/NEP11/GhostMarket.NFT.py:352-366 | a raise in any mint of the batch, or a missing locked content, makes the whole batch raise and revert |
| BatchProperties.MintStep | contracts/NEP11/GhostMarket.NFT.py:330-350 | a mint completes exactly when the fee is not negative, the fee is paid and the account is 20 bytes; it never changes the fee; on completion it writes the id's owner, metadata and locked content and raises supply and counter by 1 |
| BatchProperties.MultiMintOutcome | contracts/NEP11/GhostMarket.NFT.py:352-366 | `multiMint` completes exactly when the batch is empty, or when the fee is not negative, the account is 20 bytes, each metadata entry has a locked content and every fee is paid; a raise reverts the whole batch |
| BatchProperties.MultiMintNext | contracts/NEP11/GhostMarket.NFT.py:363-366 | from a completed prefix, a missing locked content or a refused mint makes the whole batch raise and revert, and a completed mint extends the prefix result by its id |
| BatchProperties.MultiMintOwners | contracts/NEP11/GhostMarket.NFT.py:352-366 | a completed `multiMint` returns the given ids in order and makes exactly them live, besides the tokens already live |
| BatchProperties.MintKeepsInv | contracts/NEP11/GhostMarket.NFT.py:330-350 | a mint of a fresh id keeps the invariant, whether it completes or raises |
| BatchProperties.MultiMintNextFresh | contracts/NEP11/GhostMarket.NFT.py:352-366 | after a completed prefix of a batch of fresh distinct ids, the next id is still fresh |
| BatchProperties.MultiMintKeepsInv | contracts/NEP11/GhostMarket.NFT.py:352-366 | with fresh distinct ids, `multiMint` keeps the invariant |
| BatchProperties.MultiMintContents | contracts/NEP11/GhostMarket.NFT.py:352-366 | in a completed `multiMint` of distinct ids, the i-th id is owned by the account and holds the i-th metadata entry and the i-th locked content |
| BatchProperties.MultiMintCounts | contracts/NEP11/GhostMarket.NFT.py:352-366 | a completed `multiMint` raises the supply and TOKEN_COUNT by exactly the batch size |
| Scenario.LifeCycle | contracts/NEP11/GhostMarket.NFT.py:420-433 | deploy, mint to `OWNER`, transfer to a buyer, a refused read by the former owner, the buyer's read returning the payload with view count 1, and the buyer's burn leaving supply and balances at 0 and the locked content behind |
| Contract.NftContract.GetOwnerOf | contracts/NEP11/GhostMarket.NFT.py:681-684 | returns the stored owner, or the empty address; under the invariant, a 20-byte address exactly for a live token |
| Contract.NftContract.SetOwnerOf | contracts/NEP11/GhostMarket.NFT.py:677-679 | writes the owner record and nothing else |
| Contract.NftContract.RemoveOwnerOf | contracts/NEP11/GhostMarket.NFT.py:673-675 | deletes the owner record and nothing else |
| Contract.NftContract.AddToken | contracts/NEP11/GhostMarket.NFT.py:664-667 | writes the owner's index entry and nothing else |
| Contract.NftContract.RemoveToken | contracts/NEP11/GhostMarket.NFT.py:669-671 | deletes the owner's index entry and nothing else |
| Contract.NftContract.AddMeta | contracts/NEP11/GhostMarket.NFT.py:660-662 | writes the metadata and nothing else |
| Contract.NftContract.RemoveMeta | contracts/NEP11/GhostMarket.NFT.py:656-658 | deletes the metadata and nothing else |
| Contract.NftContract.GetMetaOf | contracts/NEP11/GhostMarket.NFT.py:651-654 | returns the stored metadata, or empty bytes; under the invariant, metadata exists exactly for live tokens |
| Contract.NftContract.AddLockedContent | contracts/NEP11/GhostMarket.NFT.py:686-689 | writes the locked content and nothing else |
| Contract.NftContract.GetLockedContentOf | contracts/NEP11/GhostMarket.NFT.py:691-695 | returns the stored locked content, or empty bytes; under the invariant, every live token has some |
| Contract.NftContract.RemoveLockedContent | contracts/NEP11/GhostMarket.NFT.py:697-699 | deletes the locked content and nothing else (no entry point calls it) |
| Contract.NftContract.GetLockedViewCounter | contracts/NEP11/GhostMarket.NFT.py:711-713 | returns the stored count, or 0 when the content was never read |
| Contract.NftContract.IncrLockedViewCounter | contracts/NEP11/GhostMarket.NFT.py:715-718 | raises the token's view count by exactly 1 and changes nothing else |
| Contract.NftContract.AddToSupply | contracts/NEP11/GhostMarket.NFT.py:720-722 | stores the supply plus the amount and changes nothing else |
| Contract.NftContract.AddToBalance | contracts/NEP11/GhostMarket.NFT.py:724-732 | fails with nothing written unless the owner is 20 bytes; otherwise performs the balance update of `AddToBalanceReadBack` and changes nothing else |
| Contract.NftContract.StoreMintFee | contracts/NEP11/GhostMarket.NFT.py:701-703 | stores the fee, returns it as read back, and changes nothing else |
| Contract.NftContract.TotalSupply | contracts/NEP11/GhostMarket.NFT.py:187-197 | 0 before the first write; under the invariant, the number of live tokens |
| Contract.NftContract.BalanceOf | contracts/NEP11/GhostMarket.NFT.py:199-211 | raises exactly when the owner is not 20 bytes; under the invariant, the number of tokens the owner holds |
| Contract.NftContract.GetMintFee | contracts/NEP11/GhostMarket.NFT.py:705-709 | the stored fee, or 0 while no MINT_FEE is stored |
| Contract.NftContract.GetLockedContentViewCount | contracts/NEP11/GhostMarket.NFT.py:412-418 | the token's view count, 0 when never read |
| Contract.NftContract.Verify | contracts/NEP11/GhostMarket.NFT.py:468-484 | true exactly when `OWNER` has witnessed |
| Contract.NftContract.IsListed | contracts/NEP11/GhostMarket.NFT.py:450-454 | the scan over the authorised list finds the address exactly when it is listed |
| Contract.NftContract.Transfer | contracts/NEP11/GhostMarket.NFT.py:229-266 | the helper calls in the source's order leave exactly the storage and result of `LedgerSpec.Transfer`; the invariant is kept |
| Contract.NftContract.Burn | contracts/NEP11/GhostMarket.NFT.py:582-608 | the helper calls in the source's order, reverted when the balance assertion fails, leave exactly the storage and result of `LedgerSpec.Burn`; the invariant is kept |
| Contract.NftContract.MultiBurn | contracts/NEP11/GhostMarket.NFT.py:314-328 | the loop, reverted on a raise, leaves exactly the storage and result of `LedgerSpec.MultiBurn`; the invariant is kept |
| Contract.NftContract.InternalMint | contracts/NEP11/GhostMarket.NFT.py:610-649 | the counter bump and helper calls, reverted when the balance assertion fails, leave exactly the storage and result of `LedgerSpec.InternalMint` |
| Contract.NftContract.Mint | contracts/NEP11/GhostMarket.NFT.py:330-350 | the fee checks followed by `InternalMint` leave exactly the storage and result of `LedgerSpec.Mint`; with a fresh id the invariant is kept |
| Contract.NftContract.MultiMint | contracts/NEP11/GhostMarket.NFT.py:352-366 | the loop, reverted on a raise or a missing locked content, leaves exactly the storage and result of `LedgerSpec.MultiMint`; with fresh distinct ids the invariant is kept |
| Contract.NftContract.GetLockedContent | contracts/NEP11/GhostMarket.NFT.py:420-433 | the witness check, counter increment and read leave exactly the storage and result of `LedgerSpec.GetLockedContent`; the invariant is kept |
| Contract.NftContract.Deploy | contracts/NEP11/GhostMarket.NFT.py:486-509 | the checks and the four puts leave exactly the storage and result of `LedgerSpec.Deploy`; the invariant is kept |
| Contract.NftContract.SetMintFee | contracts/NEP11/GhostMarket.NFT.py:403-410 | the `verify()` assertion and `set_mint_fee` leave exactly the storage and result of `LedgerSpec.SetMintFee`; the invariant is kept |
| Contract.NftContract.SetAuthorizedAddress | contracts/NEP11/GhostMarket.NFT.py:435-466 | the list scan (`IsListed`), then the append or `remove`, leave exactly the storage and result of `LedgerSpec.SetAuthorizedAddress`; the invariant is kept |

## Left out

- Calls to the GAS contract are not modelled: the fee `transfer` inside `mint` is the boolean `paid`, and `withdrawFee` and `getFeeBalance` are not modelled at all, since they are foreign contract calls.
- `post_transfer` is not modelled: the `onNEP11Payment` callback to a receiving contract is a cross-contract call. The events (`on_transfer`, `on_deploy`, `on_auth`) and `debug` are notifications with no effect on storage.
- `update`, `destroy`, `onNEP11Payment`, `onNEP17Payment` and `manifest_metadata` are host lifecycle hooks or plain aborts, and are not modelled.
- `properties` and the JSON and binary codecs (`json_serialize`, `json_deserialize`, `serialize`, `deserialize`) are library code. Metadata is opaque bytes, and the authorised list is a sequence stored as such.
- Token-id derivation is not modelled: the transaction hash, `serialize(data).to_int()` and `bytearray.append` depend on the host. The id is a parameter. The invariant lemmas require it to start with `GHOST` and not be live; `Contract.NftContract.Mint` states invariant preservation only under that condition.
- Ids supplied without the `GHOST` prefix are outside the proofs of key disjointness. For such ids, caller-chosen keys can collide with fixed keys: for example, the token key of id `C` is `TC`.
- `check_witness` is modelled as membership in an arbitrary set `w`, which can contain any byte string, the empty address included. So the `false` that a burn, a transfer or a `multiBurn` entry returns for a token that is not live is the witness set's answer for the empty address. The host's `check_witness` accepts only 20- or 33-byte inputs, and that restriction is not modelled.
- `tokens()` and `tokensOf()` return host iterators. They are modelled as the sets of keys the scan finds.
- `ownerOf` has no body in the source. Only `get_owner_of` is modelled. `UInt160(b'')` on a missing owner record is modelled as the empty address.
- `decimals()` is the constant `LedgerSpec.Decimals` (0). It has no property beyond its value.
- Storage is modelled per invocation, with one call at a time. A NEO transaction runs contract calls in sequence, so there is no concurrency to model.
