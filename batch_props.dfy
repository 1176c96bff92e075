/**
 * Properties of the batch entry points `multiBurn` and `multiMint`: a raise
 * anywhere in the batch reverts the whole batch, and a batch that completes
 * keeps the accounting invariant and does what its single calls do.
 */
module BatchProperties {
  import opened Types
  import opened KeySpace
  import opened LedgerSpec
  import opened LedgerProperties

  /** How many entries of a `multiBurn` result report a burn. */
  function CountTrue(bs: seq<bool>): (n: nat)
    ensures n <= |bs|
    ensures n == |bs| <==> forall i | 0 <= i < |bs| :: bs[i]
    decreases |bs|
  {
    if bs == [] then 0
    else
      var n := |bs| - 1;
      assert forall i | 0 <= i < n :: bs[..n][i] == bs[i];
      CountTrue(bs[..n]) + (if bs[n] then 1 else 0)
  }

  /** One burn of a batch: it either removes a live token and one unit of supply, or changes nothing. */
  lemma BurnStep(t: Ledger, w: set<Bytes>, id: Bytes)
    requires Inv(t)
    ensures var b := Burn(t, w, id);
            && (b.out == Done(true) ==> id in t.owners && b.post.owners == t.owners - {id}
                                        && TotalSupply(b.post) == TotalSupply(t) - 1)
            && (b.out != Done(true) ==> b.post == t)
  {
    OwnerOfLive(t, id);
  }

  /** Once a prefix of a `multiBurn` batch raises, the whole batch raises with that fault and reverts. */
  lemma {:induction false} MultiBurnPrefixAbort(s: Ledger, w: set<Bytes>, ids: seq<Bytes>, k: nat)
    requires k <= |ids|
    requires MultiBurn(s, w, ids[..k]).out.Abort?
    ensures MultiBurn(s, w, ids) == Step(s, MultiBurn(s, w, ids[..k]).out)
    decreases |ids|
  {
    if k == |ids| {
      assert ids[..k] == ids;
    } else {
      var n := |ids| - 1;
      assert ids[..n][..k] == ids[..k];
      MultiBurnPrefixAbort(s, w, ids[..n], k);
    }
  }

  /** `multiBurn` keeps the invariant, reverts on a raise and never makes a token live. */
  lemma {:induction false} MultiBurnKeepsInv(s: Ledger, w: set<Bytes>, ids: seq<Bytes>)
    requires Inv(s)
    ensures var r := MultiBurn(s, w, ids);
            && Inv(r.post)
            && (r.out.Abort? ==> r.post == s)
            && r.post.owners.Keys <= s.owners.Keys
    decreases |ids|
  {
    var r := MultiBurn(s, w, ids);
    if ids != [] {
      var n := |ids| - 1;
      MultiBurnKeepsInv(s, w, ids[..n]);
      var before := MultiBurn(s, w, ids[..n]);
      if before.out.Abort? {
        assert r.post == s;
      } else {
        BurnKeepsInv(before.post, w, ids[n]);
        BurnStep(before.post, w, ids[n]);
        var last := Burn(before.post, w, ids[n]);
        if last.out.Abort? {
          assert r.post == s;
        } else {
          assert r.post == last.post;
        }
      }
    }
  }

  /**
   * A completed `multiBurn` reports one result per id and lowers the supply
   * by exactly the number of burns it reports.
   */
  lemma {:induction false} MultiBurnResults(s: Ledger, w: set<Bytes>, ids: seq<Bytes>)
    requires Inv(s)
    requires MultiBurn(s, w, ids).out.Done?
    ensures var r := MultiBurn(s, w, ids);
            && |r.out.value| == |ids|
            && TotalSupply(r.post) == TotalSupply(s) - CountTrue(r.out.value)
    decreases |ids|
  {
    if ids != [] {
      var n := |ids| - 1;
      MultiBurnResults(s, w, ids[..n]);
      MultiBurnKeepsInv(s, w, ids[..n]);
      var before := MultiBurn(s, w, ids[..n]);
      BurnStep(before.post, w, ids[n]);
      var last := Burn(before.post, w, ids[n]);
      var v := before.out.value + [last.out.value];
      assert MultiBurn(s, w, ids) == Step(last.post, Done(v));
      assert v[..n] == before.out.value;
      assert CountTrue(v) == CountTrue(before.out.value) + (if last.out.value then 1 else 0);
    }
  }

  /** Every token a completed `multiBurn` reports burnt is gone afterwards. */
  lemma {:induction false} MultiBurnGone(s: Ledger, w: set<Bytes>, ids: seq<Bytes>)
    requires Inv(s)
    requires MultiBurn(s, w, ids).out.Done?
    ensures var r := MultiBurn(s, w, ids);
            |r.out.value| == |ids| &&
            forall i | 0 <= i < |ids| && r.out.value[i] :: ids[i] !in r.post.owners
    decreases |ids|
  {
    if ids != [] {
      var n := |ids| - 1;
      MultiBurnGone(s, w, ids[..n]);
      MultiBurnKeepsInv(s, w, ids[..n]);
      var before := MultiBurn(s, w, ids[..n]);
      BurnStep(before.post, w, ids[n]);
      var last := Burn(before.post, w, ids[n]);
      var v := before.out.value + [last.out.value];
      assert MultiBurn(s, w, ids) == Step(last.post, Done(v));
      forall i | 0 <= i < |ids| && v[i]
        ensures ids[i] !in last.post.owners
      {
        if i < n {
          assert v[i] == before.out.value[i] && ids[..n][i] == ids[i];
          assert ids[i] !in before.post.owners;
        }
      }
    }
  }

  /** Once a prefix of a `multiMint` batch raises, the whole batch raises with that fault and reverts. */
  lemma {:induction false} MultiMintPrefixAbort(s: Ledger, account: Bytes, metas: seq<Bytes>, contents: seq<Bytes>,
                                                paid: seq<bool>, ids: seq<Bytes>, k: nat)
    requires |paid| == |metas| && |ids| == |metas|
    requires k <= |metas|
    requires MultiMint(s, account, metas[..k], contents, paid[..k], ids[..k]).out.Abort?
    ensures MultiMint(s, account, metas, contents, paid, ids)
            == Step(s, MultiMint(s, account, metas[..k], contents, paid[..k], ids[..k]).out)
    decreases |metas|
  {
    if k == |metas| {
      assert metas[..k] == metas && paid[..k] == paid && ids[..k] == ids;
    } else {
      var n := |metas| - 1;
      assert metas[..n][..k] == metas[..k];
      assert paid[..n][..k] == paid[..k];
      assert ids[..n][..k] == ids[..k];
      MultiMintPrefixAbort(s, account, metas[..n], contents, paid[..n], ids[..n], k);
    }
  }

  /**
   * One step of a `multiMint` loop: from a completed prefix of length `i`,
   * a missing locked content or a refused mint makes the whole batch raise
   * and revert, and a completed mint extends the prefix by its id.
   */
  lemma MultiMintNext(s: Ledger, account: Bytes, metas: seq<Bytes>, contents: seq<Bytes>,
                      paid: seq<bool>, ids: seq<Bytes>, i: nat, u: Ledger, v: seq<Bytes>)
    requires |paid| == |metas| && |ids| == |metas| && i < |metas|
    requires MultiMint(s, account, metas[..i], contents, paid[..i], ids[..i]) == Step(u, Done(v))
    ensures i >= |contents| ==>
              MultiMint(s, account, metas, contents, paid, ids) == Step(s, Abort(IndexOutOfRange))
    ensures i < |contents| ==>
              var m := Mint(u, account, metas[i], contents[i], paid[i], ids[i]);
              && (m.out.Abort? ==> MultiMint(s, account, metas, contents, paid, ids) == Step(s, Abort(m.out.fault)))
              && (m.out.Done? ==> MultiMint(s, account, metas[..i + 1], contents, paid[..i + 1], ids[..i + 1])
                                  == Step(m.post, Done(v + [m.out.value])))
  {
    assert metas[..i + 1][..i] == metas[..i];
    assert paid[..i + 1][..i] == paid[..i];
    assert ids[..i + 1][..i] == ids[..i];
    if i >= |contents| || Mint(u, account, metas[i], contents[i], paid[i], ids[i]).out.Abort? {
      MultiMintPrefixAbort(s, account, metas, contents, paid, ids, i + 1);
    }
  }

  /**
   * What a `multiMint` batch needs to complete: nothing when it is empty;
   * otherwise a fee that is not negative, a 20-byte account, a locked content
   * for every metadata entry and every fee payment accepted.
   */
  predicate MultiMintGoesThrough(s: Ledger, account: Bytes, metas: seq<Bytes>, contents: seq<Bytes>, paid: seq<bool>) {
    metas == [] || (GetMintFee(s) >= 0 && IsAddress(account) && |metas| <= |contents|
                    && forall i | 0 <= i < |paid| :: paid[i])
  }

  /** One mint of a batch, as the batch lemmas use it. */
  lemma MintStep(t: Ledger, account: Bytes, meta: Bytes, content: Bytes, paid: bool, id: Bytes)
    ensures var m := Mint(t, account, meta, content, paid, id);
            && GetMintFee(m.post) == GetMintFee(t)
            && (m.out.Done? <==> GetMintFee(t) >= 0 && paid && IsAddress(account))
            && (m.out.Abort? ==> m.post == t)
            && (m.out.Done? ==>
                  && m.out.value == id
                  && m.post.owners == t.owners[id := account]
                  && m.post.meta == t.meta[id := meta]
                  && m.post.locked == t.locked[id := content]
                  && TotalSupply(m.post) == TotalSupply(t) + 1
                  && ReadInt(m.post.tokenCount) == ReadInt(t.tokenCount) + 1)
  {
  }

  /**
   * `multiMint` completes exactly when it goes through; a raise reverts
   * every mint of the batch; the mint fee is never touched.
   */
  lemma {:induction false} MultiMintOutcome(s: Ledger, account: Bytes, metas: seq<Bytes>, contents: seq<Bytes>,
                                            paid: seq<bool>, ids: seq<Bytes>)
    requires |paid| == |metas| && |ids| == |metas|
    ensures var r := MultiMint(s, account, metas, contents, paid, ids);
            && GetMintFee(r.post) == GetMintFee(s)
            && (r.out.Done? <==> MultiMintGoesThrough(s, account, metas, contents, paid))
            && (r.out.Abort? ==> r.post == s)
    decreases |metas|
  {
    if metas != [] {
      var n := |metas| - 1;
      MultiMintOutcome(s, account, metas[..n], contents, paid[..n], ids[..n]);
      var before := MultiMint(s, account, metas[..n], contents, paid[..n], ids[..n]);
      var goes := MultiMintGoesThrough(s, account, metas, contents, paid);
      var goesBefore := MultiMintGoesThrough(s, account, metas[..n], contents, paid[..n]);
      assert forall i | 0 <= i < n :: paid[..n][i] == paid[i];
      if n > 0 {
        assert goes <==> goesBefore && n < |contents| && paid[n];
      }
      if before.out.Done? && n < |contents| {
        MintStep(before.post, account, metas[n], contents[n], paid[n], ids[n]);
      }
    }
  }

  /** A completed `multiMint` returns the ids it was given, in order, and makes exactly them live. */
  lemma {:induction false} MultiMintOwners(s: Ledger, account: Bytes, metas: seq<Bytes>, contents: seq<Bytes>,
                                           paid: seq<bool>, ids: seq<Bytes>)
    requires |paid| == |metas| && |ids| == |metas|
    requires MultiMint(s, account, metas, contents, paid, ids).out.Done?
    ensures var r := MultiMint(s, account, metas, contents, paid, ids);
            && r.out.value == ids
            && forall x :: x in r.post.owners <==> x in s.owners || x in ids
    decreases |metas|
  {
    if metas != [] {
      var n := |metas| - 1;
      MultiMintOwners(s, account, metas[..n], contents, paid[..n], ids[..n]);
      var before := MultiMint(s, account, metas[..n], contents, paid[..n], ids[..n]);
      MintStep(before.post, account, metas[n], contents[n], paid[n], ids[n]);
      assert ids == ids[..n] + [ids[n]];
    }
  }

  /** A mint of a fresh id keeps the invariant, whether it completes or raises. */
  lemma MintKeepsInv(t: Ledger, account: Bytes, meta: Bytes, content: Bytes, paid: bool, id: Bytes)
    requires Inv(t) && FreshId(t, id)
    ensures Inv(Mint(t, account, meta, content, paid, id).post)
  {
    if GetMintFee(t) >= 0 && paid {
      InternalMintKeepsInv(t, account, meta, content, id);
    }
  }

  /** After a completed prefix of a batch of fresh distinct ids, the next id is still fresh. */
  lemma MultiMintNextFresh(s: Ledger, account: Bytes, metas: seq<Bytes>, contents: seq<Bytes>,
                           paid: seq<bool>, ids: seq<Bytes>, n: nat)
    requires FreshIds(s, ids)
    requires |paid| == |metas| && |ids| == |metas| && n < |metas|
    requires MultiMint(s, account, metas[..n], contents, paid[..n], ids[..n]).out.Done?
    ensures FreshId(MultiMint(s, account, metas[..n], contents, paid[..n], ids[..n]).post, ids[n])
  {
    MultiMintOwners(s, account, metas[..n], contents, paid[..n], ids[..n]);
    assert ids[n] !in ids[..n];
    assert FreshId(s, ids[n]);
  }

  /** With fresh distinct ids, `multiMint` keeps the invariant. */
  lemma {:induction false} MultiMintKeepsInv(s: Ledger, account: Bytes, metas: seq<Bytes>, contents: seq<Bytes>,
                                             paid: seq<bool>, ids: seq<Bytes>)
    requires Inv(s) && FreshIds(s, ids)
    requires |paid| == |metas| && |ids| == |metas|
    ensures Inv(MultiMint(s, account, metas, contents, paid, ids).post)
    decreases |metas|
  {
    if metas != [] {
      var n := |metas| - 1;
      assert FreshIds(s, ids[..n]);
      MultiMintKeepsInv(s, account, metas[..n], contents, paid[..n], ids[..n]);
      var before := MultiMint(s, account, metas[..n], contents, paid[..n], ids[..n]);
      if before.out.Done? && n < |contents| {
        MultiMintNextFresh(s, account, metas, contents, paid, ids, n);
        MintKeepsInv(before.post, account, metas[n], contents[n], paid[n], ids[n]);
      }
    }
  }

  /**
   * In a completed `multiMint` of distinct ids, the i-th id is owned by the
   * account and holds the i-th metadata entry and the i-th locked content.
   */
  lemma {:induction false} MultiMintContents(s: Ledger, account: Bytes, metas: seq<Bytes>, contents: seq<Bytes>,
                                             paid: seq<bool>, ids: seq<Bytes>)
    requires NoDup(ids)
    requires |paid| == |metas| && |ids| == |metas|
    requires MultiMint(s, account, metas, contents, paid, ids).out.Done?
    ensures var t := MultiMint(s, account, metas, contents, paid, ids).post;
            forall i | 0 <= i < |ids| ::
              && ids[i] in t.owners && t.owners[ids[i]] == account
              && GetMeta(t, ids[i]) == metas[i]
              && ReadBytesAt(t.locked, ids[i]) == contents[i]
    decreases |metas|
  {
    if metas != [] {
      var n := |metas| - 1;
      assert NoDup(ids[..n]);
      MultiMintContents(s, account, metas[..n], contents, paid[..n], ids[..n]);
      var t := MultiMint(s, account, metas[..n], contents, paid[..n], ids[..n]).post;
      var id := ids[n];
      MintStep(t, account, metas[n], contents[n], paid[n], id);
      var u := Mint(t, account, metas[n], contents[n], paid[n], id).post;
      assert MultiMint(s, account, metas, contents, paid, ids).post == u;
      forall i | 0 <= i < n
        ensures ids[i] in u.owners && u.owners[ids[i]] == account
        ensures GetMeta(u, ids[i]) == metas[i]
        ensures ReadBytesAt(u.locked, ids[i]) == contents[i]
      {
        assert ids[..n][i] == ids[i] && metas[..n][i] == metas[i];
        assert ids[i] != id;
      }
    }
  }

  /** A completed `multiMint` raises the supply and the token counter by the batch size. */
  lemma {:induction false} MultiMintCounts(s: Ledger, account: Bytes, metas: seq<Bytes>, contents: seq<Bytes>,
                                           paid: seq<bool>, ids: seq<Bytes>)
    requires |paid| == |metas| && |ids| == |metas|
    requires MultiMint(s, account, metas, contents, paid, ids).out.Done?
    ensures var t := MultiMint(s, account, metas, contents, paid, ids).post;
            && TotalSupply(t) == TotalSupply(s) + |ids|
            && ReadInt(t.tokenCount) == ReadInt(s.tokenCount) + |ids|
    decreases |metas|
  {
    if metas != [] {
      var n := |metas| - 1;
      MultiMintCounts(s, account, metas[..n], contents, paid[..n], ids[..n]);
      var t := MultiMint(s, account, metas[..n], contents, paid[..n], ids[..n]).post;
      MintStep(t, account, metas[n], contents[n], paid[n], ids[n]);
    }
  }
}
