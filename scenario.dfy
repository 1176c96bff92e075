/**
 * One life cycle of a token, computed on concrete values: deploy, mint to
 * the owner, transfer to a buyer, locked-content reads by the former and the
 * new owner, and a burn by the buyer.
 */
module Scenario {
  import opened Types
  import opened KeySpace
  import opened LedgerSpec

  const BUYER: Bytes := seq(20, _ => 0x0B)
  const T1: Bytes := TOKEN_SYMBOL_B + [0x01]
  const META1: Bytes := [0x6D, 0x65, 0x74, 0x61, 0x31]                    // "meta1"
  const SECRET1: Bytes := [0x73, 0x65, 0x63, 0x72, 0x65, 0x74, 0x31]      // "secret1"

  /**
   * After deploy and a paid mint, the owner holds T1 and the supply is 1;
   * after the transfer the buyer holds it; the former owner may no longer
   * read the locked content, the buyer reads the original payload and the
   * view count becomes 1; the buyer's burn brings supply and balances to 0,
   * and the locked content stays behind.
   */
  lemma LifeCycle()
    ensures var d := Deploy(Empty, {OWNER});
            var m := Mint(d.post, OWNER, META1, SECRET1, true, T1);
            var t := Transfer(m.post, {OWNER}, BUYER, T1);
            var g1 := GetLockedContent(t.post, {OWNER}, T1);
            var g2 := GetLockedContent(g1.post, {BUYER}, T1);
            var b := Burn(g2.post, {BUYER}, T1);
            && d.out == Done(true)
            && m.out == Done(T1)
            && TotalSupply(m.post) == 1 && BalanceOf(m.post, OWNER) == Done(1)
            && t.out == Done(true)
            && BalanceOf(t.post, OWNER) == Done(0) && BalanceOf(t.post, BUYER) == Done(1)
            && OwnerOf(t.post, T1) == BUYER
            && g1 == Step(t.post, Abort(LockedContentProhibited))
            && g2.out == Done(SECRET1) && LockedViewCount(g2.post, T1) == 1
            && b.out == Done(true)
            && TotalSupply(b.post) == 0 && BalanceOf(b.post, BUYER) == Done(0)
            && OwnerOf(b.post, T1) == [] && T1 in b.post.locked
  {
    var d := Deploy(Empty, {OWNER});
    var m := Mint(d.post, OWNER, META1, SECRET1, true, T1);
    assert OwnerOf(m.post, T1) == OWNER;
    assert BUYER != OWNER by { assert BUYER[0] != OWNER[0]; }
    var t := Transfer(m.post, {OWNER}, BUYER, T1);
    assert t.post.balances == map[BUYER := 1];
    var g1 := GetLockedContent(t.post, {OWNER}, T1);
    var g2 := GetLockedContent(g1.post, {BUYER}, T1);
    var b := Burn(g2.post, {BUYER}, T1);
    assert b.post.balances == map[];
  }
}
