/** Free blocks with the size stored in their first word, and the first-fit search of both allocators. */
module Blocks {
  import opened IntrusiveLists

  datatype Block = Block(addr: nat, len: nat)

  /** Position of the first block of at least `len` bytes, `|bs|` if there is none. */
  ghost function FirstFit(bs: seq<Block>, len: nat): (k: nat)
    ensures k <= |bs|
  {
    if bs == [] || bs[0].len >= len then 0 else 1 + FirstFit(bs[1..], len)
  }

  lemma {:induction false} FirstFitIsFirst(bs: seq<Block>, len: nat)
    ensures forall i :: 0 <= i < FirstFit(bs, len) ==> bs[i].len < len
    ensures FirstFit(bs, len) < |bs| ==> bs[FirstFit(bs, len)].len >= len
  {
    if bs != [] && bs[0].len < len {
      FirstFitIsFirst(bs[1..], len);
    }
  }

  lemma FirstFitFound(bs: seq<Block>, len: nat, k: nat)
    requires k <= |bs|
    requires forall i :: 0 <= i < k ==> bs[i].len < len
    requires k < |bs| ==> bs[k].len >= len
    ensures FirstFit(bs, len) == k
  {
    FirstFitIsFirst(bs, len);
  }

  /** The blocks at the nodes `s`, with the sizes stored in their headers. */
  ghost function BlocksOf(s: seq<Ptr>, sz: map<Ptr, nat>): seq<Block> {
    seq(|s|, i requires 0 <= i < |s| => Block(s[i], if s[i] in sz then sz[s[i]] else 0))
  }

  lemma BlocksOfInserted(s: seq<Ptr>, sz: map<Ptr, nat>, k: nat, x: Ptr, n: nat)
    requires k <= |s| && x !in s
    ensures BlocksOf(Inserted(s, k, x), sz[x := n]) == Inserted(BlocksOf(s, sz), k, Block(x, n))
  {
    var l, r := BlocksOf(Inserted(s, k, x), sz[x := n]), Inserted(BlocksOf(s, sz), k, Block(x, n));
    forall i | 0 <= i < |l|
      ensures l[i] == r[i]
    {
      if i < k {
        assert s[i] in s;
      } else if i > k {
        assert s[i - 1] in s;
      }
    }
  }

  lemma BlocksOfRemoved(s: seq<Ptr>, sz: map<Ptr, nat>, k: nat)
    requires k < |s|
    ensures BlocksOf(Removed(s, k), sz) == Removed(BlocksOf(s, sz), k)
  {
  }

  lemma HeaderOfNewBlock(s: seq<Ptr>, sz: map<Ptr, nat>, x: Ptr, n: nat)
    requires x !in s
    ensures BlocksOf(s, sz[x := n]) == BlocksOf(s, sz)
  {
    assert forall i :: 0 <= i < |s| ==> s[i] in s;
  }

  lemma BlocksOfResized(s: seq<Ptr>, sz: map<Ptr, nat>, k: nat, n: nat)
    requires Nodes(s) && k < |s|
    ensures BlocksOf(s, sz[s[k] := n]) == BlocksOf(s, sz)[k := Block(s[k], n)]
  {
  }
}
