/** Bitcoin's transaction Merkle tree (pkg/ipfs/ipld/btc_parser.go, btc_tx_trie.go). Double SHA-256 is a parameter. */
module Merkle {
  import opened Seqs

  const BITCOIN_TX := 0xb1

  datatype Cid = Cid(codec: nat, multihash: seq<byte>)

  /** Code 0x56 for double SHA-256, then the length 32, then the digest. */
  function DigestCid(d: seq<byte>): Cid {
    Cid(BITCOIN_TX, [0x56, 0x20] + d)
  }

  /** The last 32 bytes of the multihash. */
  function CidToHash(c: Cid): seq<byte>
    requires |c.multihash| >= 32
  {
    c.multihash[|c.multihash| - 32..]
  }

  lemma CidHash(d: seq<byte>)
    requires |d| == 32
    ensures CidToHash(DigestCid(d)) == d
  {
  }

  /** An inner node: links to its two children. */
  datatype TrieNode = TrieNode(left: Cid, right: Cid)

  ghost predicate Linked(t: TrieNode) {
    |t.left.multihash| >= 32 && |t.right.multihash| >= 32
  }

  method RawData(t: TrieNode) returns (raw: seq<byte>)
    requires Linked(t)
    ensures raw == CidToHash(t.left) + CidToHash(t.right)
  {
    var out := new byte[64];
    var l, r := CidToHash(t.left), CidToHash(t.right);
    forall i | 0 <= i < 32 {
      out[i] := l[i];
    }
    forall i | 0 <= i < 32 {
      out[32 + i] := r[i];
    }
    raw := out[..];
  }

  type Hash = seq<byte> -> seq<byte>

  ghost predicate Is256(sha: Hash) {
    forall x :: |sha(x)| == 32
  }

  function NodeCid(sha: Hash, t: TrieNode): Cid
    requires Linked(t)
  {
    DigestCid(sha(CidToHash(t.left) + CidToHash(t.right)))
  }

  // ---- the tree by height and position ----

  ghost predicate Digests(txs: seq<seq<byte>>) {
    forall i :: 0 <= i < |txs| ==> |txs[i]| == 32
  }

  /** How many nodes there are h layers above n transactions. */
  function Width(n: nat, h: nat): nat {
    if h == 0 then n else (Width(n, h - 1) + 1) / 2
  }

  /** How many layers there are above n transactions. */
  function Height(n: nat): nat {
    if n <= 1 then 0 else 1 + Height((n + 1) / 2)
  }

  lemma {:induction false} HeightWidth(n: nat, h: nat)
    requires h <= Height(n)
    ensures Height(n) == h + Height(Width(n, h))
  {
    if h > 0 {
      HeightWidth(n, h - 1);
    }
  }

  lemma TopWidth(n: nat)
    requires n > 0
    ensures Width(n, Height(n)) == 1
  {
    HeightWidth(n, Height(n));
    WidthPositive(n, Height(n));
  }

  lemma {:induction false} WidthPositive(n: nat, h: nat)
    ensures n > 0 ==> Width(n, h) > 0
    ensures h > 0 ==> Width(n, h) <= n
  {
    if h > 0 {
      WidthPositive(n, h - 1);
    }
  }

  /** The hash at a position: of the two hashes below it, the left one standing in for a missing right one. */
  function CalcHash(sha: Hash, txs: seq<seq<byte>>, h: nat, pos: nat): seq<byte>
    requires pos < Width(|txs|, h)
    decreases h, 0
  {
    if h == 0 then txs[pos] else sha(CalcHash(sha, txs, h - 1, 2 * pos) + RightHash(sha, txs, h - 1, 2 * pos))
  }

  function RightHash(sha: Hash, txs: seq<seq<byte>>, h: nat, pos: nat): seq<byte>
    requires pos < Width(|txs|, h)
    decreases h, 1
  {
    CalcHash(sha, txs, h, if pos + 1 < Width(|txs|, h) then pos + 1 else pos)
  }

  function Root(sha: Hash, txs: seq<seq<byte>>): seq<byte>
    requires txs != []
  {
    TopWidth(|txs|);
    CalcHash(sha, txs, Height(|txs|), 0)
  }

  lemma HashLength(sha: Hash, txs: seq<seq<byte>>, h: nat, pos: nat)
    requires Is256(sha) && Digests(txs) && pos < Width(|txs|, h)
    ensures |CalcHash(sha, txs, h, pos)| == 32
  {
  }

  /** The node at height h + 1. */
  function NodeAt(sha: Hash, txs: seq<seq<byte>>, h: nat, pos: nat): TrieNode
    requires pos < Width(|txs|, h + 1)
  {
    TrieNode(DigestCid(CalcHash(sha, txs, h, 2 * pos)), DigestCid(RightHash(sha, txs, h, 2 * pos)))
  }

  lemma NodeHash(sha: Hash, txs: seq<seq<byte>>, h: nat, pos: nat)
    requires Is256(sha) && Digests(txs) && pos < Width(|txs|, h + 1)
    ensures Linked(NodeAt(sha, txs, h, pos))
    ensures NodeCid(sha, NodeAt(sha, txs, h, pos)) == DigestCid(CalcHash(sha, txs, h + 1, pos))
  {
    var l, r := CalcHash(sha, txs, h, 2 * pos), RightHash(sha, txs, h, 2 * pos);
    HashLength(sha, txs, h, 2 * pos);
    HashLength(sha, txs, h, if 2 * pos + 1 < Width(|txs|, h) then 2 * pos + 1 else 2 * pos);
    CidHash(l);
    CidHash(r);
  }

  /** The identifier of a digest: codec 0xb1 and a multihash of 34 bytes, the code 0x56, the length and the digest. */
  lemma CidFormat(d: seq<byte>)
    requires |d| == 32
    ensures var c := DigestCid(d);
            && c.codec == 0xb1 && |c.multihash| == 34
            && c.multihash[0] == 0x56 && c.multihash[1] as int == |d| && c.multihash[2..] == d
  {
  }

  /** The first k nodes at height h + 1. */
  function Row(sha: Hash, txs: seq<seq<byte>>, h: nat, k: nat): (r: seq<TrieNode>)
    requires k <= Width(|txs|, h + 1)
    ensures |r| == k
  {
    if k == 0 then [] else Row(sha, txs, h, k - 1) + [NodeAt(sha, txs, h, k - 1)]
  }

  /** All nodes up to height h, layer by layer. */
  function Below(sha: Hash, txs: seq<seq<byte>>, h: nat): seq<TrieNode> {
    if h == 0 then [] else Below(sha, txs, h - 1) + Row(sha, txs, h - 1, Width(|txs|, h))
  }

  // ---- mkMerkleTree ----

  /** A layer, each node given by its identifier. */
  ghost predicate IsLayer(sha: Hash, txs: seq<seq<byte>>, h: nat, layer: seq<Cid>, k: nat) {
    && k <= Width(|txs|, h)
    && |layer| == k
    && forall pos :: 0 <= pos < k ==> layer[pos] == DigestCid(CalcHash(sha, txs, h, pos))
  }

  /** A layer whose last node is repeated if there is an odd number. */
  ghost predicate IsPadded(sha: Hash, txs: seq<seq<byte>>, h: nat, layer: seq<Cid>) {
    && |layer| == 2 * Width(|txs|, h + 1)
    && forall pos :: 0 <= pos < Width(|txs|, h + 1) ==>
         && layer[2 * pos] == DigestCid(CalcHash(sha, txs, h, 2 * pos))
         && layer[2 * pos + 1] == DigestCid(RightHash(sha, txs, h, 2 * pos))
  }

  lemma Pad(sha: Hash, txs: seq<seq<byte>>, h: nat, layer: seq<Cid>)
    requires IsLayer(sha, txs, h, layer, Width(|txs|, h)) && layer != []
    ensures IsPadded(sha, txs, h, if |layer| % 2 != 0 then layer + [layer[|layer| - 1]] else layer)
  {
    hide CalcHash, DigestCid;
  }

  lemma NextLayer(sha: Hash, txs: seq<seq<byte>>, h: nat, next: seq<Cid>, k: nat, c: Cid)
    requires IsLayer(sha, txs, h, next, k) && k < Width(|txs|, h) && c == DigestCid(CalcHash(sha, txs, h, k))
    ensures IsLayer(sha, txs, h, next + [c], k + 1)
  {
    hide CalcHash, DigestCid, Width;
  }

  lemma PairAt(sha: Hash, txs: seq<seq<byte>>, h: nat, layer: seq<Cid>, i: nat)
    requires Is256(sha) && Digests(txs) && IsPadded(sha, txs, h, layer) && i < Width(|txs|, h + 1)
    ensures |layer| == 2 * Width(|txs|, h + 1)
    ensures TrieNode(layer[2 * i], layer[2 * i + 1]) == NodeAt(sha, txs, h, i)
    ensures Linked(NodeAt(sha, txs, h, i))
    ensures NodeCid(sha, NodeAt(sha, txs, h, i)) == DigestCid(CalcHash(sha, txs, h + 1, i))
  {
    NodeHash(sha, txs, h, i);
    hide CalcHash, DigestCid, NodeCid, Linked, Is256, Digests;
  }

  lemma NextRow(out: seq<TrieNode>, sha: Hash, txs: seq<seq<byte>>, h: nat, i: nat)
    requires i < Width(|txs|, h + 1) && out == Below(sha, txs, h) + Row(sha, txs, h, i)
    ensures out + [NodeAt(sha, txs, h, i)] == Below(sha, txs, h) + Row(sha, txs, h, i + 1)
  {
    hide Below, NodeAt, Width;
  }

  /** One pass of the inner loop. */
  lemma OneNode(sha: Hash, txs: seq<seq<byte>>, h: nat, layer: seq<Cid>, i: nat, next: seq<Cid>, out: seq<TrieNode>)
    requires Is256(sha) && Digests(txs) && IsPadded(sha, txs, h, layer)
    requires |layer| == 2 * Width(|txs|, h + 1) && i < |layer| / 2
    requires IsLayer(sha, txs, h + 1, next, i) && out == Below(sha, txs, h) + Row(sha, txs, h, i)
    ensures var t := TrieNode(layer[i * 2], layer[i * 2 + 1]);
            && Linked(t)
            && IsLayer(sha, txs, h + 1, next + [NodeCid(sha, t)], i + 1)
            && out + [t] == Below(sha, txs, h) + Row(sha, txs, h, i + 1)
  {
    hide *;
    PairAt(sha, txs, h, layer, i);
    NextRow(out, sha, txs, h, i);
    NextLayer(sha, txs, h + 1, next, i, NodeCid(sha, NodeAt(sha, txs, h, i)));
  }

  /** The inner loop: nodes for the pairs of a padded layer. */
  method MkLayer(sha: Hash, ghost txs: seq<seq<byte>>, ghost h: nat, layer: seq<Cid>, before: seq<TrieNode>)
      returns (next: seq<Cid>, out: seq<TrieNode>)
    requires Is256(sha) && Digests(txs)
    requires IsPadded(sha, txs, h, layer) && before == Below(sha, txs, h)
    ensures IsLayer(sha, txs, h + 1, next, Width(|txs|, h + 1)) && out == Below(sha, txs, h + 1)
  {
    next, out := [], before;
    NoNodes(out, sha, txs, h);
    PaddedLength(sha, txs, h, layer);
    hide *;
    for i := 0 to |layer| / 2
      invariant IsLayer(sha, txs, h + 1, next, i)
      invariant out == Below(sha, txs, h) + Row(sha, txs, h, i)
    {
      OneNode(sha, txs, h, layer, i, next, out);
      var t := TrieNode(layer[i * 2], layer[i * 2 + 1]);
      out := out + [t];
      next := next + [NodeCid(sha, t)];
    }
    AllNodes(sha, txs, h);
  }

  lemma NoNodes(out: seq<TrieNode>, sha: Hash, txs: seq<seq<byte>>, h: nat)
    requires out == Below(sha, txs, h)
    ensures IsLayer(sha, txs, h + 1, [], 0) && out == Below(sha, txs, h) + Row(sha, txs, h, 0)
  {
  }

  lemma AllNodes(sha: Hash, txs: seq<seq<byte>>, h: nat)
    ensures Below(sha, txs, h) + Row(sha, txs, h, Width(|txs|, h + 1)) == Below(sha, txs, h + 1)
  {
  }

  lemma PaddedLength(sha: Hash, txs: seq<seq<byte>>, h: nat, layer: seq<Cid>)
    requires IsPadded(sha, txs, h, layer)
    ensures |layer| == 2 * Width(|txs|, h + 1)
  {
  }

  /** The nodes built from a block's transactions, given by their hashes: every node of the tree, layer by layer. */
  method MkMerkleTree(sha: Hash, txs: seq<seq<byte>>) returns (out: seq<TrieNode>)
    requires Is256(sha) && Digests(txs)
    ensures out == Below(sha, txs, Height(|txs|))
  {
    var layer: seq<Cid> := [];
    NoLeaves(sha, txs);
    hide *;
    for i := 0 to |txs|
      invariant IsLayer(sha, txs, 0, layer, i)
    {
      OneLeaf(sha, txs, layer, i);
      layer := layer + [DigestCid(txs[i])];
    }
    LayerLength(sha, txs, 0, layer, |txs|);
    out := [];
    ghost var h := 0;
    while |layer| > 1
      invariant IsLayer(sha, txs, h, layer, Width(|txs|, h))
      invariant Height(|txs|) == h + Height(|layer|)
      invariant out == Below(sha, txs, h)
    {
      NextHeight(sha, txs, h, layer);
      Pad(sha, txs, h, layer);
      if |layer| % 2 != 0 {
        layer := layer + [layer[|layer| - 1]];
      }
      layer, out := MkLayer(sha, txs, h, layer, out);
      h := h + 1;
      LayerLength(sha, txs, h, layer, Width(|txs|, h));
    }
    SmallHeight(|layer|);
  }

  lemma NoLeaves(sha: Hash, txs: seq<seq<byte>>)
    ensures IsLayer(sha, txs, 0, [], 0) && Width(|txs|, 0) == |txs| && Below(sha, txs, 0) == []
  {
  }

  lemma OneLeaf(sha: Hash, txs: seq<seq<byte>>, layer: seq<Cid>, i: nat)
    requires IsLayer(sha, txs, 0, layer, i) && i < |txs|
    ensures IsLayer(sha, txs, 0, layer + [DigestCid(txs[i])], i + 1)
  {
    hide DigestCid;
  }

  lemma LayerLength(sha: Hash, txs: seq<seq<byte>>, h: nat, layer: seq<Cid>, k: nat)
    requires IsLayer(sha, txs, h, layer, k)
    ensures |layer| == k
  {
  }

  lemma NextHeight(sha: Hash, txs: seq<seq<byte>>, h: nat, layer: seq<Cid>)
    requires IsLayer(sha, txs, h, layer, Width(|txs|, h)) && |layer| > 1
    ensures Height(|layer|) == 1 + Height(Width(|txs|, h + 1)) && Width(|txs|, h + 1) < |layer|
  {
  }

  lemma SmallHeight(n: nat)
    requires n <= 1
    ensures Height(n) == 0
  {
  }

  // ---- what the nodes are ----

  lemma {:induction false} RowAt(sha: Hash, txs: seq<seq<byte>>, h: nat, k: nat, pos: nat)
    requires pos < k <= Width(|txs|, h + 1)
    ensures Row(sha, txs, h, k)[pos] == NodeAt(sha, txs, h, pos)
  {
    hide NodeAt, Width;
    if pos < k - 1 {
      RowAt(sha, txs, h, k - 1, pos);
    }
  }

  /** Where the node at height h + 1 is in the list. */
  lemma {:induction false} BelowAt(sha: Hash, txs: seq<seq<byte>>, h: nat, pos: nat, top: nat)
    requires pos < Width(|txs|, h + 1) && h < top
    ensures var k := |Below(sha, txs, h)| + pos;
            k < |Below(sha, txs, h + 1)| <= |Below(sha, txs, top)| && Below(sha, txs, top)[k] == NodeAt(sha, txs, h, pos)
  {
    hide NodeAt, Width, Row;
    if h + 1 < top {
      BelowAt(sha, txs, h, pos, top - 1);
    } else {
      RowAt(sha, txs, h, Width(|txs|, h + 1), pos);
    }
  }

  lemma {:induction false} Locate(sha: Hash, txs: seq<seq<byte>>, top: nat, k: nat) returns (h: nat, pos: nat)
    requires k < |Below(sha, txs, top)|
    ensures h < top && pos < Width(|txs|, h + 1) && k == |Below(sha, txs, h)| + pos
  {
    hide Row, Width;
    if k < |Below(sha, txs, top - 1)| {
      h, pos := Locate(sha, txs, top - 1, k);
    } else {
      h, pos := top - 1, k - |Below(sha, txs, top - 1)|;
    }
  }

  /** The last node is the root. */
  lemma LastIsRoot(sha: Hash, txs: seq<seq<byte>>)
    requires Is256(sha) && Digests(txs) && |txs| >= 2
    ensures var out := Below(sha, txs, Height(|txs|));
            && out != [] && Linked(out[|out| - 1])
            && NodeCid(sha, out[|out| - 1]) == DigestCid(Root(sha, txs))
  {
    hide Is256, Digests, CalcHash, Row, Linked, NodeCid;
    var h := Height(|txs|) - 1;
    TopWidth(|txs|);
    NodeHash(sha, txs, h, 0);
    BelowAt(sha, txs, h, 0, h + 1);
    assert |Below(sha, txs, h + 1)| == |Below(sha, txs, h)| + 1;
  }

  /** c names a transaction or one of the nodes. */
  ghost predicate Names(sha: Hash, txs: seq<seq<byte>>, nodes: seq<TrieNode>, c: Cid) {
    || (exists i :: 0 <= i < |txs| && c == DigestCid(txs[i]))
    || (exists k :: 0 <= k < |nodes| && Linked(nodes[k]) && c == NodeCid(sha, nodes[k]))
  }

  lemma NodeNamed(sha: Hash, txs: seq<seq<byte>>, nodes: seq<TrieNode>, k: nat, j: nat)
    requires j < k <= |nodes| && Linked(nodes[j])
    ensures Names(sha, txs, nodes[..k], NodeCid(sha, nodes[j]))
  {
    hide Linked, NodeCid;
    assert nodes[..k][j] == nodes[j];
  }

  lemma LinkNames(sha: Hash, txs: seq<seq<byte>>, h: nat, pos: nat, top: nat, k: nat)
    requires Is256(sha) && Digests(txs) && pos < Width(|txs|, h)
    requires h <= top && |Below(sha, txs, h)| <= k <= |Below(sha, txs, top)|
    ensures Names(sha, txs, Below(sha, txs, top)[..k], DigestCid(CalcHash(sha, txs, h, pos)))
  {
    if h > 0 {
      hide *;
      BelowAt(sha, txs, h - 1, pos, top);
      NodeHash(sha, txs, h - 1, pos);
      NodeNamed(sha, txs, Below(sha, txs, top), k, |Below(sha, txs, h - 1)| + pos);
    } else {
      hide Below, DigestCid;
    }
  }

  /** Both links of every node lead to a transaction or to a node before it. */
  lemma LinksLeadBack(sha: Hash, txs: seq<seq<byte>>, k: nat)
    requires Is256(sha) && Digests(txs) && k < |Below(sha, txs, Height(|txs|))|
    ensures var out := Below(sha, txs, Height(|txs|));
            Names(sha, txs, out[..k], out[k].left) && Names(sha, txs, out[..k], out[k].right)
  {
    hide Is256, Digests, CalcHash, Row, Linked, NodeCid, DigestCid, Names, Below;
    var top := Height(|txs|);
    var h, pos := Locate(sha, txs, top, k);
    BelowAt(sha, txs, h, pos, top);
    LinkNames(sha, txs, h, 2 * pos, top, k);
    LinkNames(sha, txs, h, if 2 * pos + 1 < Width(|txs|, h) then 2 * pos + 1 else 2 * pos, top, k);
  }

  // ---- inclusion proofs ----

  function Ancestor(i: nat, h: nat): nat {
    if h == 0 then i else Ancestor(i, h - 1) / 2
  }

  lemma {:induction false} AncestorInside(n: nat, i: nat, h: nat)
    requires i < n
    ensures Ancestor(i, h) < Width(n, h)
  {
    if h > 0 {
      AncestorInside(n, i, h - 1);
    }
  }

  function Sibling(sha: Hash, txs: seq<seq<byte>>, h: nat, pos: nat): seq<byte>
    requires pos < Width(|txs|, h)
  {
    if pos % 2 == 1 then CalcHash(sha, txs, h, pos - 1) else RightHash(sha, txs, h, pos)
  }

  /** The siblings on the way up from transaction i. */
  function Siblings(sha: Hash, txs: seq<seq<byte>>, i: nat, h: nat): (r: seq<seq<byte>>)
    requires i < |txs|
    ensures |r| == h
  {
    if h == 0 then []
    else
      AncestorInside(|txs|, i, h - 1);
      Siblings(sha, txs, i, h - 1) + [Sibling(sha, txs, h - 1, Ancestor(i, h - 1))]
  }

  /** What a verifier computes from a transaction's hash, its index and a list of siblings. */
  function Folded(sha: Hash, d: seq<byte>, i: nat, siblings: seq<seq<byte>>): seq<byte> {
    if siblings == [] then d
    else
      var h := |siblings| - 1;
      var below := Folded(sha, d, i, siblings[..h]);
      if Ancestor(i, h) % 2 == 0 then sha(below + siblings[h]) else sha(siblings[h] + below)
  }

  lemma FoldedSnoc(sha: Hash, txs: seq<seq<byte>>, i: nat, h: nat)
    requires i < |txs| && Ancestor(i, h) < Width(|txs|, h)
    ensures var below := Folded(sha, txs[i], i, Siblings(sha, txs, i, h));
            var other := Sibling(sha, txs, h, Ancestor(i, h));
            Folded(sha, txs[i], i, Siblings(sha, txs, i, h + 1))
            == if Ancestor(i, h) % 2 == 0 then sha(below + other) else sha(other + below)
  {
    hide Sibling, Ancestor, Width;
    var before := Siblings(sha, txs, i, h);
    assert Siblings(sha, txs, i, h + 1)[..h] == before;
  }

  lemma FoldedUp(sha: Hash, txs: seq<seq<byte>>, i: nat, h: nat)
    requires i < |txs| && Ancestor(i, h) < Width(|txs|, h)
    requires Folded(sha, txs[i], i, Siblings(sha, txs, i, h)) == CalcHash(sha, txs, h, Ancestor(i, h))
    ensures Ancestor(i, h) / 2 < Width(|txs|, h + 1)
    ensures Folded(sha, txs[i], i, Siblings(sha, txs, i, h + 1)) == CalcHash(sha, txs, h + 1, Ancestor(i, h) / 2)
  {
    hide *;
    FoldedSnoc(sha, txs, i, h);
    FoldedStep(sha, txs, h + 1, Ancestor(i, h));
  }

  lemma AncestorUp(i: nat, h: nat)
    ensures Ancestor(i, h + 1) == Ancestor(i, h) / 2
  {
  }

  lemma {:induction false} FoldedSiblings(sha: Hash, txs: seq<seq<byte>>, i: nat, h: nat)
    requires i < |txs|
    ensures Ancestor(i, h) < Width(|txs|, h)
    ensures Folded(sha, txs[i], i, Siblings(sha, txs, i, h)) == CalcHash(sha, txs, h, Ancestor(i, h))
  {
    if h > 0 {
      hide *;
      FoldedSiblings(sha, txs, i, h - 1);
      FoldedUp(sha, txs, i, h - 1);
      AncestorUp(i, h - 1);
    }
  }

  lemma FoldedStep(sha: Hash, txs: seq<seq<byte>>, h: nat, pos: nat)
    requires h > 0 && pos < Width(|txs|, h - 1)
    ensures pos / 2 < Width(|txs|, h)
    ensures var d, other := CalcHash(sha, txs, h - 1, pos), Sibling(sha, txs, h - 1, pos);
            CalcHash(sha, txs, h, pos / 2) == if pos % 2 == 0 then sha(d + other) else sha(other + d)
  {
    if pos % 2 == 0 {
      assert 2 * (pos / 2) == pos;
    } else {
      assert 2 * (pos / 2) + 1 == pos;
    }
  }

  /** Every transaction has a proof of inclusion: its hash, index and siblings recompute the root. */
  lemma EveryTxProved(sha: Hash, txs: seq<seq<byte>>, i: nat)
    requires i < |txs|
    ensures Folded(sha, txs[i], i, Siblings(sha, txs, i, Height(|txs|))) == Root(sha, txs)
  {
    hide Folded, Siblings, CalcHash;
    FoldedSiblings(sha, txs, i, Height(|txs|));
    TopWidth(|txs|);
    assert Ancestor(i, Height(|txs|)) == 0;
  }

  // ---- what the root says about the list ----

  lemma HalvesEqual(a: seq<byte>, b: seq<byte>, c: seq<byte>, d: seq<byte>)
    requires |a| == |c| && a + b == c + d
    ensures a == c && b == d
  {
    assert (a + b)[..|a|] == a && (c + d)[..|a|] == c;
    assert (a + b)[|a|..] == b && (c + d)[|a|..] == d;
  }

  lemma CalcStep(sha: Hash, txs: seq<seq<byte>>, h: nat, pos: nat)
    requires h > 0 && pos < Width(|txs|, h)
    ensures 2 * pos < Width(|txs|, h - 1)
    ensures CalcHash(sha, txs, h, pos)
            == sha(CalcHash(sha, txs, h - 1, 2 * pos) + RightHash(sha, txs, h - 1, 2 * pos))
  {
  }

  lemma RightLength(sha: Hash, txs: seq<seq<byte>>, h: nat, pos: nat)
    requires Is256(sha) && Digests(txs) && pos < Width(|txs|, h)
    ensures |CalcHash(sha, txs, h, pos)| == |RightHash(sha, txs, h, pos)| == 32
    ensures pos + 1 < Width(|txs|, h) ==> RightHash(sha, txs, h, pos) == CalcHash(sha, txs, h, pos + 1)
  {
    HashLength(sha, txs, h, pos);
    if pos + 1 < Width(|txs|, h) {
      HashLength(sha, txs, h, pos + 1);
    }
  }

  ghost predicate Collision(sha: Hash, x: seq<byte>, y: seq<byte>) {
    x != y && |x| == |y| == 64 && sha(x) == sha(y)
  }

  /** Two trees with equal hashes at a position have equal hashes below it, or what is hashed there collides. */
  lemma EqualBelow(sha: Hash, a: seq<seq<byte>>, b: seq<seq<byte>>, h: nat, pos: nat)
      returns (x: seq<byte>, y: seq<byte>)
    requires Is256(sha) && Digests(a) && Digests(b) && |a| == |b|
    requires h > 0 && pos / 2 < Width(|a|, h) && pos < Width(|a|, h - 1)
    requires CalcHash(sha, a, h, pos / 2) == CalcHash(sha, b, h, pos / 2)
    ensures CalcHash(sha, a, h - 1, pos) == CalcHash(sha, b, h - 1, pos) || Collision(sha, x, y)
  {
    hide Is256, Digests, CalcHash, RightHash, Width;
    var q := pos / 2;
    CalcStep(sha, a, h, q);
    CalcStep(sha, b, h, q);
    RightLength(sha, a, h - 1, 2 * q);
    RightLength(sha, b, h - 1, 2 * q);
    var al, ar := CalcHash(sha, a, h - 1, 2 * q), RightHash(sha, a, h - 1, 2 * q);
    var bl, br := CalcHash(sha, b, h - 1, 2 * q), RightHash(sha, b, h - 1, 2 * q);
    x, y := al + ar, bl + br;
    if x == y {
      HalvesEqual(al, ar, bl, br);
    }
  }

  lemma {:induction false} EqualLeaf(sha: Hash, a: seq<seq<byte>>, b: seq<seq<byte>>, i: nat, h: nat)
      returns (x: seq<byte>, y: seq<byte>)
    requires Is256(sha) && Digests(a) && Digests(b) && i < |a| == |b|
    requires Ancestor(i, h) < Width(|a|, h)
    requires CalcHash(sha, a, h, Ancestor(i, h)) == CalcHash(sha, b, h, Ancestor(i, h))
    ensures a[i] == b[i] || Collision(sha, x, y)
  {
    if h > 0 {
      AncestorInside(|a|, i, h - 1);
      x, y := EqualBelow(sha, a, b, h, Ancestor(i, h - 1));
      hide Is256, Digests, Width, Collision;
      if !Collision(sha, x, y) {
        x, y := EqualLeaf(sha, a, b, i, h - 1);
      }
    } else {
      x, y := [], [];
    }
  }

  /** The root determines the transactions, given how many there are: from two different lists with the same root a
      collision of the hash function is found. */
  lemma RootDetermines(sha: Hash, a: seq<seq<byte>>, b: seq<seq<byte>>) returns (x: seq<byte>, y: seq<byte>)
    requires Is256(sha) && Digests(a) && Digests(b) && |a| == |b| > 0
    requires a != b && Root(sha, a) == Root(sha, b)
    ensures Collision(sha, x, y)
  {
    hide Is256, Digests, CalcHash, Collision;
    var h := Height(|a|);
    var i: nat :| i < |a| && a[i] != b[i];
    AncestorInside(|a|, i, h);
    TopWidth(|a|);
    assert Ancestor(i, h) == 0;
    x, y := EqualLeaf(sha, a, b, i, h);
  }

  lemma {:induction false} OddWidth(n: nat, h: nat)
    requires n % 2 == 1 && h > 0
    ensures Width(n + 1, h) == Width(n, h)
  {
    if h > 1 {
      OddWidth(n, h - 1);
    }
  }

  lemma {:induction false} OddHash(sha: Hash, txs: seq<seq<byte>>, h: nat, pos: nat)
    requires |txs| % 2 == 1 && h > 0 && pos < Width(|txs|, h)
    ensures var more := txs + [txs[|txs| - 1]];
            pos < Width(|more|, h) && CalcHash(sha, more, h, pos) == CalcHash(sha, txs, h, pos)
    decreases h
  {
    OddWidth(|txs|, h);
    if h > 1 {
      OddWidth(|txs|, h - 1);
      OddHash(sha, txs, h - 1, 2 * pos);
      OddHash(sha, txs, h - 1, if 2 * pos + 1 < Width(|txs|, h - 1) then 2 * pos + 1 else 2 * pos);
    }
  }

  /** How many there are is needed: an odd list and the list with its last transaction repeated have the same root. */
  lemma OddRepeats(sha: Hash, txs: seq<seq<byte>>)
    requires |txs| % 2 == 1 && |txs| >= 3
    ensures Root(sha, txs + [txs[|txs| - 1]]) == Root(sha, txs)
  {
    hide CalcHash;
    TopWidth(|txs|);
    OddHash(sha, txs, Height(|txs|), 0);
  }

  // ---- how many nodes ----

  /** Layers below height h with an odd number of nodes. */
  function OddLayers(n: nat, h: nat): nat {
    if h == 0 then 0 else OddLayers(n, h - 1) + Width(n, h - 1) % 2
  }

  lemma CeilHalf(w: nat, half: nat)
    requires half == (w + 1) / 2
    ensures 2 * half == w + w % 2 && w % 2 <= 1
  {
  }

  /** Every node of a layer stands for two of the layer below, except that the last may stand for one. */
  lemma OneLayer(n: nat, h: nat)
    requires h > 0
    ensures 2 * Width(n, h) == Width(n, h - 1) + (OddLayers(n, h) - OddLayers(n, h - 1))
    ensures OddLayers(n, h) <= OddLayers(n, h - 1) + 1
  {
    CeilHalf(Width(n, h - 1), Width(n, h));
  }

  lemma LayerBelow(sha: Hash, txs: seq<seq<byte>>, h: nat)
    requires h > 0
    ensures |Below(sha, txs, h)| == |Below(sha, txs, h - 1)| + Width(|txs|, h)
  {
    hide Row, Width;
  }

  lemma {:induction false} NodeCount(sha: Hash, txs: seq<seq<byte>>, h: nat)
    ensures |Below(sha, txs, h)| + Width(|txs|, h) == |txs| + OddLayers(|txs|, h)
    ensures OddLayers(|txs|, h) <= h
  {
    if h > 0 {
      hide *;
      NodeCount(sha, txs, h - 1);
      OneLayer(|txs|, h);
      LayerBelow(sha, txs, h);
    }
  }

  function Power2(h: nat): nat {
    if h == 0 then 1 else 2 * Power2(h - 1)
  }

  lemma {:induction false} WidthAtMost(n: nat, h: nat, m: nat)
    ensures Width(n, h) <= m <==> n <= m * Power2(h)
  {
    if h > 0 {
      WidthAtMost(n, h - 1, 2 * m);
      assert (2 * m) * Power2(h - 1) == m * Power2(h);
    }
  }

  /** As many nodes as transactions less one, and one more for each layer of odd length; there are log2 n layers,
      rounded up. */
  lemma OutCount(sha: Hash, txs: seq<seq<byte>>)
    requires |txs| >= 2
    ensures var out, n, h := Below(sha, txs, Height(|txs|)), |txs|, Height(|txs|);
            && |out| == n - 1 + OddLayers(n, h)
            && n - 1 <= |out| <= n - 1 + h
            && Power2(h - 1) < n <= Power2(h)
  {
    hide Below;
    var h := Height(|txs|);
    TopWidth(|txs|);
    NodeCount(sha, txs, h);
    WidthAtMost(|txs|, h, 1);
    WidthAtMost(|txs|, h - 1, 1);
    HeightWidth(|txs|, h - 1);
  }
}
