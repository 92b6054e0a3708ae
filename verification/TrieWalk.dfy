/** Decoding trie nodes and walking a trie along a textual path (pkg/ipfs/ipld/trie_node.go). RLP and Keccak are left
    abstract: a block is what RLP decodes it to, and blocks are found by content identifier. */
module TrieWalk {
  import opened Seqs
  import opened HexPath

  datatype Item = Bytes(data: seq<byte>) | List

  datatype Block = BadRlp | Items(items: seq<Item>)

  datatype Cid = Cid(codec: nat, digest: seq<byte>)

  datatype Error =
    | RlpError | UnknownHexPrefix | UnknownNodeType
    | NotBytes(position: nat) | UnrecognizedObject(position: nat)
    | NotEnoughNibbles | InvalidPathElement | NoSuchLink | IncorrectPath | NotAnIpldNode | NotFound

  /** A leaf's value: an IPLD node (accounts, transactions, receipts) or plain bytes (storage tries). */
  datatype LeafValue = IpldNode(raw: seq<byte>) | PlainBytes(raw: seq<byte>)

  type LeafDecoder = seq<byte> -> Option<LeafValue>

  /** A leaf whose decoder failed keeps its kind but has no elements: the error is not looked at. */
  datatype Node =
    | ExtensionNode(nibbles: Nibbles, child: Cid)
    | LeafNode(nibbles: Nibbles, value: LeafValue)
    | LeafWithoutElements
    | BranchNode(children: seq<Option<Cid>>)

  datatype Outcome<+T> = Done(value: T) | Failed(error: Error) | Panicked

  // ---- decodeTrieNode ----

  /** The entries of a branch: empty or a 32-byte reference each; the first other one is an error. */
  function Children(items: seq<Item>, codec: nat): (r: Result<seq<Option<Cid>>, Error>)
    ensures r.Ok? ==> |r.value| == |items|
  {
    if items == [] then Ok([])
    else
      var k := |items| - 1;
      match Children(items[..k], codec)
      case Err(e) => Err(e)
      case Ok(before) =>
        if items[k].List? then Err(NotBytes(k))
        else if items[k].data == [] then Ok(before + [None])
        else if |items[k].data| == 32 then Ok(before + [Some(Cid(codec, items[k].data))])
        else Err(UnrecognizedObject(k))
  }

  lemma {:induction false} ChildrenPrefix(items: seq<Item>, codec: nat, k: nat)
    requires k <= |items| && Children(items[..k], codec).Err?
    ensures Children(items, codec) == Children(items[..k], codec)
  {
    if k == |items| {
      assert items[..k] == items;
    } else {
      assert items[..|items| - 1][..k] == items[..k];
      ChildrenPrefix(items[..|items| - 1], codec, k);
    }
  }

  method ParseTrieNodeBranch(items: seq<Item>, codec: nat) returns (r: Result<seq<Option<Cid>>, Error>)
    ensures r == Children(items, codec)
  {
    var out: seq<Option<Cid>> := [];
    for k := 0 to |items|
      invariant Children(items[..k], codec) == Ok(out)
    {
      var v := items[k];
      assert items[..k + 1][..k] == items[..k];
      ChildrenStep(items, codec, k);
      if v.List? {
        return Err(NotBytes(k));
      }
      match |v.data| {
        case 0 => out := out + [None];
        case 32 => out := out + [Some(Cid(codec, v.data))];
        case _ => return Err(UnrecognizedObject(k));
      }
    }
    assert items[..|items|] == items;
    return Ok(out);
  }

  lemma ChildrenStep(items: seq<Item>, codec: nat, k: nat)
    requires k < |items|
    ensures Children(items[..k + 1], codec).Err? ==> Children(items, codec) == Children(items[..k + 1], codec)
  {
    hide *;
    if Children(items[..k + 1], codec).Err? {
      ChildrenPrefix(items, codec, k + 1);
    }
  }

  /** A branch decodes exactly if every entry is empty or 32 bytes, and then entry by entry. */
  lemma {:induction false} ChildrenIff(items: seq<Item>, codec: nat)
    ensures Children(items, codec).Ok?
            <==> forall i :: 0 <= i < |items| ==> items[i].Bytes? && |items[i].data| in {0, 32}
    ensures Children(items, codec).Ok? ==>
              forall i :: 0 <= i < |items| ==>
                Children(items, codec).value[i]
                == if |items[i].data| == 0 then None else Some(Cid(codec, items[i].data))
  {
    if items != [] {
      ChildrenIff(items[..|items| - 1], codec);
    }
  }

  function DecodeTrieNode(c: Cid, b: Block, leaf: LeafDecoder): (r: Outcome<Node>)
    ensures r.Done? && r.value.BranchNode? ==> |r.value.children| == 17
  {
    if b.BadRlp? then Failed(RlpError)
    else if |b.items| == 2 then
      if b.items[0].List? || b.items[1].List? || b.items[0].data == [] then Panicked
      else
        match DecodeCompactKey(b.items[0].data)
        case ExtensionKey(ns) => Done(ExtensionNode(ns, Cid(c.codec, b.items[1].data)))
        case LeafKey(ns) => Done(match leaf(b.items[1].data)
                                 case Some(v) => LeafNode(ns, v)
                                 case None => LeafWithoutElements)
        case UnknownPrefix => Failed(UnknownHexPrefix)
    else if |b.items| == 17 then
      match Children(b.items, c.codec)
      case Ok(children) => Done(BranchNode(children))
      case Err(e) => Failed(e)
    else Failed(UnknownNodeType)
  }

  /** The first entry of a branch that is neither empty nor 32 bytes. */
  ghost predicate FirstBad(items: seq<Item>, k: nat) {
    && k < |items| && !(items[k].Bytes? && |items[k].data| in {0, 32})
    && forall i :: 0 <= i < k ==> items[i].Bytes? && |items[i].data| in {0, 32}
  }

  lemma {:induction false} ChildrenFails(items: seq<Item>, codec: nat, k: nat)
    ensures Children(items, codec) == Err(NotBytes(k)) <==> FirstBad(items, k) && items[k].List?
    ensures Children(items, codec) == Err(UnrecognizedObject(k)) <==> FirstBad(items, k) && items[k].Bytes?
  {
    if items != [] {
      var init := items[..|items| - 1];
      ChildrenFails(init, codec, k);
      ChildrenIff(init, codec);
      assert k < |init| ==> (FirstBad(items, k) <==> FirstBad(init, k));
      assert k >= |items| ==> !FirstBad(items, k);
      assert k >= |init| ==> !FirstBad(init, k);
      hide FirstBad;
      BadLast(items);
    }
  }

  lemma BadLast(items: seq<Item>)
    requires items != []
    ensures var last := |items| - 1;
            FirstBad(items, last)
            <==> && !(items[last].Bytes? && |items[last].data| in {0, 32})
                 && forall i :: 0 <= i < last ==> items[..last][i].Bytes? && |items[..last][i].data| in {0, 32}
  {
    forall i | 0 <= i < |items| - 1 ensures items[..|items| - 1][i] == items[i] {
    }
  }

  /** A block of two byte strings, the first of them not empty. */
  predicate TwoStrings(b: Block) {
    b.Items? && |b.items| == 2 && b.items[0].Bytes? && b.items[1].Bytes? && b.items[0].data != []
  }

  /** What becomes of every block: which error, which panic, or which kind of node. */
  lemma DecodeOutcome(c: Cid, b: Block, leaf: LeafDecoder)
    ensures var r := DecodeTrieNode(c, b, leaf);
            && (r == Failed(RlpError) <==> b.BadRlp?)
            && (r == Failed(UnknownNodeType) <==> b.Items? && |b.items| != 2 && |b.items| != 17)
            && (r == Panicked <==> b.Items? && |b.items| == 2 && !TwoStrings(b))
            && (r == Failed(UnknownHexPrefix) <==> TwoStrings(b) && b.items[0].data[0] >= 0x40)
            && (forall k: nat :: r == Failed(NotBytes(k))
                                 <==> b.Items? && |b.items| == 17 && FirstBad(b.items, k) && b.items[k].List?)
            && (forall k: nat :: r == Failed(UnrecognizedObject(k))
                                 <==> b.Items? && |b.items| == 17 && FirstBad(b.items, k) && b.items[k].Bytes?)
            && (r.Done? && r.value.BranchNode?
                <==> b.Items? && |b.items| == 17 && forall k :: !FirstBad(b.items, k))
            && (r.Done? && r.value.ExtensionNode? <==> TwoStrings(b) && b.items[0].data[0] < 0x20)
            && (r.Done? && r.value.LeafWithoutElements?
                <==> TwoStrings(b) && 0x20 <= b.items[0].data[0] < 0x40 && leaf(b.items[1].data).None?)
            && (r.Done? && r.value.LeafNode?
                <==> TwoStrings(b) && 0x20 <= b.items[0].data[0] < 0x40 && leaf(b.items[1].data).Some?)
  {
    if b.Items? && |b.items| == 17 {
      forall k: nat {
        ChildrenFails(b.items, c.codec, k);
      }
      ChildrenIff(b.items, c.codec);
      SomeBad(b.items);
      hide Children, FirstBad;
    } else if TwoStrings(b) {
      EncodeDecodeIff(b.items[0].data);
      hide DecodeCompactKey, HexPrefix, Children;
    }
  }

  lemma {:induction false} SomeBad(items: seq<Item>)
    ensures (forall i :: 0 <= i < |items| ==> items[i].Bytes? && |items[i].data| in {0, 32})
            <==> forall k :: !FirstBad(items, k)
  {
    if items != [] {
      var init := items[..|items| - 1];
      SomeBad(init);
      if k :| FirstBad(init, k) {
        assert FirstBad(items, k);
      } else if !(items[|init|].Bytes? && |items[|init|].data| in {0, 32}) {
        assert FirstBad(items, |init|);
      }
    }
  }

  // ---- Resolve ----

  /** The start of the path against the nibbles of an extension or a leaf, and the path after them. */
  function Matched(ns: Nibbles, p: seq<string>): Result<seq<string>, Error> {
    var (idx, rest) := Shifted(p, |ns|);
    if ByteLen(idx) < |ns| then Err(NotEnoughNibbles)
    else if exists i :: 0 <= i < |idx| && GetHexIndex([idx[i]]) == -1 then Err(InvalidPathElement)
    else if idx != HexDigits(ns) then Err(NoSuchLink)
    else Ok(rest)
  }

  datatype Target = Link(cid: Cid, rest: seq<string>) | Value(value: LeafValue, rest: seq<string>)

  function Resolve(node: Node, p: seq<string>): (r: Outcome<Target>)
    requires node.BranchNode? ==> |node.children| == 17
  {
    match node
    case ExtensionNode(ns, child) =>
      (match Matched(ns, p)
       case Ok(rest) => Done(Link(child, rest))
       case Err(e) => Failed(e))
    case LeafNode(ns, v) =>
      (match if ns != [] then Matched(ns, p) else Ok(p)
       case Ok(rest) => if v.IpldNode? then Done(Value(v, rest)) else Failed(NotAnIpldNode)
       case Err(e) => Failed(e))
    case LeafWithoutElements => Panicked
    case BranchNode(children) =>
      var (idx, rest) := Shifted(p, 1);
      if GetHexIndex(idx) == -1 then Failed(IncorrectPath)
      else
        HexIndexRange(idx);
        match children[GetHexIndex(idx)]
        case Some(child) => Done(Link(child, rest))
        case None => Failed(NoSuchLink)
  }

  lemma HexIndexRange(s: string)
    ensures GetHexIndex(s) == -1 || 0 <= GetHexIndex(s) < 16
  {
    HexIndexIff(s, 0);
  }

  lemma {:induction false} TakenHex(s: string, i: nat)
    requires Ascii(Taken("", s, i)) && ByteLen(Taken("", s, i)) >= i
    ensures |Taken("", s, i)| == i
  {
    if s != "" {
      var before := Taken("", s[..|s| - 1], i);
      if ByteLen(before) < i {
        TakenFromStart(s[..|s| - 1], i);
        AsciiBytes(before);
        AsciiBytes(Taken("", s, i));
      } else {
        TakenHex(s[..|s| - 1], i);
      }
    }
  }

  lemma HexCharAscii(c: char)
    requires GetHexIndex([c]) != -1
    ensures c as int < 0x80
  {
  }

  /** Path characters that are all hexadecimal digits are as many as were asked for. */
  lemma MatchedLength(ns: Nibbles, p: seq<string>)
    requires ByteLen(Shifted(p, |ns|).0) >= |ns|
    requires forall i :: 0 <= i < |Shifted(p, |ns|).0| ==> GetHexIndex([Shifted(p, |ns|).0[i]]) != -1
    ensures |Shifted(p, |ns|).0| == |ns|
  {
    hide Taken, ByteLen, GetHexIndex, Dropped, Flatten;
    var idx := Shifted(p, |ns|).0;
    forall i | 0 <= i < |idx| ensures idx[i] as int < 0x80 {
      HexCharAscii(idx[i]);
    }
    TakenHex(Flatten<char>(p), |ns|);
  }

  method MatchNibbles(ns: Nibbles, p: seq<string>) returns (r: Result<seq<string>, Error>)
    ensures r == Matched(ns, p)
  {
    hide Shifted, ByteLen, GetHexIndex;
    var idx, rest := ShiftFromPath(p, |ns|);
    if ByteLen(idx) < |ns| {
      return Err(NotEnoughNibbles);
    }
    for i := 0 to |idx|
      invariant forall j :: 0 <= j < i ==> GetHexIndex([idx[j]]) != -1
    {
      if GetHexIndex([idx[i]]) == -1 {
        return Err(InvalidPathElement);
      }
    }
    MatchedLength(ns, p);
    for i := 0 to |ns|
      invariant forall j :: 0 <= j < i ==> idx[j] == HexDigit(ns[j])
    {
      if idx[i] != HexDigit(ns[i]) {
        return Err(NoSuchLink);
      }
    }
    return Ok(rest);
  }

  // ---- tries as maps ----

  datatype Trie =
    | Leaf(nibbles: Nibbles, raw: seq<byte>)
    | Extension(nibbles: Nibbles, child: Trie)
    | Branch(children: seq<Option<Trie>>)

  /** All keys have length n, so no branch holds a value of its own; every extension has a nibble, so no way down is
      longer than n links. */
  ghost predicate WellFormed(t: Trie, n: nat)
    decreases t
  {
    match t
    case Leaf(ns, _) => |ns| == n
    case Extension(ns, child) => 0 < |ns| <= n && WellFormed(child, n - |ns|)
    case Branch(children) =>
      && n > 0 && |children| == 16
      && forall i :: 0 <= i < 16 && children[i].Some? ==> WellFormed(children[i].value, n - 1)
  }

  /** The key-value pairs the trie stands for. */
  ghost function Entries(t: Trie): iset<(Nibbles, seq<byte>)>
    decreases t
  {
    match t
    case Leaf(ns, raw) => iset{(ns, raw)}
    case Extension(ns, child) => iset e | e in Entries(child) :: (ns + e.0, e.1)
    case Branch(children) =>
      iset i: nibble, e | i as int < |children| && children[i].Some? && e in Entries(children[i].value)
        :: ([i] + e.0, e.1)
  }

  /** The bytes at an entry of a stored node. */
  function Reference(store: map<Cid, Block>, c: Cid, i: nat): seq<byte> {
    if c in store && store[c].Items? && i < |store[c].items| && store[c].items[i].Bytes? then store[c].items[i].data
    else []
  }

  /** Encoded as blocks: children are referred to by digest, those of a branch by 32 bytes. */
  ghost predicate Stored(store: map<Cid, Block>, codec: nat, t: Trie, digest: seq<byte>)
    decreases t
  {
    var c := Cid(codec, digest);
    && c in store && store[c].Items?
    && match t
       case Leaf(ns, raw) => store[c].items == [Bytes(HexPrefix(ns, true)), Bytes(raw)]
       case Extension(ns, child) =>
         && store[c].items == [Bytes(HexPrefix(ns, false)), Bytes(Reference(store, c, 1))]
         && Stored(store, codec, child, Reference(store, c, 1))
       case Branch(children) =>
         && |children| == 16 && |store[c].items| == 17 && store[c].items[16] == Bytes([])
         && forall i :: 0 <= i < 16 ==>
              && store[c].items[i] == Bytes(Reference(store, c, i))
              && match children[i]
                 case None => Reference(store, c, i) == []
                 case Some(child) =>
                   |Reference(store, c, i)| == 32 && Stored(store, codec, child, Reference(store, c, i))
  }

  /** The walk along a key ends in a leaf whose value does not decode. */
  ghost predicate Undecoded(t: Trie, key: Nibbles, leaf: LeafDecoder)
    decreases t
  {
    match t
    case Leaf(_, raw) => leaf(raw).None?
    case Extension(ns, child) => ns <= key && Undecoded(child, key[|ns|..], leaf)
    case Branch(children) =>
      && key != [] && |children| == 16 && children[key[0]].Some?
      && Undecoded(children[key[0]].value, key[1..], leaf)
  }

  /** Resolve again and again, following each link through the store, for at most fuel links. */
  ghost function Walk(store: map<Cid, Block>, leaf: LeafDecoder, c: Cid, p: seq<string>, fuel: nat): Outcome<Target>
    decreases fuel
  {
    if c !in store then Failed(NotFound)
    else
      match DecodeTrieNode(c, store[c], leaf)
      case Failed(e) => Failed(e)
      case Panicked => Panicked
      case Done(node) =>
        var r := Resolve(node, p);
        if r.Done? && r.value.Link? && fuel > 0 then Walk(store, leaf, r.value.cid, r.value.rest, fuel - 1) else r
  }

  /** The path begins with the key's digits. */
  ghost predicate Spells(p: seq<string>, key: Nibbles) {
    var s := Flatten<char>(p);
    |key| <= |s| && s[..|key|] == HexDigits(key)
  }

  lemma SpellsRest(p: seq<string>, key: Nibbles, n: nat)
    requires Spells(p, key) && n <= |key|
    ensures Spells(Dropped(p, n), key[n..])
  {
    hide Flatten, Dropped, HexDigits;
    var s := Flatten<char>(p);
    DroppedFlatten(p, n);
    assert s[n..][..|key| - n] == s[..|key|][n..];
    assert HexDigits(key)[n..] == HexDigits(key[n..]);
  }

  lemma SpellsShift(p: seq<string>, key: Nibbles, n: nat)
    requires Spells(p, key) && n <= |key|
    ensures Shifted(p, n) == (HexDigits(key[..n]), Dropped(p, n))
  {
    hide Flatten, Dropped, HexDigits, Shifted, ByteLen;
    var s := Flatten<char>(p);
    assert s[..n] == s[..|key|][..n];
    assert HexDigits(key)[..n] == HexDigits(key[..n]);
    HexDigitsAscii(key[..n]);
    ShiftAscii(p, n);
  }

  lemma DigitsInjective(a: Nibbles, b: Nibbles)
    requires HexDigits(a) == HexDigits(b)
    ensures a == b
  {
    forall i | 0 <= i < |a| ensures a[i] == b[i] {
      HexIndexIff([HexDigit(a[i])], a[i]);
      HexIndexIff([HexDigit(b[i])], b[i]);
    }
  }

  /** On a path that spells a long enough key, an extension or leaf matches exactly if its nibbles begin the key. */
  lemma MatchedSpelled(ns: Nibbles, p: seq<string>, key: Nibbles)
    requires Spells(p, key) && |ns| <= |key|
    ensures Matched(ns, p) == if ns == key[..|ns|] then Ok(Dropped(p, |ns|)) else Err(NoSuchLink)
  {
    hide Spells, Dropped, Shifted, ByteLen, GetHexIndex, HexDigit;
    var head := key[..|ns|];
    SpellsShift(p, key, |ns|);
    HexDigitsAscii(head);
    AsciiBytes(HexDigits(head));
    forall i | 0 <= i < |head| ensures GetHexIndex([HexDigits(head)[i]]) != -1 {
      HexIndexIff([HexDigit(head[i])], head[i]);
    }
    if HexDigits(head) == HexDigits(ns) {
      DigitsInjective(head, ns);
    }
  }

  /** One of the characters that make up the path's first n bytes is no hexadecimal digit. */
  ghost predicate BadCharacter(s: string, n: nat) {
    exists i :: 0 <= i < |s| && ByteLen(s[..i]) < n && !HexChar(s[i])
  }

  /** On every path: it matches if and only if it begins with the nibbles' digits; otherwise the error says that there
      are too few bytes, or that one of those looked at is no digit, or else that the digits differ. */
  lemma MatchedIff(ns: Nibbles, p: seq<string>)
    ensures var s, r := Flatten<char>(p), Matched(ns, p);
            && (r.Ok? <==> Spells(p, ns)) && (r.Ok? ==> r.value == Dropped(p, |ns|))
            && (r == Err(NotEnoughNibbles) <==> ByteLen(s) < |ns|)
            && (r == Err(InvalidPathElement) <==> ByteLen(s) >= |ns| && BadCharacter(s, |ns|))
            && (r == Err(NoSuchLink) <==> ByteLen(s) >= |ns| && !BadCharacter(s, |ns|) && !Spells(p, ns))
  {
    var s := Flatten<char>(p);
    EnoughBytes(s, |ns|);
    InvalidIff(s, |ns|);
    if Spells(p, ns) {
      MatchedSpelled(ns, p, ns);
      assert ns[..|ns|] == ns;
    } else {
      NotSpelled(ns, p);
    }
    hide Taken, ByteLen, GetHexIndex, Dropped, Flatten, Spells, HexChar, BadCharacter;
  }

  lemma EnoughBytes(s: string, n: nat)
    ensures ByteLen(Taken("", s, n)) < n <==> ByteLen(s) < n
  {
    hide Taken, ByteLen;
    TakenFromStart(s, n);
    ByteLenPrefix(s, |Taken("", s, n)|);
  }

  lemma InvalidIff(s: string, n: nat)
    ensures var out := Taken("", s, n);
            (exists i :: 0 <= i < |out| && GetHexIndex([out[i]]) == -1) <==> BadCharacter(s, n)
  {
    hide Taken, ByteLen, GetHexIndex, HexChar;
    var out := Taken("", s, n);
    TakenFromStart(s, n);
    forall i: nat ensures i < |out| <==> i < |s| && ByteLen(s[..i]) < n {
      TakenIndex(s, n, i);
    }
    forall i | 0 <= i < |out| ensures out[i] == s[i] && (GetHexIndex([out[i]]) == -1 <==> !HexChar(s[i])) {
      HexCharIff(s[i]);
    }
  }

  /** Digits other than the nibbles' are not matched. */
  lemma NotSpelled(ns: Nibbles, p: seq<string>)
    requires !Spells(p, ns)
    ensures Matched(ns, p).Err?
  {
    hide Taken, ByteLen, GetHexIndex, Dropped, Flatten;
    TakenFromStart(Flatten<char>(p), |ns|);
  }

  /** At an extension, on every path: the link to the child if the path begins with the nibbles' digits, and otherwise
      the error of the match. */
  lemma ExtensionIff(ns: Nibbles, child: Cid, p: seq<string>)
    ensures var s, r := Flatten<char>(p), Resolve(ExtensionNode(ns, child), p);
            && (r.Done? <==> Spells(p, ns)) && (r.Done? ==> r.value == Link(child, Dropped(p, |ns|)))
            && (r == Failed(NotEnoughNibbles) <==> ByteLen(s) < |ns|)
            && (r == Failed(InvalidPathElement) <==> ByteLen(s) >= |ns| && BadCharacter(s, |ns|))
            && (r == Failed(NoSuchLink) <==> ByteLen(s) >= |ns| && !BadCharacter(s, |ns|) && !Spells(p, ns))
  {
    MatchedIff(ns, p);
    hide Matched, Flatten, Dropped, ByteLen, Spells, BadCharacter;
  }

  /** At a leaf with nibbles, on every path, likewise; a value of plain bytes is an error once the path has matched. At
      a leaf without nibbles every path matches and is left as it is. */
  lemma LeafIff(ns: Nibbles, v: LeafValue, p: seq<string>)
    ensures var s, r := Flatten<char>(p), Resolve(LeafNode(ns, v), p);
            if ns == [] then r == if v.IpldNode? then Done(Value(v, p)) else Failed(NotAnIpldNode)
            else
              && (r.Done? <==> Spells(p, ns) && v.IpldNode?) && (r.Done? ==> r.value == Value(v, Dropped(p, |ns|)))
              && (r == Failed(NotAnIpldNode) <==> Spells(p, ns) && v.PlainBytes?)
              && (r == Failed(NotEnoughNibbles) <==> ByteLen(s) < |ns|)
              && (r == Failed(InvalidPathElement) <==> ByteLen(s) >= |ns| && BadCharacter(s, |ns|))
              && (r == Failed(NoSuchLink) <==> ByteLen(s) >= |ns| && !BadCharacter(s, |ns|) && !Spells(p, ns))
  {
    MatchedIff(ns, p);
    hide Matched, Flatten, Dropped, ByteLen, Spells, BadCharacter;
  }

  /** At a branch, on every path: its first character, if it is a hexadecimal digit, picks the child. */
  lemma BranchIff(children: seq<Option<Cid>>, p: seq<string>)
    requires |children| == 17
    ensures var s, r := Flatten<char>(p), Resolve(BranchNode(children), p);
            && (r == Failed(IncorrectPath) <==> s == "" || !HexChar(s[0]))
            && (forall i: nibble :: Spells(p, [i]) ==>
                  r == match children[i] case Some(c) => Done(Link(c, Dropped(p, 1))) case None => Failed(NoSuchLink))
  {
    var s := Flatten<char>(p);
    FirstCharacter(s);
    if s != "" {
      HexCharIff(s[0]);
    }
    HexIndexEmpty();
    hide Taken, ByteLen, GetHexIndex, Dropped, Flatten, HexChar, Resolve;
    forall i: nibble | Spells(p, [i])
      ensures Resolve(BranchNode(children), p)
              == match children[i] case Some(c) => Done(Link(c, Dropped(p, 1))) case None => Failed(NoSuchLink)
    {
      BranchStep(children, p, [i]);
    }
    BranchError(children, p);
  }

  lemma BranchError(children: seq<Option<Cid>>, p: seq<string>)
    requires |children| == 17
    ensures Resolve(BranchNode(children), p) == Failed(IncorrectPath) <==> GetHexIndex(Taken("", Flatten<char>(p), 1)) == -1
  {
    hide Taken, GetHexIndex, Rest, Flatten;
  }

  lemma HexIndexEmpty()
    ensures GetHexIndex("") == -1
  {
  }

  lemma FirstCharacter(s: string)
    ensures Taken("", s, 1) == if s == "" then "" else [s[0]]
  {
    hide Taken, ByteLen;
    TakenFromStart(s, 1);
    TakenIndex(s, 1, 0);
    TakenIndex(s, 1, 1);
    if s != "" {
      OneCharacter(s);
    }
  }

  lemma OneCharacter(s: string)
    requires s != ""
    ensures ByteLen(s[..0]) == 0 && ByteLen(s[..1]) >= 1
  {
    LongString(s[..1]);
  }

  // ---- one node at a time ----

  lemma DecodeLeaf(store: map<Cid, Block>, codec: nat, t: Trie, digest: seq<byte>, leaf: LeafDecoder)
    requires t.Leaf? && Stored(store, codec, t, digest)
    ensures var c := Cid(codec, digest);
            DecodeTrieNode(c, store[c], leaf)
            == Done(match leaf(t.raw)
                    case Some(v) => LeafNode(t.nibbles, v)
                    case None => LeafWithoutElements)
  {
    hide HexPrefix, DecodeCompactKey, Children;
    DecodeEncode(t.nibbles, true);
  }

  lemma DecodeExtension(store: map<Cid, Block>, codec: nat, t: Trie, digest: seq<byte>, leaf: LeafDecoder)
    requires t.Extension? && Stored(store, codec, t, digest)
    ensures var c := Cid(codec, digest);
            && DecodeTrieNode(c, store[c], leaf) == Done(ExtensionNode(t.nibbles, Cid(codec, Reference(store, c, 1))))
            && Stored(store, codec, t.child, Reference(store, c, 1))
  {
    hide HexPrefix, DecodeCompactKey, Children, Reference;
    DecodeEncode(t.nibbles, false);
  }

  lemma DecodeBranch(store: map<Cid, Block>, codec: nat, t: Trie, digest: seq<byte>, leaf: LeafDecoder, i: nat)
    requires t.Branch? && Stored(store, codec, t, digest) && i < 16
    ensures var c := Cid(codec, digest);
            && DecodeTrieNode(c, store[c], leaf).Done? && DecodeTrieNode(c, store[c], leaf).value.BranchNode?
            && DecodeTrieNode(c, store[c], leaf).value.children[i]
               == (if t.children[i].None? then None else Some(Cid(codec, Reference(store, c, i))))
            && (t.children[i].Some? ==> Stored(store, codec, t.children[i].value, Reference(store, c, i)))
  {
    hide HexPrefix, DecodeCompactKey, Children, Reference;
    ChildrenIff(store[Cid(codec, digest)].items, codec);
  }

  /** How a walk goes on over a link. */
  lemma WalkLink(store: map<Cid, Block>, leaf: LeafDecoder, c: Cid, p: seq<string>, fuel: nat, node: Node)
    requires c in store && DecodeTrieNode(c, store[c], leaf) == Done(node) && fuel > 0
    ensures var r := Resolve(node, p);
            Walk(store, leaf, c, p, fuel)
            == if r.Done? && r.value.Link? then Walk(store, leaf, r.value.cid, r.value.rest, fuel - 1) else r
  {
    hide Resolve, DecodeTrieNode;
  }

  lemma WalkEnd(store: map<Cid, Block>, leaf: LeafDecoder, c: Cid, p: seq<string>, fuel: nat, node: Node)
    requires c in store && DecodeTrieNode(c, store[c], leaf) == Done(node)
    requires !Resolve(node, p).Done? || Resolve(node, p).value.Value?
    ensures Walk(store, leaf, c, p, fuel) == Resolve(node, p)
  {
    hide Resolve, DecodeTrieNode;
  }

  lemma ExtensionEntry(t: Trie, key: Nibbles, raw: seq<byte>)
    requires t.Extension?
    ensures (key, raw) in Entries(t)
            <==> t.nibbles <= key && (key[|t.nibbles|..], raw) in Entries(t.child)
  {
    var ns := t.nibbles;
    if ns <= key && (key[|ns|..], raw) in Entries(t.child) {
      assert ns + (key[|ns|..], raw).0 == key;
    }
    forall e | e in Entries(t.child) ensures (ns + e.0)[|ns|..] == e.0 {
    }
  }

  lemma BranchEntry(t: Trie, key: Nibbles, raw: seq<byte>)
    requires t.Branch? && |t.children| == 16
    ensures (key, raw) in Entries(t)
            <==> key != [] && t.children[key[0]].Some? && (key[1..], raw) in Entries(t.children[key[0]].value)
  {
    if key != [] && t.children[key[0]].Some? && (key[1..], raw) in Entries(t.children[key[0]].value) {
      assert [key[0]] + (key[1..], raw).0 == key;
    }
    forall i: nibble, e | t.children[i].Some? && e in Entries(t.children[i].value)
      ensures ([i] + e.0)[1..] == e.0
    {
    }
  }

  /** Resolving at a branch: the key's first nibble picks the child. */
  lemma {:induction false} BranchStep(children: seq<Option<Cid>>, p: seq<string>, key: Nibbles)
    requires |children| == 17 && key != [] && Spells(p, key)
    ensures Resolve(BranchNode(children), p)
            == match children[key[0]]
               case Some(child) => Done(Link(child, Dropped(p, 1)))
               case None => Failed(NoSuchLink)
  {
    hide Spells, Dropped, Shifted, GetHexIndex, HexDigit;
    SpellsShift(p, key, 1);
    assert key[..1] == [key[0]];
    assert HexDigits([key[0]]) == [HexDigit(key[0])];
    HexIndexIff([HexDigit(key[0])], key[0]);
  }

  // ---- whole walks ----

  /** The path a walk leaves for the value: untouched if the trie is a single leaf with an empty key, otherwise what
      follows the key's digits, without empty elements. */
  function Left(t: Trie, p: seq<string>, n: nat): seq<string> {
    if t.Leaf? && t.nibbles == [] then p else Dropped(p, n)
  }

  lemma LeftThrough(t: Trie, child: Trie, p: seq<string>, a: nat, n: nat)
    requires !t.Leaf? && a <= n && WellFormed(child, n - a)
    ensures Left(child, Dropped(p, a), n - a) == Left(t, p, n)
  {
    hide Dropped;
    DroppedAgain(p, a, n - a);
  }

  function AtValue(v: Option<LeafValue>, rest: seq<string>): Outcome<Target> {
    match v
    case None => Panicked
    case Some(PlainBytes(_)) => Failed(NotAnIpldNode)
    case Some(IpldNode(_)) => Done(Value(v.value, rest))
  }

  lemma LeafStep(store: map<Cid, Block>, leaf: LeafDecoder, codec: nat, t: Trie, digest: seq<byte>,
                 p: seq<string>, key: Nibbles, fuel: nat)
    requires t.Leaf? && Stored(store, codec, t, digest) && |key| == |t.nibbles| && Spells(p, key)
    ensures Walk(store, leaf, Cid(codec, digest), p, fuel)
            == if key == t.nibbles || leaf(t.raw).None? then AtValue(leaf(t.raw), Left(t, p, |key|))
               else Failed(NoSuchLink)
  {
    hide Walk, Matched, Dropped, Spells;
    DecodeLeaf(store, codec, t, digest, leaf);
    MatchedSpelled(t.nibbles, p, key);
    assert key[..|key|] == key;
    var c := Cid(codec, digest);
    var node := DecodeTrieNode(c, store[c], leaf).value;
    hide DecodeTrieNode, Stored;
    WalkEnd(store, leaf, c, p, fuel, node);
  }

  lemma {:induction false} ExtensionStep(store: map<Cid, Block>, leaf: LeafDecoder, codec: nat, t: Trie,
                                         digest: seq<byte>, p: seq<string>, key: Nibbles, fuel: nat)
    requires t.Extension? && WellFormed(t, |key|) && Stored(store, codec, t, digest) && Spells(p, key) && fuel > 0
    ensures |t.nibbles| <= |key| && WellFormed(t.child, |key| - |t.nibbles|) && |t.nibbles| > 0
    ensures var d := Reference(store, Cid(codec, digest), 1);
            && Stored(store, codec, t.child, d)
            && Walk(store, leaf, Cid(codec, digest), p, fuel)
               == if t.nibbles <= key then Walk(store, leaf, Cid(codec, d), Dropped(p, |t.nibbles|), fuel - 1)
                  else Failed(NoSuchLink)
  {
    hide Walk, Matched, Dropped, Spells, DecodeTrieNode, Reference;
    DecodeExtension(store, codec, t, digest, leaf);
    MatchedSpelled(t.nibbles, p, key);
    var c := Cid(codec, digest);
    WalkLink(store, leaf, c, p, fuel, ExtensionNode(t.nibbles, Cid(codec, Reference(store, c, 1))));
    hide Stored;
  }

  lemma BranchWalk(store: map<Cid, Block>, leaf: LeafDecoder, codec: nat, t: Trie, digest: seq<byte>,
                   p: seq<string>, key: Nibbles, fuel: nat)
    requires t.Branch? && WellFormed(t, |key|) && Stored(store, codec, t, digest) && Spells(p, key) && fuel > 0
    ensures key != [] && |t.children| == 16
    ensures var d := Reference(store, Cid(codec, digest), key[0] as nat);
            && Walk(store, leaf, Cid(codec, digest), p, fuel)
               == (if t.children[key[0]].Some? then Walk(store, leaf, Cid(codec, d), Dropped(p, 1), fuel - 1)
                   else Failed(NoSuchLink))
            && (t.children[key[0]].Some? ==>
                  && Stored(store, codec, t.children[key[0]].value, d)
                  && WellFormed(t.children[key[0]].value, |key| - 1))
  {
    hide Walk, Dropped, Spells, DecodeTrieNode, Resolve, Reference;
    var i := key[0] as nat;
    DecodeBranch(store, codec, t, digest, leaf, i);
    var c := Cid(codec, digest);
    var node := DecodeTrieNode(c, store[c], leaf).value;
    BranchStep(node.children, p, key);
    WalkLink(store, leaf, c, p, fuel, node);
    hide Stored;
  }

  lemma {:induction false} ThroughExtension(store: map<Cid, Block>, leaf: LeafDecoder, codec: nat, t: Trie,
                                            digest: seq<byte>, p: seq<string>, key: Nibbles, raw: seq<byte>, fuel: nat)
    requires t.Extension? && WellFormed(t, |key|) && Stored(store, codec, t, digest) && Spells(p, key)
    requires (key, raw) in Entries(t) && fuel >= |key| && fuel > 0
    ensures Walk(store, leaf, Cid(codec, digest), p, fuel) == AtValue(leaf(raw), Left(t, p, |key|))
    decreases t, 0
  {
    hide Walk, Dropped, Spells, AtValue, Left, Entries, WellFormed, Stored, Reference;
    var n, d := |t.nibbles|, Reference(store, Cid(codec, digest), 1);
    ExtensionStep(store, leaf, codec, t, digest, p, key, fuel);
    ExtensionEntry(t, key, raw);
    SpellsRest(p, key, n);
    WalkFinds(store, leaf, codec, t.child, d, Dropped(p, n), key[n..], raw, fuel - 1);
    LeftThrough(t, t.child, p, n, |key|);
  }

  lemma {:induction false} ThroughBranch(store: map<Cid, Block>, leaf: LeafDecoder, codec: nat, t: Trie,
                                         digest: seq<byte>, p: seq<string>, key: Nibbles, raw: seq<byte>, fuel: nat)
    requires t.Branch? && WellFormed(t, |key|) && Stored(store, codec, t, digest) && Spells(p, key)
    requires (key, raw) in Entries(t) && fuel >= |key| && fuel > 0
    ensures Walk(store, leaf, Cid(codec, digest), p, fuel) == AtValue(leaf(raw), Left(t, p, |key|))
    decreases t, 0
  {
    hide Walk, Dropped, Spells, AtValue, Left, Entries, WellFormed, Stored, Reference;
    BranchWalk(store, leaf, codec, t, digest, p, key, fuel);
    BranchEntry(t, key, raw);
    var child, d := t.children[key[0]].value, Reference(store, Cid(codec, digest), key[0] as nat);
    SpellsRest(p, key, 1);
    WalkFinds(store, leaf, codec, child, d, Dropped(p, 1), key[1..], raw, fuel - 1);
    LeftThrough(t, child, p, 1, |key|);
  }

  /** Walking along a key's digits, however they are split over path elements, arrives at that key's value and hands
      it the rest of the path. */
  lemma {:induction false} WalkFinds(store: map<Cid, Block>, leaf: LeafDecoder, codec: nat, t: Trie,
                                     digest: seq<byte>, p: seq<string>, key: Nibbles, raw: seq<byte>, fuel: nat)
    requires WellFormed(t, |key|) && Stored(store, codec, t, digest) && Spells(p, key) && fuel >= |key|
    requires (key, raw) in Entries(t)
    ensures Walk(store, leaf, Cid(codec, digest), p, fuel) == AtValue(leaf(raw), Left(t, p, |key|))
    decreases t, 1
  {
    hide Walk, Dropped, Spells, AtValue, Left, Stored;
    match t
    case Leaf(ns, _) => LeafStep(store, leaf, codec, t, digest, p, key, fuel);
    case Extension(_, _) => ThroughExtension(store, leaf, codec, t, digest, p, key, raw, fuel);
    case Branch(_) => ThroughBranch(store, leaf, codec, t, digest, p, key, raw, fuel);
  }

  function Missed(undecoded: bool): Outcome<Target> {
    if undecoded then Panicked else Failed(NoSuchLink)
  }

  lemma UndecodedBelow(t: Trie, key: Nibbles, leaf: LeafDecoder)
    requires t.Extension?
    ensures Undecoded(t, key, leaf) <==> t.nibbles <= key && Undecoded(t.child, key[|t.nibbles|..], leaf)
  {
  }

  lemma UndecodedAt(t: Trie, key: Nibbles, leaf: LeafDecoder)
    requires t.Branch? && key != [] && |t.children| == 16
    ensures Undecoded(t, key, leaf)
            <==> t.children[key[0]].Some? && Undecoded(t.children[key[0]].value, key[1..], leaf)
  {
  }

  lemma {:induction false} MissExtension(store: map<Cid, Block>, leaf: LeafDecoder, codec: nat, t: Trie,
                                         digest: seq<byte>, p: seq<string>, key: Nibbles, fuel: nat)
    requires t.Extension? && WellFormed(t, |key|) && Stored(store, codec, t, digest) && Spells(p, key)
    requires (forall raw :: (key, raw) !in Entries(t)) && fuel >= |key| && fuel > 0
    ensures Walk(store, leaf, Cid(codec, digest), p, fuel) == Missed(Undecoded(t, key, leaf))
    decreases t, 0
  {
    hide Walk, Dropped, Spells, Entries, WellFormed, Stored, Reference, Undecoded;
    var n, d := |t.nibbles|, Reference(store, Cid(codec, digest), 1);
    UndecodedBelow(t, key, leaf);
    ExtensionStep(store, leaf, codec, t, digest, p, key, fuel);
    if t.nibbles <= key {
      SpellsRest(p, key, n);
      forall raw ensures (key[n..], raw) !in Entries(t.child) {
        ExtensionEntry(t, key, raw);
      }
      WalkMisses(store, leaf, codec, t.child, d, Dropped(p, n), key[n..], fuel - 1);
    }
  }

  lemma {:induction false} MissBranch(store: map<Cid, Block>, leaf: LeafDecoder, codec: nat, t: Trie,
                                      digest: seq<byte>, p: seq<string>, key: Nibbles, fuel: nat)
    requires t.Branch? && WellFormed(t, |key|) && Stored(store, codec, t, digest) && Spells(p, key)
    requires (forall raw :: (key, raw) !in Entries(t)) && fuel >= |key| && fuel > 0
    ensures Walk(store, leaf, Cid(codec, digest), p, fuel) == Missed(Undecoded(t, key, leaf))
    decreases t, 0
  {
    hide Walk, Dropped, Spells, Entries, WellFormed, Stored, Reference, Undecoded;
    BranchWalk(store, leaf, codec, t, digest, p, key, fuel);
    UndecodedAt(t, key, leaf);
    if t.children[key[0]].Some? {
      var child, d := t.children[key[0]].value, Reference(store, Cid(codec, digest), key[0] as nat);
      SpellsRest(p, key, 1);
      forall raw ensures (key[1..], raw) !in Entries(child) {
        BranchEntry(t, key, raw);
      }
      WalkMisses(store, leaf, codec, child, d, Dropped(p, 1), key[1..], fuel - 1);
    }
  }

  /** Walking along the digits of a key that is not in the trie ends in an error, or in a panic if the leaf it ends in
      does not decode. */
  lemma {:induction false} WalkMisses(store: map<Cid, Block>, leaf: LeafDecoder, codec: nat, t: Trie,
                                      digest: seq<byte>, p: seq<string>, key: Nibbles, fuel: nat)
    requires WellFormed(t, |key|) && Stored(store, codec, t, digest) && Spells(p, key) && fuel >= |key|
    requires forall raw :: (key, raw) !in Entries(t)
    ensures Walk(store, leaf, Cid(codec, digest), p, fuel) == Missed(Undecoded(t, key, leaf))
    decreases t, 1
  {
    hide Walk, Dropped, Spells, Left, Stored;
    match t
    case Leaf(ns, raw) =>
      LeafStep(store, leaf, codec, t, digest, p, key, fuel);
      assert (key, raw) !in Entries(t);
    case Extension(_, _) => MissExtension(store, leaf, codec, t, digest, p, key, fuel);
    case Branch(_) => MissBranch(store, leaf, codec, t, digest, p, key, fuel);
  }

  lemma {:induction false} UndecodedEntry(t: Trie, key: Nibbles, raw: seq<byte>, leaf: LeafDecoder)
    requires WellFormed(t, |key|) && (key, raw) in Entries(t)
    ensures Undecoded(t, key, leaf) <==> leaf(raw).None?
    decreases t
  {
    match t
    case Leaf(_, _) =>
    case Extension(ns, child) =>
      ExtensionEntry(t, key, raw);
      UndecodedEntry(child, key[|ns|..], raw, leaf);
    case Branch(children) =>
      BranchEntry(t, key, raw);
      UndecodedEntry(children[key[0]].value, key[1..], raw, leaf);
  }

  /** An entry of the trie whose value decodes to this. */
  ghost predicate HasValue(t: Trie, key: Nibbles, leaf: LeafDecoder, v: LeafValue) {
    exists raw :: (key, raw) in Entries(t) && leaf(raw) == Some(v)
  }

  /** The walk agrees with the map, whatever the leaves hold: it returns an IPLD value exactly if the key has it, fails
      for plain bytes exactly if the key has such, panics exactly if the leaf it ends in does not decode, and otherwise
      ends in the no-such-link error. */
  lemma {:induction false} WalkIff(store: map<Cid, Block>, leaf: LeafDecoder, codec: nat, t: Trie,
                                   digest: seq<byte>, p: seq<string>, key: Nibbles, raw: seq<byte>, fuel: nat)
    requires WellFormed(t, |key|) && Stored(store, codec, t, digest) && Spells(p, key) && fuel >= |key|
    ensures var r := Walk(store, leaf, Cid(codec, digest), p, fuel);
            && (r == Done(Value(IpldNode(raw), Left(t, p, |key|))) <==> HasValue(t, key, leaf, IpldNode(raw)))
            && (r == Failed(NotAnIpldNode) <==> exists bytes :: HasValue(t, key, leaf, PlainBytes(bytes)))
            && (r == Panicked <==> Undecoded(t, key, leaf))
            && (r == Failed(NoSuchLink) <==> !Undecoded(t, key, leaf) && forall any :: (key, any) !in Entries(t))
  {
    hide Walk, Left, Stored, Spells, WellFormed, Entries, Undecoded;
    if own :| (key, own) in Entries(t) {
      WalkFinds(store, leaf, codec, t, digest, p, key, own, fuel);
      UndecodedEntry(t, key, own, leaf);
      OneValue(store, leaf, codec, t, digest, p, key, own, fuel);
      if leaf(own).Some? && leaf(own).value.PlainBytes? {
        assert HasValue(t, key, leaf, PlainBytes(leaf(own).value.raw));
      }
      if leaf(own).Some? && leaf(own).value.IpldNode? {
        assert HasValue(t, key, leaf, IpldNode(leaf(own).value.raw));
      }
    } else {
      WalkMisses(store, leaf, codec, t, digest, p, key, fuel);
    }
  }

  /** The values a key has all decode alike. */
  lemma OneValue(store: map<Cid, Block>, leaf: LeafDecoder, codec: nat, t: Trie, digest: seq<byte>,
                 p: seq<string>, key: Nibbles, own: seq<byte>, fuel: nat)
    requires WellFormed(t, |key|) && Stored(store, codec, t, digest) && Spells(p, key) && fuel >= |key|
    requires (key, own) in Entries(t)
    ensures forall any :: (key, any) in Entries(t) ==>
              AtValue(leaf(any), Left(t, p, |key|)) == AtValue(leaf(own), Left(t, p, |key|))
  {
    hide Walk, Left, Stored, Spells, WellFormed, Entries, AtValue;
    WalkFinds(store, leaf, codec, t, digest, p, key, own, fuel);
    forall any | (key, any) in Entries(t)
      ensures AtValue(leaf(any), Left(t, p, |key|)) == AtValue(leaf(own), Left(t, p, |key|))
    {
      WalkFinds(store, leaf, codec, t, digest, p, key, any, fuel);
    }
  }

  // ---- every path ----

  lemma PrefixJoin(s: string, x: string, y: string)
    requires x <= s && y <= s[|x|..]
    ensures x + y <= s
  {
  }

  lemma DigitsJoin(a: Nibbles, b: Nibbles)
    ensures HexDigits(a + b) == HexDigits(a) + HexDigits(b)
  {
  }

  lemma SpellsPrefix(p: seq<string>, key: Nibbles)
    ensures Spells(p, key) <==> HexDigits(key) <= Flatten<char>(p)
  {
    hide Flatten;
  }

  lemma SpellsJoin(p: seq<string>, a: Nibbles, b: Nibbles)
    requires Spells(p, a) && Spells(Dropped(p, |a|), b)
    ensures Spells(p, a + b)
  {
    hide *;
    DroppedFlatten(p, |a|);
    SpellsPrefix(p, a);
    SpellsPrefix(Dropped(p, |a|), b);
    SpellsPrefix(p, a + b);
    DigitsJoin(a, b);
    PrefixJoin(Flatten<char>(p), HexDigits(a), HexDigits(b));
  }

  lemma LeafReached(store: map<Cid, Block>, leaf: LeafDecoder, codec: nat, t: Trie, digest: seq<byte>,
                    p: seq<string>, fuel: nat)
    requires t.Leaf? && Stored(store, codec, t, digest) && Walk(store, leaf, Cid(codec, digest), p, fuel).Done?
    ensures Spells(p, t.nibbles)
  {
    hide Matched, Flatten, Dropped, Spells;
    DecodeLeaf(store, codec, t, digest, leaf);
    MatchedIff(t.nibbles, p);
    hide DecodeTrieNode, Stored;
    SpellsNothing(p);
  }

  lemma SpellsNothing(p: seq<string>)
    ensures Spells(p, [])
  {
  }

  lemma ExtensionPassed(store: map<Cid, Block>, leaf: LeafDecoder, codec: nat, t: Trie, digest: seq<byte>,
                        p: seq<string>, fuel: nat)
    requires t.Extension? && Stored(store, codec, t, digest) && fuel > 0
    requires Walk(store, leaf, Cid(codec, digest), p, fuel).Done?
    ensures Spells(p, t.nibbles)
    ensures var d := Reference(store, Cid(codec, digest), 1);
            && Stored(store, codec, t.child, d)
            && Walk(store, leaf, Cid(codec, d), Dropped(p, |t.nibbles|), fuel - 1)
               == Walk(store, leaf, Cid(codec, digest), p, fuel)
  {
    hide Walk, Matched, Flatten, Dropped, Spells, DecodeTrieNode, Reference;
    DecodeExtension(store, codec, t, digest, leaf);
    MatchedIff(t.nibbles, p);
    var c := Cid(codec, digest);
    WalkLink(store, leaf, c, p, fuel, ExtensionNode(t.nibbles, Cid(codec, Reference(store, c, 1))));
    hide Stored;
  }

  lemma BranchPassed(store: map<Cid, Block>, leaf: LeafDecoder, codec: nat, t: Trie, digest: seq<byte>,
                     p: seq<string>, fuel: nat) returns (i: nibble)
    requires t.Branch? && |t.children| == 16 && Stored(store, codec, t, digest) && fuel > 0
    requires Walk(store, leaf, Cid(codec, digest), p, fuel).Done?
    ensures Spells(p, [i]) && t.children[i].Some?
    ensures var d := Reference(store, Cid(codec, digest), i as nat);
            && Stored(store, codec, t.children[i].value, d)
            && Walk(store, leaf, Cid(codec, d), Dropped(p, 1), fuel - 1)
               == Walk(store, leaf, Cid(codec, digest), p, fuel)
  {
    hide Walk, Dropped, DecodeTrieNode, Resolve, Reference, HexChar;
    var c := Cid(codec, digest);
    DecodeBranch(store, codec, t, digest, leaf, 0);
    var node := DecodeTrieNode(c, store[c], leaf).value;
    BranchIff(node.children, p);
    WalkLink(store, leaf, c, p, fuel, node);
    i := FirstDigit(p);
    DecodeBranch(store, codec, t, digest, leaf, i as nat);
    hide Stored, Spells;
  }

  lemma FirstDigit(p: seq<string>) returns (i: nibble)
    ensures Flatten<char>(p) != "" && HexChar(Flatten<char>(p)[0]) ==> Spells(p, [i])
  {
    var s := Flatten<char>(p);
    i := 0;
    if s != "" && HexChar(s[0]) {
      i := (if s[0] <= '9' then s[0] as int - '0' as int else s[0] as int - 'a' as int + 10) as nibble;
      hide Flatten;
      assert s[..1] == [HexDigit(i)];
    }
  }

  /** A walk that arrives has been led by the digits of a key of the trie. */
  lemma {:induction false} ArrivesAtKey(store: map<Cid, Block>, leaf: LeafDecoder, codec: nat, t: Trie,
                                        digest: seq<byte>, p: seq<string>, n: nat, fuel: nat)
      returns (key: Nibbles, raw: seq<byte>)
    requires WellFormed(t, n) && Stored(store, codec, t, digest) && fuel >= n
    requires Walk(store, leaf, Cid(codec, digest), p, fuel).Done?
    ensures |key| == n && (key, raw) in Entries(t) && Spells(p, key)
    decreases t
  {
    hide Walk, Dropped, Spells, Stored, Reference;
    match t
    case Leaf(ns, bytes) =>
      key, raw := ns, bytes;
      LeafReached(store, leaf, codec, t, digest, p, fuel);
    case Extension(ns, child) =>
      ExtensionPassed(store, leaf, codec, t, digest, p, fuel);
      var d := Reference(store, Cid(codec, digest), 1);
      var below, bytes := ArrivesAtKey(store, leaf, codec, child, d, Dropped(p, |ns|), n - |ns|, fuel - 1);
      key, raw := ns + below, bytes;
      SpellsJoin(p, ns, below);
      assert key[|ns|..] == below;
      ExtensionEntry(t, key, raw);
    case Branch(children) =>
      var i := BranchPassed(store, leaf, codec, t, digest, p, fuel);
      var d := Reference(store, Cid(codec, digest), i as nat);
      var below, bytes := ArrivesAtKey(store, leaf, codec, children[i].value, d, Dropped(p, 1), n - 1, fuel - 1);
      key, raw := [i] + below, bytes;
      SpellsJoin(p, [i], below);
      assert key[1..] == below;
      BranchEntry(t, key, raw);
  }

  /** On every path, spelling a key or not: the walk returns a value exactly if the path begins with the digits of a key
      that has it, and returns nothing else. */
  lemma {:induction false} AnyPathIff(store: map<Cid, Block>, leaf: LeafDecoder, codec: nat, t: Trie,
                                      digest: seq<byte>, p: seq<string>, n: nat, raw: seq<byte>, fuel: nat)
    requires WellFormed(t, n) && Stored(store, codec, t, digest) && fuel >= n
    ensures var r := Walk(store, leaf, Cid(codec, digest), p, fuel);
            && (r == Done(Value(IpldNode(raw), Left(t, p, n)))
                <==> exists key: Nibbles :: |key| == n && Spells(p, key) && HasValue(t, key, leaf, IpldNode(raw)))
            && (r.Done? ==> exists bytes :: r == Done(Value(IpldNode(bytes), Left(t, p, n))))
  {
    hide Walk, Left, Stored, Spells, WellFormed, Entries, HasValue, Undecoded;
    var r := Walk(store, leaf, Cid(codec, digest), p, fuel);
    forall key: Nibbles | |key| == n && Spells(p, key) && HasValue(t, key, leaf, IpldNode(raw))
      ensures r == Done(Value(IpldNode(raw), Left(t, p, n)))
    {
      WalkIff(store, leaf, codec, t, digest, p, key, raw, fuel);
    }
    if r.Done? {
      var key, own := ArrivesAtKey(store, leaf, codec, t, digest, p, n, fuel);
      WalkFinds(store, leaf, codec, t, digest, p, key, own, fuel);
      WalkIff(store, leaf, codec, t, digest, p, key, raw, fuel);
    }
  }

  /** Every value in the trie decodes to an IPLD node of the same bytes, as in state, transaction and receipt tries. */
  ghost predicate HoldsNodes(t: Trie, leaf: LeafDecoder) {
    forall e :: e in Entries(t) ==> leaf(e.1) == Some(IpldNode(e.1))
  }

  /** For those the walk returns a value exactly if the trie has that entry. */
  lemma {:induction false} NodesWalkIff(store: map<Cid, Block>, leaf: LeafDecoder, codec: nat, t: Trie,
                                        digest: seq<byte>, p: seq<string>, key: Nibbles, raw: seq<byte>, fuel: nat)
    requires WellFormed(t, |key|) && Stored(store, codec, t, digest) && Spells(p, key) && fuel >= |key|
    requires HoldsNodes(t, leaf)
    ensures Walk(store, leaf, Cid(codec, digest), p, fuel) == Done(Value(IpldNode(raw), Left(t, p, |key|)))
            <==> (key, raw) in Entries(t)
  {
    hide Walk, Left, Stored, Spells, WellFormed, Entries;
    WalkIff(store, leaf, codec, t, digest, p, key, raw, fuel);
    forall any | (key, any) in Entries(t) ensures leaf(any) == Some(IpldNode(any)) {
      assert leaf((key, any).1) == Some(IpldNode((key, any).1));
    }
  }

  /** When the digits end with a path element, the value is handed exactly the elements after it that are not empty. */
  lemma LeftAligned(t: Trie, digits: seq<string>, tail: seq<string>, key: Nibbles)
    requires WellFormed(t, |key|) && Flatten<char>(digits) == HexDigits(key) && NoEmpty(digits) && NoEmpty(tail)
    ensures Spells(digits + tail, key) && Left(t, digits + tail, |key|) == tail
  {
    hide Dropped, Flatten;
    FlattenAppend<char>(digits, tail);
    var s := Flatten<char>(digits + tail);
    assert s[..|key|] == HexDigits(key);
    DroppedAligned(digits, tail);
    DroppedNothing(tail);
    if digits != [] {
      NotOnlyEmpty(digits);
    } else {
      assert digits + tail == tail;
    }
  }

  lemma {:induction false} DroppedNothing(p: seq<string>)
    requires NoEmpty(p)
    ensures Dropped(p, 0) == p
  {
    if p != [] {
      DroppedNothing(p[..|p| - 1]);
    }
  }

  lemma NotOnlyEmpty(p: seq<string>)
    requires NoEmpty(p) && p != []
    ensures Flatten<char>(p) != ""
  {
    assert p[|p| - 1] in p;
  }

  /** A leaf whose value does not decode is returned without its elements, and resolving any path on it panics. */
  lemma UndecodedLeafPanics(store: map<Cid, Block>, leaf: LeafDecoder, codec: nat, t: Trie, digest: seq<byte>,
                            p: seq<string>, fuel: nat)
    requires t.Leaf? && Stored(store, codec, t, digest)
    ensures Walk(store, leaf, Cid(codec, digest), p, fuel) == Panicked <==> leaf(t.raw).None?
  {
    hide Walk, Matched;
    DecodeLeaf(store, codec, t, digest, leaf);
    var c := Cid(codec, digest);
    var node := DecodeTrieNode(c, store[c], leaf).value;
    hide DecodeTrieNode, Stored;
    WalkEnd(store, leaf, c, p, fuel, node);
  }
}
