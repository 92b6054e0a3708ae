/** Hex-prefix keys and textual paths of trie nodes (pkg/ipfs/ipld/trie_node.go). */
module HexPath {
  import opened Seqs

  // ---- compact keys (Appendix C of the Ethereum Yellow Paper) ----

  newtype nibble = n: int | 0 <= n < 16

  function High(b: byte): nibble {
    (b / 16) as nibble
  }

  function Low(b: byte): nibble {
    (b % 16) as nibble
  }

  function Joined(hi: nibble, lo: nibble): byte {
    16 * hi as byte + lo as byte
  }

  /** A byte and its two nibbles determine each other. */
  lemma JoinedParts(hi: nibble, lo: nibble)
    ensures High(Joined(hi, lo)) == hi && Low(Joined(hi, lo)) == lo
  {
  }

  lemma PartsJoined(b: byte)
    ensures Joined(High(b), Low(b)) == b
  {
  }

  type Nibbles = seq<nibble>

  /** Each byte as its high and its low nibble. */
  function Expanded(k: seq<byte>): (ns: Nibbles)
    ensures |ns| == 2 * |k|
  {
    if k == [] then [] else Expanded(k[..|k| - 1]) + [High(k[|k| - 1]), Low(k[|k| - 1])]
  }

  method NibbleToByte(k: seq<byte>) returns (out: Nibbles)
    ensures out == Expanded(k)
  {
    out := [];
    for i := 0 to |k|
      invariant out == Expanded(k[..i])
    {
      assert k[..i + 1][..i] == k[..i];
      out := out + [(k[i] / 16) as nibble];
      out := out + [(k[i] % 16) as nibble];
    }
    assert k[..|k|] == k;
  }

  /** Two nibbles a byte, high one first; for an even number of nibbles. */
  function Packed(ns: Nibbles): seq<byte>
    requires |ns| % 2 == 0
  {
    if ns == [] then [] else Packed(ns[..|ns| - 2]) + [Joined(ns[|ns| - 2], ns[|ns| - 1])]
  }

  lemma ExpandedSnoc(k: seq<byte>, b: byte)
    ensures Expanded(k + [b]) == Expanded(k) + [High(b), Low(b)]
  {
    assert (k + [b])[..|k|] == k;
  }

  lemma PackedSnoc(ns: Nibbles, hi: nibble, lo: nibble)
    requires |ns| % 2 == 0
    ensures Packed(ns + [hi, lo]) == Packed(ns) + [Joined(hi, lo)]
  {
    assert (ns + [hi, lo])[..|ns|] == ns;
  }

  lemma {:induction false} ExpandedPackedSnoc(ns: Nibbles, hi: nibble, lo: nibble)
    requires |ns| % 2 == 0 && Expanded(Packed(ns)) == ns
    ensures Expanded(Packed(ns + [hi, lo])) == ns + [hi, lo]
  {
    hide *;
    PackedSnoc(ns, hi, lo);
    ExpandedSnoc(Packed(ns), Joined(hi, lo));
    JoinedParts(hi, lo);
  }

  lemma {:induction false} ExpandedPacked(ns: Nibbles)
    requires |ns| % 2 == 0
    ensures Expanded(Packed(ns)) == ns
  {
    if ns != [] {
      hide *;
      var init, hi, lo := ns[..|ns| - 2], ns[|ns| - 2], ns[|ns| - 1];
      assert ns == init + [hi, lo];
      ExpandedPacked(init);
      ExpandedPackedSnoc(init, hi, lo);
    }
  }

  lemma PackedExpandedSnoc(k: seq<byte>, b: byte)
    requires Packed(Expanded(k)) == k
    ensures Packed(Expanded(k + [b])) == k + [b]
  {
    hide *;
    ExpandedSnoc(k, b);
    PackedSnoc(Expanded(k), High(b), Low(b));
    PartsJoined(b);
  }

  lemma {:induction false} PackedExpanded(k: seq<byte>)
    ensures Packed(Expanded(k)) == k
  {
    if k != [] {
      hide *;
      assert k == k[..|k| - 1] + [k[|k| - 1]];
      PackedExpanded(k[..|k| - 1]);
      PackedExpandedSnoc(k[..|k| - 1], k[|k| - 1]);
    }
  }

  /** The hex-prefix encoding: flag nibble 0 or 1 for an extension, 2 or 3 for a leaf, the odd one carrying the
      first nibble in its byte. */
  function HexPrefix(ns: Nibbles, leaf: bool): (k: seq<byte>)
    ensures k != []
  {
    var flag: nibble := if leaf then 2 else 0;
    if |ns| % 2 == 0 then [Joined(flag, 0)] + Packed(ns) else [Joined(flag + 1, ns[0])] + Packed(ns[1..])
  }

  datatype CompactKey = ExtensionKey(nibbles: Nibbles) | LeafKey(nibbles: Nibbles) | UnknownPrefix

  /** decodeCompactKey on a nonempty key: the first nibble selects the kind and how many nibbles to drop. */
  function DecodeCompactKey(first: seq<byte>): CompactKey
    requires first != []
  {
    match first[0] / 16
    case 0 => ExtensionKey(Expanded(first)[2..])
    case 1 => ExtensionKey(Expanded(first)[1..])
    case 2 => LeafKey(Expanded(first)[2..])
    case 3 => LeafKey(Expanded(first)[1..])
    case _ => UnknownPrefix
  }

  lemma {:induction false} ExpandedCons(b: byte, k: seq<byte>)
    ensures Expanded([b] + k) == [High(b), Low(b)] + Expanded(k)
  {
    if k == [] {
      hide High, Low;
      assert [b] + k == [] + [b];
      ExpandedSnoc([], b);
    } else {
      hide *;
      var init, last := k[..|k| - 1], k[|k| - 1];
      assert k == init + [last];
      ExpandedCons(b, init);
      ExpandedConsSnoc(b, init, last);
    }
  }

  lemma ExpandedConsSnoc(b: byte, k: seq<byte>, last: byte)
    requires Expanded([b] + k) == [High(b), Low(b)] + Expanded(k)
    ensures Expanded([b] + (k + [last])) == [High(b), Low(b)] + Expanded(k + [last])
  {
    hide *;
    assert [b] + (k + [last]) == ([b] + k) + [last];
    ExpandedSnoc([b] + k, last);
    ExpandedSnoc(k, last);
  }

  function KeyOf(leaf: bool, ns: Nibbles): CompactKey {
    if leaf then LeafKey(ns) else ExtensionKey(ns)
  }

  /** An even flag: the nibble next to it is dropped with it. */
  lemma DecodeEven(b: byte, k: seq<byte>)
    requires High(b) == 0 || High(b) == 2
    ensures DecodeCompactKey([b] + k) == KeyOf(High(b) == 2, Expanded(k))
  {
    ExpandedCons(b, k);
    assert ([High(b), Low(b)] + Expanded(k))[2..] == Expanded(k);
  }

  /** An odd flag: the nibble next to it is the first of the key. */
  lemma DecodeOdd(b: byte, k: seq<byte>)
    requires High(b) == 1 || High(b) == 3
    ensures DecodeCompactKey([b] + k) == KeyOf(High(b) == 3, [Low(b)] + Expanded(k))
  {
    hide Expanded, Low;
    ExpandedCons(b, k);
    assert ([High(b), Low(b)] + Expanded(k))[1..] == [Low(b)] + Expanded(k);
  }

  /** Decoding inverts the encoding, for every nibble sequence and both kinds. */
  lemma DecodeEncode(ns: Nibbles, leaf: bool)
    ensures DecodeCompactKey(HexPrefix(ns, leaf)) == KeyOf(leaf, ns)
  {
    hide DecodeCompactKey, Expanded, Packed, High, Low, Joined;
    var flag: nibble := if leaf then 2 else 0;
    if |ns| % 2 == 0 {
      JoinedParts(flag, 0);
      DecodeEven(Joined(flag, 0), Packed(ns));
      ExpandedPacked(ns);
    } else {
      JoinedParts(flag + 1, ns[0]);
      DecodeOdd(Joined(flag + 1, ns[0]), Packed(ns[1..]));
      ExpandedPacked(ns[1..]);
      assert [ns[0]] + ns[1..] == ns;
    }
  }

  /** Encoding the key an even byte sequence decodes to gives the bytes back, but for the nibble next to the flag. */
  lemma EncodeEven(b: byte, k: seq<byte>)
    requires High(b) == 0 || High(b) == 2
    ensures HexPrefix(Expanded(k), High(b) == 2) == [Joined(High(b), 0)] + k
  {
    hide Expanded, Packed, High, Low, Joined;
    PackedExpanded(k);
  }

  lemma EncodeOdd(b: byte, k: seq<byte>)
    requires High(b) == 1 || High(b) == 3
    ensures HexPrefix([Low(b)] + Expanded(k), High(b) == 3) == [b] + k
  {
    hide Expanded, Packed, High, Low, Joined;
    PackedExpanded(k);
    PartsJoined(b);
    assert ([Low(b)] + Expanded(k))[1..] == Expanded(k);
  }

  /** Which keys decoding accepts, and when encoding the result gives the key back: an even key may carry
      anything in the nibble next to its flag, and only zero survives. */
  lemma EncodeDecodeIff(k: seq<byte>)
    requires k != []
    ensures DecodeCompactKey(k).UnknownPrefix? <==> k[0] >= 64
    ensures k[0] < 64 ==>
              && (DecodeCompactKey(k).LeafKey? <==> k[0] >= 32)
              && HexPrefix(DecodeCompactKey(k).nibbles, DecodeCompactKey(k).LeafKey?)
                 == [if k[0] / 16 % 2 == 0 then k[0] / 16 * 16 else k[0]] + k[1..]
    ensures k[0] < 64 ==>
              (HexPrefix(DecodeCompactKey(k).nibbles, DecodeCompactKey(k).LeafKey?) == k
               <==> (k[0] / 16 % 2 == 0 ==> k[0] % 16 == 0))
  {
    hide Expanded, Packed, HexPrefix;
    var b, tail := k[0], k[1..];
    assert k == [b] + tail;
    if High(b) == 0 || High(b) == 2 {
      DecodeEven(b, tail);
      EncodeEven(b, tail);
      assert [Joined(High(b), 0)] + tail == k <==> Joined(High(b), 0) == b by {
        assert ([Joined(High(b), 0)] + tail)[0] == Joined(High(b), 0);
      }
    } else if b < 64 {
      DecodeOdd(b, tail);
      EncodeOdd(b, tail);
    }
  }

  // ---- paths ----

  /** Bytes of a character in UTF-8, which is what Go's len counts. */
  function RuneLen(c: char): nat {
    if c as int < 0x80 then 1 else if c as int < 0x800 then 2 else if c as int < 0x10000 then 3 else 4
  }

  function ByteLen(s: string): nat {
    if s == "" then 0 else ByteLen(s[..|s| - 1]) + RuneLen(s[|s| - 1])
  }

  /** Bits of a character that n bytes of UTF-8 hold (section 3 of RFC 3629): seven in a single byte, else 7 - n in the
      first and six in each of the others. */
  function PayloadBits(n: nat): nat
    requires 1 <= n <= 4
  {
    if n == 1 then 7 else 7 - n + 6 * (n - 1)
  }

  function Power2(n: nat): (r: nat)
    ensures r > 0
  {
    if n == 0 then 1 else 2 * Power2(n - 1)
  }

  /** A character takes as few bytes as can hold it. */
  lemma RuneLenLeast(c: char)
    ensures 1 <= RuneLen(c) <= 4 && c as int < Power2(PayloadBits(RuneLen(c)))
    ensures RuneLen(c) > 1 ==> c as int >= Power2(PayloadBits(RuneLen(c) - 1))
  {
    assert Power2(4) == 16 && Power2(7) == 8 * Power2(4) && Power2(11) == 16 * Power2(7);
    assert Power2(14) == 8 * Power2(11) && Power2(16) == 4 * Power2(14);
    assert Power2(19) == 8 * Power2(16) && Power2(21) == 4 * Power2(19);
  }

  /** out and the characters of s after it, each taken only while fewer than i bytes are there. */
  function Taken(out: string, s: string, i: nat): string {
    if s == "" then out
    else
      var before := Taken(out, s[..|s| - 1], i);
      if ByteLen(before) < i then before + [s[|s| - 1]] else before
  }

  lemma {:induction false} TakenSnoc(out: string, s: string, c: char, i: nat)
    ensures Taken(out, s + [c], i) == if ByteLen(Taken(out, s, i)) < i then Taken(out, s, i) + [c] else Taken(out, s, i)
  {
    assert (s + [c])[..|s|] == s;
  }

  /** A prefix of s is taken: all of it if there are still fewer than i bytes, nothing if there were enough before. */
  ghost predicate TakesPrefix(out: string, s: string, i: nat) {
    var t := |Taken(out, s, i)| - |out|;
    && 0 <= t <= |s| && Taken(out, s, i) == out + s[..t]
    && (ByteLen(Taken(out, s, i)) < i ==> Taken(out, s, i) == out + s)
    && (ByteLen(out) >= i ==> Taken(out, s, i) == out)
  }

  lemma TakenPrefixSnoc(out: string, s: string, c: char, i: nat)
    requires TakesPrefix(out, s, i)
    ensures TakesPrefix(out, s + [c], i)
  {
    TakenSnoc(out, s, c, i);
    hide Taken, ByteLen;
    var t := |Taken(out, s, i)| - |out|;
    assert (s + [c])[..t] == s[..t];
    if ByteLen(Taken(out, s, i)) < i {
      assert out + (s + [c]) == (out + s) + [c];
      assert (s + [c])[..t + 1] == s + [c];
    }
  }

  lemma {:induction false} TakesPrefixOf(out: string, s: string, i: nat)
    ensures TakesPrefix(out, s, i)
  {
    if s != "" {
      hide *;
      assert s == s[..|s| - 1] + [s[|s| - 1]];
      TakesPrefixOf(out, s[..|s| - 1], i);
      TakenPrefixSnoc(out, s[..|s| - 1], s[|s| - 1], i);
    }
  }

  lemma TakenPrefix(out: string, s: string, i: nat)
    ensures var t := |Taken(out, s, i)| - |out|; 0 <= t <= |s| && Taken(out, s, i) == out + s[..t]
    ensures ByteLen(Taken(out, s, i)) < i ==> Taken(out, s, i) == out + s
    ensures ByteLen(out) >= i ==> Taken(out, s, i) == out
  {
    TakesPrefixOf(out, s, i);
    hide Taken, ByteLen;
  }

  lemma TakenAppendSnoc(out: string, s: string, x: string, c: char, i: nat)
    requires Taken(out, s + x, i) == Taken(Taken(out, s, i), x, i)
    ensures Taken(out, s + (x + [c]), i) == Taken(Taken(out, s, i), x + [c], i)
  {
    hide *;
    assert s + (x + [c]) == (s + x) + [c];
    TakenSnoc(out, s + x, c, i);
    TakenSnoc(Taken(out, s, i), x, c, i);
  }

  lemma {:induction false} TakenAppend(out: string, s: string, x: string, i: nat)
    ensures Taken(out, s + x, i) == Taken(Taken(out, s, i), x, i)
  {
    if x == "" {
      assert s + x == s;
    } else {
      hide *;
      var init, c := x[..|x| - 1], x[|x| - 1];
      assert x == init + [c];
      TakenAppend(out, s, init, i);
      TakenAppendSnoc(out, s, init, c, i);
    }
  }

  /** What is left of a path element after its first j characters: nothing at all if they are all of it. */
  function Kept(pe: string, j: int): seq<string> {
    if j <= 0 then (if pe == "" then [] else [pe]) else if j < |pe| then [pe[j..]] else []
  }

  /** The path without its first k characters and without empty elements. */
  function Dropped(p: seq<string>, k: nat): seq<string> {
    if p == [] then []
    else
      var init, last := p[..|p| - 1], p[|p| - 1];
      Dropped(init, k) + Kept(last, k - |Flatten<char>(init)|)
  }

  lemma DroppedSnoc(p: seq<string>, pe: string, k: nat)
    ensures Dropped(p + [pe], k) == Dropped(p, k) + Kept(pe, k - |Flatten<char>(p)|)
  {
    assert (p + [pe])[..|p|] == p;
  }

  lemma {:induction false} DroppedAll(p: seq<string>, k: nat)
    requires k >= |Flatten<char>(p)|
    ensures Dropped(p, k) == []
  {
    if p != [] {
      DroppedAll(p[..|p| - 1], k);
    }
  }

  /** The path after the characters out, given only if they are exactly i bytes. */
  function Rest(p: seq<string>, out: string, i: nat): seq<string> {
    if ByteLen(out) == i then Dropped(p, |out|) else []
  }

  /** What shiftFromPath returns: the characters taken and the rest. */
  function Shifted(p: seq<string>, i: nat): (string, seq<string>) {
    var out := Taken("", Flatten<char>(p), i);
    (out, Rest(p, out, i))
  }

  /** The part of a path element that was not taken, if there is any. */
  function Remainder(out: string, re: string, i: nat): seq<string> {
    if ByteLen(out) == i && re != "" then [re] else []
  }

  lemma KeptTail(pe: string, t: nat)
    requires t <= |pe|
    ensures Kept(pe, t) == if pe[t..] != "" then [pe[t..]] else []
  {
    assert pe[0..] == pe;
  }

  /** The rest of the path after one more element, of which t characters were taken. */
  lemma RestSnoc(p: seq<string>, pe: string, i: nat, before: string, out: string, t: nat)
    requires t <= |pe| && |out| == |before| + t <= |Flatten<char>(p)| + t && (t == 0 ==> out == before)
    requires if ByteLen(before) < i then |before| == |Flatten<char>(p)| else t == 0
    ensures Rest(p + [pe], out, i) == Rest(p, before, i) + Remainder(out, pe[t..], i)
  {
    hide Dropped, ByteLen, Flatten, Kept;
    var n := |Flatten<char>(p)|;
    DroppedSnoc(p, pe, |out|);
    KeptTail(pe, t);
    if ByteLen(before) < i {
      DroppedAll(p, |out|);
    } else {
      assert Kept(pe, |out| - n) == Kept(pe, 0) by { KeptNone(pe, |out| - n); }
    }
  }

  lemma KeptNone(pe: string, j: int)
    requires j <= 0
    ensures Kept(pe, j) == Kept(pe, 0)
  {
  }

  /** What one more path element adds. */
  lemma ShiftedSnoc(p: seq<string>, pe: string, i: nat)
    ensures var before := Shifted(p, i).0;
            var out := Taken(before, pe, i);
            && 0 <= |out| - |before| <= |pe|
            && Shifted(p + [pe], i) == (out, Shifted(p, i).1 + Remainder(out, pe[|out| - |before|..], i))
  {
    hide Taken, ByteLen, Dropped, Flatten, Rest, Remainder;
    var s := Flatten<char>(p);
    FlattenSnoc<char>(p, pe);
    TakenAppend("", s, pe, i);
    TakenPrefix("", s, i);
    var before := Taken("", s, i);
    TakenPrefix(before, pe, i);
    var out := Taken(before, pe, i);
    RestSnoc(p, pe, i, before, out, |out| - |before|);
  }

  /** The first m characters of the element pe have been looked at; those beyond |out| - |before| are in re. */
  ghost predicate InElement(before: string, pe: string, m: nat, i: nat, out: string, re: string) {
    && m <= |pe| && out == Taken(before, pe[..m], i)
    && |before| <= |out| <= |before| + m && re == pe[|out| - |before|..m]
  }

  lemma ElementStart(before: string, pe: string, i: nat)
    ensures InElement(before, pe, 0, i, before, "")
  {
  }

  lemma ElementSnoc(before: string, pe: string, m: nat, i: nat, out: string, re: string)
    requires InElement(before, pe, m, i, out, re) && m < |pe|
    ensures ByteLen(out) < i ==> InElement(before, pe, m + 1, i, out + [pe[m]], re)
    ensures ByteLen(out) >= i ==> InElement(before, pe, m + 1, i, out, re + [pe[m]])
  {
    hide Taken, ByteLen;
    assert pe[..m + 1] == pe[..m] + [pe[m]];
    TakenSnoc(before, pe[..m], pe[m], i);
    TakenPrefix(before, pe[..m], i);
  }

  lemma ElementEnd(before: string, pe: string, i: nat, out: string, re: string)
    requires InElement(before, pe, |pe|, i, out, re)
    ensures out == Taken(before, pe, i)
    ensures 0 <= |out| - |before| <= |pe| && re == pe[|out| - |before|..]
  {
    hide Taken;
    assert pe[..|pe|] == pe;
  }

  /** The inner loop: what is taken from one path element, and what is left of it. */
  method ShiftElement(before: string, pe: string, i: nat) returns (out: string, re: string)
    ensures out == Taken(before, pe, i)
    ensures 0 <= |out| - |before| <= |pe| && re == pe[|out| - |before|..]
  {
    out, re := before, "";
    ElementStart(before, pe, i);
    hide *;
    for m := 0 to |pe|
      invariant InElement(before, pe, m, i, out, re)
    {
      ElementSnoc(before, pe, m, i, out, re);
      if ByteLen(out) < i {
        out := out + [pe[m]];
      } else {
        re := re + [pe[m]];
      }
    }
    ElementEnd(before, pe, i, out, re);
  }

  lemma ShiftedEmpty(i: nat)
    ensures Shifted([], i) == ("", [])
  {
  }

  lemma ShiftedStep(p: seq<string>, k: nat, i: nat)
    requires k < |p|
    ensures var before := Shifted(p[..k], i).0;
            var out := Taken(before, p[k], i);
            && 0 <= |out| - |before| <= |p[k]|
            && Shifted(p[..k + 1], i).0 == out
            && Shifted(p[..k + 1], i).1 == Shifted(p[..k], i).1 + Remainder(out, p[k][|out| - |before|..], i)
  {
    hide *;
    ShiftedSnoc(p[..k], p[k], i);
    assert p[..k + 1] == p[..k] + [p[k]];
  }

  method ShiftFromPath(p: seq<string>, i: nat) returns (out: string, rest: seq<string>)
    ensures out == Shifted(p, i).0 && rest == Shifted(p, i).1
  {
    hide Shifted, Taken, ByteLen, Dropped, Kept, Rest, Flatten;
    out, rest := "", [];
    ShiftedEmpty(i);
    assert p[..0] == [];
    for k := 0 to |p|
      invariant out == Shifted(p[..k], i).0
      invariant rest == Shifted(p[..k], i).1
    {
      ShiftedStep(p, k, i);
      var re;
      out, re := ShiftElement(out, p[k], i);
      if ByteLen(out) == i && re != "" {
        rest := rest + [re];
      }
    }
    assert p[..|p|] == p;
  }

  ghost predicate NoEmpty(p: seq<string>) {
    "" !in p
  }

  lemma KeptFlatten(p: seq<string>, pe: string, j: int)
    requires NoEmpty(p)
    ensures Flatten<char>(p + Kept(pe, j)) == Flatten<char>(p) + (if j <= 0 then pe else if j < |pe| then pe[j..] else "")
    ensures NoEmpty(p + Kept(pe, j))
  {
    hide Flatten;
    if Kept(pe, j) == [] {
      assert p + [] == p;
    } else {
      FlattenSnoc<char>(p, Kept(pe, j)[0]);
    }
  }

  lemma {:induction false} DroppedFlattenSnoc(p: seq<string>, pe: string, k: nat)
    requires Flatten<char>(Dropped(p, k)) == if k <= |Flatten<char>(p)| then Flatten<char>(p)[k..] else ""
    requires NoEmpty(Dropped(p, k))
    ensures var s := Flatten<char>(p + [pe]);
            Flatten<char>(Dropped(p + [pe], k)) == if k <= |s| then s[k..] else ""
    ensures NoEmpty(Dropped(p + [pe], k))
  {
    hide *;
    FlattenSnoc<char>(p, pe);
    DroppedSnoc(p, pe, k);
    KeptFlatten(Dropped(p, k), pe, k - |Flatten<char>(p)|);
  }

  /** Dropping characters from the path drops them from its concatenation, and leaves no empty element. */
  lemma {:induction false} DroppedFlatten(p: seq<string>, k: nat)
    ensures var s := Flatten<char>(p);
            Flatten<char>(Dropped(p, k)) == if k <= |s| then s[k..] else ""
    ensures NoEmpty(Dropped(p, k))
  {
    if p != [] {
      hide *;
      assert p == p[..|p| - 1] + [p[|p| - 1]];
      DroppedFlatten(p[..|p| - 1], k);
      DroppedFlattenSnoc(p[..|p| - 1], p[|p| - 1], k);
    }
  }

  lemma KeptAgain(pe: string, j: int, b: nat)
    requires Kept(pe, j) != []
    ensures Kept(Kept(pe, j)[0], if j <= 0 then b + j else b) == Kept(pe, j + b)
  {
    if 0 < j && 0 < b && j + b < |pe| {
      assert pe[j..][b..] == pe[j + b..];
    }
  }

  lemma DroppedAgainSnoc(p: seq<string>, pe: string, a: nat, b: nat)
    requires Dropped(Dropped(p, a), b) == Dropped(p, a + b)
    ensures Dropped(Dropped(p + [pe], a), b) == Dropped(p + [pe], a + b)
  {
    hide Dropped, Flatten;
    var j := a - |Flatten<char>(p)|;
    DroppedFlatten(p, a);
    DroppedSnoc(p, pe, a);
    DroppedSnoc(p, pe, a + b);
    if Kept(pe, j) == [] {
      assert Kept(pe, j + b) == [];
      assert Dropped(p, a) + [] == Dropped(p, a);
      assert Dropped(p, a + b) + [] == Dropped(p, a + b);
    } else {
      var x := Kept(pe, j)[0];
      KeptAgain(pe, j, b);
      DroppedSnoc(Dropped(p, a), x, b);
      hide Kept;
      assert |Flatten<char>(Dropped(p, a))| == if j <= 0 then -j else 0;
      if j > 0 { assert b - 0 == b; }
    }
  }

  /** Dropping twice is dropping once. */
  lemma {:induction false} DroppedAgain(p: seq<string>, a: nat, b: nat)
    ensures Dropped(Dropped(p, a), b) == Dropped(p, a + b)
  {
    if p != [] {
      hide *;
      assert p == p[..|p| - 1] + [p[|p| - 1]];
      DroppedAgain(p[..|p| - 1], a, b);
      DroppedAgainSnoc(p[..|p| - 1], p[|p| - 1], a, b);
    }
  }

  /** Dropping exactly the first elements leaves the others, but for empty ones. */
  lemma {:induction false} DroppedAligned(p: seq<string>, q: seq<string>)
    ensures Dropped(p + q, |Flatten<char>(p)|) == Dropped(q, 0)
  {
    if q == [] {
      assert p + q == p;
      DroppedAll(p, |Flatten<char>(p)|);
    } else {
      var init, last := q[..|q| - 1], q[|q| - 1];
      hide Flatten, Dropped;
      assert p + q == (p + init) + [last];
      assert q == init + [last];
      DroppedAligned(p, init);
      DroppedSnoc(p + init, last, |Flatten<char>(p)|);
      DroppedSnoc(init, last, 0);
      FlattenAppend<char>(p, init);
    }
  }

  // ---- how many bytes are taken ----

  lemma {:induction false} ByteLenPrefix(s: string, n: nat)
    requires n <= |s|
    ensures ByteLen(s[..n]) <= ByteLen(s)
  {
    if n < |s| {
      assert s[..|s| - 1][..n] == s[..n];
      ByteLenPrefix(s[..|s| - 1], n);
    } else {
      assert s[..n] == s;
    }
  }

  /** What is taken of s is a prefix, and all of it while bytes are missing. */
  lemma TakenFromStart(s: string, i: nat)
    ensures var t := |Taken("", s, i)|; t <= |s| && Taken("", s, i) == s[..t]
    ensures ByteLen(Taken("", s, i)) < i ==> Taken("", s, i) == s
  {
    hide Taken, ByteLen;
    TakenPrefix("", s, i);
    var t := |Taken("", s, i)|;
    assert "" + s[..t] == s[..t];
    assert "" + s == s;
  }

  /** Characters after a prefix that has all the bytes do not matter. */
  lemma TakenEarly(s: string, n: nat, i: nat)
    requires n <= |s| && ByteLen(Taken("", s[..n], i)) >= i
    ensures Taken("", s, i) == Taken("", s[..n], i)
  {
    hide *;
    assert s == s[..n] + s[n..];
    TakenAppend("", s[..n], s[n..], i);
    TakenPrefix(Taken("", s[..n], i), s[n..], i);
  }

  /** Some prefix of s has exactly i bytes. */
  ghost predicate CutsAt(s: string, i: nat) {
    exists n :: 0 <= n <= |s| && ByteLen(s[..n]) == i
  }

  lemma {:induction false} CutTaken(s: string, n: nat)
    requires n <= |s|
    ensures ByteLen(Taken("", s, ByteLen(s[..n]))) == ByteLen(s[..n])
  {
    hide *;
    var head, i := s[..n], ByteLen(s[..n]);
    TakenFromStart(head, i);
    ByteLenPrefix(head, |Taken("", head, i)|);
    TakenEarly(s, n, i);
  }

  lemma TakenCuts(s: string, i: nat)
    ensures ByteLen(Taken("", s, i)) == i <==> CutsAt(s, i)
  {
    hide Taken, ByteLen;
    TakenFromStart(s, i);
    if CutsAt(s, i) {
      var n :| 0 <= n <= |s| && ByteLen(s[..n]) == i;
      CutTaken(s, n);
    }
  }

  /** The last character is taken only while bytes are still missing. */
  lemma TakenAll(s: string, i: nat)
    ensures Taken("", s, i) == s <==> s == "" || ByteLen(s[..|s| - 1]) < i
  {
    if s != "" {
      var init, last := s[..|s| - 1], s[|s| - 1];
      hide *;
      assert s == init + [last];
      TakenFromStart(init, i);
      TakenSnoc("", init, last, i);
    }
  }

  /** When nothing of the path is lost: some prefix has exactly the bytes asked for, or all of it is taken. A character
      of several bytes that runs past the count makes the rest of the path disappear. */
  lemma ShiftConservesIff(p: seq<string>, i: nat)
    ensures var s := Flatten<char>(p);
            var (out, rest) := Shifted(p, i);
            out + Flatten<char>(rest) == s <==> CutsAt(s, i) || s == "" || ByteLen(s[..|s| - 1]) < i
    ensures NoEmpty(Shifted(p, i).1)
  {
    hide *;
    var s := Flatten<char>(p);
    var out := Taken("", s, i);
    ShiftedParts(p, i);
    TakenCuts(s, i);
    TakenAll(s, i);
    TakenFromStart(s, i);
    DroppedFlatten(p, |out|);
    PrefixAndRest(s, |out|);
  }

  lemma ShiftedParts(p: seq<string>, i: nat)
    ensures var out := Taken("", Flatten<char>(p), i);
            && Shifted(p, i).0 == out
            && (ByteLen(out) == i ==> Shifted(p, i).1 == Dropped(p, |out|))
            && (ByteLen(out) != i ==> Shifted(p, i).1 == [] && Flatten<char>(Shifted(p, i).1) == "")
            && (ByteLen(out) != i ==> NoEmpty(Shifted(p, i).1))
  {
    hide Taken, ByteLen, Dropped;
  }

  lemma PrefixAndRest(s: string, n: nat)
    requires n <= |s|
    ensures s[..n] + s[n..] == s && (s[..n] + "" == s <==> s[..n] == s)
  {
  }

  ghost predicate Ascii(s: string) {
    forall i :: 0 <= i < |s| ==> s[i] as int < 0x80
  }

  lemma {:induction false} AsciiBytes(s: string)
    requires Ascii(s)
    ensures ByteLen(s) == |s|
  {
    if s != "" {
      AsciiBytes(s[..|s| - 1]);
    }
  }

  /** A character is taken if and only if fewer than i bytes come before it. */
  lemma {:induction false} TakenIndex(s: string, i: nat, k: nat)
    ensures k < |Taken("", s, i)| <==> k < |s| && ByteLen(s[..k]) < i
  {
    if s != "" {
      var init, last := s[..|s| - 1], s[|s| - 1];
      assert s == init + [last];
      assert k < |s| ==> s[..k] == init[..k];
      hide *;
      TakenIndex(init, i, k);
      TakenSnoc("", init, last, i);
      TakenFromStart(init, i);
      TakenStops(init, i, k);
    }
  }

  lemma TakenStops(s: string, i: nat, k: nat)
    ensures k == |s| && ByteLen(s[..k]) < i ==> Taken("", s, i) == s
    ensures k == |s| && ByteLen(Taken("", s, i)) < i ==> ByteLen(s[..k]) < i
    ensures ByteLen(Taken("", s, i)) < i ==> Taken("", s, i) == s
  {
    hide Taken, ByteLen;
    TakenFromStart(s, i);
    assert s[..|s|] == s;
    if ByteLen(s) < i {
      ByteLenPrefix(s, |Taken("", s, i)|);
    }
  }

  /** If the first i characters of the path are single bytes, they are taken and the rest is left. */
  lemma ShiftAscii(p: seq<string>, i: nat)
    requires i <= |Flatten<char>(p)| && Ascii(Flatten<char>(p)[..i])
    ensures Shifted(p, i) == (Flatten<char>(p)[..i], Dropped(p, i))
  {
    var s := Flatten<char>(p);
    AsciiBytes(s[..i]);
    hide ByteLen, Flatten, Dropped, Ascii;
    AsciiTaken(s, i);
  }

  lemma AsciiTaken(s: string, i: nat)
    requires i <= |s| && Ascii(s[..i])
    ensures Taken("", s, i) == s[..i] && ByteLen(s[..i]) == i
  {
    hide Taken, ByteLen;
    AsciiBytes(s[..i]);
    TakenFromStart(s[..i], i);
    AsciiBytes(s[..i][..|Taken("", s[..i], i)|]);
    TakenEarly(s, i, i);
  }

  /** For single-byte characters: the first characters of the concatenation, and nothing lost. */
  lemma ShiftAsciiAll(p: seq<string>, i: nat)
    requires Ascii(Flatten<char>(p))
    ensures var s := Flatten<char>(p);
            var (out, rest) := Shifted(p, i);
            && out == s[..if i <= |s| then i else |s|]
            && out + Flatten<char>(rest) == s
            && NoEmpty(rest)
  {
    var s := Flatten<char>(p);
    ShiftConservesIff(p, i);
    AsciiBytes(s);
    if i <= |s| {
      AsciiBytes(s[..i]);
      assert CutsAt(s, i);
      ShiftAscii(p, i);
    } else {
      TakenAll(s, i);
      ByteLenPrefix(s, if s == "" then 0 else |s| - 1);
    }
  }

  // ---- hex digits ----

  function GetHexIndex(s: string): (r: int)
  {
    if ByteLen(s) != 1 then -1
    else if '0' <= s[0] <= '9' then s[0] as int - '0' as int
    else if 'a' <= s[0] <= 'f' then s[0] as int - 'a' as int + 10
    else -1
  }

  /** The nibble as Go's %x verb prints it. */
  function HexDigit(n: nibble): char {
    if n < 10 then ('0' as int + n as int) as char else ('a' as int + n as int - 10) as char
  }

  /** getHexIndex inverts the printing of nibbles and accepts nothing else. */
  lemma HexIndexIff(s: string, n: nibble)
    ensures GetHexIndex(s) == n as int <==> s == [HexDigit(n)]
    ensures GetHexIndex(s) == -1 || 0 <= GetHexIndex(s) < 16
  {
    if |s| == 1 {
      assert ByteLen([s[0]]) == RuneLen(s[0]);
      assert s == [s[0]];
    }
    LongString(s);
  }

  /** The characters getHexIndex accepts: digits and lowercase letters. */
  predicate HexChar(c: char) {
    '0' <= c <= '9' || 'a' <= c <= 'f'
  }

  lemma HexCharIff(c: char)
    ensures GetHexIndex([c]) != -1 <==> HexChar(c)
    ensures HexChar(c) ==> c as int < 0x80
  {
    assert ByteLen([c]) == RuneLen(c);
  }

  lemma {:induction false} LongString(s: string)
    ensures ByteLen(s) >= |s|
  {
    if s != "" {
      LongString(s[..|s| - 1]);
    }
  }

  function HexDigits(ns: Nibbles): (s: string)
    ensures |s| == |ns| && forall i :: 0 <= i < |ns| ==> s[i] == HexDigit(ns[i])
  {
    seq(|ns|, i requires 0 <= i < |ns| => HexDigit(ns[i]))
  }

  lemma HexDigitsAscii(ns: Nibbles)
    ensures Ascii(HexDigits(ns))
  {
  }
}
