/** Several values packed in one storage slot (libraries/shared/storage/utils/decoder.go). */
module PackedSlot {
  import opened Seqs

  datatype ValueType = Uint256 | Uint48 | Uint128 | Bytes32 | Address | PackedSlot

  /** getNumberOfBytes, which panics for other types. */
  function NumberOfBytes(t: ValueType): Option<nat> {
    match t
    case Uint48 => Some(6)
    case Uint128 => Some(16)
    case Address => Some(20)
    case _ => None
  }

  // ---- bytes and numbers ----

  function Pow256(n: nat): (r: nat)
    ensures r > 0
  {
    if n == 0 then 1 else 256 * Pow256(n - 1)
  }

  function BigEndian(raw: seq<byte>): nat {
    if raw == [] then 0 else BigEndian(raw[..|raw| - 1]) * 256 + raw[|raw| - 1] as nat
  }

  lemma {:induction false} BigEndianBound(raw: seq<byte>)
    ensures BigEndian(raw) < Pow256(|raw|)
  {
    if raw != [] {
      BigEndianBound(raw[..|raw| - 1]);
    }
  }

  lemma BigEndianSnoc(raw: seq<byte>, b: byte)
    ensures BigEndian(raw + [b]) == BigEndian(raw) * 256 + b as nat
  {
    assert (raw + [b])[..|raw|] == raw;
  }

  lemma {:induction false} BigEndianAppend(a: seq<byte>, b: seq<byte>)
    ensures BigEndian(a + b) == BigEndian(a) * Pow256(|b|) + BigEndian(b)
  {
    if b == [] {
      assert a + b == a;
    } else {
      var init, last := b[..|b| - 1], b[|b| - 1];
      BigEndianAppend(a, init);
      assert a + b == (a + init) + [last];
      BigEndianSnoc(a + init, last);
      assert b == init + [last];
      BigEndianSnoc(init, last);
      ShiftSum(BigEndian(a), Pow256(|init|), BigEndian(init));
    }
  }

  lemma ShiftSum(a: nat, p: nat, i: nat)
    ensures (a * p + i) * 256 == a * (256 * p) + i * 256
  {
  }

  /** A number in a given number of bytes, high ones first. */
  function ToBytes(v: nat, n: nat): (raw: seq<byte>)
    ensures |raw| == n
  {
    if n == 0 then [] else ToBytes(v / 256, n - 1) + [(v % 256) as byte]
  }

  lemma {:induction false} ToBytesValue(v: nat, n: nat)
    requires v < Pow256(n)
    ensures BigEndian(ToBytes(v, n)) == v
  {
    if n > 0 {
      ToBytesValue(v / 256, n - 1);
      BigEndianSnoc(ToBytes(v / 256, n - 1), (v % 256) as byte);
    }
  }

  /** The decimal digits of a number, as big.Int prints it. */
  function Decimal(n: nat): string {
    if n < 10 then [('0' as int + n) as char] else Decimal(n / 10) + [('0' as int + n % 10) as char]
  }

  function Number(s: string): int {
    if s == "" then 0 else Number(s[..|s| - 1]) * 10 + (s[|s| - 1] as int - '0' as int)
  }

  predicate Digits(s: string) {
    forall i :: 0 <= i < |s| ==> '0' <= s[i] <= '9'
  }

  /** The text is digits only, without leading zeros, and reads back as the number. */
  lemma {:induction false} DecimalNumber(n: nat)
    ensures Decimal(n) != "" && Number(Decimal(n)) == n
    ensures Digits(Decimal(n)) && (Decimal(n)[0] == '0' ==> Decimal(n) == "0")
  {
    if n >= 10 {
      DecimalNumber(n / 10);
      var init, c := Decimal(n / 10), ('0' as int + n % 10) as char;
      assert (init + [c])[..|init|] == init;
    } else {
      assert Number("") == 0;
      var s := [('0' as int + n) as char];
      assert s[..0] == "";
    }
  }

  // ---- decodePackedSlot ----

  /** An address is its 20 bytes; the checksummed text the program prints is a function of them. */
  datatype Item = Integer(decimal: string) | AddressBytes(raw: seq<byte>)

  datatype Decoded = Items(items: map<int, Item>) | Panic

  function DecodeItem(raw: seq<byte>, t: ValueType): Item {
    if t.Address? then AddressBytes(raw) else Integer(Decimal(BigEndian(raw)))
  }

  /** A Go map gives the zero value, Uint256, for a missing key. */
  function TypeAt(types: map<int, ValueType>, position: int): ValueType {
    if position in types then types[position] else Uint256
  }

  predicate Packable(types: map<int, ValueType>, k: nat) {
    forall position :: 0 <= position < k ==> NumberOfBytes(TypeAt(types, position)).Some?
  }

  /** Bytes taken by the first k positions. */
  function Size(types: map<int, ValueType>, k: nat): nat
    requires Packable(types, k)
  {
    if k == 0 then 0 else Size(types, k - 1) + NumberOfBytes(TypeAt(types, k - 1)).value
  }

  lemma {:induction false} SizeGrows(types: map<int, ValueType>, j: nat, k: nat)
    requires Packable(types, k) && j <= k
    ensures Size(types, j) <= Size(types, k)
  {
    if j < k {
      SizeGrows(types, j, k - 1);
    }
  }

  /** What decoding needs: positions from 0 on without a hole, of types that can be packed, within the slot. */
  predicate Decodable(types: map<int, ValueType>, length: nat) {
    Packable(types, |types|) && Size(types, |types|) <= length
  }

  /** Bits of a type that can be packed, as its name says; an address has 160. */
  function Bits(t: ValueType): nat {
    match t
    case Uint48 => 48
    case Uint128 => 128
    case Address => 160
    case _ => 0
  }

  /** A type can be packed exactly if it is one of the three, and then takes its bits. */
  lemma BytesOf(t: ValueType)
    ensures NumberOfBytes(t).Some? <==> Bits(t) > 0
    ensures NumberOfBytes(t).Some? ==> 8 * NumberOfBytes(t).value == Bits(t)
  {
  }

  /** Bits of the types at the positions below k. */
  function AllBits(types: map<int, ValueType>, k: nat): nat
    requires forall p :: 0 <= p < k ==> p in types
  {
    if k == 0 then 0 else AllBits(types, k - 1) + Bits(types[k - 1])
  }

  lemma PackableIff(types: map<int, ValueType>, k: nat)
    ensures Packable(types, k) <==> forall p :: 0 <= p < k ==> p in types && Bits(types[p]) > 0
  {
    hide NumberOfBytes;
    BytesOf(Uint256);
    forall p | 0 <= p < k ensures NumberOfBytes(TypeAt(types, p)).Some? <==> p in types && Bits(types[p]) > 0 {
      BytesOf(TypeAt(types, p));
    }
    hide TypeAt;
  }

  lemma {:induction false} SizeBits(types: map<int, ValueType>, k: nat)
    requires Packable(types, k) && forall p :: 0 <= p < k ==> p in types
    ensures 8 * Size(types, k) == AllBits(types, k)
  {
    if k > 0 {
      SizeBits(types, k - 1);
      BytesOf(types[k - 1]);
      hide NumberOfBytes, Bits;
    }
  }

  /** A slot can be decoded exactly if the positions have no hole, hold only types that can be packed, and need no more
      bits than there are. */
  lemma DecodableIff(types: map<int, ValueType>, length: nat)
    ensures Decodable(types, length)
            <==> (forall p :: 0 <= p < |types| ==> p in types && Bits(types[p]) > 0)
                 && AllBits(types, |types|) <= 8 * length
  {
    PackableIff(types, |types|);
    hide Packable;
    if Packable(types, |types|) {
      SizeBits(types, |types|);
    }
  }

  /** The bytes of an item: the lowest positions are at the low-order end. */
  function ItemBytes(raw: seq<byte>, types: map<int, ValueType>, position: nat): seq<byte>
    requires Packable(types, position + 1) && Size(types, position + 1) <= |raw|
  {
    raw[|raw| - Size(types, position + 1)..|raw| - Size(types, position)]
  }

  /** The item at a position is what its bytes say. */
  predicate DecodedAt(raw: seq<byte>, types: map<int, ValueType>, position: int, item: Item) {
    && 0 <= position && Packable(types, position + 1) && Size(types, position + 1) <= |raw|
    && item == DecodeItem(ItemBytes(raw, types, position), TypeAt(types, position))
  }

  /** The first k positions, and no other, are decoded. */
  ghost predicate DecodedUpTo(raw: seq<byte>, types: map<int, ValueType>, k: nat, items: map<int, Item>) {
    && (forall p :: p in items <==> 0 <= p < k)
    && forall p :: p in items ==> DecodedAt(raw, types, p, items[p])
  }

  lemma DecodeOne(raw: seq<byte>, types: map<int, ValueType>, k: nat, data: seq<byte>, items: map<int, Item>, n: nat)
    requires Packable(types, k) && Size(types, k) <= |raw| && data == raw[..|raw| - Size(types, k)]
    requires DecodedUpTo(raw, types, k, items)
    requires NumberOfBytes(TypeAt(types, k)) == Some(n)
    ensures Packable(types, k + 1) && Size(types, k + 1) == Size(types, k) + n
    ensures n <= |data| ==>
              && data[0..|data| - n] == raw[..|raw| - Size(types, k + 1)]
              && DecodedUpTo(raw, types, k + 1, items[k := DecodeItem(data[|data| - n..], TypeAt(types, k))])
  {
    hide DecodeItem;
    assert Packable(types, k + 1);
    if n <= |data| {
      assert data[|data| - n..] == ItemBytes(raw, types, k);
      hide ItemBytes, Size, Packable;
    }
  }

  method DecodePackedSlot(raw: seq<byte>, packedTypes: map<int, ValueType>) returns (r: Decoded)
    ensures r.Panic? <==> !Decodable(packedTypes, |raw|)
    ensures r.Items? ==> DecodedUpTo(raw, packedTypes, |packedTypes|, r.items)
  {
    var storageSlotData := raw;
    var decoded: map<int, Item> := map[];
    var numberOfTypes := |packedTypes|;
    hide DecodeItem, DecodedAt, ItemBytes;
    for position := 0 to numberOfTypes
      invariant Packable(packedTypes, position) && Size(packedTypes, position) <= |raw|
      invariant storageSlotData == raw[..|raw| - Size(packedTypes, position)]
      invariant DecodedUpTo(raw, packedTypes, position, decoded)
    {
      hide DecodedUpTo, Size;
      var itemType := TypeAt(packedTypes, position);
      var lengthOfItem := NumberOfBytes(itemType);
      if lengthOfItem.None? {
        return Panic;
      }
      DecodeOne(raw, packedTypes, position, storageSlotData, decoded, lengthOfItem.value);
      var itemStartingIndex := |storageSlotData| - lengthOfItem.value;
      if itemStartingIndex < 0 {
        TooLong(packedTypes, position + 1, |raw|);
        return Panic;
      }
      var itemValueBytes := storageSlotData[itemStartingIndex..];
      decoded := decoded[position := DecodeItem(itemValueBytes, itemType)];
      storageSlotData := storageSlotData[0..itemStartingIndex];
    }
    return Items(decoded);
  }

  lemma TooLong(types: map<int, ValueType>, k: nat, length: nat)
    requires k <= |types| && Packable(types, k) && Size(types, k) > length
    ensures !Decodable(types, length)
  {
    if Packable(types, |types|) {
      SizeGrows(types, k, |types|);
    }
  }

  // ---- packing ----

  function Power2(n: nat): nat {
    if n == 0 then 1 else 2 * Power2(n - 1)
  }

  /** Values that fit their types. */
  ghost predicate Fit(types: map<int, ValueType>, values: seq<nat>) {
    && Packable(types, |values|)
    && forall p :: 0 <= p < |values| ==> values[p] < Power2(Bits(TypeAt(types, p)))
  }

  lemma EightBits(n: nat)
    ensures Power2(n + 8) == 256 * Power2(n)
  {
    assert Power2(n + 2) == 2 * Power2(n + 1) && Power2(n + 1) == 2 * Power2(n);
    assert Power2(n + 4) == 2 * Power2(n + 3) && Power2(n + 3) == 2 * Power2(n + 2);
    assert Power2(n + 6) == 2 * Power2(n + 5) && Power2(n + 5) == 2 * Power2(n + 4);
    assert Power2(n + 8) == 2 * Power2(n + 7) && Power2(n + 7) == 2 * Power2(n + 6);
  }

  lemma {:induction false} BytesAndBits(n: nat)
    ensures Pow256(n) == Power2(8 * n)
  {
    if n > 0 {
      BytesAndBits(n - 1);
      EightBits(8 * n - 8);
    }
  }

  lemma FitBytes(types: map<int, ValueType>, values: seq<nat>)
    requires Fit(types, values)
    ensures forall p :: 0 <= p < |values| ==> values[p] < Pow256(NumberOfBytes(TypeAt(types, p)).value)
  {
    hide NumberOfBytes, Bits, Power2, Pow256, TypeAt;
    forall p | 0 <= p < |values|
      ensures values[p] < Pow256(NumberOfBytes(TypeAt(types, p)).value)
    {
      BytesOf(TypeAt(types, p));
      BytesAndBits(NumberOfBytes(TypeAt(types, p)).value);
    }
  }

  /** The first k values, each placed above the ones before it. */
  function Packed(types: map<int, ValueType>, values: seq<nat>, k: nat): (raw: seq<byte>)
    requires k <= |values| && Packable(types, k)
    ensures |raw| == Size(types, k)
  {
    if k == 0 then []
    else ToBytes(values[k - 1], NumberOfBytes(TypeAt(types, k - 1)).value) + Packed(types, values, k - 1)
  }

  lemma PackedTop(types: map<int, ValueType>, k: nat, pad: seq<byte>, top: seq<byte>, rest: seq<byte>)
    requires 0 < k && Packable(types, k) && |rest| == Size(types, k - 1)
    requires |top| == NumberOfBytes(TypeAt(types, k - 1)).value
    ensures Size(types, k) <= |pad + (top + rest)| && ItemBytes(pad + (top + rest), types, k - 1) == top
  {
    assert Size(types, k) == |top| + |rest|;
    hide Size;
    var raw := pad + (top + rest);
    assert raw[|pad|..|pad| + |top|] == top;
  }

  lemma {:induction false} PackedAt(types: map<int, ValueType>, values: seq<nat>, k: nat, p: nat, pad: seq<byte>)
    requires p < k <= |values| && Packable(types, k)
    ensures Packable(types, p + 1) && Size(types, p + 1) <= |pad + Packed(types, values, k)|
    ensures ItemBytes(pad + Packed(types, values, k), types, p)
            == ToBytes(values[p], NumberOfBytes(TypeAt(types, p)).value)
    decreases k
  {
    var top, rest := ToBytes(values[k - 1], NumberOfBytes(TypeAt(types, k - 1)).value), Packed(types, values, k - 1);
    assert Packed(types, values, k) == top + rest;
    hide Packed, ToBytes, ItemBytes, Size;
    if p < k - 1 {
      PackedAt(types, values, k - 1, p, pad + top);
      assert pad + (top + rest) == (pad + top) + rest;
    } else {
      PackedTop(types, k, pad, top, rest);
    }
  }

  /** Decoding a slot packed low-order first, with anything above, gives back what was packed. */
  lemma DecodePacked(types: map<int, ValueType>, values: seq<nat>, pad: seq<byte>, p: nat)
    requires Fit(types, values) && |types| == |values| && p < |values|
    ensures var raw := pad + Packed(types, values, |values|);
            && Decodable(types, |raw|)
            && Packable(types, p + 1) && Size(types, p + 1) <= |raw|
            && 8 * |ItemBytes(raw, types, p)| == Bits(TypeAt(types, p))
            && match DecodeItem(ItemBytes(raw, types, p), TypeAt(types, p))
               case Integer(s) => TypeAt(types, p) in {Uint48, Uint128} && Number(s) == values[p]
               case AddressBytes(bs) => TypeAt(types, p) == Address && |bs| == 20 && BigEndian(bs) == values[p]
  {
    FitBytes(types, values);
    PackedAt(types, values, |values|, p, pad);
    var n := NumberOfBytes(TypeAt(types, p)).value;
    BytesOf(TypeAt(types, p));
    ToBytesValue(values[p], n);
    hide ToBytes, BigEndian, Decimal, Number, Packed, Size;
    DecimalNumber(values[p]);
  }

  /** The number an item stands for. */
  function ItemValue(raw: seq<byte>, types: map<int, ValueType>, p: nat): nat
    requires Packable(types, p + 1) && Size(types, p + 1) <= |raw|
  {
    BigEndian(ItemBytes(raw, types, p))
  }

  /** Each of the first k items at its place value. */
  function Weighted(raw: seq<byte>, types: map<int, ValueType>, k: nat): nat
    requires Packable(types, k) && Size(types, k) <= |raw|
  {
    if k == 0 then 0
    else
      SizeGrows(types, k - 1, k);
      Weighted(raw, types, k - 1) + ItemValue(raw, types, k - 1) * Pow256(Size(types, k - 1))
  }

  lemma SuffixSplit(raw: seq<byte>, types: map<int, ValueType>, k: nat)
    requires 0 < k && Packable(types, k) && Size(types, k) <= |raw|
    ensures Size(types, k - 1) <= |raw|
    ensures BigEndian(raw[|raw| - Size(types, k)..])
            == ItemValue(raw, types, k - 1) * Pow256(Size(types, k - 1)) + BigEndian(raw[|raw| - Size(types, k - 1)..])
  {
    SizeGrows(types, k - 1, k);
    hide BigEndian, Pow256, Size;
    var low := raw[|raw| - Size(types, k - 1)..];
    assert raw[|raw| - Size(types, k)..] == ItemBytes(raw, types, k - 1) + low;
    hide ItemBytes;
    BigEndianAppend(ItemBytes(raw, types, k - 1), low);
  }

  lemma {:induction false} WeightedSuffix(raw: seq<byte>, types: map<int, ValueType>, k: nat)
    requires Packable(types, k) && Size(types, k) <= |raw|
    ensures Weighted(raw, types, k) == BigEndian(raw[|raw| - Size(types, k)..])
  {
    if k == 0 {
      assert raw[|raw|..] == [];
    } else {
      hide BigEndian, Pow256, ItemValue, Size;
      SuffixSplit(raw, types, k);
      WeightedSuffix(raw, types, k - 1);
    }
  }

  lemma DivUnique(x: int, p: int, q: int, r: int)
    requires 0 <= r < p && x == q * p + r
    ensures x % p == r
  {
    var d := q - x / p;
    assert x == (x / p) * p + x % p;
    assert d * p == x % p - r;
    Multiple(d, p);
  }

  lemma Multiple(d: int, p: int)
    requires p > 0 && -p < d * p < p
    ensures d == 0
  {
    if d >= 1 {
      AtLeast(d, p);
    } else if d <= -1 {
      AtLeast(-d, p);
    }
  }

  lemma AtLeast(d: int, p: int)
    requires d >= 1 && p >= 0
    ensures d * p >= p
  {
  }

  /** The decoded items together are the word, as far as they reach. */
  lemma ItemsAreTheWord(raw: seq<byte>, types: map<int, ValueType>)
    requires Decodable(types, |raw|)
    ensures Weighted(raw, types, |types|) == BigEndian(raw) % Pow256(Size(types, |types|))
  {
    var n := Size(types, |types|);
    WeightedSuffix(raw, types, |types|);
    var high, low := raw[..|raw| - n], raw[|raw| - n..];
    assert raw == high + low;
    BigEndianAppend(high, low);
    BigEndianBound(low);
    hide BigEndian, Pow256, Weighted;
    DivUnique(BigEndian(raw), Pow256(n), BigEndian(high), BigEndian(low));
  }
}
