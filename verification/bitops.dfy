/**
 Bit-level primitives of the matrix driver: setting, clearing and testing one
 bit of a byte, and converting between a byte and the ordered list of its
 eight bits (index 0 is the least significant bit).

 Bytes are `bv8`, so every result stays in 0..255 by construction. List
 entries are the driver's plain integers; an entry counts as set exactly when
 it is non-zero, as Python's truthiness test does.
 */
module BitOps {

  type Byte = bv8

  /** Python truthiness of an integer list entry. */
  predicate Truthy(x: int) {
    x != 0
  }

  /** The 0/1 integer the driver stores for a bit. */
  function BitValue(b: bool): int {
    if b then 1 else 0
  }

  /** True when every entry of `s` is 0 or 1. */
  predicate IsBinary(s: seq<int>) {
    forall i :: 0 <= i < |s| ==> s[i] == 0 || s[i] == 1
  }

  /** `get_bit`: whether bit `index` of `value` is set. */
  predicate GetBit(value: Byte, index: nat)
    requires index < 8
  {
    value & (1 << index) != 0
  }

  /** `set_bit`: `value` with bit `index` forced to one; `value` defaults to 0 as in the source. */
  function SetBit(index: nat, value: Byte := 0): (r: Byte)
    requires index < 8
    ensures GetBit(r, index)
    ensures forall j :: 0 <= j < 8 && j != index ==> GetBit(r, j) == GetBit(value, j)
  {
    value | (1 << index)
  }

  /** `clear_bit`: `value` with bit `index` forced to zero; `value` defaults to 0 as in the source. */
  function ClearBit(index: nat, value: Byte := 0): (r: Byte)
    requires index < 8
    ensures !GetBit(r, index)
    ensures forall j :: 0 <= j < 8 && j != index ==> GetBit(r, j) == GetBit(value, j)
  {
    value & !(1 << index)
  }

  /** Two bytes that agree on all eight bits are equal. */
  lemma BitExtensionality(a: Byte, b: Byte)
    requires forall j :: 0 <= j < 8 ==> GetBit(a, j) == GetBit(b, j)
    ensures a == b
  {
    assert GetBit(a, 0) == GetBit(b, 0);
    assert GetBit(a, 1) == GetBit(b, 1);
    assert GetBit(a, 2) == GetBit(b, 2);
    assert GetBit(a, 3) == GetBit(b, 3);
    assert GetBit(a, 4) == GetBit(b, 4);
    assert GetBit(a, 5) == GetBit(b, 5);
    assert GetBit(a, 6) == GetBit(b, 6);
    assert GetBit(a, 7) == GetBit(b, 7);
  }

  /** Clearing a bit before setting it makes no difference. */
  lemma SetAfterClear(index: nat, value: Byte)
    requires index < 8
    ensures SetBit(index, ClearBit(index, value)) == SetBit(index, value)
  {
  }

  /** Setting a bit before clearing it makes no difference. */
  lemma ClearAfterSet(index: nat, value: Byte)
    requires index < 8
    ensures ClearBit(index, SetBit(index, value)) == ClearBit(index, value)
  {
  }

  /** `set_bit(index)` with the default start value 0 has exactly bit `index` set. */
  lemma OneHot(index: nat)
    requires index < 8
    ensures SetBit(index) != 0
    ensures forall j :: 0 <= j < 8 ==> (GetBit(SetBit(index), j) <==> j == index)
  {
  }

  /**
   The value of the loop in `set_bits_from_list` after its first `n` rounds:
   it starts from 0xFF and clears bit `i` for every falsy entry `s[i]`.
   */
  function EncodePrefix(s: seq<int>, n: nat): (r: Byte)
    requires n <= |s| <= 8
    ensures forall j :: 0 <= j < n ==> (GetBit(r, j) <==> Truthy(s[j]))
    ensures forall j :: n <= j < 8 ==> GetBit(r, j)
  {
    if n == 0 then 0xFF
    else
      var value := EncodePrefix(s, n - 1);
      if !Truthy(s[n - 1]) then ClearBit(n - 1, value) else value
  }

  /**
   `set_bits_from_list`: bit `i` of the result is set exactly when `s[i]` is
   truthy; positions the list does not reach stay set.
   */
  function SetBitsFromList(s: seq<int>): (r: Byte)
    requires |s| <= 8
    ensures forall j :: 0 <= j < |s| ==> (GetBit(r, j) <==> Truthy(s[j]))
    ensures forall j :: |s| <= j < 8 ==> GetBit(r, j)
  {
    EncodePrefix(s, |s|)
  }

  /** An eight-entry list of truthy entries encodes to 0xFF, the skipped value. */
  lemma AllTruthyEncodesFF(s: seq<int>)
    requires |s| == 8
    requires forall i :: 0 <= i < 8 ==> Truthy(s[i])
    ensures SetBitsFromList(s) == 0xFF
  {
    BitExtensionality(SetBitsFromList(s), 0xFF);
  }

  /** An eight-entry list of zeros encodes to 0x00. */
  lemma AllZeroEncodes00(s: seq<int>)
    requires |s| == 8
    requires forall i :: 0 <= i < 8 ==> s[i] == 0
    ensures SetBitsFromList(s) == 0x00
  {
    BitExtensionality(SetBitsFromList(s), 0x00);
  }

  /**
   Entries are raw bit values: a list whose only truthy entry is the first
   encodes to 0x01, not to 0xFE.
   */
  lemma SingleTruthyEntryEncoding()
    ensures SetBitsFromList([1, 0, 0, 0, 0, 0, 0, 0]) == 0x01
  {
    BitExtensionality(SetBitsFromList([1, 0, 0, 0, 0, 0, 0, 0]), 0x01);
  }

  /**
   The list held by the loop in `get_bits_as_list` after its first `n` rounds:
   it starts as eight zeros and writes 1 at every set bit below `n`.
   */
  function MarkPrefix(value: Byte, n: nat): (r: seq<int>)
    requires n <= 8
    ensures |r| == 8
    ensures forall i :: 0 <= i < 8 ==> r[i] == BitValue(i < n && GetBit(value, i))
  {
    if n == 0 then [0, 0, 0, 0, 0, 0, 0, 0]
    else
      var bits := MarkPrefix(value, n - 1);
      if GetBit(value, n - 1) then bits[n - 1 := 1] else bits
  }

  /** `get_bits_as_list`: entry `i` is 1 when bit `i` of `value` is set and 0 otherwise. */
  function GetBitsAsList(value: Byte): (r: seq<int>)
    ensures |r| == 8
    ensures IsBinary(r)
    ensures forall i :: 0 <= i < 8 ==> (r[i] == 1 <==> GetBit(value, i))
  {
    MarkPrefix(value, 8)
  }

  /** Decoding an encoded 0/1 list gives the list back. */
  lemma ListRoundTrip(s: seq<int>)
    requires |s| == 8
    requires IsBinary(s)
    ensures GetBitsAsList(SetBitsFromList(s)) == s
  {
  }

  /** Encoding the bit list of a byte gives the byte back. */
  lemma ByteRoundTrip(value: Byte)
    ensures SetBitsFromList(GetBitsAsList(value)) == value
  {
    BitExtensionality(SetBitsFromList(GetBitsAsList(value)), value);
  }
}
