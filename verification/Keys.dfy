/** Keys of the versioned store: six big-endian fields, 144 bits in all. */
module Keys {
  import opened Options

  type u8 = x: int | 0 <= x < 0x100
  type u32 = x: int | 0 <= x < 0x1_0000_0000

  const U8: int := 0x100
  const U32: int := 0x1_0000_0000
  const U32_MAX: int := 0xffff_ffff

  datatype Key = Key(field1: u8, field2: u32, field3: u32, field4: u32, field5: u8, field6: u32)

  datatype Range = Range(start: Key, end: Key)

  // --- order

  /** The derived order of the source: field by field. */
  predicate Less(a: Key, b: Key) {
    if a.field1 != b.field1 then a.field1 < b.field1
    else if a.field2 != b.field2 then a.field2 < b.field2
    else if a.field3 != b.field3 then a.field3 < b.field3
    else if a.field4 != b.field4 then a.field4 < b.field4
    else if a.field5 != b.field5 then a.field5 < b.field5
    else a.field6 < b.field6
  }

  predicate KeyIn(r: Range, k: Key) {
    !Less(k, r.start) && Less(k, r.end)
  }

  predicate AnyKeyIn(rs: seq<Range>, k: Key) {
    exists i :: 0 <= i < |rs| && KeyIn(rs[i], k)
  }

  /** No range is reversed, and each starts where the one before ended, or later. */
  predicate InKeyOrder(rs: seq<Range>) {
    && (forall i :: 0 <= i < |rs| ==> !Less(rs[i].end, rs[i].start))
    && (forall i, j :: 0 <= i && j == i + 1 < |rs| ==> !Less(rs[j].start, rs[i].end))
  }

  /** field1 .. field4, and the low 40 bits that key_range_size looks at. */
  function Prefix(k: Key): int {
    ((k.field1 * U32 + k.field2) * U32 + k.field3) * U32 + k.field4
  }

  function Low(k: Key): int {
    k.field5 * U32 + k.field6
  }

  const LOW: int := 0x100_0000_0000
  const LIMIT: int := 0x1_0000_0000_0000_0000_0000_0000_0000_0000_0000

  /** The key read as one big-endian number. */
  function Value(k: Key): int {
    Prefix(k) * LOW + Low(k)
  }

  lemma ValueBounds(k: Key)
    ensures 0 <= Low(k) < LOW && 0 <= Prefix(k) && 0 <= Value(k) < LIMIT
  {
  }

  /** Field order is number order. */
  lemma LessIsValueOrder(a: Key, b: Key)
    ensures Less(a, b) <==> Value(a) < Value(b)
    ensures a == b <==> Value(a) == Value(b)
  {
  }

  function FromValue(v: int): Key
    requires 0 <= v < LIMIT
  {
    var low, pre := v % LOW, v / LOW;
    var pre3 := pre / U32;
    var pre2 := pre3 / U32;
    Key(pre2 / U32, pre2 % U32, pre3 % U32, pre % U32, low / U32, low % U32)
  }

  lemma FromValueIsInverse(v: int)
    requires 0 <= v < LIMIT
    ensures Value(FromValue(v)) == v
  {
  }

  // --- arithmetic

  /** Addition on the 144-bit number; None when it does not fit. */
  function Add(k: Key, x: u32): (r: Option<Key>)
    ensures r.Some? <==> Value(k) + x < LIMIT
    ensures r.Some? ==> Value(r.value) == Value(k) + x
  {
    var low := k.field6 + x;
    if low < U32 then Some(k.(field6 := low))
    else if k.field5 + 1 < U8 then Some(k.(field5 := k.field5 + 1, field6 := low - U32))
    else if k.field4 + 1 < U32 then Some(k.(field4 := k.field4 + 1, field5 := 0, field6 := low - U32))
    else if k.field3 + 1 < U32 then Some(k.(field3 := k.field3 + 1, field4 := 0, field5 := 0, field6 := low - U32))
    else if k.field2 + 1 < U32 then Some(Key(k.field1, k.field2 + 1, 0, 0, 0, low - U32))
    else if k.field1 + 1 < U8 then Some(Key(k.field1 + 1, 0, 0, 0, 0, low - U32))
    else None
  }

  /** Key::add: a carry from field6 up to field1. None is the source's failed assertion. */
  method AddCarry(k: Key, x: u32) returns (r: Option<Key>)
    ensures r == Add(k, x)
  {
    var key := k;
    var carry := key.field6 + x >= U32;
    key := key.(field6 := (key.field6 + x) % U32);
    if carry {
      carry := key.field5 + 1 == U8;
      key := key.(field5 := (key.field5 + 1) % U8);
      if carry {
        carry := key.field4 + 1 == U32;
        key := key.(field4 := (key.field4 + 1) % U32);
        if carry {
          carry := key.field3 + 1 == U32;
          key := key.(field3 := (key.field3 + 1) % U32);
          if carry {
            carry := key.field2 + 1 == U32;
            key := key.(field2 := (key.field2 + 1) % U32);
            if carry {
              if key.field1 + 1 == U8 { return None; }
              key := key.(field1 := key.field1 + 1);
            }
          }
        }
      }
    }
    return Some(key);
  }

  /** Key::next is the immediate successor in key order. */
  lemma NextIsSuccessor(k: Key, x: Key)
    ensures Add(k, 1).None? ==> !Less(k, x)
    ensures Add(k, 1).Some? ==> (Less(k, x) <==> !Less(x, Add(k, 1).value))
  {
    ValueBounds(x);
    LessIsValueOrder(k, x);
    if Add(k, 1).Some? { LessIsValueOrder(x, Add(k, 1).value); }
  }

  // --- sizes of ranges

  /** key_range_size: saturates when the range leaves the prefix of its start or is too long. A
      backward difference wraps around in u64, which saturates too. */
  function KeyRangeSize(r: Range): (size: u32) {
    if Prefix(r.start) != Prefix(r.end) then U32_MAX
    else
      var diff := Low(r.end) - Low(r.start);
      if diff < 0 || diff > U32_MAX then U32_MAX else diff
  }

  function Length(r: Range): int {
    Value(r.end) - Value(r.start)
  }

  lemma PrefixByFields(a: Key, b: Key)
    ensures Prefix(a) == Prefix(b) <==>
              a.field1 == b.field1 && a.field2 == b.field2 && a.field3 == b.field3 && a.field4 == b.field4
  {
    LessIsValueOrder(a.(field5 := 0, field6 := 0), b.(field5 := 0, field6 := 0));
  }

  /** The size is the number of keys, saturated, exactly if the range stays inside one prefix or is
      long enough anyway: a short range across two prefixes is taken for a huge one. */
  lemma KeyRangeSizeIsLength(r: Range)
    requires Length(r) >= 0
    ensures KeyRangeSize(r) == (if Length(r) <= U32_MAX then Length(r) else U32_MAX) <==>
              Prefix(r.start) == Prefix(r.end) || Length(r) >= U32_MAX
  {
    ValueBounds(r.start);
    ValueBounds(r.end);
  }

  // --- byte form

  type byte = x: int | 0 <= x < 256

  function BigEndian(x: u32): seq<byte> {
    var x8 := x / 0x100;
    var x16 := x8 / 0x100;
    [x16 / 0x100, x16 % 0x100, x8 % 0x100, x % 0x100]
  }

  function FromBigEndian(b: seq<byte>): u32
    requires |b| == 4
  {
    var b0: int, b1: int, b2: int := b[0], b[1], b[2];
    ((b0 * 0x100 + b1) * 0x100 + b2) * 0x100 + b[3]
  }

  const KEY_SIZE: nat := 18

  function ToBytes(k: Key): (b: seq<byte>)
    ensures |b| == KEY_SIZE
  {
    [k.field1] + BigEndian(k.field2) + BigEndian(k.field3) + BigEndian(k.field4) + [k.field5] + BigEndian(k.field6)
  }

  function FromSlice(b: seq<byte>): Key
    requires |b| >= KEY_SIZE
  {
    Key(b[0], FromBigEndian(b[1..5]), FromBigEndian(b[5..9]), FromBigEndian(b[9..13]), b[13], FromBigEndian(b[14..18]))
  }

  /** write_to_byte_slice fills the first 18 bytes and leaves the rest. */
  method WriteToByteSlice(k: Key, buf: array<byte>)
    requires buf.Length >= KEY_SIZE
    modifies buf
    ensures buf[..KEY_SIZE] == ToBytes(k) && buf[KEY_SIZE..] == old(buf[KEY_SIZE..])
    ensures FromSlice(buf[..]) == k
  {
    ghost var rest := buf[KEY_SIZE..];
    buf[0] := k.field1;
    assert buf[..1] == [k.field1] && buf[KEY_SIZE..] == rest;
    WriteU32(buf, 1, k.field2);
    WriteU32(buf, 5, k.field3);
    WriteU32(buf, 9, k.field4);
    ghost var head := buf[..13];
    buf[13] := k.field5;
    assert buf[..14] == head + [k.field5];
    WriteU32(buf, 14, k.field6);
    assert buf[..][..KEY_SIZE] == buf[..KEY_SIZE];
    BytesRoundTrip(k, buf[..]);
  }

  /** Appends to what is written up to `at`. */
  method WriteU32(buf: array<byte>, at: nat, x: u32)
    requires at + 4 <= buf.Length
    modifies buf
    ensures buf[..at + 4] == old(buf[..at]) + BigEndian(x)
    ensures forall j :: at + 4 <= j < buf.Length ==> buf[j] == old(buf[j])
  {
    var b := BigEndian(x);
    buf[at], buf[at + 1], buf[at + 2], buf[at + 3] := b[0], b[1], b[2], b[3];
  }

  lemma BigEndianRoundTrip(x: u32)
    ensures FromBigEndian(BigEndian(x)) == x
  {
  }

  lemma BytesRoundTrip(k: Key, b: seq<byte>)
    requires |b| >= KEY_SIZE && b[..KEY_SIZE] == ToBytes(k)
    ensures FromSlice(b) == k
  {
    var t := ToBytes(k);
    assert t[1..5] == BigEndian(k.field2) && t[5..9] == BigEndian(k.field3) && t[9..13] == BigEndian(k.field4);
    assert t[14..18] == BigEndian(k.field6);
    assert b[1..5] == t[1..5] && b[5..9] == t[5..9] && b[9..13] == t[9..13] && b[14..18] == t[14..18];
    BigEndianRoundTrip(k.field2);
    BigEndianRoundTrip(k.field3);
    BigEndianRoundTrip(k.field4);
    BigEndianRoundTrip(k.field6);
    assert b[0] == t[0] && b[13] == t[13];
  }

  // --- 128-bit form

  const P32: int := 0x1_0000_0000
  const P40: int := 0x100_0000_0000
  const P72: int := P40 * P32
  const P104: int := P72 * P32
  const P120: int := P104 * 0x1_0000

  /** to_i128; None is the source's failed assertion. Drops all but 4 bits of field1 and 16 of field2. */
  function ToI128(k: Key): Option<int> {
    if k.field2 < 0xffff || k.field2 == 0xffff_ffff || k.field2 == 0x2222_2222
    then Some(k.field1 % 16 * P120 + k.field2 % 0x1_0000 * P104 + k.field3 * P72
              + k.field4 * P40 + k.field5 * P32 + k.field6)
    else None
  }

  function FromI128(x: int): Key {
    var x32 := x / P32;
    var x40 := x32 / U8;
    var x72 := x40 / U32;
    var x104 := x72 / U32;
    Key(x104 / 0x1_0000 % 16, x104 % 0x1_0000, x72 % U32, x40 % U32, x32 % U8, x % U32)
  }

  lemma I128Digits(k: Key)
    requires ToI128(k).Some?
    ensures FromI128(ToI128(k).value) == k.(field1 := k.field1 % 16, field2 := k.field2 % 0x1_0000)
  {
    var x := ToI128(k).value;
    var h104 := k.field1 % 16 * 0x1_0000 + k.field2 % 0x1_0000;
    var h72 := h104 * U32 + k.field3;
    var h40 := h72 * U32 + k.field4;
    var h32 := h40 * U8 + k.field5;
    assert x == h32 * P32 + k.field6;
    assert x / P32 == h32;
    assert h32 / U8 == h40;
    assert h40 / U32 == h72;
    assert h72 / U32 == h104;
  }

  /** The 128-bit form loses nothing exactly for small field1 and for the plain tablespace numbers. */
  lemma I128RoundTrip(k: Key)
    requires ToI128(k).Some?
    ensures FromI128(ToI128(k).value) == k <==> k.field1 < 16 && k.field2 < 0xffff
  {
    I128Digits(k);
  }
}
