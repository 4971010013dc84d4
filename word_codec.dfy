/**
 * The 4-byte word codec of KSaneOption (toSANE_Word / fromSANE_Word). Both
 * directions use the host's byte order, chosen at compile time; the model
 * takes that choice as the parameter `bigEndian`.
 */
module WordCodec {
  import opened Sane

  const TWO_32: int := 0x1_0000_0000

  /** The bit pattern of a word, as `from & 0xFF000000` and friends see it. */
  function Unsigned(w: Word): (u: nat)
    ensures u < TWO_32
    ensures u % TWO_32 == w % TWO_32
  {
    if w < 0 then w + TWO_32 else w
  }

  /** A 32-bit pattern read back as a signed word (two's complement). */
  function Signed(u: nat): (w: Word)
    requires u < TWO_32
    ensures Unsigned(w) == u
  {
    if u < 0x8000_0000 then u else u - TWO_32
  }

  /** The value of four bytes, least significant first. */
  function Compose(b0: Byte, b1: Byte, b2: Byte, b3: Byte): (u: nat)
    ensures u < TWO_32
  {
    b0 + b1 * 0x100 + b2 * 0x1_0000 + b3 * 0x100_0000
  }

  /** toSANE_Word: the word held by the first four bytes of `data`. */
  function ToSaneWord(data: seq<Byte>, bigEndian: bool): Word
    requires |data| >= 4
  {
    if bigEndian then Signed(Compose(data[3], data[2], data[1], data[0]))
    else Signed(Compose(data[0], data[1], data[2], data[3]))
  }

  /** Byte k (0 = least significant) of a 32-bit pattern. */
  function ByteOf(u: nat, k: nat): Byte
    requires u < TWO_32 && k < 4
  {
    if k == 0 then u % 0x100
    else if k == 1 then (u / 0x100) % 0x100
    else if k == 2 then (u / 0x1_0000) % 0x100
    else u / 0x100_0000
  }

  /** The four bytes fromSANE_Word stores for `from`. */
  function EncodeWord(from: Word, bigEndian: bool): (data: seq<Byte>)
    ensures |data| == 4
  {
    var u := Unsigned(from);
    if bigEndian then [ByteOf(u, 3), ByteOf(u, 2), ByteOf(u, 1), ByteOf(u, 0)]
    else [ByteOf(u, 0), ByteOf(u, 1), ByteOf(u, 2), ByteOf(u, 3)]
  }

  /** fromSANE_Word: fills the first four bytes of `data` with `from`. */
  method FromSaneWord(data: array<Byte>, from: Word, bigEndian: bool)
    requires data.Length >= 4
    modifies data
    ensures data[..4] == EncodeWord(from, bigEndian)
    ensures data[4..] == old(data[4..])
  {
    var u := Unsigned(from);
    if bigEndian {
      data[3] := u % 0x100;
      data[2] := (u / 0x100) % 0x100;
      data[1] := (u / 0x1_0000) % 0x100;
      data[0] := u / 0x100_0000;
    } else {
      data[0] := u % 0x100;
      data[1] := (u / 0x100) % 0x100;
      data[2] := (u / 0x1_0000) % 0x100;
      data[3] := u / 0x100_0000;
    }
  }

  /** Splitting a 32-bit pattern into bytes and composing them gives it back. */
  lemma ComposeBytes(u: nat)
    requires u < TWO_32
    ensures Compose(ByteOf(u, 0), ByteOf(u, 1), ByteOf(u, 2), ByteOf(u, 3)) == u
  {
    var q1 := u / 0x100;
    var q2 := q1 / 0x100;
    var q3 := q2 / 0x100;
    assert u == q1 * 0x100 + u % 0x100;
    assert q1 == q2 * 0x100 + q1 % 0x100;
    assert q2 == q3 * 0x100 + q2 % 0x100;
    assert q2 == u / 0x1_0000;
    assert q3 == u / 0x100_0000;
  }

  /** Composing four bytes and splitting the result gives the bytes back. */
  lemma SplitCompose(b0: Byte, b1: Byte, b2: Byte, b3: Byte)
    ensures var u := Compose(b0, b1, b2, b3);
      ByteOf(u, 0) == b0 && ByteOf(u, 1) == b1 && ByteOf(u, 2) == b2 && ByteOf(u, 3) == b3
  {
    var u := Compose(b0, b1, b2, b3);
    assert u == b0 + 0x100 * (b1 + 0x100 * (b2 + 0x100 * b3));
    assert u / 0x100 == b1 + 0x100 * (b2 + 0x100 * b3);
    assert u / 0x1_0000 == b2 + 0x100 * b3;
    assert u / 0x100_0000 == b3;
  }

  /** Reading back what fromSANE_Word stored yields the word, on either host. */
  lemma {:induction false} DecodeEncode(w: Word, bigEndian: bool)
    ensures ToSaneWord(EncodeWord(w, bigEndian), bigEndian) == w
  {
    ComposeBytes(Unsigned(w));
  }

  /** Storing the word that toSANE_Word read reproduces the four bytes. */
  lemma {:induction false} EncodeDecode(data: seq<Byte>, bigEndian: bool)
    requires |data| >= 4
    ensures EncodeWord(ToSaneWord(data, bigEndian), bigEndian) == data[..4]
  {
    if bigEndian {
      SplitCompose(data[3], data[2], data[1], data[0]);
    } else {
      SplitCompose(data[0], data[1], data[2], data[3]);
    }
  }

  /** A big-endian host stores the little-endian bytes in reverse. */
  lemma HostOrders(w: Word)
    ensures var le := EncodeWord(w, false);
      EncodeWord(w, true) == [le[3], le[2], le[1], le[0]]
  {
  }
}
