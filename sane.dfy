/**
 * The parts of the SANE scanner protocol (SANE standard, version 1) that the
 * library relies on: status codes, capability and info bits, option
 * descriptors, frame parameters and the 16.16 fixed-point words.
 */
module Sane {
  import opened Wrappers

  /** An unsigned char of a data buffer. */
  type Byte = b: int | 0 <= b < 256

  /** SANE_Word: a signed 32-bit integer. */
  type Word = w: int | -0x8000_0000 <= w < 0x8000_0000

  /** sizeof(SANE_Word) */
  const WORD_SIZE: int := 4

  /** SANE_Status (section 4.3.7 of the SANE standard). */
  datatype Status =
    | Good | Unsupported | Cancelled | DeviceBusy | Inval | Eof
    | Jammed | NoDocs | CoverOpen | IoError | NoMem | AccessDenied

  /** SANE_CAP_* capability bits (section 4.2.9.7). */
  const CAP_SOFT_SELECT: bv32 := 1
  const CAP_HARD_SELECT: bv32 := 2
  const CAP_SOFT_DETECT: bv32 := 4
  const CAP_EMULATED: bv32 := 8
  const CAP_AUTOMATIC: bv32 := 16
  const CAP_INACTIVE: bv32 := 32
  const CAP_ADVANCED: bv32 := 64

  /** SANE_INFO_* bits returned by a SET_VALUE control call (section 4.3.6). */
  const INFO_INEXACT: bv32 := 1
  const INFO_RELOAD_OPTIONS: bv32 := 2
  const INFO_RELOAD_PARAMS: bv32 := 4

  predicate HasBit(bits: bv32, bit: bv32) {
    bits & bit != 0
  }

  /** SANE_Value_Type */
  datatype ValueType = TypeBool | TypeInt | TypeFixed | TypeString | TypeButton | TypeGroup

  /**
   * SANE_Constraint_Type together with its payload. A word list keeps the
   * protocol's layout: `words[0]` is the number of entries, which follow it.
   * A string list is null-terminated: `None` stands for the NULL pointer.
   */
  datatype Constraint =
    | NoConstraint
    | Range(min: Word, max: Word, quant: Word)
    | WordList(words: seq<Word>)
    | StringList(strings: seq<Option<string>>)

  /** SANE_Option_Descriptor, without the fields the core never reads. */
  datatype Descriptor = Descriptor(
    name: string,
    title: string,
    valueType: ValueType,
    size: int,
    cap: bv32,
    constraint: Constraint)

  /** A word list whose count fits in the list. */
  predicate WordListOk(words: seq<Word>) {
    |words| >= 1 && 0 <= words[0] < |words|
  }

  /** A string list that carries its NULL terminator. */
  predicate StringListOk(strings: seq<Option<string>>) {
    None in strings
  }

  /**
   * What the SANE standard (section 4.2.9) guarantees of a descriptor: word
   * values occupy whole words, word lists belong to INT and FIXED options and
   * string lists to STRING options.
   */
  predicate WellFormed(d: Descriptor) {
    && d.size >= 0
    && (d.valueType in {TypeBool, TypeInt, TypeFixed} ==> d.size >= WORD_SIZE)
    && (d.constraint.WordList? ==>
          d.valueType in {TypeInt, TypeFixed} && WordListOk(d.constraint.words))
    && (d.constraint.StringList? ==>
          d.valueType == TypeString && StringListOk(d.constraint.strings))
  }

  /** SANE_Frame; `FrameOther` is any code the library does not know. */
  datatype Frame = FrameGray | FrameRgb | FrameRed | FrameGreen | FrameBlue | FrameOther(code: int)

  /** SANE_Parameters */
  datatype Parameters = Parameters(
    format: Frame,
    lastFrame: bool,
    bytesPerLine: int,
    pixelsPerLine: int,
    lines: int,
    depth: int)

  /** SANE_UNFIX: a 16.16 fixed-point word as a real number. */
  function Unfix(w: int): real {
    w as real / 65536.0
  }

  /** A C conversion from a floating value to an integer: truncation toward zero. */
  function Truncate(r: real): (n: int)
    ensures r >= 0.0 ==> n as real <= r < n as real + 1.0
    ensures r < 0.0 ==> n as real - 1.0 < r <= n as real
  {
    if r >= 0.0 then r.Floor else -((-r).Floor)
  }

  /**
   * A 64-bit value narrowed to 32 bits. The C conversion in SANE_FIX is
   * undefined outside the word range; the model wraps around there.
   */
  function Wrap(n: int): (w: Word)
    ensures -0x8000_0000 <= n < 0x8000_0000 ==> w == n
  {
    var u := n % 0x1_0000_0000;
    if u < 0x8000_0000 then u else u - 0x1_0000_0000
  }

  /** SANE_FIX: `(SANE_Word) (v * (1 << 16))`. */
  function Fix(r: real): Word {
    Wrap(Truncate(r * 65536.0))
  }

  /** Every word survives UNFIX followed by FIX. */
  lemma FixUnfix(w: Word)
    ensures Fix(Unfix(w)) == w
  {
    assert Unfix(w) * 65536.0 == w as real;
  }

  /** Inside the word range FIX loses less than one unit of the last place. */
  lemma UnfixFixClose(r: real)
    requires -32768.0 <= r < 32768.0
    ensures -1.0 / 65536.0 < Unfix(Fix(r)) - r < 1.0 / 65536.0
  {
    var t := Truncate(r * 65536.0);
    assert -0x8000_0000 as real <= r * 65536.0 < 0x8000_0000 as real;
    assert -0x8000_0000 <= t < 0x8000_0000;
    assert Fix(r) == t;
  }
}
