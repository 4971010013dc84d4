/**
 * The option objects: the KSaneOption base (state, writeData, the
 * store/restore slot) and the ListOption, KSaneDoubleOption and StringOption
 * variants. One class holds them all; the variant-specific fields are the
 * datatype `VarState`, and the calls the base makes to the variant's
 * `readValue` and `state` dispatch on it.
 */
module Options {
  import opened Wrappers
  import opened Sane
  import opened WordCodec
  import opened Classify
  import opened Values
  import opened Device
  import opened ListEntries

  /** Qt signals an option emits. */
  datatype Signal = OptsNeedReload | ValsNeedReload | ValueChanged(v: Variant)

  /** The fields each variant adds to the option base. */
  datatype VarState =
    | Plain                                  // KSaneOption itself
    | List(current: Variant, entries: int)   // ListOption: m_currentValue, m_entriesCount
    | Double(value: real, minChange: real)   // KSaneDoubleOption: m_value, m_minChange
    | Text(str: string)                      // StringOption: m_string

  /** The descriptor is one the variant was built for (a list, a one-word FIXED, a free string). */
  predicate Fits(vs: VarState, d: Descriptor) {
    && WellFormed(d)
    && match vs
       case Plain => true
       case List(_, _) => IsList(d)
       case Double(_, _) => d.valueType == TypeFixed && d.size == WORD_SIZE && NoneOrRange(d)
       case Text(_) => d.valueType == TypeString && Unconstrained(d)
  }

  predicate SameKind(a: VarState, b: VarState) {
    && (a.Plain? <==> b.Plain?)
    && (a.List? <==> b.List?)
    && (a.Double? <==> b.Double?)
    && (a.Text? <==> b.Text?)
  }

  /** What the option's readValue and writeData change: the variant fields, the signals and the device's GET replies. */
  datatype Snapshot = Snapshot(vs: VarState, signals: seq<Signal>, gets: seq<GetReply>)

  /** The value ListOption::readValue decodes from the device's buffer. */
  function ListValueOf(d: Descriptor, data: seq<Byte>, env: Env): Variant
    requires WellFormed(d) && |data| == d.size
  {
    match d.valueType
    case TypeInt => IntV(ToSaneWord(data, env.bigEndian))
    case TypeFixed => RealV(Unfix(ToSaneWord(data, env.bigEndian)))
    case TypeString => StrV(env.i18n(CString(data)))
    case _ => Null
  }

  /**
   * Whether the variant's readValue asks the device at all: the base does
   * nothing, and every variant returns early while the base state is Hidden.
   */
  predicate ReadsDevice(vs: VarState, od: Option<Descriptor>) {
    !vs.Plain? && BaseState(od) != Hidden
  }

  /** The variant fields and signals after readValue got reply `r`. */
  function ReadEffect(vs: VarState, d: Descriptor, r: GetReply, env: Env): (out: (VarState, seq<Signal>))
    requires Fits(vs, d) && |r.data| == d.size
    ensures SameKind(out.0, vs)
    ensures r.status != Good ==> out == (vs, [])
    ensures vs.List? ==> out.0.entries == vs.entries
    ensures vs.Double? ==> out.0.minChange == vs.minChange
    ensures vs.List? && r.status == Good ==>
      && out.0 == List(ListValueOf(d, r.data, env), vs.entries)
      && (out.1 == [] <==> ListValueOf(d, r.data, env) == vs.current)
    ensures vs.Double? && r.status == Good ==>
      var x := Unfix(ToSaneWord(r.data, env.bigEndian));
      out == (Double(x, vs.minChange), [ValueChanged(RealV(x))])
    ensures vs.Text? && r.status == Good ==>
      out == (Text(CString(r.data)), [ValueChanged(StrV(CString(r.data)))])
  {
    if r.status != Good then (vs, [])
    else
      match vs
      case Plain => (vs, [])
      case List(cur, n) =>
        var v := ListValueOf(d, r.data, env);
        if v != cur then (List(v, n), [ValueChanged(v)]) else (vs, [])
      case Double(_, mc) =>
        var x := Unfix(ToSaneWord(r.data, env.bigEndian));
        (Double(x, mc), [ValueChanged(RealV(x))])
      case Text(_) =>
        var s := CString(r.data);
        (Text(s), [ValueChanged(StrV(s))])
  }

  /** readValue, dispatched on the variant. */
  function ReadStep(s: Snapshot, od: Option<Descriptor>, env: Env): (t: Snapshot)
    requires od.Some? ==> Fits(s.vs, od.value)
    ensures SameKind(t.vs, s.vs)
    ensures s.vs.List? ==> t.vs.entries == s.vs.entries
    ensures s.vs.Double? ==> t.vs.minChange == s.vs.minChange
    ensures !ReadsDevice(s.vs, od) ==> t == s
    ensures ReadsDevice(s.vs, od) ==> t.gets == Rest(s.gets)
    ensures |s.signals| <= |t.signals| <= |s.signals| + 1 && t.signals[..|s.signals|] == s.signals
  {
    if !ReadsDevice(s.vs, od) then s
    else
      var r := NextGet(s.gets, od.value.size);
      var out := ReadEffect(s.vs, od.value, r, env);
      Snapshot(out.0, s.signals + out.1, Rest(s.gets))
  }

  /**
   * The reload cascade of writeData: RELOAD_OPTIONS asks for an option
   * reload (which reloads the values too); RELOAD_PARAMS asks for a value
   * reload only when RELOAD_OPTIONS is not set.
   */
  function ReloadSignals(info: bv32): (sigs: seq<Signal>)
    ensures |sigs| <= 1
    ensures OptsNeedReload in sigs <==> HasBit(info, INFO_RELOAD_OPTIONS)
    ensures ValsNeedReload in sigs <==>
      HasBit(info, INFO_RELOAD_PARAMS) && !HasBit(info, INFO_RELOAD_OPTIONS)
  {
    if HasBit(info, INFO_RELOAD_OPTIONS) then [OptsNeedReload]
    else if HasBit(info, INFO_RELOAD_PARAMS) then [ValsNeedReload]
    else []
  }

  /**
   * writeData after the device answered `r`, for an option that is not
   * Disabled: a failure re-reads the value; an inexact write re-reads it when
   * a widget exists; a success raises the reload cascade.
   */
  function WriteStep(s: Snapshot, od: Option<Descriptor>, env: Env, r: SetReply, hasWidget: bool): (t: Snapshot)
    requires od.Some? ==> Fits(s.vs, od.value)
    ensures SameKind(t.vs, s.vs)
    ensures s.vs.List? ==> t.vs.entries == s.vs.entries
    ensures s.vs.Double? ==> t.vs.minChange == s.vs.minChange
  {
    if r.status != Good then ReadStep(s, od, env)
    else
      var s1 := if HasBit(r.info, INFO_INEXACT) && hasWidget then ReadStep(s, od, env) else s;
      s1.(signals := s1.signals + ReloadSignals(r.info))
  }

  /** writeData as a whole: a Disabled option is left as it was. */
  function WriteOutcome(s: Snapshot, disabled: bool, od: Option<Descriptor>, env: Env,
                        r: SetReply, hasWidget: bool): (t: Snapshot)
    requires od.Some? ==> Fits(s.vs, od.value)
    ensures SameKind(t.vs, s.vs)
    ensures s.vs.List? ==> t.vs.entries == s.vs.entries
    ensures s.vs.Double? ==> t.vs.minChange == s.vs.minChange
    ensures disabled ==> t == s
  {
    if disabled then s else WriteStep(s, od, env, r, hasWidget)
  }

  /**
   * A successful write emits at most one reload signal, an option reload
   * whenever the device asked for one, and never a second refresh pass.
   */
  lemma {:induction false} CascadeSignals(s: Snapshot, od: Option<Descriptor>, env: Env, r: SetReply)
    requires od.Some? ==> Fits(s.vs, od.value)
    requires r.status == Good
    ensures var t := WriteStep(s, od, env, r, false);
      && t.vs == s.vs && t.gets == s.gets
      && t.signals == s.signals + ReloadSignals(r.info)
      && (HasBit(r.info, INFO_RELOAD_OPTIONS) ==> t.signals == s.signals + [OptsNeedReload])
      && (HasBit(r.info, INFO_RELOAD_PARAMS) && !HasBit(r.info, INFO_RELOAD_OPTIONS) ==>
            t.signals == s.signals + [ValsNeedReload])
  {
    var sigs := ReloadSignals(r.info);
    if HasBit(r.info, INFO_RELOAD_OPTIONS) {
      assert sigs == [OptsNeedReload];
    } else if HasBit(r.info, INFO_RELOAD_PARAMS) {
      assert sigs == [ValsNeedReload];
    }
  }

  /**
   * An accepted inexact write to an option with a widget re-reads the value
   * first and then raises the reload cascade.
   */
  lemma {:induction false} InexactWriteRereads(s: Snapshot, od: Option<Descriptor>, env: Env, r: SetReply)
    requires od.Some? ==> Fits(s.vs, od.value)
    requires r.status == Good && HasBit(r.info, INFO_INEXACT)
    ensures var t := ReadStep(s, od, env);
      WriteStep(s, od, env, r, true) == t.(signals := t.signals + ReloadSignals(r.info))
  {
  }

  /** A failed write leaves the option exactly as a plain re-read would. */
  lemma FailedWriteRereads(s: Snapshot, od: Option<Descriptor>, env: Env, r: SetReply, hasWidget: bool)
    requires od.Some? ==> Fits(s.vs, od.value)
    requires r.status != Good
    ensures WriteStep(s, od, env, r, hasWidget) == ReadStep(s, od, env)
    ensures WriteStep(s, od, env, r, hasWidget).signals[..|s.signals|] == s.signals
  {
  }

  /**
   * A ListOption re-read announces a value exactly when the value differs
   * from the one it held; a failed or skipped read changes nothing.
   */
  lemma {:induction false} ListReadEmitsOnChange(s: Snapshot, d: Descriptor, env: Env)
    requires s.vs.List? && Fits(s.vs, d)
    ensures var t := ReadStep(s, Some(d), env);
      && (t.signals != s.signals ==> t.vs.current != s.vs.current && t.signals == s.signals + [ValueChanged(t.vs.current)])
      && (t.signals == s.signals ==> t.vs == s.vs)
  {
    if ReadsDevice(s.vs, Some(d)) {
      var r := NextGet(s.gets, d.size);
      var out := ReadEffect(s.vs, d, r, env);
      if out.1 == [] {
        assert s.signals + out.1 == s.signals;
      } else {
        assert out.1 == [ValueChanged(out.0.current)];
        assert (s.signals + out.1)[|s.signals|] == ValueChanged(out.0.current);
      }
    }
  }

  // ---------------------------------------------------------------------------
  // KSaneDoubleOption: constants and range queries

  /** FIXED_MIN, FIXED_MAX and MIN_FIXED_STEP */
  const FIXED_MIN: real := -32768.0
  const FIXED_MAX: real := 32767.0
  const MIN_FIXED_STEP: real := 0.0001

  /** getMinValue */
  function MinValue(d: Descriptor): (v: real)
    ensures d.constraint.Range? ==> v == Unfix(d.constraint.min)
    ensures !d.constraint.Range? ==> v == FIXED_MIN
  {
    if d.constraint.Range? then Unfix(d.constraint.min) else FIXED_MIN
  }

  /** getMaxValue */
  function MaxValue(d: Descriptor): (v: real)
    ensures d.constraint.Range? ==> v == Unfix(d.constraint.max)
    ensures !d.constraint.Range? ==> v == FIXED_MAX
  {
    if d.constraint.Range? then Unfix(d.constraint.max) else FIXED_MAX
  }

  /** getStepValue */
  function StepValue(d: Descriptor): (v: real)
    ensures d.constraint.Range? ==> v == Unfix(d.constraint.quant)
    ensures !d.constraint.Range? ==> v == MIN_FIXED_STEP
  {
    if d.constraint.Range? then Unfix(d.constraint.quant) else 0.0001
  }

  /** m_minChange as readOption sets it: the range's quantum, but never below MIN_FIXED_STEP. */
  function MinChange(d: Descriptor): (m: real)
    ensures m >= MIN_FIXED_STEP
    ensures m >= StepValue(d)
    ensures m == StepValue(d) || m == MIN_FIXED_STEP
  {
    var step := if d.constraint.Range? then Unfix(d.constraint.quant) else MIN_FIXED_STEP;
    if step < MIN_FIXED_STEP then MIN_FIXED_STEP else step
  }

  /**
   * The fallback limits of an unconstrained FIXED option are representable
   * fixed-point values: both survive FIX and UNFIX unchanged.
   */
  lemma {:induction false} FallbackLimitsRepresentable()
    ensures Unfix(Fix(FIXED_MIN)) == FIXED_MIN && Fix(FIXED_MIN) == -0x8000_0000
    ensures Unfix(Fix(FIXED_MAX)) == FIXED_MAX && Fix(FIXED_MAX) == 32767 * 65536
  {
    assert FIXED_MIN * 65536.0 == (-0x8000_0000) as real;
    assert Truncate(FIXED_MIN * 65536.0) == -0x8000_0000;
    assert FIXED_MAX * 65536.0 == (32767 * 65536) as real;
    assert Truncate(FIXED_MAX * 65536.0) == 32767 * 65536;
  }

  /** Whether KSaneDoubleOption::setValue writes: the change reaches m_minChange. */
  predicate Moves(old_: real, new_: real, minChange: real) {
    new_ - old_ >= minChange || old_ - new_ >= minChange
  }

  /** QStringView(text).left(size) */
  function Left(text: string, size: int): (t: string)
    ensures 0 <= size <= |text| ==> t == text[..size]
    ensures size < 0 || size >= |text| ==> t == text
  {
    if 0 <= size < |text| then text[..size] else text
  }

  /** The truncated string differs from the input exactly when the input was too long. */
  lemma {:induction false} LeftChanges(text: string, size: int)
    requires size >= 0
    ensures Left(text, size) != text <==> |text| > size
    ensures |Left(text, size)| <= size
  {
    if |text| > size {
      assert |Left(text, size)| == size;
    }
  }

  /** The bytes of a fixed-point write of `x`, the way setValue converts it with SANE_FIX. */
  function FixedBytes(x: real, bigEndian: bool): (b: seq<Byte>)
    ensures |b| == 4
  {
    EncodeWord(Fix(x), bigEndian)
  }

  /** A number inside the fixed-point range comes back from the device's word within one quantum. */
  lemma {:induction false} FixedBytesClose(x: real, bigEndian: bool)
    requires FIXED_MIN <= x < 32768.0
    ensures Dist(Unfix(ToSaneWord(FixedBytes(x, bigEndian), bigEndian)), x) < 1.0 / 65536.0
  {
    DecodeEncode(Fix(x), bigEndian);
    UnfixFixClose(x);
  }

  /**
   * What ListOption::setValue(QString) hands to writeData: the number
   * `text` parses to for an INT or FIXED list, the C string of the first
   * string-list entry `text` names; None when the text does not parse, no
   * entry matches, or the value type has no list form.
   */
  function TextPayload(d: Descriptor, text: string, env: Env): (p: Option<seq<Byte>>)
    requires WellFormed(d) && IsList(d)
    ensures d.valueType == TypeInt ==>
      p.Some? == env.toInt(text).Some? &&
      (p.Some? ==> |p.value| == 4 && ToSaneWord(p.value, env.bigEndian) == env.toInt(text).value)
    ensures d.valueType == TypeFixed ==>
      p.Some? == env.toDouble(text).Some? &&
      (p.Some? ==> p.value == FixedBytes(env.toDouble(text).value, env.bigEndian))
    ensures d.valueType == TypeString ==>
      var k := FirstMatchFrom(d.constraint.strings, text, env.i18n, 0);
      p.Some? == k.Some? &&
      (p.Some? ==> p.value == Latin1Bytes(d.constraint.strings[k.value].value))
    ensures d.valueType !in {TypeInt, TypeFixed, TypeString} ==> p.None?
  {
    match d.valueType
    case TypeInt =>
      (match env.toInt(text)
       case Some(i) => DecodeEncode(i, env.bigEndian); Some(EncodeWord(i, env.bigEndian))
       case None => None)
    case TypeFixed =>
      (match env.toDouble(text)
       case Some(x) => Some(FixedBytes(x, env.bigEndian))
       case None => None)
    case TypeString =>
      (match FirstMatchFrom(d.constraint.strings, text, env.i18n, 0)
       case Some(k) => Some(Latin1Bytes(d.constraint.strings[k].value))
       case None => None)
    case _ => None
  }

  /**
   * The text StringOption::setValue keeps: at most size - 1 characters, so
   * that the NUL terminator of the written C string stays inside the
   * option's buffer of `size` bytes.
   */
  function Clip(text: string, size: int): (t: string)
    ensures size >= 1 ==> |t| < size
    ensures t <= text
    ensures |text| < size ==> t == text
  {
    Left(text, if size >= 1 then size - 1 else 0)
  }

  /** The clipped text differs from the input exactly when the input does not fit with its terminator. */
  lemma {:induction false} ClipChanges(text: string, size: int)
    requires size >= 1
    ensures Clip(text, size) != text <==> |text| >= size
  {
    LeftChanges(text, size - 1);
  }

  /** The buffer StringOption::setValue writes: the clipped text, NUL-terminated within `size` bytes. */
  function StringBytes(text: string, size: int): (b: seq<Byte>)
    ensures size >= 1 ==> |b| <= size
    ensures |b| >= 1 && b[|b| - 1] == 0
  {
    Latin1Bytes(Clip(text, size))
  }

  /**
   * A device reading the written buffer as a C string reads back exactly
   * the clipped text, as long as that text is Latin-1 without NUL.
   */
  lemma {:induction false} StringBytesRead(text: string, size: int)
    requires forall i :: 0 <= i < |text| ==> 0 < text[i] as int < 256
    ensures CString(StringBytes(text, size)) == Clip(text, size)
  {
    var t := Clip(text, size);
    assert forall i :: 0 <= i < |t| ==> t[i] == text[i];
    CStringLatin1(t);
  }

  /**
   * StringOption::setValue as written: it keeps the first `size`
   * characters and writes them only when that cut changed the text.
   */
  function StringWriteAsWritten(text: string, size: int): (p: Option<seq<Byte>>)
    ensures size >= 0 ==> (p.Some? <==> |text| > size)
    ensures p.Some? ==> p.value == Latin1Bytes(Left(text, size))
  {
    var tmp := Left(text, size);
    LeftChanges(text, if size >= 0 then size else 0);
    if tmp != text then Some(Latin1Bytes(tmp)) else None
  }

  /**
   * The two defects of the code as written: a text that fits is never
   * written (the call still reports success), and a text that does not fit
   * is cut to `size` characters, whose terminator then lies past the
   * option's buffer.
   */
  lemma StringWriteAsWrittenFails()
    ensures StringWriteAsWritten("gray", 32).None?
    ensures StringBytes("gray", 32) == Latin1Bytes("gray")
    ensures var p := StringWriteAsWritten("lineart", 4);
      p.Some? && |p.value| == 5 && p.value[4] == 0
  {
    assert Clip("gray", 32) == "gray";
    assert Left("lineart", 4) == "line";
  }

  /**
   * storeCurrentData as written: once allowed, the slot is filled from the
   * GET buffer whether or not the read succeeded.
   */
  function StoreAsWritten(allowed: bool, saved: Option<seq<Byte>>, r: GetReply): (slot: Option<seq<Byte>>)
    ensures !allowed ==> slot == saved
    ensures allowed ==> slot == Some(r.data)
  {
    if allowed then Some(r.data) else saved
  }

  /** After a failed read the slot is still filled, so restoreSavedData goes on to write it. */
  lemma StoreAsWrittenKeepsFailedRead()
    ensures StoreAsWritten(true, None, GetReply(IoError, Zeros(4))).Some?
  {
  }

  class KSaneOption {
    const dev: OptionDevice
    const env: Env
    var desc: Option<Descriptor>      // m_optDesc
    var hasWidget: bool                // m_widget != nullptr
    var hasGui: bool                   // hasGui()
    var saved: Option<seq<Byte>>       // m_data
    var vs: VarState
    var signals: seq<Signal>

    ghost predicate Valid()
      reads this, dev
    {
      && (desc.Some? ==> Fits(vs, desc.value))
      && (dev.descriptor.Some? ==> Fits(vs, dev.descriptor.value))
      && (!vs.Plain? ==> desc.Some? && dev.descriptor.Some?)
    }

    function Snap(): Snapshot
      reads this, dev
    {
      Snapshot(vs, signals, dev.getReplies)
    }

    /** The constructor reads the descriptor (KSaneOption::readOption) and has no widget and no saved data yet. */
    constructor (dev: OptionDevice, env: Env, vs: VarState, hasGui: bool)
      requires dev.descriptor.Some? ==> Fits(vs, dev.descriptor.value)
      requires !vs.Plain? ==> dev.descriptor.Some?
      ensures Valid()
      ensures this.dev == dev && this.env == env && this.vs == vs && this.hasGui == hasGui
      ensures desc == dev.descriptor && !hasWidget && saved == None && signals == []
    {
      this.dev := dev;
      this.env := env;
      this.vs := vs;
      this.hasGui := hasGui;
      desc := dev.descriptor;
      hasWidget := false;
      saved := None;
      signals := [];
    }

    /**
     * state(): ListOption hides an option with at most one entry; otherwise
     * every variant uses the base state.
     */
    function State(): (s: OptState)
      reads this
      ensures vs.List? && vs.entries <= 1 ==> s == Hidden
      ensures !(vs.List? && vs.entries <= 1) ==> s == BaseState(desc)
      ensures BaseState(desc) == Hidden ==> s == Hidden
    {
      match vs
      case List(_, n) => if n <= 1 then Hidden else BaseState(desc)
      case _ => BaseState(desc)
    }

    /** readOption: refreshes the descriptor, then m_minChange or m_entriesCount. */
    method ReadOption()
      requires Valid()
      modifies this`desc, this`vs
      ensures Valid()
      ensures desc == dev.descriptor
      ensures old(vs).Double? ==> vs == Double(old(vs).value, MinChange(desc.value))
      ensures old(vs).List? ==> vs == List(old(vs).current, EntryCount(desc.value))
      ensures old(vs).Plain? || old(vs).Text? ==> vs == old(vs)
    {
      desc := dev.descriptor;
      match vs {
        case Double(v, _) =>
          var d := desc.value;
          var step := MIN_FIXED_STEP;
          if d.constraint.Range? {
            step := Unfix(d.constraint.quant);
            if step < MIN_FIXED_STEP {
              step := MIN_FIXED_STEP;
            }
          }
          vs := Double(v, step);
        case List(_, _) =>
          CountEntries();
        case _ =>
      }
    }

    /** ListOption::countEntries */
    method CountEntries()
      requires Valid() && vs.List?
      modifies this`vs
      ensures Valid()
      ensures vs == List(old(vs).current, EntryCount(desc.value))
    {
      var d := desc.value;
      var n := 0;
      match d.valueType {
        case TypeInt => n := d.constraint.words[0];
        case TypeFixed => n := d.constraint.words[0];
        case TypeString => n := CountStrings(d.constraint.strings);
        case _ =>
      }
      vs := List(vs.current, n);
    }

    /** readValue of the variant. */
    method ReadValue()
      requires Valid()
      modifies this`vs, this`signals, dev`getReplies
      ensures Valid()
      ensures Snap() == ReadStep(old(Snap()), desc, env)
    {
      if vs.Plain? || BaseState(desc) == Hidden {
        return;
      }
      var d := desc.value;
      var r := dev.GetValue(d.size);
      if r.status != Good {
        return;
      }
      match vs {
        case List(cur, n) =>
          var newValue := ListValueOf(d, r.data, env);
          if newValue != cur {
            vs := List(newValue, n);
            signals := signals + [ValueChanged(newValue)];
          }
        case Double(_, mc) =>
          var x := Unfix(ToSaneWord(r.data, env.bigEndian));
          vs := Double(x, mc);
          signals := signals + [ValueChanged(RealV(x))];
        case Text(_) =>
          var s := CString(r.data);
          vs := Text(s);
          signals := signals + [ValueChanged(StrV(s))];
      }
    }

    /**
     * writeData: refuses a Disabled option without calling the device;
     * otherwise writes `data` once and returns whether the device accepted it.
     */
    method WriteData(data: seq<Byte>) returns (ok: bool)
      requires Valid()
      modifies this`vs, this`signals, dev`getReplies, dev`setReplies, dev`writes
      ensures Valid()
      ensures var disabled := old(State()) == Disabled;
        && ok == (!disabled && NextSet(old(dev.setReplies)).status == Good)
        && dev.writes == old(dev.writes) + (if disabled then [] else [data])
        && dev.setReplies == (if disabled then old(dev.setReplies) else Rest(old(dev.setReplies)))
        && Snap() == WriteOutcome(old(Snap()), disabled, desc, env, NextSet(old(dev.setReplies)), hasWidget)
    {
      if State() == Disabled {
        return false;
      }
      var r := dev.SetValue(data);
      if r.status != Good {
        ReadValue();
        return false;
      }
      if HasBit(r.info, INFO_INEXACT) && hasWidget {
        ReadValue();
      }
      if HasBit(r.info, INFO_RELOAD_OPTIONS) {
        signals := signals + [OptsNeedReload];
      } else if HasBit(r.info, INFO_RELOAD_PARAMS) {
        signals := signals + [ValsNeedReload];
      }
      return true;
    }

    /**
     * storeCurrentData: without a GUI or while Hidden it keeps the slot;
     * otherwise it reads the value into a fresh slot and reports whether the
     * read succeeded. A failed read leaves the slot empty (see the findings:
     * the code as written keeps the unread buffer).
     */
    method StoreCurrentData() returns (ok: bool)
      requires Valid()
      modifies this`saved, dev`getReplies
      ensures Valid()
      ensures !hasGui || State() == Hidden ==>
        !ok && saved == old(saved) && dev.getReplies == old(dev.getReplies)
      ensures hasGui && State() != Hidden ==>
        var r := NextGet(old(dev.getReplies), desc.value.size);
        && ok == (r.status == Good)
        && saved == (if ok then Some(r.data) else None)
        && dev.getReplies == Rest(old(dev.getReplies))
    {
      if !hasGui {
        return false;
      }
      if State() == Hidden {
        return false;
      }
      saved := None;
      var r := dev.GetValue(desc.value.size);
      if r.status != Good {
        return false;
      }
      saved := Some(r.data);
      return true;
    }

    /** writeData followed by readValue, the pair every setter and restoreSavedData end with. */
    method WriteAndRead(data: seq<Byte>)
      requires Valid()
      modifies this`vs, this`signals, dev`getReplies, dev`setReplies, dev`writes
      ensures Valid()
      ensures var disabled := old(State()) == Disabled;
        && dev.writes == old(dev.writes) + (if disabled then [] else [data])
        && dev.setReplies == (if disabled then old(dev.setReplies) else Rest(old(dev.setReplies)))
        && Snap() == ReadStep(WriteOutcome(old(Snap()), disabled, desc, env, NextSet(old(dev.setReplies)), hasWidget), desc, env)
    {
      var _ := WriteData(data);
      ReadValue();
    }

    /**
     * restoreSavedData: refuses without saved data, without a GUI, or while
     * Hidden or Disabled, and then writes nothing; otherwise writes the saved
     * data, re-reads the value and reports success whatever the write did.
     */
    method RestoreSavedData() returns (ok: bool)
      requires Valid()
      modifies this`vs, this`signals, dev`getReplies, dev`setReplies, dev`writes
      ensures Valid()
      ensures ok <==> old(saved).Some? && hasGui && old(State()) != Hidden && old(State()) != Disabled
      ensures !ok ==> Snap() == old(Snap()) && dev.writes == old(dev.writes)
                      && dev.setReplies == old(dev.setReplies)
      ensures ok ==>
        && dev.writes == old(dev.writes) + [saved.value]
        && dev.setReplies == Rest(old(dev.setReplies))
        && Snap() == ReadStep(WriteStep(old(Snap()), desc, env, NextSet(old(dev.setReplies)), hasWidget), desc, env)
    {
      if saved.None? {
        return false;
      }
      if !hasGui {
        return false;
      }
      if State() == Hidden {
        return false;
      }
      if State() == Disabled {
        return false;
      }
      WriteAndRead(saved.value);
      return true;
    }

    // -------------------------------------------------------------------------
    // ListOption

    /** ListOption::value(): empty while the base state is Hidden. */
    function ListValue(): (v: Variant)
      reads this
      requires vs.List?
      ensures BaseState(desc) == Hidden ==> v == Null
      ensures BaseState(desc) != Hidden ==> v == vs.current
    {
      if BaseState(desc) == Hidden then Null else vs.current
    }

    /** ListOption::valueAsString(): empty while the base state is Hidden. */
    function ListValueAsString(): (s: string)
      reads this
      requires vs.List?
      ensures BaseState(desc) == Hidden ==> s == ""
      ensures BaseState(desc) != Hidden ==> s == VariantText(vs.current, env)
    {
      if BaseState(desc) == Hidden then "" else VariantText(vs.current, env)
    }

    /**
     * ListOption::setValue(double): writes the first closest entry of a word
     * list, re-reads the value, and succeeds when that entry lies within 1.0
     * of the request. Other value types fail without a write.
     */
    method SetListNumber(value: real) returns (ok: bool, ghost chosen: int)
      requires Valid() && vs.List?
      requires desc.value.valueType in {TypeInt, TypeFixed} ==> desc.value.constraint.words[0] >= 1
      modifies this`vs, this`signals, dev`getReplies, dev`setReplies, dev`writes
      ensures Valid()
      ensures desc.value.valueType !in {TypeInt, TypeFixed} ==>
        !ok && Snap() == old(Snap()) && dev.writes == old(dev.writes)
        && dev.setReplies == old(dev.setReplies)
      ensures desc.value.valueType in {TypeInt, TypeFixed} ==>
        var ws := desc.value.constraint.words;
        var fixed := desc.value.valueType == TypeFixed;
        var disabled := old(State()) == Disabled;
        && IsClosest(ws, fixed, value, chosen)
        && ok == (Dist(value, EntryValue(ws[chosen], fixed)) < 1.0)
        && dev.writes == old(dev.writes) + (if disabled then [] else [EncodeWord(ws[chosen], env.bigEndian)])
        && Snap() == ReadStep(WriteOutcome(old(Snap()), disabled, desc, env, NextSet(old(dev.setReplies)), hasWidget), desc, env)
    {
      var d := desc.value;
      chosen := 0;
      if d.valueType != TypeInt && d.valueType != TypeFixed {
        return false, chosen;
      }
      var minIndex, minDiff := ClosestEntry(d.constraint.words, d.valueType == TypeFixed, value);
      chosen := minIndex;
      var data := new Byte[4];
      FromSaneWord(data, d.constraint.words[minIndex], env.bigEndian);
      assert data[..] == data[..4];
      WriteAndRead(data[..]);
      return minDiff < 1.0, chosen;
    }

    /**
     * ListOption::setValue(QString): refuses while the base state is Hidden
     * or when the text gives no payload; otherwise writes the payload,
     * re-reads the value and reports success whatever the write did.
     */
    method SetListText(text: string) returns (ok: bool)
      requires Valid() && vs.List?
      modifies this`vs, this`signals, dev`getReplies, dev`setReplies, dev`writes
      ensures Valid()
      ensures ok <==> BaseState(desc) != Hidden && TextPayload(desc.value, text, env).Some?
      ensures !ok ==> Snap() == old(Snap()) && dev.writes == old(dev.writes)
                      && dev.setReplies == old(dev.setReplies)
      ensures ok ==>
        var disabled := old(State()) == Disabled;
        && dev.writes == old(dev.writes) + (if disabled then [] else [TextPayload(desc.value, text, env).value])
        && Snap() == ReadStep(WriteOutcome(old(Snap()), disabled, desc, env, NextSet(old(dev.setReplies)), hasWidget), desc, env)
    {
      if BaseState(desc) == Hidden {
        return false;
      }
      var d := desc.value;
      var data: seq<Byte>;
      match d.valueType {
        case TypeInt =>
          var i := env.toInt(text);
          if i.None? {
            return false;
          }
          var buf := new Byte[4];
          FromSaneWord(buf, i.value, env.bigEndian);
          assert buf[..] == buf[..4];
          data := buf[..];
        case TypeFixed =>
          var x := env.toDouble(text);
          if x.None? {
            return false;
          }
          var buf := new Byte[4];
          FromSaneWord(buf, Fix(x.value), env.bigEndian);
          assert buf[..] == buf[..4];
          data := buf[..];
        case TypeString =>
          var k := MatchEntry(d.constraint.strings, text, env.i18n);
          if k.None? {
            return false;
          }
          data := Latin1Bytes(d.constraint.strings[k.value].value);
        case _ =>
          return false;
      }
      WriteAndRead(data);
      return true;
    }

    /**
     * ListOption::setValue(QVariant): a string goes to the text setter,
     * anything else to the numeric setter as QVariant::toDouble gives it
     * (0.0 for an empty variant).
     */
    method SetListVariant(v: Variant) returns (ok: bool)
      requires Valid() && vs.List?
      requires !v.StrV? && desc.value.valueType in {TypeInt, TypeFixed} ==> desc.value.constraint.words[0] >= 1
      modifies this`vs, this`signals, dev`getReplies, dev`setReplies, dev`writes
      ensures Valid()
      ensures v.StrV? ==> (ok <==> BaseState(desc) != Hidden && TextPayload(desc.value, v.s, env).Some?)
      ensures !v.StrV? ==>
        var x := VariantToDouble(v, env).GetOr(0.0);
        var fixed := desc.value.valueType == TypeFixed;
        && (desc.value.valueType in {TypeInt, TypeFixed} ==>
              var ws := desc.value.constraint.words;
              exists k :: IsClosest(ws, fixed, x, k) && ok == (Dist(x, EntryValue(ws[k], fixed)) < 1.0))
        && (desc.value.valueType !in {TypeInt, TypeFixed} ==> !ok && dev.writes == old(dev.writes))
    {
      if v.StrV? {
        ok := SetListText(v.s);
      } else {
        ghost var k;
        ok, k := SetListNumber(VariantToDouble(v, env).GetOr(0.0));
      }
    }

    // -------------------------------------------------------------------------
    // KSaneDoubleOption

    /** getValue(): empty while Hidden. */
    function DoubleValue(): (v: Variant)
      reads this
      requires vs.Double?
      ensures BaseState(desc) == Hidden ==> v == Null
      ensures BaseState(desc) != Hidden ==> v == RealV(vs.value)
    {
      if BaseState(desc) == Hidden then Null else RealV(vs.value)
    }

    /** getValueAsString(): empty while Hidden, six decimals otherwise. */
    function DoubleValueAsString(): (s: string)
      reads this
      requires vs.Double?
      ensures BaseState(desc) == Hidden ==> s == ""
      ensures BaseState(desc) != Hidden ==> s == env.realText6(vs.value)
    {
      if BaseState(desc) == Hidden then "" else env.realText6(vs.value)
    }

    /**
     * KSaneDoubleOption::setValue: refuses while Hidden; otherwise reports
     * whether the variant converts to a number, and only when that number
     * moves by at least m_minChange stores it, writes it in fixed point and
     * announces the value held after the write.
     */
    method SetDouble(v: Variant) returns (ok: bool)
      requires Valid() && vs.Double?
      modifies this`vs, this`signals, dev`getReplies, dev`setReplies, dev`writes
      ensures Valid()
      ensures BaseState(desc) == Hidden ==> !ok
      ensures BaseState(desc) != Hidden ==> ok == VariantToDouble(v, env).Some?
      ensures var moved := ok && Moves(old(vs).value, VariantToDouble(v, env).value, old(vs).minChange);
        && (!moved ==> Snap() == old(Snap()) && dev.writes == old(dev.writes) && dev.setReplies == old(dev.setReplies))
        && (moved ==>
              var x := VariantToDouble(v, env).value;
              var disabled := old(State()) == Disabled;
              var t := WriteOutcome(Snapshot(Double(x, old(vs).minChange), old(signals), old(dev.getReplies)),
                                    disabled, desc, env, NextSet(old(dev.setReplies)), hasWidget);
              && dev.writes == old(dev.writes) + (if disabled then [] else [FixedBytes(x, env.bigEndian)])
              && vs == t.vs
              && signals == t.signals + [ValueChanged(RealV(t.vs.value))]
              && dev.getReplies == t.gets)
    {
      if BaseState(desc) == Hidden {
        return false;
      }
      var x := VariantToDouble(v, env);
      ok := x.Some?;
      if ok && Moves(vs.value, x.value, vs.minChange) {
        vs := Double(x.value, vs.minChange);
        var data := new Byte[4];
        FromSaneWord(data, Fix(x.value), env.bigEndian);
        assert data[..] == data[..4];
        var _ := WriteData(data[..]);
        signals := signals + [ValueChanged(RealV(vs.value))];
      }
    }

    // -------------------------------------------------------------------------
    // StringOption

    /** StringOption::value(): the held string, whatever the state. */
    function StringValue(): (v: Variant)
      reads this
      requires vs.Text?
      ensures v == StrV(vs.str)
    {
      StrV(vs.str)
    }

    /** StringOption::valueSize(): the descriptor's buffer size. */
    function ValueSize(): (n: int)
      reads this, dev
      requires Valid() && vs.Text?
      ensures n == desc.value.size && n >= 0
    {
      desc.value.size
    }

    /** StringOption::valueAsString(): empty while Hidden. */
    function StringValueAsString(): (s: string)
      reads this
      requires vs.Text?
      ensures BaseState(desc) == Hidden ==> s == ""
      ensures BaseState(desc) != Hidden ==> s == vs.str
    {
      if BaseState(desc) == Hidden then "" else vs.str
    }

    /**
     * StringOption::setValue: refuses while Hidden; otherwise clips the text
     * to the buffer, keeps it, writes it as a NUL-terminated Latin-1 string
     * and, when the clipping changed the text, announces the clipped text.
     * (See the findings for the code as written.)
     */
    method SetString(v: Variant) returns (ok: bool)
      requires Valid() && vs.Text?
      modifies this`vs, this`signals, dev`getReplies, dev`setReplies, dev`writes
      ensures Valid()
      ensures ok <==> BaseState(desc) != Hidden
      ensures !ok ==> Snap() == old(Snap()) && dev.writes == old(dev.writes) && dev.setReplies == old(dev.setReplies)
      ensures ok ==>
        var text := VariantText(v, env);
        var tmp := Clip(text, desc.value.size);
        var disabled := old(State()) == Disabled;
        var t := WriteOutcome(Snapshot(Text(tmp), old(signals), old(dev.getReplies)),
                              disabled, desc, env, NextSet(old(dev.setReplies)), hasWidget);
        && dev.writes == old(dev.writes) + (if disabled then [] else [StringBytes(text, desc.value.size)])
        && vs == t.vs
        && signals == t.signals + (if tmp != text then [ValueChanged(StrV(tmp))] else [])
        && dev.getReplies == t.gets
    {
      if BaseState(desc) == Hidden {
        return false;
      }
      var text := VariantText(v, env);
      var tmp := Clip(text, desc.value.size);
      vs := Text(tmp);
      var _ := WriteData(Latin1Bytes(tmp));
      if tmp != text {
        signals := signals + [ValueChanged(StrV(tmp))];
      }
      return true;
    }
  }
}
