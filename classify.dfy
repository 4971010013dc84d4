/**
 * KSaneOption's classification of an option descriptor into the control it
 * is shown as (optionType), its visibility (state) and whether it must be
 * polled (needsPolling).
 */
module Classify {
  import opened Wrappers
  import opened Sane

  /** KSaneOptType */
  datatype OptType = DetectFail | Checkbox | Slider | FSlider | Button | Entry | Gamma | Combo

  /** KSaneOptWState */
  datatype OptState = Hidden | Disabled | Shown

  /** SANE_NAME_GAMMA_VECTOR, ..._R, ..._G and ..._B of saneopts.h. */
  predicate IsGammaName(name: string) {
    name == "gamma-table" || name == "red-gamma-table"
    || name == "green-gamma-table" || name == "blue-gamma-table"
  }

  predicate Unconstrained(d: Descriptor) {
    d.constraint.NoConstraint?
  }

  predicate NoneOrRange(d: Descriptor) {
    d.constraint.NoConstraint? || d.constraint.Range?
  }

  /**
   * optionType. The postconditions give the decision table flattened, one
   * line per control: the constraint comes first, then the value type, then
   * the word size, and the gamma name only for a multi-word INT range.
   */
  function OptionType(od: Option<Descriptor>): (t: OptType)
    ensures od.None? ==> t == DetectFail
    ensures t == Combo <==>
      od.Some? && (od.value.constraint.WordList? || od.value.constraint.StringList?)
    ensures t == Checkbox <==>
      od.Some? && NoneOrRange(od.value) && od.value.valueType == TypeBool
    ensures t == Slider <==>
      od.Some? && NoneOrRange(od.value) && od.value.valueType == TypeInt
      && od.value.size == WORD_SIZE
    ensures t == FSlider <==>
      od.Some? && NoneOrRange(od.value) && od.value.valueType == TypeFixed
      && od.value.size == WORD_SIZE
    ensures t == Button <==>
      od.Some? && NoneOrRange(od.value) && od.value.valueType == TypeButton
    ensures t == Entry <==>
      od.Some? && Unconstrained(od.value) && od.value.valueType == TypeString
    ensures t == Gamma <==>
      od.Some? && od.value.constraint.Range? && od.value.valueType == TypeInt
      && od.value.size != WORD_SIZE && IsGammaName(od.value.name)
  {
    match od
    case None => DetectFail
    case Some(d) =>
      match d.constraint
      case NoConstraint =>
        (match d.valueType
         case TypeBool => Checkbox
         case TypeInt => if d.size == WORD_SIZE then Slider else DetectFail
         case TypeFixed => if d.size == WORD_SIZE then FSlider else DetectFail
         case TypeButton => Button
         case TypeString => Entry
         case TypeGroup => DetectFail)
      case Range(_, _, _) =>
        (match d.valueType
         case TypeBool => Checkbox
         case TypeInt =>
           if d.size == WORD_SIZE then Slider
           else if IsGammaName(d.name) then Gamma
           else DetectFail
         case TypeFixed => if d.size == WORD_SIZE then FSlider else DetectFail
         case TypeString => DetectFail
         case TypeButton => Button
         case TypeGroup => DetectFail)
      case WordList(_) => Combo
      case StringList(_) => Combo
  }

  /** The conditions under which state() hides a present descriptor. */
  predicate HiddenBits(d: Descriptor) {
    || !HasBit(d.cap, CAP_SOFT_DETECT)
    || HasBit(d.cap, CAP_INACTIVE)
    || (d.size == 0 && OptionType(Some(d)) != Button)
  }

  /** state() of the option base. */
  function BaseState(od: Option<Descriptor>): (s: OptState)
    ensures s == Hidden <==> od.None? || HiddenBits(od.value)
    ensures s == Disabled <==>
      od.Some? && !HiddenBits(od.value) && !HasBit(od.value.cap, CAP_SOFT_SELECT)
    ensures s == Shown ==>
      && HasBit(od.value.cap, CAP_SOFT_DETECT)
      && HasBit(od.value.cap, CAP_SOFT_SELECT)
      && !HasBit(od.value.cap, CAP_INACTIVE)
  {
    if od.None? then Hidden
    else if HiddenBits(od.value) then Hidden
    else if !HasBit(od.value.cap, CAP_SOFT_SELECT) then Disabled
    else Shown
  }

  /** needsPolling(): the device senses the value but software cannot set it. */
  function NeedsPolling(od: Option<Descriptor>): (p: bool)
    ensures p <==> od.Some? && HasBit(od.value.cap, CAP_SOFT_DETECT)
                   && !HasBit(od.value.cap, CAP_SOFT_SELECT)
  {
    if od.None? then false
    else HasBit(od.value.cap, CAP_SOFT_DETECT) && !HasBit(od.value.cap, CAP_SOFT_SELECT)
  }

  /**
   * A polled option is never editable, and the read-only options are exactly
   * the polled ones that are visible.
   */
  lemma PolledNeverShown(od: Option<Descriptor>)
    ensures NeedsPolling(od) ==> BaseState(od) != Shown
    ensures BaseState(od) == Disabled <==> NeedsPolling(od) && BaseState(od) != Hidden
  {
  }

  /** A button of size 0 stays visible; any other option of size 0 is hidden. */
  lemma ZeroSizeHidden(d: Descriptor)
    requires d.size == 0
    ensures BaseState(Some(d)) != Hidden <==>
      d.valueType == TypeButton && NoneOrRange(d)
      && HasBit(d.cap, CAP_SOFT_DETECT) && !HasBit(d.cap, CAP_INACTIVE)
  {
  }
}
