/**
 * The searches ListOption runs over its descriptor's word list or string
 * list: the closest entry to a number, the number of entries, the smallest
 * entry, the list of values shown, and the entry a string names.
 */
module ListEntries {
  import opened Wrappers
  import opened Sane
  import opened Values
  import opened Classify

  /** A descriptor whose constraint is a list, as every ListOption's is. */
  predicate IsList(d: Descriptor) {
    d.constraint.WordList? || d.constraint.StringList?
  }

  /** A word-list entry as a number: the word for INT, its UNFIX for FIXED. */
  function EntryValue(w: Word, fixed: bool): real {
    if fixed then Unfix(w) else w as real
  }

  /** qAbs(a - b) */
  function Dist(a: real, b: real): (d: real)
    ensures d >= 0.0
    ensures d == 0.0 <==> a == b
  {
    if a >= b then a - b else b - a
  }

  /**
   * Entry `k` is the first of the entries 1..words[0] whose distance to
   * `value` is smallest.
   */
  ghost predicate IsClosest(words: seq<Word>, fixed: bool, value: real, k: int)
    requires WordListOk(words)
  {
    && 1 <= k <= words[0]
    && (forall i :: 1 <= i <= words[0] ==>
          Dist(value, EntryValue(words[k], fixed)) <= Dist(value, EntryValue(words[i], fixed)))
    && (forall i :: 1 <= i < k ==>
          Dist(value, EntryValue(words[k], fixed)) < Dist(value, EntryValue(words[i], fixed)))
  }

  /** The search loop of ListOption::setValue(double). */
  method ClosestEntry(words: seq<Word>, fixed: bool, value: real) returns (minIndex: int, minDiff: real)
    requires WordListOk(words) && words[0] >= 1
    ensures IsClosest(words, fixed, value, minIndex)
    ensures minDiff == Dist(value, EntryValue(words[minIndex], fixed))
  {
    minIndex := 1;
    minDiff := Dist(value, EntryValue(words[minIndex], fixed));
    var i := 2;
    while i <= words[0]
      invariant 2 <= i <= words[0] + 1
      invariant 1 <= minIndex < i
      invariant minDiff == Dist(value, EntryValue(words[minIndex], fixed))
      invariant forall j :: 1 <= j < i ==> minDiff <= Dist(value, EntryValue(words[j], fixed))
      invariant forall j :: 1 <= j < minIndex ==> minDiff < Dist(value, EntryValue(words[j], fixed))
    {
      var tmp := EntryValue(words[i], fixed);
      if Dist(value, tmp) < minDiff {
        minDiff := Dist(value, tmp);
        minIndex := i;
      }
      i := i + 1;
    }
  }

  /** At most one entry is the first closest one, so the search is determined. */
  lemma ClosestUnique(words: seq<Word>, fixed: bool, value: real, k1: int, k2: int)
    requires WordListOk(words)
    requires IsClosest(words, fixed, value, k1) && IsClosest(words, fixed, value, k2)
    ensures k1 == k2
  {
    var d1 := Dist(value, EntryValue(words[k1], fixed));
    var d2 := Dist(value, EntryValue(words[k2], fixed));
    assert d1 == d2;
    assert k1 < k2 ==> d2 < d1;
    assert k2 < k1 ==> d1 < d2;
  }

  /**
   * The list [10, 20, 30]: a request for 21 chooses 20 at distance 1, which is
   * not below 1.0; a request for 24 chooses 20 as well; a tie between 20 and
   * 30 at 25 goes to the earlier entry.
   */
  lemma ClosestExamples()
    ensures IsClosest([3, 10, 20, 30], false, 21.0, 2)
    ensures Dist(21.0, EntryValue(20, false)) == 1.0
    ensures IsClosest([3, 10, 20, 30], false, 24.0, 2)
    ensures IsClosest([3, 10, 20, 30], false, 25.0, 2)
  {
  }

  /** The index of the NULL that ends a string list. */
  function NullIndex(strings: seq<Option<string>>): (n: nat)
    requires StringListOk(strings)
    ensures n < |strings| && strings[n].None?
    ensures forall j :: 0 <= j < n ==> strings[j].Some?
  {
    if strings[0].None? then 0
    else
      assert None in strings[1..] by {
        var k :| 0 <= k < |strings| && strings[k] == None;
        assert strings[1..][k - 1] == None;
      }
      1 + NullIndex(strings[1..])
  }

  /** The counting loop of ListOption::countEntries for a string list. */
  method CountStrings(strings: seq<Option<string>>) returns (count: nat)
    requires StringListOk(strings)
    ensures count == NullIndex(strings)
  {
    count := 0;
    while strings[count].Some?
      invariant count <= NullIndex(strings)
      decreases NullIndex(strings) - count
    {
      count := count + 1;
    }
  }

  /** m_entriesCount as ListOption::countEntries sets it. */
  function EntryCount(d: Descriptor): (n: int)
    requires WellFormed(d) && IsList(d)
    ensures d.constraint.WordList? ==> n == d.constraint.words[0]
    ensures d.constraint.StringList? ==> n == NullIndex(d.constraint.strings)
    ensures n >= 0
  {
    match d.valueType
    case TypeInt => d.constraint.words[0]
    case TypeFixed => d.constraint.words[0]
    case TypeString => NullIndex(d.constraint.strings)
    case _ => 0
  }

  /** `m` is one of the entries 1..words[0] and no entry is smaller. */
  ghost predicate IsMinimum(words: seq<Word>, fixed: bool, m: real)
    requires WordListOk(words)
  {
    && (exists i :: 1 <= i <= words[0] && EntryValue(words[i], fixed) == m)
    && (forall i :: 1 <= i <= words[0] ==> m <= EntryValue(words[i], fixed))
  }

  /** ListOption::minimumValue */
  method MinimumValue(od: Option<Descriptor>) returns (v: Variant)
    requires od.Some? ==> WellFormed(od.value) && IsList(od.value)
    requires BaseState(od) != Hidden && od.value.valueType in {TypeInt, TypeFixed} ==>
      od.value.constraint.words[0] >= 1
    ensures BaseState(od) == Hidden ==> v == Null
    ensures BaseState(od) != Hidden && od.value.valueType == TypeInt ==>
      v.IntV? && IsMinimum(od.value.constraint.words, false, v.i as real)
    ensures BaseState(od) != Hidden && od.value.valueType == TypeFixed ==>
      v.RealV? && IsMinimum(od.value.constraint.words, true, v.r)
    ensures BaseState(od) != Hidden && od.value.valueType !in {TypeInt, TypeFixed} ==>
      v == Null
  {
    if BaseState(od) == Hidden {
      return Null;
    }
    var d := od.value;
    match d.valueType {
      case TypeInt =>
        var ws := d.constraint.words;
        var iValueMin: int := ws[1];
        var i := 2;
        while i <= ws[0]
          invariant 2 <= i <= ws[0] + 1
          invariant exists j :: 1 <= j < i && ws[j] == iValueMin
          invariant forall j :: 1 <= j < i ==> iValueMin <= ws[j]
        {
          iValueMin := if ws[i] < iValueMin then ws[i] else iValueMin;
          i := i + 1;
        }
        v := IntV(iValueMin);
      case TypeFixed =>
        var ws := d.constraint.words;
        var dValueMin := Unfix(ws[1]);
        var i := 2;
        while i <= ws[0]
          invariant 2 <= i <= ws[0] + 1
          invariant exists j :: 1 <= j < i && Unfix(ws[j]) == dValueMin
          invariant forall j :: 1 <= j < i ==> dValueMin <= Unfix(ws[j])
        {
          dValueMin := if Unfix(ws[i]) < dValueMin then Unfix(ws[i]) else dValueMin;
          i := i + 1;
        }
        v := RealV(dValueMin);
      case _ =>
        v := Null;
    }
  }

  /**
   * ListOption::valueList (with `tr` = sane_i18n) and
   * ListOption::internalValueList (with `tr` the identity, QString::fromLatin1):
   * the entries in list order.
   */
  method EntryList(d: Descriptor, tr: string -> string) returns (list: seq<Variant>)
    requires WellFormed(d) && IsList(d)
    ensures |list| == EntryCount(d)
    ensures d.valueType == TypeInt ==>
      forall k :: 0 <= k < |list| ==> list[k] == IntV(d.constraint.words[k + 1])
    ensures d.valueType == TypeFixed ==>
      forall k :: 0 <= k < |list| ==> list[k] == RealV(Unfix(d.constraint.words[k + 1]))
    ensures d.valueType == TypeString ==>
      forall k :: 0 <= k < |list| ==> list[k] == StrV(tr(d.constraint.strings[k].value))
  {
    list := [];
    match d.valueType {
      case TypeInt =>
        var ws := d.constraint.words;
        var i := 1;
        while i <= ws[0]
          invariant 1 <= i <= ws[0] + 1
          invariant |list| == i - 1
          invariant forall k :: 0 <= k < |list| ==> list[k] == IntV(ws[k + 1])
        {
          list := list + [IntV(ws[i])];
          i := i + 1;
        }
      case TypeFixed =>
        var ws := d.constraint.words;
        var i := 1;
        while i <= ws[0]
          invariant 1 <= i <= ws[0] + 1
          invariant |list| == i - 1
          invariant forall k :: 0 <= k < |list| ==> list[k] == RealV(Unfix(ws[k + 1]))
        {
          list := list + [RealV(Unfix(ws[i]))];
          i := i + 1;
        }
      case TypeString =>
        var ss := d.constraint.strings;
        var i := 0;
        while ss[i].Some?
          invariant i <= NullIndex(ss)
          invariant |list| == i
          invariant forall k :: 0 <= k < i ==> list[k] == StrV(tr(ss[k].value))
          decreases NullIndex(ss) - i
        {
          list := list + [StrV(tr(ss[i].value))];
          i := i + 1;
        }
      case _ =>
    }
  }

  /** A string-list entry names `text` raw or in its translated form. */
  predicate Matches(entry: string, text: string, tr: string -> string) {
    entry == text || tr(entry) == text
  }

  /**
   * The first entry at or after `i` that `text` names, raw or translated,
   * before the list's terminator.
   */
  function FirstMatchFrom(strings: seq<Option<string>>, text: string, tr: string -> string, i: nat): (k: Option<nat>)
    requires StringListOk(strings) && i <= NullIndex(strings)
    decreases NullIndex(strings) - i
    ensures k.Some? ==>
      && i <= k.value < NullIndex(strings)
      && Matches(strings[k.value].value, text, tr)
      && forall j :: i <= j < k.value ==> !Matches(strings[j].value, text, tr)
    ensures k.None? ==>
      forall j :: i <= j < NullIndex(strings) ==> !Matches(strings[j].value, text, tr)
  {
    if i == NullIndex(strings) then None
    else if Matches(strings[i].value, text, tr) then Some(i)
    else FirstMatchFrom(strings, text, tr, i + 1)
  }

  /**
   * The matching loop of ListOption::setValue(QString) for a string list:
   * it tries each entry raw first and translated second, and stops at the
   * first one that `text` names.
   */
  method MatchEntry(strings: seq<Option<string>>, text: string, tr: string -> string)
    returns (found: Option<nat>)
    requires StringListOk(strings)
    ensures found == FirstMatchFrom(strings, text, tr, 0)
  {
    var i := 0;
    while strings[i].Some?
      invariant i <= NullIndex(strings)
      invariant FirstMatchFrom(strings, text, tr, 0) == FirstMatchFrom(strings, text, tr, i)
      decreases NullIndex(strings) - i
    {
      var tmp := strings[i].value;
      if text != tmp {
        tmp := tr(strings[i].value);
      }
      if text == tmp {
        return Some(i);
      }
      i := i + 1;
    }
    return None;
  }
}
