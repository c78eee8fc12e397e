/** The drop-down select: which option the current value selects, the text the closed
    control shows, and what clicking an option reports. */
module SelectInput {
  import opened Wrappers
  import opened Numerals
  import Seqs

  /** An option value or a current value: a string or an integer. */
  datatype Value = Str(s: string) | Num(n: int)

  /** An entry of `options`; `caption` is its `label`. */
  datatype SelectOption = SelectOption(value: Value, caption: string)

  /** What a click does: the value passed to `onChange` (None when no `onChange` is given)
      and whether the drop-down is open afterwards. */
  datatype Click = Click(reported: Option<Value>, isOpen: bool)

  /** `String(v)`; an absent value (`undefined`) is rendered as the word itself. */
  function StringOf(v: Option<Value>): (t: string)
    ensures v == None ==> t == "undefined"
    ensures v.Some? && v.value.Str? ==> t == v.value.s
    ensures v.Some? && v.value.Num? ==> t == IntToString(v.value.n)
  {
    match v
    case None => "undefined"
    case Some(Str(s)) => s
    case Some(Num(n)) => IntToString(n)
  }

  /** Whether `o` is the option the current value names: their string forms are equal. */
  predicate Names(o: SelectOption, value: Option<Value>) {
    StringOf(Some(o.value)) == StringOf(value)
  }

  /** Option `k` is the first one that names `value`. */
  predicate FirstNaming(options: seq<SelectOption>, value: Option<Value>, k: int) {
    0 <= k < |options| && Names(options[k], value) && forall i :: 0 <= i < k ==> !Names(options[i], value)
  }

  /** `selectedOption`: the first option whose value, as a string, equals the current value
      as a string. */
  function Selected(options: seq<SelectOption>, value: Option<Value>): (r: Option<SelectOption>)
    ensures r.None? <==> forall i :: 0 <= i < |options| ==> !Names(options[i], value)
    ensures r.Some? ==> exists k :: FirstNaming(options, value, k) && r.value == options[k]
  {
    match Seqs.FindFirst(options, (o: SelectOption) => Names(o, value))
    case None => None
    case Some(k) => Some(options[k])
  }

  /** `displayText`: the selected option's label, or the placeholder. */
  function DisplayText(options: seq<SelectOption>, value: Option<Value>, placeholder: string): (t: string)
    ensures Selected(options, value).None? ==> t == placeholder
    ensures Selected(options, value).Some? ==> t == Selected(options, value).value.caption
  {
    match Selected(options, value)
    case None => placeholder
    case Some(o) => o.caption
  }

  /** The defaults: no options and the placeholder `select`. */
  const DefaultPlaceholder: string := "select"

  /** With the default empty option list nothing is selected and the placeholder shows. */
  lemma NoOptionsShowPlaceholder(value: Option<Value>, placeholder: string)
    ensures DisplayText([], value, placeholder) == placeholder
  {
  }

  /** The comparison is by string form: an integer value selects the option whose value is
      its decimal text, and an absent value selects an option whose value is the text
      `undefined`. */
  lemma LooseComparison(n: int, caption: string, other: string)
    ensures Selected([SelectOption(Str(IntToString(n)), caption)], Some(Num(n))).Some?
    ensures Selected([SelectOption(Str("undefined"), other)], None).Some?
  {
    assert Names(SelectOption(Str(IntToString(n)), caption), Some(Num(n)));
    assert Names(SelectOption(Str("undefined"), other), None);
  }

  /** `handleSelect` as written: when the clicked value names the current value it reports
      `optionValue === '' ? '' : optionValue`, otherwise `optionValue`; then it closes. */
  function HandleSelect(value: Option<Value>, optionValue: Value, hasOnChange: bool): (c: Click)
    ensures !c.isOpen
    ensures c.reported.Some? <==> hasOnChange
    ensures hasOnChange ==> c.reported == Some(optionValue)
  {
    var sent :=
      if StringOf(value) == StringOf(Some(optionValue)) then
        (if optionValue == Str("") then Str("") else optionValue)
      else optionValue;
    Click(if hasOnChange then Some(sent) else None, false)
  }

  /** Option values whose string forms are pairwise different. */
  ghost predicate DistinctValues(options: seq<SelectOption>) {
    forall i, j :: 0 <= i < j < |options| ==> StringOf(Some(options[i].value)) != StringOf(Some(options[j].value))
  }

  /** Clicking option `k` and feeding the reported value back shows that option's label,
      provided no two options have the same string form. */
  lemma ClickThenDisplay(options: seq<SelectOption>, k: nat, value: Option<Value>, placeholder: string)
    requires k < |options| && DistinctValues(options)
    ensures var c := HandleSelect(value, options[k].value, true);
      DisplayText(options, c.reported, placeholder) == options[k].caption
  {
    var reported := HandleSelect(value, options[k].value, true).reported;
    assert Names(options[k], reported);
    var r := Selected(options, reported);
    var j :| FirstNaming(options, reported, j) && r.value == options[j];
    assert j == k;
  }
}
