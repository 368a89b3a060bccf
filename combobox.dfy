/** The searchable combobox: a button showing the selected option's label, a
    menu that filters the options by the search text, and the open/search
    state its click handlers change. */
module Combobox {
  import opened Wrappers
  import opened Text
  import Seqs

  /** An option; `labelText` is the `label` field (a reserved word here). */
  datatype ComboOption = ComboOption(value: string, labelText: string)

  /** One rendered menu row. */
  datatype Row = Row(labelText: string, highlighted: bool, checked: bool)

  /** The label contains the search text, ignoring (ASCII) case. */
  predicate Matches(o: ComboOption, search: string) {
    Contains(ToLower(o.labelText), ToLower(search))
  }

  /** `options.filter(o => matches)`: the matching options, every copy, in order. */
  function FilterByLabel(options: seq<ComboOption>, search: string): (r: seq<ComboOption>)
    ensures forall o :: o in r ==> o in options && Matches(o, search)
    ensures forall o :: o in options && Matches(o, search) ==> o in r
    ensures |r| <= |options|
    ensures forall o :: multiset(r)[o] == if Matches(o, search) then multiset(options)[o] else 0
    decreases |options|
  {
    if options == [] then []
    else
      assert options == [options[0]] + options[1..];
      var rest := FilterByLabel(options[1..], search);
      if Matches(options[0], search) then [options[0]] + rest else rest
  }

  /** `filteredOptions`: the whole list for an empty search, else the filter. */
  function FilteredOptions(options: seq<ComboOption>, search: string): seq<ComboOption> {
    if search == "" then options else FilterByLabel(options, search)
  }

  lemma {:induction false} FilterIsSubsequence(options: seq<ComboOption>, search: string)
    ensures Seqs.Subsequence(FilterByLabel(options, search), options)
    decreases |options|
  {
    if options != [] {
      FilterIsSubsequence(options[1..], search);
      var r := FilterByLabel(options, search);
      if Matches(options[0], search) {
        assert r[0] == options[0] && r[1..] == FilterByLabel(options[1..], search);
      } else if r != [] {
        assert r[0] in r;
        assert r[0] != options[0];
      }
    }
  }

  lemma {:induction false} FilterAllMatching(options: seq<ComboOption>, search: string)
    requires forall i :: 0 <= i < |options| ==> Matches(options[i], search)
    ensures FilterByLabel(options, search) == options
    decreases |options|
  {
    if options != [] {
      FilterAllMatching(options[1..], search);
      assert [options[0]] + options[1..] == options;
    }
  }

  /** The empty search string is contained in every label, so the shortcut
      for an empty search agrees with the filter itself. */
  lemma EmptySearchShortcutAgrees(options: seq<ComboOption>)
    ensures FilteredOptions(options, "") == FilterByLabel(options, "") == options
  {
    forall i | 0 <= i < |options| ensures Matches(options[i], "") {
      assert OccursAt(ToLower(options[i].labelText), ToLower(""), 0);
    }
    FilterAllMatching(options, "");
  }

  /** The filtered menu: an order-preserving selection of the options, holding
      every copy of each matching option and nothing else; filtering it again
      changes nothing. */
  lemma FilteredOptionsProperties(options: seq<ComboOption>, search: string)
    ensures Seqs.Subsequence(FilteredOptions(options, search), options)
    ensures forall o :: o in FilteredOptions(options, search) <==> o in options && Matches(o, search)
    ensures forall o :: multiset(FilteredOptions(options, search))[o] ==
                        (if Matches(o, search) then multiset(options)[o] else 0)
    ensures FilteredOptions(FilteredOptions(options, search), search) == FilteredOptions(options, search)
  {
    if search == "" {
      EmptySearchShortcutAgrees(options);
      Seqs.SubsequenceRefl(options);
    } else {
      FilterIsSubsequence(options, search);
      var r := FilterByLabel(options, search);
      assert forall i :: 0 <= i < |r| ==> r[i] in r;
      FilterAllMatching(r, search);
    }
  }

  /** Index of the first option carrying `v`, if any. */
  function FirstIndexOf(options: seq<ComboOption>, v: string): (r: Option<nat>)
    ensures r.Some? ==> r.value < |options| && options[r.value].value == v
    ensures r.Some? ==> forall j :: 0 <= j < r.value ==> options[j].value != v
    ensures r.None? ==> forall j :: 0 <= j < |options| ==> options[j].value != v
    decreases |options|
  {
    if options == [] then None
    else if options[0].value == v then Some(0)
    else match FirstIndexOf(options[1..], v)
      case None => None
      case Some(k) => Some(k + 1)
  }

  /** `options.find(o => o.value === value)`; an undefined value finds nothing. */
  function SelectedOption(options: seq<ComboOption>, value: Option<string>): Option<ComboOption> {
    match value
    case None => None
    case Some(v) =>
      match FirstIndexOf(options, v)
      case None => None
      case Some(i) => Some(options[i])
  }

  /** The text on the button. */
  function ButtonLabel(options: seq<ComboOption>, value: Option<string>, placeholder: string): string {
    match SelectedOption(options, value)
    case Some(o) => o.labelText
    case None => placeholder
  }

  function RowOf(o: ComboOption, value: Option<string>): Row {
    Row(o.labelText, value == Some(o.value), value == Some(o.value))
  }

  /** The button shows the first option with the current value, or the
      placeholder when no option has it. */
  lemma ButtonShowsFirstMatch(options: seq<ComboOption>, v: string, placeholder: string)
    ensures (forall j :: 0 <= j < |options| ==> options[j].value != v) ==>
      ButtonLabel(options, Some(v), placeholder) == placeholder
    ensures forall i :: (0 <= i < |options| && options[i].value == v &&
      (forall j :: 0 <= j < i ==> options[j].value != v)) ==>
      ButtonLabel(options, Some(v), placeholder) == options[i].labelText
  {
    forall i | 0 <= i < |options| && options[i].value == v &&
      (forall j :: 0 <= j < i ==> options[j].value != v)
      ensures ButtonLabel(options, Some(v), placeholder) == options[i].labelText
    {
      var k := FirstIndexOf(options, v);
      assert k.Some?;
      assert k.value == i;
    }
  }

  /** A row is highlighted and checked exactly when it carries the value; the
      selected option's row is one such row, and any checked option of the
      list means some option is selected. */
  lemma RowsAgreeWithSelection(options: seq<ComboOption>, value: Option<string>, o: ComboOption)
    ensures RowOf(o, value).highlighted == RowOf(o, value).checked == (value == Some(o.value))
    ensures SelectedOption(options, value) == Some(o) ==> RowOf(o, value).checked
    ensures o in options && RowOf(o, value).checked ==> SelectedOption(options, value).Some?
  {
    if o in options && RowOf(o, value).checked {
      var i :| 0 <= i < |options| && options[i] == o;
      assert options[i].value == value.value;
    }
  }

  class ComboboxState {
    const options: seq<ComboOption>
    /** The `value` prop; None stands for `undefined`. */
    const value: Option<string>
    /** Whether the parent passed `onValueChange`. */
    const hasHandler: bool
    var open: bool
    var search: string

    constructor (options: seq<ComboOption>, value: Option<string>, hasHandler: bool)
      ensures this.options == options && this.value == value && this.hasHandler == hasHandler
      ensures !open && search == ""
    {
      this.options, this.value, this.hasHandler := options, value, hasHandler;
      open, search := false, "";
    }

    /** The rows of the open menu: one per filtered option, in order. */
    function Menu(): (rows: Option<seq<Row>>)
      reads this
      ensures rows.Some? <==> open
      ensures rows.Some? ==> |rows.value| == |FilteredOptions(options, search)|
      ensures rows.Some? ==> forall i :: 0 <= i < |rows.value| ==>
        rows.value[i] == RowOf(FilteredOptions(options, search)[i], value)
    {
      if !open then None
      else
        var fs := FilteredOptions(options, search);
        Some(seq(|fs|, i requires 0 <= i < |fs| => RowOf(fs[i], value)))
    }

    /** The button flips `open`; the search text is kept. */
    method ButtonClicked()
      modifies this
      ensures open == !old(open) && search == old(search)
    {
      open := !open;
    }

    /** Typing into the open menu's search field. */
    method SearchTyped(text: string)
      requires open
      modifies this
      ensures open && search == text
    {
      search := text;
    }

    /** Picking the i-th shown option reports its value, closes the menu and
        clears the search. */
    method OptionClicked(i: nat) returns (reported: Option<string>)
      requires open && i < |FilteredOptions(options, search)|
      modifies this
      ensures reported.Some? <==> hasHandler
      ensures reported.Some? ==> reported.value == FilteredOptions(options, old(search))[i].value
      ensures !open && search == ""
    {
      if hasHandler {
        reported := Some(FilteredOptions(options, search)[i].value);
      } else {
        reported := None;
      }
      open := false;
      search := "";
    }

    /** A click outside the menu closes it and clears the search; nothing is
        reported. */
    method BackdropClicked()
      requires open
      modifies this
      ensures !open && search == ""
    {
      open := false;
      search := "";
    }
  }
}
