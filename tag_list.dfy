/** The tag list: a window over the tag names with "more" and "collapse"
    buttons, the selected tag highlighted, and a button that clears the
    selection. */
module TagList {
  import opened Wrappers

  /** Tags shown before "more" is pressed. */
  const Window: nat := 10

  datatype Tag = Tag(id: int, name: string)

  /** One rendered tag chip. */
  datatype Chip = Chip(name: string, highlighted: bool)

  /** What the list renders when it renders anything. */
  datatype View = View(chips: seq<Chip>, moreButton: bool, collapseButton: bool, clearButton: bool)

  function Min(a: nat, b: nat): nat {
    if a < b then a else b
  }

  /** `showAll ? tags : tags.slice(0, 10)`. */
  function DisplayTags(tags: seq<Tag>, showAll: bool): seq<Tag> {
    if showAll then tags else tags[..Min(Window, |tags|)]
  }

  /** There are more tags than the window holds. */
  predicate HasMore(tags: seq<Tag>) {
    |tags| > Window
  }

  predicate MoreVisible(tags: seq<Tag>, showAll: bool) {
    HasMore(tags) && !showAll
  }

  predicate CollapseVisible(tags: seq<Tag>, showAll: bool) {
    showAll && HasMore(tags)
  }

  /** The displayed tags are always the first ones, in order; all of them with
      `showAll`, otherwise at most the window. */
  lemma DisplayIsPrefix(tags: seq<Tag>, showAll: bool)
    ensures var d := DisplayTags(tags, showAll);
      d == tags[..|d|] && |d| == (if showAll then |tags| else Min(Window, |tags|))
  {
  }

  /** With at most ten tags the whole list shows, whatever `showAll` says. */
  lemma ShortListShownWhole(tags: seq<Tag>, showAll: bool)
    requires |tags| <= Window
    ensures DisplayTags(tags, showAll) == tags
  {
  }

  /** Some tag is hidden exactly when the "more" button is offered. */
  lemma HiddenIffMoreVisible(tags: seq<Tag>, showAll: bool)
    ensures |DisplayTags(tags, showAll)| < |tags| <==> MoreVisible(tags, showAll)
  {
  }

  /** The two buttons never appear together, and one of them appears whenever
      the list is longer than the window. */
  lemma ButtonsExclusive(tags: seq<Tag>, showAll: bool)
    ensures !(MoreVisible(tags, showAll) && CollapseVisible(tags, showAll))
    ensures HasMore(tags) <==> MoreVisible(tags, showAll) || CollapseVisible(tags, showAll)
  {
  }

  function Chips(shown: seq<Tag>, selectedTag: Option<string>): (cs: seq<Chip>)
    ensures |cs| == |shown|
    ensures forall i :: 0 <= i < |shown| ==>
      cs[i].name == shown[i].name && (cs[i].highlighted <==> selectedTag == Some(shown[i].name))
  {
    seq(|shown|, i requires 0 <= i < |shown| => Chip(shown[i].name, selectedTag == Some(shown[i].name)))
  }

  /** The rendering: nothing while the tags are missing or empty; otherwise
      the chips of the window, each highlighted exactly when it names the
      selected tag, the more/collapse buttons, and the clear button exactly
      when a non-empty tag is selected. */
  function Render(tags: Option<seq<Tag>>, showAll: bool, selectedTag: Option<string>): (v: Option<View>)
    ensures v.None? <==> tags.None? || |tags.value| == 0
    ensures v.Some? ==>
      var shown := DisplayTags(tags.value, showAll);
      && |v.value.chips| == |shown|
      && (forall i :: 0 <= i < |shown| ==> v.value.chips[i].name == shown[i].name)
      && (forall i :: 0 <= i < |shown| ==>
            (v.value.chips[i].highlighted <==> selectedTag == Some(shown[i].name)))
      && v.value.moreButton == MoreVisible(tags.value, showAll)
      && v.value.collapseButton == CollapseVisible(tags.value, showAll)
      && (v.value.clearButton <==> selectedTag.Some? && selectedTag.value != "")
  {
    match tags
    case None => None
    case Some(ts) =>
      if |ts| == 0 then None
      else
        Some(View(
          Chips(DisplayTags(ts, showAll), selectedTag),
          MoreVisible(ts, showAll),
          CollapseVisible(ts, showAll),
          selectedTag.Some? && selectedTag.value != ""))
  }

  class TagListState {
    /** Whether the parent passed an `onTagClick` handler. */
    const hasHandler: bool
    var showAll: bool

    constructor (hasHandler: bool)
      ensures this.hasHandler == hasHandler && !showAll
    {
      this.hasHandler := hasHandler;
      showAll := false;
    }

    /** "more" is offered only while tags are hidden, and shows them all. */
    method MoreClicked(tags: seq<Tag>)
      requires MoreVisible(tags, showAll)
      modifies this
      ensures showAll && DisplayTags(tags, showAll) == tags
      ensures CollapseVisible(tags, showAll)
    {
      showAll := true;
    }

    /** "collapse" is offered only while every tag of a long list shows, and
        goes back to the window. */
    method CollapseClicked(tags: seq<Tag>)
      requires CollapseVisible(tags, showAll)
      modifies this
      ensures !showAll && |DisplayTags(tags, showAll)| == Window
      ensures MoreVisible(tags, showAll)
    {
      showAll := false;
    }

    /** Clicking the i-th shown chip reports its name, if a handler exists. */
    method ChipClicked(tags: seq<Tag>, i: nat) returns (reported: Option<string>)
      requires i < |DisplayTags(tags, showAll)|
      ensures reported.Some? <==> hasHandler
      ensures reported.Some? ==> reported.value == DisplayTags(tags, showAll)[i].name
    {
      if hasHandler {
        reported := Some(DisplayTags(tags, showAll)[i].name);
      } else {
        reported := None;
      }
    }
  }
}
