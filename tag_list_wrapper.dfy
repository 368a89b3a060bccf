/** The wrapper that owns the selected tag and hands the same value to the
    tag list (as its highlighted tag) and to the feed (as its tag filter). */
module TagListWrapper {

  /** What the wrapper passes down to its two children. */
  datatype ChildProps = ChildProps(tagListSelectedTag: string, postListTagSearchQuery: string)

  class TagSelection {
    /** The shared selection; "" means no tag is selected. */
    var tagSearchQuery: string

    /** The shared holder starts with no tag selected. */
    constructor ()
      ensures tagSearchQuery == ""
    {
      tagSearchQuery := "";
    }

    /** A tag click always selects the clicked tag: clicking the selected tag
        again keeps it selected (no toggle), and a different tag replaces it. */
    method HandleTagClick(tagName: string)
      modifies this
      ensures tagSearchQuery == tagName
    {
      tagSearchQuery := tagName;
    }

    /** The feed's callback for a user search: the tag selection is dropped. */
    method HandleUserSearchStart()
      modifies this
      ensures tagSearchQuery == ""
    {
      tagSearchQuery := "";
    }

    /** Both children see one and the same selection. */
    function Props(): (p: ChildProps)
      reads this
      ensures p.tagListSelectedTag == p.postListTagSearchQuery == tagSearchQuery
    {
      ChildProps(tagSearchQuery, tagSearchQuery)
    }
  }

  /** Example: two clicks on one tag leave it selected; a click on another moves the
      selection there. */
  method ClickScenario(a: string, b: string)
    requires a != b
  {
    var s := new TagSelection();
    s.HandleTagClick(a);
    s.HandleTagClick(a);
    assert s.tagSearchQuery == a;
    s.HandleTagClick(b);
    assert s.tagSearchQuery == b && s.tagSearchQuery != a;
    s.HandleUserSearchStart();
    assert s.Props() == ChildProps("", "");
  }
}
