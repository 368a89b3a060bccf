/** The post-creation form: a title, an author picked in the combobox, a list
    of tags entered one at a time, and a submit that validates, sends the
    form data and resets the fields. */
module PostCreate {
  import opened Wrappers
  import opened Text
  import opened Seqs
  import opened Validation

  /** `FormData` entries in the order they were set. */
  datatype FormData = FormData(entries: seq<(string, string)>)

  /** `formData.get(key)`: the first entry with that key, if any. */
  function Get(fd: FormData, key: string): Option<string>
    decreases |fd.entries|
  {
    if fd.entries == [] then None
    else if fd.entries[0].0 == key then Some(fd.entries[0].1)
    else Get(FormData(fd.entries[1..]), key)
  }

  /** `formData.get(key)` finds the value of the first entry named `key`, and
      nothing exactly when no entry has that name. */
  lemma {:induction false} GetFindsFirst(fd: FormData, key: string)
    ensures Get(fd, key).None? <==> forall i :: 0 <= i < |fd.entries| ==> fd.entries[i].0 != key
    ensures Get(fd, key).Some? ==> exists i :: 0 <= i < |fd.entries| && fd.entries[i] == (key, Get(fd, key).value)
                                          && forall j :: 0 <= j < i ==> fd.entries[j].0 != key
    decreases |fd.entries|
  {
    if fd.entries != [] && fd.entries[0].0 != key {
      var rest := FormData(fd.entries[1..]);
      GetFindsFirst(rest, key);
      assert forall i :: 0 < i < |fd.entries| ==> fd.entries[i] == rest.entries[i - 1];
      if Get(fd, key).Some? {
        var i :| 0 <= i < |rest.entries| && rest.entries[i] == (key, Get(rest, key).value)
                 && forall j :: 0 <= j < i ==> rest.entries[j].0 != key;
        assert fd.entries[i + 1] == rest.entries[i];
      }
    }
  }

  /** The invariant of the tag list: every entry is non-empty, is its own
      trim, and occurs once. */
  ghost predicate WellFormedTags(tags: seq<string>) {
    && NoDuplicates(tags)
    && forall i :: 0 <= i < |tags| ==> tags[i] != "" && Trim(tags[i]) == tags[i]
  }

  /** The tag list and the tag input box together. */
  datatype TagEntry = TagEntry(tags: seq<string>, input: string)

  /** `addTag`: the trimmed input is appended when it is non-empty and new,
      and only then is the input box cleared. */
  function AddTag(tags: seq<string>, input: string): TagEntry {
    var t := Trim(input);
    if t != "" && t !in tags then TagEntry(tags + [t], "") else TagEntry(tags, input)
  }

  /** `removeTag`: every entry equal to `t` is dropped. */
  function RemoveTag(tags: seq<string>, t: string): seq<string> {
    RemoveAll(tags, t)
  }

  lemma AddTagKeepsWellFormed(tags: seq<string>, input: string)
    requires WellFormedTags(tags)
    ensures WellFormedTags(AddTag(tags, input).tags)
  {
    var t := Trim(input);
    if t != "" && t !in tags {
      TrimIdempotent(input);
      AppendAbsentNoDuplicates(tags, t);
      var r := tags + [t];
      forall i | 0 <= i < |r| ensures r[i] != "" && Trim(r[i]) == r[i] {
        if i < |tags| {
          assert r[i] == tags[i];
        }
      }
    }
  }

  /** The list either stays as it is, with the input kept, or grows by the
      trimmed input alone, with the input cleared; it grows exactly when the
      trimmed input is non-empty and new. Afterwards a non-blank input is in
      the list, and pressing Enter again with the same text changes nothing. */
  lemma AddTagProperties(tags: seq<string>, input: string)
    ensures var r := AddTag(tags, input);
      && (r.tags == tags || r.tags == tags + [Trim(input)])
      && (r.tags != tags <==> Trim(input) != "" && Trim(input) !in tags)
      && (r.input == (if r.tags != tags then "" else input))
      && (Trim(input) != "" ==> Trim(input) in r.tags)
    ensures AddTag(AddTag(tags, input).tags, input).tags == AddTag(tags, input).tags
  {
    var t := Trim(input);
    if t != "" && t !in tags {
      assert (tags + [t])[|tags|] == t;
      assert tags + [t] != tags by {
        assert |tags + [t]| != |tags|;
      }
    }
  }

  /** `removeTag` removes the value, keeps the others in order, leaves the list
      alone when the value is absent, and keeps the invariant. */
  lemma RemoveTagProperties(tags: seq<string>, t: string)
    requires WellFormedTags(tags)
    ensures t !in RemoveTag(tags, t)
    ensures forall u :: u in tags && u != t ==> u in RemoveTag(tags, t)
    ensures Subsequence(RemoveTag(tags, t), tags)
    ensures t !in tags ==> RemoveTag(tags, t) == tags
    ensures WellFormedTags(RemoveTag(tags, t))
  {
    RemoveAllIsSubsequence(tags, t);
    RemoveAllNoDuplicates(tags, t);
    var r := RemoveTag(tags, t);
    forall i | 0 <= i < |r| ensures r[i] != "" && Trim(r[i]) == r[i] {
      assert r[i] in r;
      var j :| 0 <= j < |tags| && tags[j] == r[i];
    }
  }

  /** The keys that add the typed tag (and suppress the key's default). */
  predicate AddsTag(key: string) {
    key == "Enter" || key == ","
  }

  /** The object the form validates: `{ title, userId, tags }`, with `tags`
      undefined for an empty list. */
  function SubmitPayload(title: string, userId: Option<int>, tags: seq<string>): JsObject {
    map[
      "title" := JsString(title),
      "userId" := (if userId.Some? then JsNumber(userId.value) else JsUndefined),
      "tags" := (if |tags| > 0 then JsArray(seq(|tags|, i requires 0 <= i < |tags| => JsString(tags[i]))) else JsUndefined)]
  }

  /** The form passes validation exactly when the title is non-empty and an
      author was picked; the tags play no part. */
  lemma SubmitAcceptedIff(title: string, userId: Option<int>, tags: seq<string>)
    ensures ParsePost(SubmitPayload(title, userId, tags)).Ok? <==> title != "" && userId.Some?
  {
  }

  /** The form data sent on submit. */
  function BuildFormData(title: string, userId: int, tags: seq<string>): (fd: FormData)
    ensures Get(fd, "title") == Some(title)
    ensures Get(fd, "userId") == Some(IdToString(userId))
    ensures Get(fd, "tags") == if |tags| > 0 then Some(Join(tags, ',')) else None
  {
    var base := [("title", title), ("userId", IdToString(userId))];
    var fd := FormData(if |tags| > 0 then base + [("tags", Join(tags, ','))] else base);
    var rest := FormData(fd.entries[1..][1..]);
    assert rest.entries == if |tags| > 0 then [("tags", Join(tags, ','))] else [];
    assert Get(fd, "tags") == Get(FormData(fd.entries[1..]), "tags") == Get(rest, "tags");
    fd
  }

  /** What `createPost` on the server validates: `title` as read from the
      form (null if absent) and `Number` of the `userId` entry (0 for a
      missing or blank entry; an entry `NumberOf` cannot read counts as no
      number). The server reads no `tags` entry. */
  function ServerPayload(fd: FormData): JsObject {
    map[
      "title" := (match Get(fd, "title") case Some(t) => JsString(t) case None => JsNull),
      "userId" := (match Get(fd, "userId")
                   case None => JsNumber(0)
                   case Some(s) => match NumberOf(s) case Some(n) => JsNumber(n) case None => JsUndefined)]
  }

  /** A form whose `userId` entry reads as the number `n` reaches the server
      as the encoding of that title and author. */
  lemma PayloadOfSentForm(fd: FormData, title: string, n: int)
    requires Get(fd, "title") == Some(title)
    requires Get(fd, "userId").Some? && NumberOf(Get(fd, "userId").value) == Some(n)
    ensures ServerPayload(fd) == EncodePost(PostInput(title, n))
  {
  }

  /** What a successful submit sends is what the server's schema accepts, and
      it carries the same title and author. The `tags` entry splits back at
      the commas into the list when no tag holds a comma (a tag holding one
      comes back in pieces, as `SplitJoinNeedsSeparatorFree` shows). */
  lemma SentFormRoundTrips(title: string, userId: int, tags: seq<string>)
    requires title != ""
    ensures ParsePost(ServerPayload(BuildFormData(title, userId, tags))) == Ok(PostInput(title, userId))
    ensures |tags| > 0 && (forall i :: 0 <= i < |tags| ==> ',' !in tags[i]) ==>
      Split(Get(BuildFormData(title, userId, tags), "tags").value, ',') == tags
  {
    var fd := BuildFormData(title, userId, tags);
    IdTextRoundTrip(userId);
    PayloadOfSentForm(fd, title, userId);
    PostRoundTrip(PostInput(title, userId));
    if |tags| > 0 && (forall i :: 0 <= i < |tags| ==> ',' !in tags[i]) {
      SplitJoin(tags, ',');
    }
  }

  class PostCreateForm {
    var title: string
    /** `undefined` until an author is picked. */
    var userId: Option<int>
    var tags: seq<string>
    var tagInput: string

    ghost predicate Valid()
      reads this
    {
      WellFormedTags(tags)
    }

    constructor ()
      ensures Valid()
      ensures title == "" && userId == None && tags == [] && tagInput == ""
    {
      title, userId, tags, tagInput := "", None, [], "";
    }

    method TitleChanged(text: string)
      requires Valid()
      modifies this
      ensures Valid()
      ensures title == text
      ensures userId == old(userId) && tags == old(tags) && tagInput == old(tagInput)
    {
      title := text;
    }

    /** The combobox reports the option value, the id's text; it is turned
        back into a number with `Number`. */
    method AuthorPicked(v: string)
      requires Valid()
      modifies this
      ensures Valid()
      ensures userId == NumberOf(v)
      ensures title == old(title) && tags == old(tags) && tagInput == old(tagInput)
    {
      userId := NumberOf(v);
    }

    method TagInputChanged(text: string)
      requires Valid()
      modifies this
      ensures Valid()
      ensures tagInput == text
      ensures title == old(title) && userId == old(userId) && tags == old(tags)
    {
      tagInput := text;
    }

    method AddTagClicked()
      requires Valid()
      modifies this
      ensures Valid()
      ensures TagEntry(tags, tagInput) == AddTag(old(tags), old(tagInput))
      ensures title == old(title) && userId == old(userId)
    {
      AddTagKeepsWellFormed(tags, tagInput);
      var r := AddTag(tags, tagInput);
      tags, tagInput := r.tags, r.input;
    }

    method RemoveTagClicked(t: string)
      requires Valid()
      modifies this
      ensures Valid()
      ensures tags == RemoveTag(old(tags), t)
      ensures title == old(title) && userId == old(userId) && tagInput == old(tagInput)
    {
      RemoveTagProperties(tags, t);
      tags := RemoveTag(tags, t);
    }

    /** Enter and comma suppress the default and add the tag; any other key
        changes nothing. */
    method TagInputKeyDown(key: string) returns (preventDefault: bool)
      requires Valid()
      modifies this
      ensures Valid()
      ensures preventDefault == AddsTag(key)
      ensures AddsTag(key) ==> TagEntry(tags, tagInput) == AddTag(old(tags), old(tagInput))
      ensures !AddsTag(key) ==> tags == old(tags) && tagInput == old(tagInput)
      ensures title == old(title) && userId == old(userId)
    {
      if key == "Enter" {
        preventDefault := true;
        AddTagClicked();
      } else if key == "," {
        preventDefault := true;
        AddTagClicked();
      } else {
        preventDefault := false;
      }
    }

    /** A failed validation changes nothing and sends nothing; a passing one
        sends the form data and then resets all four fields. */
    method Submit() returns (sent: Option<FormData>)
      requires Valid()
      modifies this
      ensures Valid()
      ensures var accepted := ParsePost(SubmitPayload(old(title), old(userId), old(tags))).Ok?;
        && (!accepted ==> sent == None && title == old(title) && userId == old(userId)
                          && tags == old(tags) && tagInput == old(tagInput))
        && (accepted ==> old(userId).Some?
                         && sent == Some(BuildFormData(old(title), old(userId).value, old(tags)))
                         && title == "" && userId == None && tags == [] && tagInput == "")
    {
      var parsed := ParsePost(SubmitPayload(title, userId, tags));
      if !parsed.Ok? {
        return None;
      }
      SubmitAcceptedIff(title, userId, tags);
      var formData := BuildFormData(title, userId.value, tags);
      sent := Some(formData);
      title := "";
      userId := None;
      tags := [];
      tagInput := "";
    }
  }

  /** Example: adding a tag twice keeps one copy; the second attempt leaves the text
      in the box. */
  method TagEntryScenario(t: string)
    requires t != "" && IsTrimmed(t)
  {
    var f := new PostCreateForm();
    TrimmedIsFixpoint(t);
    f.TagInputChanged(t);
    var p := f.TagInputKeyDown("Enter");
    assert p && f.tags == [t] && f.tagInput == "";
    f.TagInputChanged(t);
    p := f.TagInputKeyDown(",");
    assert f.tags == [t] && f.tagInput == t;
  }

  /** Example: submitting without an author changes nothing; with one, the form is sent
      and emptied. */
  method SubmitScenario() {
    var f := new PostCreateForm();
    f.TitleChanged("Hello");
    var sent := f.Submit();
    assert sent == None && f.title == "Hello";
    IdTextRoundTrip(7);
    f.AuthorPicked(IdToString(7));
    sent := f.Submit();
    assert sent.Some? && f.title == "" && f.userId == None;
  }
}
