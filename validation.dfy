/** The three object schemas of the validation layer (lib/validation.ts):
    `safeParse` of a user, post or comment payload either yields the typed
    record (unknown keys stripped) or the list of issues, one per failing
    field, in schema order. */
module Validation {

  /** The JavaScript values a payload field can hold; numbers are integers. */
  datatype JsValue =
    | JsUndefined
    | JsNull
    | JsBool(b: bool)
    | JsNumber(n: int)
    | JsString(s: string)
    | JsArray(items: seq<JsValue>)

  /** A plain object: a missing key reads as `undefined`. */
  type JsObject = map<string, JsValue>

  function Field(o: JsObject, key: string): JsValue {
    if key in o then o[key] else JsUndefined
  }

  datatype IssueCode = InvalidType | TooSmall
  datatype Issue = Issue(path: string, code: IssueCode)

  datatype Parsed<T> = Ok(value: T) | Err(issues: seq<Issue>)

  datatype User = User(name: string)
  datatype PostInput = PostInput(title: string, userId: int)
  datatype CommentInput = CommentInput(content: string, postId: int)

  /** What `z.string().min(1)` accepts: a string of length at least one. */
  predicate IsNonEmptyString(v: JsValue) {
    v.JsString? && |v.s| >= 1
  }

  /** What `z.number()` accepts. */
  predicate IsNumber(v: JsValue) {
    v.JsNumber?
  }

  /** The issues `z.string().min(1)` reports for the field at `path`. */
  function StringMin1Issues(path: string, v: JsValue): seq<Issue> {
    match v
    case JsString(s) => if |s| < 1 then [Issue(path, TooSmall)] else []
    case _ => [Issue(path, InvalidType)]
  }

  /** The issues `z.number()` reports for the field at `path`. */
  function NumberIssues(path: string, v: JsValue): seq<Issue> {
    if v.JsNumber? then [] else [Issue(path, InvalidType)]
  }

  function Paths(issues: seq<Issue>): set<string> {
    set i | i in issues :: i.path
  }

  /** `userSchema.safeParse(o)`. */
  function ParseUser(o: JsObject): (r: Parsed<User>)
    ensures r.Ok? <==> IsNonEmptyString(Field(o, "name"))
    ensures r.Ok? ==> r.value.name == Field(o, "name").s
    ensures r.Err? ==> Paths(r.issues) == {"name"}
  {
    var issues := StringMin1Issues("name", Field(o, "name"));
    if issues == [] then Ok(User(Field(o, "name").s)) else Err(issues)
  }

  /** `postSchema.safeParse(o)`. */
  function ParsePost(o: JsObject): (r: Parsed<PostInput>)
    ensures r.Ok? <==> IsNonEmptyString(Field(o, "title")) && IsNumber(Field(o, "userId"))
    ensures r.Ok? ==> r.value == PostInput(Field(o, "title").s, Field(o, "userId").n)
    ensures r.Err? ==> ("title" in Paths(r.issues) <==> !IsNonEmptyString(Field(o, "title")))
    ensures r.Err? ==> ("userId" in Paths(r.issues) <==> !IsNumber(Field(o, "userId")))
    ensures r.Err? ==> Paths(r.issues) <= {"title", "userId"}
  {
    var issues := StringMin1Issues("title", Field(o, "title")) + NumberIssues("userId", Field(o, "userId"));
    if issues == [] then Ok(PostInput(Field(o, "title").s, Field(o, "userId").n)) else Err(issues)
  }

  /** `commentSchema.safeParse(o)`. */
  function ParseComment(o: JsObject): (r: Parsed<CommentInput>)
    ensures r.Ok? <==> IsNonEmptyString(Field(o, "content")) && IsNumber(Field(o, "postId"))
    ensures r.Ok? ==> r.value == CommentInput(Field(o, "content").s, Field(o, "postId").n)
    ensures r.Err? ==> ("content" in Paths(r.issues) <==> !IsNonEmptyString(Field(o, "content")))
    ensures r.Err? ==> ("postId" in Paths(r.issues) <==> !IsNumber(Field(o, "postId")))
    ensures r.Err? ==> Paths(r.issues) <= {"content", "postId"}
  {
    var issues := StringMin1Issues("content", Field(o, "content")) + NumberIssues("postId", Field(o, "postId"));
    if issues == [] then Ok(CommentInput(Field(o, "content").s, Field(o, "postId").n)) else Err(issues)
  }

  // ---------------------------------------------------------------- round trips

  function EncodeUser(u: User): JsObject {
    map["name" := JsString(u.name)]
  }

  function EncodePost(p: PostInput): JsObject {
    map["title" := JsString(p.title), "userId" := JsNumber(p.userId)]
  }

  function EncodeComment(c: CommentInput): JsObject {
    map["content" := JsString(c.content), "postId" := JsNumber(c.postId)]
  }

  lemma UserRoundTrip(u: User)
    requires |u.name| >= 1
    ensures ParseUser(EncodeUser(u)) == Ok(u)
  {
  }

  lemma PostRoundTrip(p: PostInput)
    requires |p.title| >= 1
    ensures ParsePost(EncodePost(p)) == Ok(p)
  {
  }

  lemma CommentRoundTrip(c: CommentInput)
    requires |c.content| >= 1
    ensures ParseComment(EncodeComment(c)) == Ok(c)
  {
  }

  /** Keys the post schema does not name (the create form sends `tags`) are
      stripped: they never change the outcome. */
  lemma PostIgnoresUnknownKeys(o: JsObject, key: string, v: JsValue)
    requires key != "title" && key != "userId"
    ensures ParsePost(o[key := v]) == ParsePost(o)
  {
    assert Field(o[key := v], "title") == Field(o, "title");
    assert Field(o[key := v], "userId") == Field(o, "userId");
  }

  /** Only the empty string is too small: no trimming happens, so every
      non-empty text, white space alone included, is an acceptable name,
      title or content, and is kept exactly as given. */
  lemma WhitespaceIsAccepted(s: string, id: int)
    requires s != ""
    ensures ParseUser(map["name" := JsString(s)]) == Ok(User(s))
    ensures ParsePost(map["title" := JsString(s), "userId" := JsNumber(id)]) == Ok(PostInput(s, id))
    ensures ParseComment(map["content" := JsString(s), "postId" := JsNumber(id)]) == Ok(CommentInput(s, id))
  {
  }

  /** For every value: `min(1)` reports "too small" exactly for the empty
      string, and any value that is no string is an invalid type. */
  lemma TooSmallIffEmpty(path: string, v: JsValue)
    ensures Issue(path, TooSmall) in StringMin1Issues(path, v) <==> v == JsString("")
    ensures !v.JsString? ==> StringMin1Issues(path, v) == [Issue(path, InvalidType)]
  {
  }

  /** Each schema reports its string field as too small exactly when that
      field holds "". */
  lemma SchemaTooSmallIffEmpty(o: JsObject)
    ensures ParseUser(o).Err? ==> (Issue("name", TooSmall) in ParseUser(o).issues <==> Field(o, "name") == JsString(""))
    ensures ParsePost(o).Err? ==> (Issue("title", TooSmall) in ParsePost(o).issues <==> Field(o, "title") == JsString(""))
    ensures ParseComment(o).Err? ==>
      (Issue("content", TooSmall) in ParseComment(o).issues <==> Field(o, "content") == JsString(""))
  {
    TooSmallIffEmpty("name", Field(o, "name"));
    TooSmallIffEmpty("title", Field(o, "title"));
    TooSmallIffEmpty("content", Field(o, "content"));
    assert Issue("title", TooSmall) !in NumberIssues("userId", Field(o, "userId"));
    assert Issue("content", TooSmall) !in NumberIssues("postId", Field(o, "postId"));
  }

  lemma EmptyStringIsTooSmall(id: int)
    ensures ParsePost(map["title" := JsString(""), "userId" := JsNumber(id)]) == Err([Issue("title", TooSmall)])
    ensures ParseComment(map["content" := JsString(""), "postId" := JsNumber(id)]) == Err([Issue("content", TooSmall)])
    ensures ParseUser(map[]) == Err([Issue("name", InvalidType)])
  {
  }

  /** A missing title and a missing author are both reported, in schema order. */
  lemma MissingPostFieldsBothReported()
    ensures ParsePost(map[]) == Err([Issue("title", InvalidType), Issue("userId", InvalidType)])
  {
  }
}
