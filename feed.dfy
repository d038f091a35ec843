/** Extraction of post records from the parsed subreddit listing
    (`download_json` and `get_reddit_data` in app/app.py), with the
    Python semantics of the dictionary lookups and string concatenation
    that the extraction comprehension performs. */
module Feed {

  /** A parsed JSON document as Python sees it after `response.json()`.
      `JNull` is Python's `None`; objects are dictionaries. */
  datatype Json =
    | JNull
    | JBool(b: bool)
    | JNumber(n: int)
    | JString(s: string)
    | JArray(items: seq<Json>)
    | JObject(fields: map<string, Json>)

  /** The Python exceptions the modelled run can raise. */
  datatype PyError =
    | KeyError(key: string)   // a dictionary lacks the key
    | TypeError               // subscript, iteration or `+` on a value of the wrong type
    | ValueError              // a library call refuses an empty or untyped input

  datatype Result<T> = Ok(value: T) | Err(error: PyError) {
    predicate IsFailure() { Err? }
    function PropagateFailure<U>(): Result<U>
      requires Err?
    {
      Err(error)
    }
    function Extract(): T
      requires Ok?
    {
      value
    }
  }

  /** One extracted post: the `url` value is copied as it is, and `content`
      is the title and the self text joined by one space. */
  datatype Post = Post(url: Json, content: string)

  /** The HTTP response of the feed request; the network itself is not modelled. */
  datatype Response = Response(status: int, body: Json)

  /** `download_json`: the parsed body on status 200, `None` otherwise. */
  function DownloadJson(resp: Response): Json {
    if resp.status == 200 then resp.body else JNull
  }

  /** Python's `v[key]` for a string key. */
  function Subscript(v: Json, key: string): Result<Json> {
    match v
    case JObject(fields) => if key in fields then Ok(fields[key]) else Err(KeyError(key))
    case _ => Err(TypeError)
  }

  /** Python's `a + b` where one operand is a `str`: it succeeds only when the
      other operand is a `str` too. */
  function AddStrings(a: Json, b: Json): Result<string>
    requires a.JString? || b.JString?
  {
    if a.JString? && b.JString? then Ok(a.s + b.s) else Err(TypeError)
  }

  /** One step of the comprehension at app/app.py:43, in Python's order of
      evaluation: `post['data']['url']`, then `post['data']['title'] + ' '`,
      then `... + post['data']['selftext']`. The first of these to fail
      decides the exception: a missing key raises `KeyError` with that key,
      and a subscript of a non-dictionary or a `+` with a non-string raises
      `TypeError`. */
  function ExtractPost(post: Json): (r: Result<Post>)
    ensures r.Ok? <==> WellFormedPost(post)
    ensures r.Ok? ==> r.value == Post(PostField(post, "url"), PostField(post, "title").s + " " + PostField(post, "selftext").s)
    ensures !post.JObject? ==> r == Err(TypeError)
    ensures post.JObject? && "data" !in post.fields ==> r == Err(KeyError("data"))
    ensures post.JObject? && "data" in post.fields ==>
      var data := post.fields["data"];
      && (!data.JObject? ==> r == Err(TypeError))
      && (data.JObject? && "url" !in data.fields ==> r == Err(KeyError("url")))
      && (data.JObject? && "url" in data.fields && "title" !in data.fields ==> r == Err(KeyError("title")))
      && (data.JObject? && "url" in data.fields && "title" in data.fields && !data.fields["title"].JString? ==>
            r == Err(TypeError))
      && (data.JObject? && "url" in data.fields && "title" in data.fields && data.fields["title"].JString? ==>
            && ("selftext" !in data.fields ==> r == Err(KeyError("selftext")))
            && ("selftext" in data.fields && !data.fields["selftext"].JString? ==> r == Err(TypeError)))
  {
    var data :- Subscript(post, "data");
    var url :- Subscript(data, "url");
    var title :- Subscript(data, "title");
    var head :- AddStrings(title, JString(" "));
    var selftext :- Subscript(data, "selftext");
    var content :- AddStrings(JString(head), selftext);
    Ok(Post(url, content))
  }

  /** A child of the listing that extraction accepts: `data` is an object with
      a `url` of any kind and string `title` and `selftext`. */
  predicate WellFormedPost(post: Json) {
    && post.JObject? && "data" in post.fields
    && var data := post.fields["data"];
    && data.JObject?
    && "url" in data.fields
    && "title" in data.fields && data.fields["title"].JString?
    && "selftext" in data.fields && data.fields["selftext"].JString?
  }

  /** `post['data'][key]` of a well-formed child. */
  function PostField(post: Json, key: string): Json
    requires WellFormedPost(post)
    requires key in post.fields["data"].fields
  {
    post.fields["data"].fields[key]
  }

  /** The comprehension over a list of children: evaluated left to right, the
      first child that raises aborts the whole list. */
  function ExtractEach(children: seq<Json>): (r: Result<seq<Post>>)
    ensures r.Ok? <==> forall i :: 0 <= i < |children| ==> WellFormedPost(children[i])
    ensures r.Ok? ==> |r.value| == |children|
    ensures r.Ok? ==> forall i :: 0 <= i < |children| ==> ExtractPost(children[i]) == Ok(r.value[i])
    ensures r.Err? ==> exists k :: 0 <= k < |children| && FirstFailure(children, k) && ExtractPost(children[k]) == Err(r.error)
  {
    if children == [] then Ok([])
    else
      var first :- ExtractPost(children[0]);
      var rest := ExtractEach(children[1..]);
      if rest.Err? then
        assert forall i :: 0 <= i < |children| - 1 ==> children[1..][i] == children[i + 1];
        var k :| 0 <= k < |children| - 1 && FirstFailure(children[1..], k) && ExtractPost(children[1..][k]) == Err(rest.error);
        assert FirstFailure(children, k + 1);
        Err(rest.error)
      else
        Ok([first] + rest.value)
  }

  /** `k` is the first child whose extraction raises. */
  predicate FirstFailure(children: seq<Json>, k: int)
    requires 0 <= k < |children|
  {
    && !WellFormedPost(children[k])
    && forall i :: 0 <= i < k ==> WellFormedPost(children[i])
  }

  /** Iterating over `data['data']['children']`. Iterating a dictionary yields
      its keys and iterating a string its characters; both are strings, whose
      subscript by `'data'` raises, so a non-empty one fails. Any other
      non-list value is not iterable. */
  function ExtractChildren(children: Json): (r: Result<seq<Post>>)
    ensures children.JArray? ==> r == ExtractEach(children.items)
    ensures r.Ok? ==> children.JArray? || children == JString("") || children == JObject(map[])
    ensures children == JString("") || children == JObject(map[]) ==> r == Ok([])
    ensures !children.JArray? && r.Err? ==> r.error == TypeError
  {
    match children
    case JArray(items) => ExtractEach(items)
    case JString(s) => if s == "" then Ok([]) else Err(TypeError)
    case JObject(fields) => if fields == map[] then Ok([]) else Err(TypeError)
    case _ => Err(TypeError)
  }

  /** `get_reddit_data` given the feed's response (app/app.py:35-44). A failed
      download returns `None`, and subscripting `None` raises before any
      record is built. On a 200 response, `data['data']['children']` raises
      `KeyError` for a missing key and `TypeError` for a value that is not a
      dictionary; the children then go through the comprehension. */
  function GetRedditData(resp: Response): (r: Result<seq<Post>>)
    ensures resp.status != 200 ==> r == Err(TypeError)
    ensures r.Ok? ==> resp.status == 200
    ensures resp.status == 200 && !resp.body.JObject? ==> r == Err(TypeError)
    ensures resp.status == 200 && resp.body.JObject? && "data" !in resp.body.fields ==> r == Err(KeyError("data"))
    ensures resp.status == 200 && resp.body.JObject? && "data" in resp.body.fields ==>
      var listing := resp.body.fields["data"];
      && (!listing.JObject? ==> r == Err(TypeError))
      && (listing.JObject? && "children" !in listing.fields ==> r == Err(KeyError("children")))
      && (listing.JObject? && "children" in listing.fields ==> r == ExtractChildren(listing.fields["children"]))
  {
    var data := DownloadJson(resp);
    var listing :- Subscript(data, "data");
    var children :- Subscript(listing, "children");
    ExtractChildren(children)
  }

  /** A listing of well-formed children yields exactly one record per child, in
      order, with the url copied and the content joined by one space. */
  lemma OneRecordPerChild(resp: Response, children: seq<Json>)
    requires resp.status == 200
    requires resp.body.JObject? && "data" in resp.body.fields
    requires resp.body.fields["data"].JObject? && "children" in resp.body.fields["data"].fields
    requires resp.body.fields["data"].fields["children"] == JArray(children)
    requires forall i :: 0 <= i < |children| ==> WellFormedPost(children[i])
    ensures GetRedditData(resp).Ok?
    ensures |GetRedditData(resp).value| == |children|
    ensures forall i :: 0 <= i < |children| ==>
      var p := GetRedditData(resp).value[i];
      p.url == PostField(children[i], "url") &&
      p.content == PostField(children[i], "title").s + " " + PostField(children[i], "selftext").s
  {
    var posts := ExtractEach(children).value;
    forall i | 0 <= i < |children|
      ensures posts[i].url == PostField(children[i], "url")
      ensures posts[i].content == PostField(children[i], "title").s + " " + PostField(children[i], "selftext").s
    {
      assert ExtractPost(children[i]) == Ok(posts[i]);
    }
  }

  /** One malformed child aborts the whole extraction: no partial list. */
  lemma MalformedChildAborts(resp: Response, children: seq<Json>, k: int)
    requires resp.status == 200
    requires resp.body.JObject? && "data" in resp.body.fields
    requires resp.body.fields["data"].JObject? && "children" in resp.body.fields["data"].fields
    requires resp.body.fields["data"].fields["children"] == JArray(children)
    requires 0 <= k < |children| && !WellFormedPost(children[k])
    ensures GetRedditData(resp).Err?
  {
  }

  /** A listing without `children` raises `KeyError('children')`. */
  lemma MissingChildrenAborts(resp: Response)
    requires resp.status == 200
    requires resp.body.JObject? && "data" in resp.body.fields
    requires resp.body.fields["data"].JObject? && "children" !in resp.body.fields["data"].fields
    ensures GetRedditData(resp) == Err(KeyError("children"))
  {
  }
}
