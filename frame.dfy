/** The dataframe stages of app/app.py over a plain list of rows:
    `clean_text`, `get_long_tokens` and `get_noun_tokens`. Each stage keeps
    every row, in order, and computes its new columns from that row alone:
    `clean_text` replaces `content` by its normalized form and adds `tokens`
    and `cleaned_tokens`; `get_long_tokens` and `get_noun_tokens` each add
    one column and keep the rest. The row produced by
    `create_spark_dataframe` is the extracted `Post`. */
module Frame {
  import opened Seqs
  import opened Feed
  import opened Text

  /** `spark.createDataFrame(data)` (app/app.py:46-49) on the extracted
      records: Spark infers the column types from the records and refuses,
      with a `ValueError`, an empty list or a `url` column that is `None` in
      every record. When the model accepts the records, each becomes one
      row, in order. */
  function CreateDataFrame(posts: seq<Post>): (r: Result<seq<Post>>)
    ensures r.Ok? <==> posts != [] && exists i :: 0 <= i < |posts| && posts[i].url != JNull
    ensures r.Ok? ==> r.value == posts
    ensures r.Err? ==> r.error == ValueError
  {
    if posts == [] || forall i :: 0 <= i < |posts| ==> posts[i].url == JNull then Err(ValueError)
    else Ok(posts)
  }

  /** A row after `clean_text`: `content` replaced by its normalized text,
      with the `tokens` and `cleaned_tokens` columns added. */
  datatype CleanRow = CleanRow(url: Json, content: string, tokens: seq<string>, cleanedTokens: seq<string>)

  /** A row after `get_long_tokens`: the earlier columns and `long_tokens`. */
  datatype LongRow = LongRow(row: CleanRow, longTokens: seq<string>)

  /** A row after `get_noun_tokens`: the earlier columns and `noun_tokens`. */
  datatype NounRow = NounRow(row: LongRow, nounTokens: seq<string>)

  /** The four steps of `clean_text` on one row: the content is normalized,
      tokenized from the normalized text, and the stopwords are removed
      from those tokens; the url is kept. */
  function CleanPost(post: Post, stopwords: set<string>): (r: CleanRow)
    ensures r.url == post.url
    ensures r.content == NormalizeContent(post.content)
    ensures r.tokens == Tokenize(r.content)
    ensures r.cleanedTokens == RemoveStopwords(r.tokens, stopwords)
    ensures forall j :: 0 <= j < |r.tokens| ==> IsWord(r.tokens[j])
    ensures IsSubseq(r.cleanedTokens, r.tokens)
    ensures forall j :: 0 <= j < |r.cleanedTokens| ==> IsWord(r.cleanedTokens[j]) && r.cleanedTokens[j] !in stopwords
  {
    var content := NormalizeContent(post.content);
    var tokens := Tokenize(content);
    var cleaned := RemoveStopwords(tokens, stopwords);
    TokensAreWords(post.content);
    SubseqMembers(cleaned, tokens);
    assert forall j :: 0 <= j < |cleaned| ==> cleaned[j] in tokens;
    CleanRow(post.url, content, tokens, cleaned)
  }

  /** `clean_text` (app/app.py:51-66): one row per post, in order, each row
      computed from that post alone. */
  function CleanText(frame: seq<Post>, stopwords: set<string>): (r: seq<CleanRow>)
    ensures |r| == |frame|
    ensures forall i :: 0 <= i < |r| ==> r[i] == CleanPost(frame[i], stopwords)
    ensures forall i :: 0 <= i < |r| ==> r[i].url == frame[i].url
  {
    seq(|frame|, i requires 0 <= i < |frame| => CleanPost(frame[i], stopwords))
  }

  /** `get_long_tokens` (app/app.py:72-75): every earlier column is kept and
      `long_tokens` is the length filter of that row's `cleaned_tokens`. */
  function GetLongTokens(frame: seq<CleanRow>): (r: seq<LongRow>)
    ensures |r| == |frame|
    ensures forall i :: 0 <= i < |r| ==> r[i].row == frame[i]
    ensures forall i :: 0 <= i < |r| ==> r[i].longTokens == FilterShortWords(frame[i].cleanedTokens)
  {
    seq(|frame|, i requires 0 <= i < |frame| => LongRow(frame[i], FilterShortWords(frame[i].cleanedTokens)))
  }

  /** `get_noun_tokens` (app/app.py:92-95): every earlier column is kept and
      `noun_tokens` is the noun filter of that row's `long_tokens`; the
      tagger returns one tag per token of each row. */
  function GetNounTokens(frame: seq<LongRow>, tagger: seq<string> -> seq<string>): (r: seq<NounRow>)
    requires forall i :: 0 <= i < |frame| ==> |tagger(frame[i].longTokens)| == |frame[i].longTokens|
    ensures |r| == |frame|
    ensures forall i :: 0 <= i < |r| ==> r[i].row == frame[i]
    ensures forall i :: 0 <= i < |r| ==> r[i].nounTokens == ExtractNouns(tagger, frame[i].longTokens)
  {
    seq(|frame|, i requires 0 <= i < |frame| => NounRow(frame[i], ExtractNouns(tagger, frame[i].longTokens)))
  }
}
