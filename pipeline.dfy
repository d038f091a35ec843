/** `main` (app/app.py:129-145) from the feed response up to the weight map
    handed to the word-cloud renderer. */
module Pipeline {
  import opened Seqs
  import opened Feed
  import opened Text
  import opened Frame
  import opened Freq

  /** What the part-of-speech tagger promises: one tag per token. */
  ghost predicate OneTagPerToken(tagger: seq<string> -> seq<string>) {
    forall ts :: |tagger(ts)| == |ts|
  }

  /** The frame after `clean_text`, `get_long_tokens` and `get_noun_tokens`. */
  function NounFrame(posts: seq<Post>, stopwords: set<string>, tagger: seq<string> -> seq<string>): (frame: seq<NounRow>)
    requires OneTagPerToken(tagger)
    ensures |frame| == |posts|
    ensures forall i :: 0 <= i < |frame| ==> frame[i].row.row.url == posts[i].url
  {
    GetNounTokens(GetLongTokens(CleanText(posts, stopwords)), tagger)
  }

  /** The weight map `plot_freq` builds from `get_token_freq`'s result: a
      token is a key exactly when it occurs among the rows' noun tokens, and
      its weight is its number of occurrences. */
  function Analyze(posts: seq<Post>, stopwords: set<string>, tagger: seq<string> -> seq<string>): (m: map<string, nat>)
    requires OneTagPerToken(tagger)
    ensures forall t :: t in m <==> Occurrences(NounFrame(posts, stopwords, tagger), t) > 0
    ensures forall t :: t in m ==> m[t] == Occurrences(NounFrame(posts, stopwords, tagger), t)
    ensures |m| == |GetTokenFreq(NounFrame(posts, stopwords, tagger))|
  {
    var table := GetTokenFreq(NounFrame(posts, stopwords, tagger));
    forall t | t in Keys(table) ensures Lookup(table, t) == Occurrences(NounFrame(posts, stopwords, tagger), t) {
      var i :| 0 <= i < |table| && table[i].token == t;
      LookupEntry(table, i);
    }
    WeightMap(table)
  }

  /** The whole run (app/app.py:129-145): a failed or malformed feed raises
      before any frame is built; an empty listing, or one whose urls are all
      `None`, makes `createDataFrame` raise; a run whose rows hold no noun
      makes the word cloud raise; otherwise the weight map of its posts. */
  function Run(resp: Response, stopwords: set<string>, tagger: seq<string> -> seq<string>): (r: Result<map<string, nat>>)
    requires OneTagPerToken(tagger)
    ensures r.Ok? <==>
      && GetRedditData(resp).Ok?
      && var posts := GetRedditData(resp).value;
      && posts != [] && (exists i :: 0 <= i < |posts| && posts[i].url != JNull)
      && Analyze(posts, stopwords, tagger) != map[]
    ensures r.Ok? ==> r.value == Analyze(GetRedditData(resp).value, stopwords, tagger)
    ensures GetRedditData(resp).Err? ==> r == Err(GetRedditData(resp).error)
    ensures GetRedditData(resp) == Ok([]) ==> r == Err(ValueError)
    ensures GetRedditData(resp).Ok? && r.Err? ==> r.error == ValueError
    ensures resp.status != 200 ==> r == Err(TypeError)
  {
    var posts :- GetRedditData(resp);
    var rows :- CreateDataFrame(posts);
    var table := GetTokenFreq(NounFrame(rows, stopwords, tagger));
    PlotFreq(table)
  }

  /** Every noun token of a row is a token of its `long_tokens`, hence longer
      than 3 characters, and of its `cleaned_tokens`, hence a lowercase word
      that is not a stopword. */
  lemma NounTokensAreCleanLongWords(posts: seq<Post>, stopwords: set<string>, tagger: seq<string> -> seq<string>, i: int)
    requires OneTagPerToken(tagger)
    requires 0 <= i < |posts|
    ensures var row := NounFrame(posts, stopwords, tagger)[i];
      forall t :: t in row.nounTokens ==>
        t in row.row.longTokens && t in row.row.row.cleanedTokens && |t| > 3 && IsWord(t) && t !in stopwords
  {
    var row := NounFrame(posts, stopwords, tagger)[i];
    SubseqMembers(row.nounTokens, row.row.longTokens);
    SubseqMembers(row.row.longTokens, row.row.row.cleanedTokens);
  }

  /** Each row's `noun_tokens` keep the order of its `tokens`: the three
      filters chained are still an order-preserving subsequence. */
  lemma NounTokensFollowTokens(posts: seq<Post>, stopwords: set<string>, tagger: seq<string> -> seq<string>, i: int)
    requires OneTagPerToken(tagger)
    requires 0 <= i < |posts|
    ensures var row := NounFrame(posts, stopwords, tagger)[i];
      IsSubseq(row.nounTokens, row.row.row.tokens)
  {
    var row := NounFrame(posts, stopwords, tagger)[i];
    SubseqTransitive(row.nounTokens, row.row.longTokens, row.row.row.cleanedTokens);
    SubseqTransitive(row.nounTokens, row.row.row.cleanedTokens, row.row.row.tokens);
  }

  /** Every word in the cloud is a lowercase word longer than 3 characters
      that is not a stopword. */
  lemma CloudWordsAreCleanLongWords(posts: seq<Post>, stopwords: set<string>, tagger: seq<string> -> seq<string>)
    requires OneTagPerToken(tagger)
    ensures forall t :: t in Analyze(posts, stopwords, tagger) ==> |t| > 3 && IsWord(t) && t !in stopwords
  {
    var frame := NounFrame(posts, stopwords, tagger);
    AllNounsCounts(frame);
    forall t | t in Analyze(posts, stopwords, tagger) ensures |t| > 3 && IsWord(t) && t !in stopwords {
      assert t in AllNouns(frame);
      AllNounsMembers(frame, t);
      var i :| 0 <= i < |frame| && t in frame[i].nounTokens;
      NounTokensAreCleanLongWords(posts, stopwords, tagger, i);
    }
  }
}
