# Reddit topic word cloud: the text pipeline, modelled in Dafny

`app/app.py` downloads a subreddit listing and turns each post into a
`{url, content}` record, where content is the title and the self text joined
by one space. It lowercases the text and strips everything but letters and
whitespace. Then it tokenizes on whitespace and removes stopwords, keeps the
tokens longer than 3 characters, and keeps the tokens tagged as nouns. It
counts every noun over all posts and hands the counts to a word-cloud
renderer as a weight map.

This project models that chain as pure functions over sequences and maps:

- `seqs.dfy` (module `Seqs`): the order-preserving filter `[x for x in xs if p(x)]` and the subsequence relation.
- `feed.dfy` (module `Feed`): the parsed JSON document and the extraction comprehension of `get_reddit_data`. `Feed.Subscript` is the model's definition of Python's dictionary subscript `v[key]`, `Feed.AddStrings` of `str +`, and `Feed.DownloadJson` of `download_json`'s status test; what they do is stated by `Feed.ExtractPost` and `Feed.GetRedditData`. A failed download returns `None` (`JNull`), so the first subscript raises `TypeError`. A missing key raises `KeyError` and a value of the wrong type raises `TypeError`. Either one aborts the whole list.
- `text.dfy` (module `Text`): lowercasing, the regex `[^a-zA-Z\s]` removal, Spark's `Tokenizer` (lowercase, then Java's `split("\\s")`), Spark's `StopWordsRemover` (case-insensitive by default), `filter_short_words` and `extract_nouns`. The stopword set and the part-of-speech tagger are parameters.
- `frame.dfy` (module `Frame`): `createDataFrame` and the dataframe stages as lists of rows. `clean_text` replaces `content` by its normalized form and adds `tokens` and `cleaned_tokens`; `get_long_tokens` and `get_noun_tokens` each add one column and keep the rest. Every stage keeps each row's `url`.
- `freq.dfy` (module `Freq`): `explode`, group-by-count, `dict(zip(...))` to the weight map, and the word cloud's refusal of an empty map. `Freq.TokenColumn` is the model's definition of the projection onto the exploded `token` column; `Freq.GetTokenFreq` states what it contributes.
- `pipeline.dfy` (module `Pipeline`): `main` up to the weight map, and end-to-end facts about it.

The comment on `filter_short_words` says it keeps words "longer than 2
characters", but the code keeps `len(word) > 3`. The model follows the code,
so 3-letter words such as "lot" are dropped (`Text.FilterShortWords`).

Re-tokenizing the single-space join of normalized tokens gives the same
tokens only when there is at least one token. Blank content has no tokens,
but the empty join tokenizes as `[""]`, because Java's `split` returns the
whole string when it finds no whitespace (`Text.BlankRejoin`). The same
split keeps empty tokens between adjacent whitespace characters. The length
filter then removes them.

The rejoin fails for the cleaned tokens, after stopword removal. The content
"x  the" with stopword "the" tokenizes to `["x", "", "the"]` and cleans to
`["x", ""]`. Their join "x " re-tokenizes to `["x"]`, because the empty token
is now last and Java's `split` drops trailing empty pieces
(`Text.CleanedRejoinFails`). When every token is a stopword, the cleaned list
is empty and its join tokenizes as `[""]`, as in `Text.BlankRejoin`.

A listing with no children crashes the run. `get_reddit_data` returns `[]`,
and `createDataFrame` cannot infer a schema from an empty list. It also
cannot when every record's `url` is `None`. When no post holds a noun, the
word cloud refuses the empty weight map. The model returns `ValueError` in
all three cases (`Frame.CreateDataFrame`, `Freq.PlotFreq`, `Pipeline.Run`).

## Model

| member | source | states |
|---|---|---|
| `Feed.ExtractPost` | app/app.py:43 | one child yields a record exactly when it is well formed (`data` a dictionary with `url`, string `title` and string `selftext`); the record copies `url` and joins title and self text with one space; otherwise the first failing step, in Python's order, decides the error: a non-dictionary child or `data` raises `TypeError`, a missing `data`, `url`, `title` or `selftext` raises `KeyError` with that key, a non-string `title` or `selftext` raises `TypeError` |
| `Feed.ExtractEach` | app/app.py:43 | the comprehension succeeds exactly when every child is well formed; it then gives one record per child, in order; otherwise its error is that of the first malformed child |
| `Feed.ExtractChildren` | app/app.py:43 | a list of children goes through the comprehension; an empty string or empty dictionary gives no records; any other value that is not a list raises `TypeError` |
| `Feed.GetRedditData` | app/app.py:35-44 | a non-200 response raises `TypeError`; a result is only produced from a 200 response; on a 200 response a body or listing that is not a dictionary raises `TypeError`, a body without `data` raises `KeyError('data')`, a listing without `children` raises `KeyError('children')`, and otherwise the children go through the comprehension |
| `Feed.OneRecordPerChild` | app/app.py:41-44 | a 200 response whose well-formed children are a list yields exactly one record per child, in order, url copied, content = title + " " + selftext |
| `Feed.MalformedChildAborts` | app/app.py:43 | a single malformed child makes the whole extraction fail: no partial list |
| `Feed.MissingChildrenAborts` | app/app.py:43 | a listing without `children` raises `KeyError('children')` |
| `Seqs.Filter` | app/app.py:70 | the comprehension keeps exactly the elements satisfying the test: each kept element satisfies it, the result is an order-preserving subsequence, and every satisfying element keeps all its occurrences |
| `Seqs.FilterIdempotent` | app/app.py:70 | filtering twice equals filtering once |
| `Text.Lower` | app/app.py:53 | no upper-case letter remains; each is replaced in place by the same letter in lower case; other characters are kept |
| `Text.LowerUnchanged` | app/app.py:53 | lowercasing text without upper-case letters changes nothing |
| `Text.NormalizeContent` | app/app.py:53-56 | the result holds only lowercase letters and whitespace; it is a subsequence of the lowercased text that keeps every letter and whitespace occurrence and nothing else |
| `Text.NormalizeIdempotent` | app/app.py:53-56 | lowercasing and stripping again leaves normalized text unchanged |
| `Text.Pieces` | app/app.py:59-60 | the split yields at least one piece; no piece holds whitespace; joined by single spaces, the pieces give back the input with each whitespace character turned into a space |
| `Text.PiecesChars` | app/app.py:59-60 | every character of a piece is a character of the input |
| `Text.DropTrailingEmpty` | app/app.py:59-60 | the result is a prefix that does not end in an empty string, and only empty strings were removed |
| `Text.Split` | app/app.py:59-60 | no token holds whitespace; joined by single spaces, the tokens give back the input with whitespace turned into spaces and trailing whitespace removed; there are none exactly when the input is non-empty and all whitespace; the list ends in an empty token only as the single token of a whitespace-free input |
| `Text.Tokenize` | app/app.py:59-60 | no token holds whitespace; joined by single spaces, the tokens give back the lowercased input with whitespace turned into spaces and trailing whitespace removed; there are none exactly when the input is non-empty and all whitespace; the list ends in an empty token only as the single token of a whitespace-free input |
| `Text.SplitOfJoin` | app/app.py:59-60 | splitting the single-space join of whitespace-free tokens that do not end in an empty one gives the tokens back |
| `Text.PiecesOfJoin` | app/app.py:59-60 | splitting the single-space join of whitespace-free tokens gives the tokens back |
| `Text.JoinOfPieces` | app/app.py:59-60 | joining the pieces with single spaces gives back text whose whitespace is all spaces |
| `Text.TokensAreWords` | app/app.py:53-60 | every token of normalized content consists of lowercase letters only |
| `Text.RetokenizeWords` | app/app.py:53-60 | lowercase words not ending in an empty one, joined by single spaces, normalize and tokenize back to themselves |
| `Text.TokenizeRejoin` | app/app.py:53-60 | normalizing and tokenizing the single-space join of a non-empty token list from normalized content gives the same tokens |
| `Text.BlankRejoin` | app/app.py:59-60 | blank content has no tokens, while the empty join tokenizes as one empty token |
| `Text.CleanedRejoinFails` | app/app.py:53-64 | "x  the" with stopword "the" cleans to `["x", ""]`, whose join re-tokenizes to `["x"]` |
| `Text.RemoveStopwords` | app/app.py:62-64 | no kept token is a stopword; the result is an order-preserving subsequence; a token is dropped exactly when its lowercase form is a lowercased stopword, and every other token keeps all its occurrences |
| `Text.FilterShortWords` | app/app.py:69-70 | every kept word is longer than 3 characters (so none is empty); the result is an order-preserving subsequence; every word longer than 3 keeps all its occurrences |
| `Text.FilterShortWordsIdempotent` | app/app.py:69-70 | the length filter is idempotent |
| `Text.NounsOf` | app/app.py:89 | the kept tokens are an order-preserving subsequence; all tags nouns keeps every token; no noun tag keeps none |
| `Text.NounPositions` | app/app.py:89 | the positions listed are exactly those whose tag starts with "NN", in increasing order |
| `Text.NounsAtPositions` | app/app.py:85-90 | the noun filter returns exactly the tokens at the noun-tag positions, in order |
| `Text.ExtractNouns` | app/app.py:85-90 | with one tag per token, the result is an order-preserving subsequence of the tokens; empty input gives empty output; all-noun tags keep everything; no noun tags keep nothing |
| `Frame.CreateDataFrame` | app/app.py:46-49 | the records become the rows, in order, exactly when the list is non-empty and some `url` is not `None`; otherwise `ValueError` |
| `Frame.CleanPost` | app/app.py:51-66 | the row keeps the post's url; its content is the normalized content, its tokens the tokenization of that content, its cleaned tokens those tokens without stopwords; so the tokens are lowercase words and the cleaned tokens an order-preserving subsequence of them, none a stopword |
| `Frame.CleanText` | app/app.py:51-66 | one row per post in order, url kept, each row computed from its own post only |
| `Frame.GetLongTokens` | app/app.py:72-75 | row count and every earlier column (url included) unchanged; `long_tokens` computed from that row's `cleaned_tokens` only |
| `Frame.GetNounTokens` | app/app.py:92-95 | row count and every earlier column unchanged; `noun_tokens` computed from that row's `long_tokens` only |
| `Freq.AllNounsCounts` | app/app.py:102 | the flattened noun list has as many tokens as all rows together, and each token's multiplicity is its occurrence count summed over rows |
| `Freq.Explode` | app/app.py:102 | one pair per noun-token occurrence, the tokens being all rows' noun tokens in row order |
| `Freq.ExplodeRows` | app/app.py:102 | the pair for token `j` of row `i` comes after the tokens of the earlier rows and carries row `i`'s url and that token |
| `Freq.Tally` | app/app.py:105 | counting one more occurrence keeps the tokens distinct and adds the token to the key set |
| `Freq.TallyCounts` | app/app.py:105 | counting one more occurrence of `t` adds one to `t`'s count and to the total, and leaves every other count unchanged |
| `Freq.CountByToken` | app/app.py:105 | group-by-count gives distinct tokens, exactly the tokens present, each with its number of occurrences (at least 1), totalling the number of tokens |
| `Freq.GetTokenFreq` | app/app.py:100-107 | distinct tokens; each frequency equals the token's occurrences over all rows' `noun_tokens` and is at least 1; a token is present exactly when it occurs; frequencies sum to the total number of noun tokens |
| `Freq.WeightMap` | app/app.py:118 | keys are exactly the table's tokens; with distinct tokens there is one entry per row, with the row's count |
| `Freq.PlotFreq` | app/app.py:112-121 | the weight map is handed on exactly when the table has a row, and is then non-empty; otherwise the renderer raises `ValueError` on the empty map |
| `Pipeline.NounFrame` | app/app.py:136-141 | the three column stages keep one row per post and each row's url |
| `Pipeline.Analyze` | app/app.py:136-144 | a token is a weight-map key exactly when it occurs among the noun tokens; its weight is its occurrence count; one entry per table row |
| `Pipeline.Run` | app/app.py:129-145 | the run succeeds exactly when extraction succeeds with a non-empty list having some non-`None` url and the weight map is non-empty, and then yields that weight map; an extraction error is passed on unchanged; any failure after a successful extraction (an empty listing, urls all `None`, no noun) raises `ValueError`; a non-200 response raises `TypeError` |
| `Pipeline.NounTokensAreCleanLongWords` | app/app.py:136-141 | every noun token of a row is in its `long_tokens` and `cleaned_tokens`: a lowercase word longer than 3 characters, not a stopword |
| `Pipeline.NounTokensFollowTokens` | app/app.py:53-94 | each row's `noun_tokens` is an order-preserving subsequence of its `tokens` |
| `Pipeline.CloudWordsAreCleanLongWords` | app/app.py:129-145 | every word in the weight map is a lowercase word longer than 3 characters, not a stopword |

## Left out

- The HTTP request in `download_json` (app/app.py:27-33) is left out. The model takes the response status and the already-parsed body as input. A body that is not valid JSON is left out too.
- JSON numbers are modelled as integers. Floating point values never reach the text, so they are left out.
- Frame.CreateDataFrame, Pipeline.Run: `url` values are copied as JSON values. Spark's failure to merge `url` types that differ between records (a string in one, a number in another) is left out, and so are `url` values whose type Spark cannot determine although not all are `None` (for instance every `url` an empty list or an empty dictionary), which it refuses with `ValueError`. Only the empty list and the all-`None` url column are modelled as failures.
- Iterating over a non-empty dictionary or string of children is modelled by its outcome. The model does not list the keys or characters one by one, because the first one always raises `TypeError`.
- Spark session setup (app/app.py:20-25), the `toPandas` conversion (app/app.py:115) and the `logger.info` calls (app/app.py:131-145) are engine plumbing and logging. Rows are a plain list.
- The `print` of a failed download's status code (app/app.py:32) is output only; the model keeps the `None` it returns.
- The NLTK resource downloads (app/app.py:77-83) and the tagging model behind `nltk.pos_tag` are left out. The tagger is a function parameter, with the premise that it returns one tag per token.
- The contents of the default English stopword list are left out. The stopword set is a parameter.
- Text.Lower: lowercases ASCII letters only. Spark's and Java's Unicode lowercasing is left out, including the few non-ASCII characters whose lower-case form contains an ASCII letter.
- Word-cloud layout, matplotlib rendering and the image file write (app/app.py:121-127) are foreign libraries and file I/O. Only the renderer's refusal of an empty map is modelled.
- The command-line argument check (app/app.py:147-153) is left out. The commented-out Flask code (app/app.py:155-184) is dead and is left out too.
