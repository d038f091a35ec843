/** The per-row text stages of app/app.py: `clean_text` (lowercasing, the
    punctuation regex, Spark's `Tokenizer` and `StopWordsRemover`),
    `filter_short_words` and `extract_nouns`. Lowercasing is ASCII only. */
module Text {
  import opened Seqs

  predicate IsUpper(c: char) { 'A' <= c <= 'Z' }
  predicate IsLower(c: char) { 'a' <= c <= 'z' }

  /** Java's regex class `\s`, used by the regex at app/app.py:56 and by
      Spark's `Tokenizer`: space, tab, newline, vertical tab, form feed and
      carriage return. */
  predicate IsSpace(c: char) {
    c == ' ' || c == '\t' || c == '\n' || c == '\r' || c == '\U{000B}' || c == '\U{000C}'
  }

  /** A string made of lowercase ASCII letters only. */
  predicate IsWord(t: string) {
    forall i :: 0 <= i < |t| ==> IsLower(t[i])
  }

  predicate NoSpace(t: string) {
    forall i :: 0 <= i < |t| ==> !IsSpace(t[i])
  }

  predicate HasSpace(s: string) {
    exists i :: 0 <= i < |s| && IsSpace(s[i])
  }

  /** An upper-case letter becomes the same letter in lower case; every
      other character is left alone. */
  function LowerChar(c: char): (d: char)
    ensures !IsUpper(d)
    ensures IsUpper(c) ==> IsLower(d) && d as int - 'a' as int == c as int - 'A' as int
    ensures !IsUpper(c) ==> d == c
  {
    if IsUpper(c) then (c as int + 32) as char else c
  }

  /** `lower(col("content"))` (app/app.py:53), on ASCII letters: no
      upper-case letter remains, each one replaced in place by its lower-case
      form, and every other character kept. */
  function Lower(s: string): (r: string)
    ensures |r| == |s|
    ensures forall i :: 0 <= i < |r| ==> !IsUpper(r[i])
    ensures forall i :: 0 <= i < |s| && IsUpper(s[i]) ==> IsLower(r[i]) && r[i] as int - 'a' as int == s[i] as int - 'A' as int
    ensures forall i :: 0 <= i < |s| && !IsUpper(s[i]) ==> r[i] == s[i]
  {
    seq(|s|, i requires 0 <= i < |s| => LowerChar(s[i]))
  }

  /** Lowercasing a string that has no upper-case letter changes nothing. */
  lemma LowerUnchanged(s: string)
    requires forall i :: 0 <= i < |s| ==> !IsUpper(s[i])
    ensures Lower(s) == s
  {
  }

  /** The class `[a-zA-Z\s]` that the regex at app/app.py:56 keeps. */
  predicate Kept(c: char) {
    IsLower(c) || IsUpper(c) || IsSpace(c)
  }

  /** app/app.py:53-56: lowercase, then delete every character outside
      `[a-zA-Z\s]`. What remains is the lowercased text with exactly the
      letters and whitespace kept, in order. */
  function NormalizeContent(s: string): (r: string)
    ensures forall i :: 0 <= i < |r| ==> IsLower(r[i]) || IsSpace(r[i])
    ensures IsSubseq(r, Lower(s))
    ensures forall c :: multiset(r)[c] == if Kept(c) then multiset(Lower(s))[c] else 0
  {
    var r := Filter(Kept, Lower(s));
    assert forall i :: 0 <= i < |r| ==> r[i] in multiset(Lower(s));
    r
  }

  /** Lowercasing and stripping again leave normalized text unchanged. */
  lemma NormalizeIdempotent(s: string)
    ensures NormalizeContent(NormalizeContent(s)) == NormalizeContent(s)
  {
    var n := NormalizeContent(s);
    LowerUnchanged(n);
    FilterKeepsAll(Kept, n);
  }

  /** `s` with every whitespace character replaced by a space. */
  function Blank(s: string): (r: string)
    ensures |r| == |s|
    ensures forall i :: 0 <= i < |s| ==> r[i] == if IsSpace(s[i]) then ' ' else s[i]
  {
    if s == [] then []
    else
      var rest := Blank(s[1..]);
      [if IsSpace(s[0]) then ' ' else s[0]] + rest
  }

  /** `s` without its trailing whitespace. */
  function TrimEnd(s: string): (r: string)
    ensures r <= s
    ensures r == [] || !IsSpace(r[|r| - 1])
    ensures forall i :: |r| <= i < |s| ==> IsSpace(s[i])
  {
    if s != [] && IsSpace(s[|s| - 1]) then TrimEnd(s[..|s| - 1]) else s
  }

  /** The pieces of `s` between its whitespace characters: Java's
      `s.split("\\s")` before the trailing empty pieces are dropped. The
      pieces hold no whitespace and, joined by single spaces, give back `s`
      with each whitespace character turned into a space; so there is one
      piece more than there are whitespace characters, and each piece is
      the run of characters between two of them. */
  function Pieces(s: string): (r: seq<string>)
    ensures |r| >= 1
    ensures forall i :: 0 <= i < |r| ==> NoSpace(r[i])
    ensures Join(r) == Blank(s)
  {
    if s == [] then [""]
    else
      var rest := Pieces(s[1..]);
      if IsSpace(s[0]) then
        assert ([""] + rest)[1..] == rest;
        [""] + rest
      else
        var r := [[s[0]] + rest[0]] + rest[1..];
        assert r[1..] == rest[1..];
        assert |rest| > 1 ==> Join(rest) == rest[0] + " " + Join(rest[1..]);
        r
  }

  /** Every character of a piece is a character of the input. */
  lemma {:induction false} PiecesChars(s: string)
    ensures forall i, j :: 0 <= i < |Pieces(s)| && 0 <= j < |Pieces(s)[i]| ==> Pieces(s)[i][j] in s
  {
    if s != [] {
      PiecesChars(s[1..]);
      var rest := Pieces(s[1..]);
      assert forall i, j :: 0 <= i < |rest| && 0 <= j < |rest[i]| ==> rest[i][j] in s;
      if !IsSpace(s[0]) {
        var r := Pieces(s);
        assert r[0] == [s[0]] + rest[0];
        assert forall i :: 1 <= i < |r| ==> r[i] == rest[i];
      }
    }
  }

  /** Drops the empty strings at the end of a split, as Java's `split` does. */
  function DropTrailingEmpty(ts: seq<string>): (r: seq<string>)
    ensures r <= ts
    ensures r == [] || r[|r| - 1] != ""
    ensures forall i :: |r| <= i < |ts| ==> ts[i] == ""
  {
    if ts != [] && ts[|ts| - 1] == "" then DropTrailingEmpty(ts[..|ts| - 1]) else ts
  }

  /** Java's `l.split("\\s")`: the whole string when it holds no whitespace,
      otherwise the pieces without the trailing empty ones. */
  function Split(l: string): (r: seq<string>)
    ensures forall i :: 0 <= i < |r| ==> NoSpace(r[i])
    ensures Join(r) == TrimEnd(Blank(l))
    ensures r == [] <==> l != "" && forall i :: 0 <= i < |l| ==> IsSpace(l[i])
    ensures forall i, j :: 0 <= i < |r| && 0 <= j < |r[i]| ==> r[i][j] in l
    ensures |r| == 1 || r == [] || r[|r| - 1] != ""
  {
    if HasSpace(l) then
      SplitJoin(l);
      SplitEmpty(l);
      SplitChars(l);
      DropTrailingEmpty(Pieces(l))
    else
      SplitOfWord(l);
      var r := [l];
      assert forall j :: 0 <= j < |l| ==> r[0][j] in l;
      r
  }

  /** Spark's `Tokenizer` (app/app.py:59-60): lowercase, then Java's
      `split("\\s")`. The tokens, joined by single spaces, are the
      lowercased text with its whitespace turned into spaces and its trailing
      whitespace removed; there are no tokens exactly when the text is
      non-empty and all whitespace. */
  function Tokenize(s: string): (r: seq<string>)
    ensures forall i :: 0 <= i < |r| ==> NoSpace(r[i])
    ensures Join(r) == TrimEnd(Blank(Lower(s)))
    ensures r == [] <==> s != "" && forall i :: 0 <= i < |s| ==> IsSpace(s[i])
    ensures forall i, j :: 0 <= i < |r| && 0 <= j < |r[i]| ==> r[i][j] in Lower(s)
    ensures |r| == 1 || r == [] || r[|r| - 1] != ""
  {
    var lowered := Lower(s);
    assert forall i :: 0 <= i < |s| ==> (IsSpace(s[i]) <==> IsSpace(lowered[i]));
    Split(lowered)
  }

  /** Text without whitespace is its own blanking. */
  lemma BlankOfWord(t: string)
    requires NoSpace(t)
    ensures Blank(t) == t
  {
    assert forall i :: 0 <= i < |t| ==> Blank(t)[i] == t[i];
  }

  /** Text without whitespace is one token, and is not all whitespace. */
  lemma SplitOfWord(l: string)
    requires !HasSpace(l)
    ensures NoSpace(l)
    ensures Join([l]) == TrimEnd(Blank(l))
    ensures !(l != "" && forall i :: 0 <= i < |l| ==> IsSpace(l[i]))
  {
    BlankOfWord(l);
    assert l != "" ==> !IsSpace(l[0]);
  }

  /** Blanked text loses everything to the trimming exactly when it is all
      whitespace. */
  lemma TrimEndBlankEmpty(l: string)
    ensures TrimEnd(Blank(l)) == [] <==> forall i :: 0 <= i < |l| ==> IsSpace(l[i])
  {
    var b := Blank(l);
    var t := TrimEnd(b);
    if t == [] {
      forall i | 0 <= i < |l| ensures IsSpace(l[i]) {
        assert IsSpace(b[i]);
      }
    } else if forall i :: 0 <= i < |l| ==> IsSpace(l[i]) {
      assert false;
    }
  }

  /** The split of text holding whitespace, joined back, is the text with
      whitespace turned into spaces and trailing whitespace removed. */
  lemma SplitJoin(l: string)
    requires HasSpace(l)
    ensures Join(DropTrailingEmpty(Pieces(l))) == TrimEnd(Blank(l))
  {
    JoinDropTrailing(Pieces(l));
  }

  /** The split of text holding whitespace is empty exactly when the text is
      all whitespace. */
  lemma SplitEmpty(l: string)
    requires HasSpace(l)
    ensures DropTrailingEmpty(Pieces(l)) == [] <==> forall i :: 0 <= i < |l| ==> IsSpace(l[i])
  {
    JoinDropTrailing(Pieces(l));
    TrimEndBlankEmpty(l);
  }

  /** The split of text holding whitespace keeps the pieces' shape and characters. */
  lemma SplitChars(l: string)
    requires HasSpace(l)
    ensures forall i :: 0 <= i < |DropTrailingEmpty(Pieces(l))| ==> NoSpace(DropTrailingEmpty(Pieces(l))[i])
    ensures forall i, j :: 0 <= i < |DropTrailingEmpty(Pieces(l))| && 0 <= j < |DropTrailingEmpty(Pieces(l))[i]| ==>
      DropTrailingEmpty(Pieces(l))[i][j] in l
  {
    var ps := Pieces(l);
    var r := DropTrailingEmpty(ps);
    PiecesChars(l);
    assert forall i :: 0 <= i < |r| ==> r[i] == ps[i];
  }

  lemma {:induction false} JoinSnoc(ts: seq<string>, t: string)
    requires ts != []
    ensures Join(ts + [t]) == Join(ts) + " " + t
  {
    if |ts| > 1 {
      assert (ts + [t])[1..] == ts[1..] + [t];
      JoinSnoc(ts[1..], t);
    }
  }

  /** A join whose last token is not empty ends with that token's last character. */
  lemma {:induction false} JoinLastChar(ts: seq<string>)
    requires ts != [] && ts[|ts| - 1] != ""
    ensures Join(ts) != [] && Join(ts)[|Join(ts)| - 1] == ts[|ts| - 1][|ts[|ts| - 1]| - 1]
  {
    if |ts| > 1 {
      JoinLastChar(ts[1..]);
    }
  }

  /** Dropping the trailing empty pieces drops the trailing spaces of the join. */
  lemma {:induction false} JoinDropTrailing(ps: seq<string>)
    requires ps != []
    requires forall i :: 0 <= i < |ps| ==> NoSpace(ps[i])
    ensures Join(DropTrailingEmpty(ps)) == TrimEnd(Join(ps))
    ensures Join(DropTrailingEmpty(ps)) == "" ==> DropTrailingEmpty(ps) == []
  {
    var r := DropTrailingEmpty(ps);
    if r != [] {
      JoinLastChar(r);
    }
    var n := |ps| - 1;
    if ps[n] == "" {
      if n > 0 {
        assert ps == ps[..n] + [""];
        JoinSnoc(ps[..n], "");
        var x := Join(ps[..n]);
        assert Join(ps) == x + " ";
        assert (x + " ")[..|x|] == x;
        JoinDropTrailing(ps[..n]);
      }
    } else {
      JoinLastChar(ps);
    }
  }

  /** Every token of normalized text is made of lowercase letters only. */
  lemma TokensAreWords(s: string)
    ensures forall i :: 0 <= i < |Tokenize(NormalizeContent(s))| ==> IsWord(Tokenize(NormalizeContent(s))[i])
  {
    var n := NormalizeContent(s);
    LowerUnchanged(n);
    var ts := Tokenize(n);
    forall i | 0 <= i < |ts| ensures IsWord(ts[i]) {
      forall j | 0 <= j < |ts[i]| ensures IsLower(ts[i][j]) {
        assert ts[i][j] in n;
      }
    }
  }

  /** The tokens joined by single spaces. */
  function Join(ts: seq<string>): string {
    if |ts| == 0 then ""
    else if |ts| == 1 then ts[0]
    else ts[0] + " " + Join(ts[1..])
  }

  lemma {:induction false} PiecesOfWord(t: string)
    requires NoSpace(t)
    ensures Pieces(t) == [t]
  {
    if t != [] {
      PiecesOfWord(t[1..]);
      assert [t[0]] + t[1..] == t;
    }
  }

  lemma {:induction false} PiecesOfPrefix(t: string, u: string)
    requires NoSpace(t)
    ensures Pieces(t + " " + u) == [t] + Pieces(u)
  {
    var s := t + " " + u;
    if t == [] {
      assert s[1..] == u;
    } else {
      assert s[1..] == t[1..] + " " + u;
      PiecesOfPrefix(t[1..], u);
      assert [t[0]] + t[1..] == t;
    }
  }

  /** Splitting undoes joining: a non-empty list of whitespace-free tokens
      comes back from the pieces of its single-space join. */
  lemma {:induction false} PiecesOfJoin(ts: seq<string>)
    requires ts != []
    requires forall i :: 0 <= i < |ts| ==> NoSpace(ts[i])
    ensures Pieces(Join(ts)) == ts
  {
    if |ts| == 1 {
      PiecesOfWord(ts[0]);
    } else {
      PiecesOfJoin(ts[1..]);
      PiecesOfPrefix(ts[0], Join(ts[1..]));
      assert [ts[0]] + ts[1..] == ts;
    }
  }

  /** Joining undoes splitting when every whitespace character is a space. */
  lemma JoinOfPieces(s: string)
    requires forall i :: 0 <= i < |s| && IsSpace(s[i]) ==> s[i] == ' '
    ensures Join(Pieces(s)) == s
  {
    assert Blank(s) == s;
  }

  lemma {:induction false} JoinOfWords(ts: seq<string>)
    requires forall i :: 0 <= i < |ts| ==> IsWord(ts[i])
    ensures forall i :: 0 <= i < |Join(ts)| ==> IsLower(Join(ts)[i]) || Join(ts)[i] == ' '
    ensures |ts| > 1 ==> HasSpace(Join(ts))
  {
    if |ts| > 1 {
      JoinOfWords(ts[1..]);
      var j := Join(ts);
      assert j == ts[0] + " " + Join(ts[1..]);
      assert IsSpace(j[|ts[0]|]);
    }
  }

  lemma {:induction false} DropTrailingEmptyUnchanged(ts: seq<string>)
    requires ts == [] || ts[|ts| - 1] != ""
    ensures DropTrailingEmpty(ts) == ts
  {
  }

  /** Text of lowercase letters and spaces is already normalized. */
  lemma NormalizedFixed(x: string)
    requires forall i :: 0 <= i < |x| ==> IsLower(x[i]) || x[i] == ' '
    ensures NormalizeContent(x) == x
  {
    LowerUnchanged(x);
    FilterKeepsAll(Kept, x);
  }

  /** The join of two or more tokens holds the space after the first one. */
  lemma JoinHasSpace(ts: seq<string>)
    requires |ts| > 1
    ensures HasSpace(Join(ts))
  {
    var joined := Join(ts);
    assert joined == ts[0] + " " + Join(ts[1..]);
    assert IsSpace(joined[|ts[0]|]);
  }

  /** Splitting the join of whitespace-free tokens that do not end in an
      empty token (unless there is just one) gives the tokens back. */
  lemma SplitOfJoin(ts: seq<string>)
    requires ts != []
    requires forall i :: 0 <= i < |ts| ==> NoSpace(ts[i])
    requires |ts| == 1 || ts[|ts| - 1] != ""
    ensures Split(Join(ts)) == ts
  {
    var joined := Join(ts);
    if |ts| == 1 {
      assert NoSpace(joined);
    } else {
      JoinHasSpace(ts);
      PiecesOfJoin(ts);
      DropTrailingEmptyUnchanged(ts);
    }
  }

  /** The join of lowercase words is left alone by normalisation, so it
      is tokenized by splitting alone. */
  lemma JoinedWordsTokenizeBySplit(ts: seq<string>)
    requires forall i :: 0 <= i < |ts| ==> IsWord(ts[i])
    ensures Tokenize(NormalizeContent(Join(ts))) == Split(Join(ts))
  {
    JoinOfWords(ts);
    NormalizedFixed(Join(ts));
    LowerUnchanged(Join(ts));
  }

  /** Lowercase words, not ending in an empty one, joined by single spaces
      tokenize back to themselves. */
  lemma RetokenizeWords(ts: seq<string>)
    requires ts != []
    requires forall i :: 0 <= i < |ts| ==> IsWord(ts[i])
    requires |ts| == 1 || ts[|ts| - 1] != ""
    ensures Tokenize(NormalizeContent(Join(ts))) == ts
  {
    forall i | 0 <= i < |ts| ensures NoSpace(ts[i]) {
      assert IsWord(ts[i]);
    }
    SplitOfJoin(ts);
    JoinedWordsTokenizeBySplit(ts);
  }

  /** Re-normalizing and re-tokenizing the single-space join of the tokens of
      normalized text gives the same tokens back, provided there is at least
      one token (blank text has none, and its join re-tokenizes as `[""]`). */
  lemma TokenizeRejoin(s: string)
    requires Tokenize(NormalizeContent(s)) != []
    ensures Tokenize(NormalizeContent(Join(Tokenize(NormalizeContent(s))))) == Tokenize(NormalizeContent(s))
  {
    TokensAreWords(s);
    RetokenizeWords(Tokenize(NormalizeContent(s)));
  }

  /** Blank content tokenizes to no tokens, but their join tokenizes to one
      empty token: the rejoin above needs its non-empty premise. */
  lemma BlankRejoin()
    ensures Tokenize(" ") == []
    ensures Tokenize(Join([])) == [""]
  {
    assert Lower(" ")[0] == ' ';
    assert Pieces(" ") == ["", ""];
    assert !HasSpace(Lower(""));
  }

  function LowerAll(words: set<string>): set<string> {
    set w | w in words :: Lower(w)
  }

  /** The test `StopWordsRemover` applies to each token. */
  function NotStopword(lowered: set<string>): string -> bool {
    t => Lower(t) !in lowered
  }

  /** Spark's `StopWordsRemover` with its default `caseSensitive = false`
      (app/app.py:63-64), the stopword list being a parameter: drops exactly the
      tokens whose lowercase form is the lowercase form of a stopword, keeps
      every other token, and keeps the order. */
  function RemoveStopwords(tokens: seq<string>, stopwords: set<string>): (r: seq<string>)
    ensures forall i :: 0 <= i < |r| ==> r[i] !in stopwords
    ensures IsSubseq(r, tokens)
    ensures forall t :: multiset(r)[t] == if Lower(t) in LowerAll(stopwords) then 0 else multiset(tokens)[t]
  {
    var r := Filter(NotStopword(LowerAll(stopwords)), tokens);
    assert forall i :: 0 <= i < |r| ==> Lower(r[i]) !in LowerAll(stopwords);
    r
  }

  /** "x  the" tokenizes with an empty token between its two spaces. */
  lemma TokenizeDoubleSpace()
    ensures Tokenize(NormalizeContent("x  the")) == ["x", "", "the"]
  {
    var ts: seq<string> := ["x", "", "the"];
    JoinDoubleSpace();
    assert IsWord(ts[0]) && IsWord(ts[1]) && IsWord(ts[2]);
    RetokenizeWords(ts);
  }

  lemma JoinDoubleSpace()
    ensures Join(["x", "", "the"]) == "x  the"
  {
    var ts: seq<string> := ["x", "", "the"];
    assert Join(ts[1..][1..]) == "the";
    assert Join(ts[1..]) == " the";
  }

  /** Removing the stopword "the" keeps the empty token. */
  lemma RemoveTheKeepsEmpty()
    ensures RemoveStopwords(["x", "", "the"], {"the"}) == ["x", ""]
  {
    var keep := NotStopword(LowerAll({"the"}));
    KeepsAllButThe();
    var ts: seq<string> := ["x", "", "the"];
    assert ts[1..] == ["", "the"] && ts[1..][1..] == ["the"] && ts[1..][1..][1..] == [];
    assert Filter(keep, ["the"]) == [];
    assert Filter(keep, ["", "the"]) == [""];
  }

  lemma KeepsAllButThe()
    ensures var keep := NotStopword(LowerAll({"the"})); !keep("the") && keep("x") && keep("")
  {
    LowerUnchanged("the");
    LowerUnchanged("x");
    LowerUnchanged("");
    assert LowerAll({"the"}) == {"the"};
  }

  /** The join "x " of `["x", ""]` splits without its empty token. */
  lemma SplitTrailingSpace()
    ensures Join(["x", ""]) == "x "
    ensures Split("x ") == ["x"]
  {
    var cleaned: seq<string> := ["x", ""];
    assert cleaned[1..] == [""];
    assert IsSpace("x "[1]);
    PiecesOfJoin(cleaned);
    assert cleaned[..1] == ["x"];
  }

  lemma RetokenizeTrailingEmpty()
    ensures Tokenize(NormalizeContent(Join(["x", ""]))) == ["x"]
  {
    var cleaned: seq<string> := ["x", ""];
    assert IsWord(cleaned[0]) && IsWord(cleaned[1]);
    JoinedWordsTokenizeBySplit(cleaned);
    SplitTrailingSpace();
  }

  /** After stopword removal the rejoin fails: in "x  the" with stopword
      "the", the empty token between the two spaces ends up last among the
      cleaned tokens, and their join "x " re-tokenizes without it. */
  lemma CleanedRejoinFails()
    ensures var cleaned := RemoveStopwords(Tokenize(NormalizeContent("x  the")), {"the"});
      cleaned == ["x", ""] && Tokenize(NormalizeContent(Join(cleaned))) == ["x"]
  {
    TokenizeDoubleSpace();
    RemoveTheKeepsEmpty();
    RetokenizeTrailingEmpty();
  }

  /** The length test of `filter_short_words` as written: length above 3. */
  predicate IsLong(w: string) {
    |w| > 3
  }

  /** `filter_short_words` (app/app.py:69-70): keeps exactly the words longer
      than 3 characters, in order; in particular no empty token survives. */
  function FilterShortWords(words: seq<string>): (r: seq<string>)
    ensures forall i :: 0 <= i < |r| ==> |r[i]| > 3
    ensures IsSubseq(r, words)
    ensures forall w :: multiset(r)[w] == if |w| > 3 then multiset(words)[w] else 0
  {
    Filter(IsLong, words)
  }

  /** The length filter is idempotent. */
  lemma FilterShortWordsIdempotent(words: seq<string>)
    ensures FilterShortWords(FilterShortWords(words)) == FilterShortWords(words)
  {
    FilterIdempotent(IsLong, words);
  }

  /** `pos.startswith('NN')`. */
  predicate IsNounTag(tag: string) {
    |tag| >= 2 && tag[..2] == "NN"
  }

  /** The comprehension at app/app.py:89 over the tagged tokens: the tokens
      whose tag starts with "NN", in order. */
  function NounsOf(tokens: seq<string>, tags: seq<string>): (r: seq<string>)
    requires |tags| == |tokens|
    ensures IsSubseq(r, tokens)
    ensures (forall i :: 0 <= i < |tags| ==> IsNounTag(tags[i])) ==> r == tokens
    ensures (forall i :: 0 <= i < |tags| ==> !IsNounTag(tags[i])) ==> r == []
  {
    if tokens == [] then []
    else if IsNounTag(tags[0]) then [tokens[0]] + NounsOf(tokens[1..], tags[1..])
    else NounsOf(tokens[1..], tags[1..])
  }

  /** The positions whose tag starts with "NN", in increasing order. */
  function NounPositions(tags: seq<string>): (r: seq<nat>)
    ensures forall k :: 0 <= k < |r| ==> r[k] < |tags| && IsNounTag(tags[r[k]])
    ensures forall i :: 0 <= i < |tags| && IsNounTag(tags[i]) ==> i in r
    ensures forall a, b :: 0 <= a < b < |r| ==> r[a] < r[b]
  {
    if tags == [] then []
    else
      var n := |tags| - 1;
      NounPositions(tags[..n]) + (if IsNounTag(tags[n]) then [n] else [])
  }

  lemma {:induction false} NounsOfSnoc(tokens: seq<string>, tags: seq<string>)
    requires |tags| == |tokens| > 0
    ensures var n := |tokens| - 1;
      NounsOf(tokens, tags) == NounsOf(tokens[..n], tags[..n]) + (if IsNounTag(tags[n]) then [tokens[n]] else [])
  {
    var n := |tokens| - 1;
    if n > 0 {
      NounsOfSnoc(tokens[1..], tags[1..]);
      assert tokens[1..][..n - 1] == tokens[..n][1..];
      assert tags[1..][..n - 1] == tags[..n][1..];
    }
  }

  /** The noun filter keeps exactly the tokens at the noun positions, in order. */
  lemma {:induction false} NounsAtPositions(tokens: seq<string>, tags: seq<string>)
    requires |tags| == |tokens|
    ensures |NounsOf(tokens, tags)| == |NounPositions(tags)|
    ensures forall k :: 0 <= k < |NounPositions(tags)| ==> NounsOf(tokens, tags)[k] == tokens[NounPositions(tags)[k]]
  {
    if tokens != [] {
      var n := |tokens| - 1;
      NounsOfSnoc(tokens, tags);
      NounsAtPositions(tokens[..n], tags[..n]);
      var before, idx := NounsOf(tokens[..n], tags[..n]), NounPositions(tags[..n]);
      var tail := if IsNounTag(tags[n]) then [tokens[n]] else [];
      assert NounsOf(tokens, tags) == before + tail;
      assert NounPositions(tags) == idx + (if IsNounTag(tags[n]) then [n] else []);
      forall k | 0 <= k < |idx|
        ensures NounsOf(tokens, tags)[k] == tokens[NounPositions(tags)[k]]
      {
        assert idx[k] < n;
        assert before[k] == tokens[..n][idx[k]];
      }
    }
  }

  /** `extract_nouns` (app/app.py:85-90). The tagger is a parameter: it sees
      the whole token sequence and returns one tag per token. */
  function ExtractNouns(tagger: seq<string> -> seq<string>, tokens: seq<string>): (r: seq<string>)
    requires |tagger(tokens)| == |tokens|
    ensures IsSubseq(r, tokens)
    ensures tokens == [] ==> r == []
    ensures (forall i :: 0 <= i < |tokens| ==> IsNounTag(tagger(tokens)[i])) ==> r == tokens
    ensures (forall i :: 0 <= i < |tokens| ==> !IsNounTag(tagger(tokens)[i])) ==> r == []
  {
    NounsOf(tokens, tagger(tokens))
  }
}
