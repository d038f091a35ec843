/** `get_token_freq` (explode, then group by token and count) and the
    conversion of its result to the word-cloud weight map in `plot_freq`. */
module Freq {
  import opened Feed
  import opened Frame

  /** One row of the `token_counts` frame. */
  datatype TokenCount = TokenCount(token: string, frequency: nat)

  /** All rows' noun tokens, row after row. */
  function AllNouns(frame: seq<NounRow>): seq<string> {
    if frame == [] then [] else frame[0].nounTokens + AllNouns(frame[1..])
  }

  /** The number of noun tokens over all rows. */
  function TotalNouns(frame: seq<NounRow>): nat {
    if frame == [] then 0 else |frame[0].nounTokens| + TotalNouns(frame[1..])
  }

  /** The number of occurrences of `t` over all rows' noun tokens, no
      per-row deduplication. */
  function Occurrences(frame: seq<NounRow>, t: string): nat {
    if frame == [] then 0 else multiset(frame[0].nounTokens)[t] + Occurrences(frame[1..], t)
  }

  lemma {:induction false} AllNounsCounts(frame: seq<NounRow>)
    ensures |AllNouns(frame)| == TotalNouns(frame)
    ensures forall t :: multiset(AllNouns(frame))[t] == Occurrences(frame, t)
  {
    if frame != [] {
      AllNounsCounts(frame[1..]);
    }
  }

  /** A token occurs in the flattened list only if some row holds it. */
  lemma {:induction false} AllNounsMembers(frame: seq<NounRow>, t: string)
    requires t in AllNouns(frame)
    ensures exists i :: 0 <= i < |frame| && t in frame[i].nounTokens
  {
    if t !in frame[0].nounTokens {
      AllNounsMembers(frame[1..], t);
      var i :| 0 <= i < |frame| - 1 && t in frame[1..][i].nounTokens;
      assert t in frame[i + 1].nounTokens;
    }
  }

  /** The number of noun tokens in the rows before row `i`. */
  function Offset(frame: seq<NounRow>, i: nat): nat
    requires i <= |frame|
  {
    if i == 0 then 0 else |frame[0].nounTokens| + Offset(frame[1..], i - 1)
  }

  /** `df.select("url", explode("noun_tokens"))` (app/app.py:102): one
      (url, token) pair per noun token occurrence, row after row, the url
      being that of the row the token came from (`ExplodeRows`). Rows
      without nouns contribute nothing. */
  function Explode(frame: seq<NounRow>): (r: seq<(Json, string)>)
    ensures |r| == |AllNouns(frame)|
    ensures forall k :: 0 <= k < |r| ==> r[k].1 == AllNouns(frame)[k]
  {
    if frame == [] then []
    else
      var row := frame[0];
      var head := seq(|row.nounTokens|, j requires 0 <= j < |row.nounTokens| => (row.row.row.url, row.nounTokens[j]));
      head + Explode(frame[1..])
  }

  /** The pair for token `j` of row `i` sits after the tokens of the
      earlier rows and carries row `i`'s url. */
  lemma {:induction false} ExplodeRows(frame: seq<NounRow>, i: nat, j: nat)
    requires i < |frame| && j < |frame[i].nounTokens|
    ensures Offset(frame, i) + j < |Explode(frame)|
    ensures Explode(frame)[Offset(frame, i) + j] == (frame[i].row.row.url, frame[i].nounTokens[j])
  {
    var row := frame[0];
    var head := seq(|row.nounTokens|, j requires 0 <= j < |row.nounTokens| => (row.row.row.url, row.nounTokens[j]));
    assert Explode(frame) == head + Explode(frame[1..]);
    if i > 0 {
      assert frame[1..][i - 1] == frame[i];
      ExplodeRows(frame[1..], i - 1, j);
      assert Offset(frame, i) + j == |head| + (Offset(frame[1..], i - 1) + j);
    }
  }

  /** The token column of the exploded frame. */
  function TokenColumn(pairs: seq<(Json, string)>): seq<string> {
    seq(|pairs|, k requires 0 <= k < |pairs| => pairs[k].1)
  }

  /** No token has two rows in the table. */
  predicate DistinctTokens(table: seq<TokenCount>) {
    forall i, j :: 0 <= i < j < |table| ==> table[i].token != table[j].token
  }

  /** The tokens that have a row in the table. */
  function Keys(table: seq<TokenCount>): set<string> {
    set i | 0 <= i < |table| :: table[i].token
  }

  /** The frequency of `t` in the table, 0 when it has no row. */
  function Lookup(table: seq<TokenCount>, t: string): nat {
    if table == [] then 0
    else if table[0].token == t then table[0].frequency
    else Lookup(table[1..], t)
  }

  lemma KeysCons(e: TokenCount, rest: seq<TokenCount>)
    ensures Keys([e] + rest) == {e.token} + Keys(rest)
  {
    var s := [e] + rest;
    forall x | x in Keys(s) ensures x in {e.token} + Keys(rest) {
      var i :| 0 <= i < |s| && s[i].token == x;
      if i > 0 { assert rest[i - 1].token == x; }
    }
    forall x | x in Keys(rest) ensures x in Keys(s) {
      var i :| 0 <= i < |rest| && rest[i].token == x;
      assert s[i + 1].token == x;
    }
    assert s[0].token == e.token;
  }

  function SumFrequencies(table: seq<TokenCount>): nat {
    if table == [] then 0 else table[0].frequency + SumFrequencies(table[1..])
  }

  predicate PositiveFrequencies(table: seq<TokenCount>) {
    forall i :: 0 <= i < |table| ==> table[i].frequency >= 1
  }

  /** Counts one more occurrence of `t`: its row is incremented, or a row
      with count 1 is added at the end. */
  function Tally(table: seq<TokenCount>, t: string): (r: seq<TokenCount>)
    requires DistinctTokens(table)
    ensures DistinctTokens(r)
    ensures Keys(r) == Keys(table) + {t}
  {
    if table == [] then
      KeysCons(TokenCount(t, 1), []);
      [TokenCount(t, 1)]
    else
      DistinctSplit(table);
      if table[0].token == t then
        KeysCons(TokenCount(t, table[0].frequency + 1), table[1..]);
        DistinctCons(TokenCount(t, table[0].frequency + 1), table[1..]);
        [TokenCount(t, table[0].frequency + 1)] + table[1..]
      else
        var rest := Tally(table[1..], t);
        KeysCons(table[0], rest);
        DistinctCons(table[0], rest);
        [table[0]] + rest
  }

  /** A table with distinct tokens is its first row, whose token has no
      other row, followed by a table with distinct tokens. */
  lemma DistinctSplit(table: seq<TokenCount>)
    requires table != [] && DistinctTokens(table)
    ensures DistinctTokens(table[1..])
    ensures table[0].token !in Keys(table[1..])
    ensures Keys(table) == {table[0].token} + Keys(table[1..])
  {
    assert table == [table[0]] + table[1..];
    KeysCons(table[0], table[1..]);
    assert forall j :: 0 <= j < |table[1..]| ==> table[1..][j] == table[j + 1];
  }

  /** A row whose token has no row in a distinct table keeps it distinct. */
  lemma DistinctCons(e: TokenCount, rest: seq<TokenCount>)
    requires DistinctTokens(rest) && e.token !in Keys(rest)
    ensures DistinctTokens([e] + rest)
  {
    var s := [e] + rest;
    forall i, j | 0 <= i < j < |s| ensures s[i].token != s[j].token {
      assert s[j] == rest[j - 1];
      if i > 0 {
        assert s[i] == rest[i - 1];
      }
    }
  }

  /** Tallying `t` adds one to the frequency of `t` and to the total, and
      changes no other frequency. */
  lemma {:induction false} TallyCounts(table: seq<TokenCount>, t: string)
    requires DistinctTokens(table)
    ensures forall u :: Lookup(Tally(table, t), u) == Lookup(table, u) + (if u == t then 1 else 0)
    ensures SumFrequencies(Tally(table, t)) == SumFrequencies(table) + 1
    ensures PositiveFrequencies(table) ==> PositiveFrequencies(Tally(table, t))
  {
    if table != [] && table[0].token != t {
      TallyCounts(table[1..], t);
      var r := Tally(table, t);
      assert r[1..] == Tally(table[1..], t);
    }
  }

  /** Group by token and count (app/app.py:105), over the token column. */
  function CountByToken(tokens: seq<string>): (r: seq<TokenCount>)
    ensures DistinctTokens(r)
    ensures PositiveFrequencies(r)
    ensures Keys(r) == set t | t in tokens
    ensures forall u :: Lookup(r, u) == multiset(tokens)[u]
    ensures SumFrequencies(r) == |tokens|
  {
    if tokens == [] then []
    else
      var n := |tokens| - 1;
      assert tokens == tokens[..n] + [tokens[n]];
      TallyCounts(CountByToken(tokens[..n]), tokens[n]);
      Tally(CountByToken(tokens[..n]), tokens[n])
  }

  /** The frequency in a row of a table whose tokens are distinct is what
      `Lookup` finds for that token. */
  lemma {:induction false} LookupEntry(table: seq<TokenCount>, i: int)
    requires DistinctTokens(table)
    requires 0 <= i < |table|
    ensures Lookup(table, table[i].token) == table[i].frequency
  {
    if i > 0 {
      LookupEntry(table[1..], i - 1);
    }
  }

  /** `get_token_freq` (app/app.py:100-107): one row per distinct noun token,
      whose frequency is its number of occurrences over all rows; every
      frequency is at least 1 and they add up to the number of noun tokens. */
  function GetTokenFreq(frame: seq<NounRow>): (r: seq<TokenCount>)
    ensures DistinctTokens(r)
    ensures forall i :: 0 <= i < |r| ==> r[i].frequency == Occurrences(frame, r[i].token) >= 1
    ensures forall t :: Occurrences(frame, t) > 0 <==> t in Keys(r)
    ensures SumFrequencies(r) == TotalNouns(frame)
  {
    var pairs := Explode(frame);
    assert TokenColumn(pairs) == AllNouns(frame);
    AllNounsCounts(frame);
    var r := CountByToken(TokenColumn(pairs));
    forall i | 0 <= i < |r| ensures r[i].frequency == Occurrences(frame, r[i].token) {
      LookupEntry(r, i);
    }
    r
  }

  lemma {:induction false} LookupSnoc(table: seq<TokenCount>, u: string)
    requires table != []
    ensures var n := |table| - 1;
      Lookup(table, u) == if u in Keys(table[..n]) then Lookup(table[..n], u)
                          else if u == table[n].token then table[n].frequency else 0
  {
    var n := |table| - 1;
    if n > 0 {
      LookupSnoc(table[1..], u);
      assert table[1..][..n - 1] == table[..n][1..];
      assert table[..n] == [table[0]] + table[..n][1..];
      KeysCons(table[0], table[..n][1..]);
    }
  }

  /** `dict(zip(tokens, frequencies))` (app/app.py:118): later rows overwrite
      earlier ones. On a table with distinct tokens nothing is lost: one
      entry per row, with the row's frequency. */
  function WeightMap(table: seq<TokenCount>): (m: map<string, nat>)
    ensures m.Keys == Keys(table)
    ensures DistinctTokens(table) ==> |m| == |table|
    ensures DistinctTokens(table) ==> forall u :: u in m ==> m[u] == Lookup(table, u)
  {
    if table == [] then map[]
    else
      var n := |table| - 1;
      var before := WeightMap(table[..n]);
      assert Keys(table) == Keys(table[..n]) + {table[n].token};
      forall u ensures Lookup(table, u) == if u in Keys(table[..n]) then Lookup(table[..n], u)
                                         else if u == table[n].token then table[n].frequency else 0 {
        LookupSnoc(table, u);
      }
      before[table[n].token := table[n].frequency]
  }

  /** `plot_freq` (app/app.py:112-121) up to the renderer: the weight map of
      the table, which `generate_from_frequencies` refuses with a
      `ValueError` when it holds no word. */
  function PlotFreq(table: seq<TokenCount>): (r: Result<map<string, nat>>)
    ensures r.Ok? <==> table != []
    ensures r.Ok? ==> r.value == WeightMap(table) && r.value != map[]
    ensures r.Err? ==> r.error == ValueError && WeightMap(table) == map[]
  {
    if table == [] then Err(ValueError)
    else
      assert table[0].token in Keys(table);
      Ok(WeightMap(table))
  }
}
