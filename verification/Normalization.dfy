/** Query normalisation (crates/admatch-core/src/normalize.rs). */
module Normalization {
  import opened Model

  const MAX_QUERY_CHARS: nat := 200
  const MAX_QUERY_TOKENS: nat := 16

  datatype QueryError = Empty | TooLong | TooManyTokens

  /** The Unicode tables the code takes from the standard library. `settled` names the
      characters that lower-casing leaves alone wherever they stand. */
  datatype Tables = Tables(
    lower: string -> string,
    alphanumeric: char -> bool,
    whitespace: char -> bool,
    settled: char -> bool)

  /** What the round trip below needs of the tables. */
  ghost predicate ValidTables(u: Tables) {
    && u.whitespace(' ') && !u.alphanumeric(' ') && u.settled(' ')
    && (forall c :: u.alphanumeric(c) ==> !u.whitespace(c))
    && (forall s, c :: c in u.lower(s) ==> u.settled(c))
    && (forall s: string :: (forall c :: c in s ==> u.settled(c)) ==> u.lower(s) == s)
  }

  /** Only alphanumeric characters survive; spaces take the place of the others. */
  function Clean(u: Tables, s: string): (r: string)
    ensures |r| == |s|
  {
    seq(|s|, i requires 0 <= i < |s| => if u.alphanumeric(s[i]) then s[i] else ' ')
  }

  /** `split_whitespace`, with `word` the characters read since the last separator. */
  function SplitWhitespace(u: Tables, s: string, word: string): seq<string> {
    var finished := if word == [] then [] else [word];
    if s == [] then finished
    else if u.whitespace(s[0]) then finished + SplitWhitespace(u, s[1..], [])
    else SplitWhitespace(u, s[1..], word + [s[0]])
  }

  function Tokenize(u: Tables, text: string): seq<string> {
    SplitWhitespace(u, Clean(u, u.lower(text)), [])
  }

  /** The words of a text: all that matching looks at, so neither order nor repetition counts. */
  function TokenSet(u: Tables, text: string): set<string> {
    set t | t in Tokenize(u, text)
  }

  function Normalize(u: Tables, query: string): Result<seq<string>, QueryError> {
    if |query| > MAX_QUERY_CHARS then Failure(TooLong)
    else
      var tokens := Tokenize(u, query);
      if tokens == [] then Failure(Empty)
      else if |tokens| > MAX_QUERY_TOKENS then Failure(TooManyTokens)
      else Success(tokens)
  }

  // ---------- what the tokens of a text are ----------

  /** What the next facts need: letters and digits are not white space, and a space is. */
  ghost predicate SpacesSeparate(u: Tables) {
    && u.whitespace(' ') && !u.alphanumeric(' ')
    && forall c :: u.alphanumeric(c) ==> !u.whitespace(c)
  }

  lemma {:induction false} SplitAfter(u: Tables, x: string, c: char, y: string, word: string)
    requires u.whitespace(c)
    ensures SplitWhitespace(u, x + [c] + y, word) == SplitWhitespace(u, x, word) + SplitWhitespace(u, y, [])
  {
    if x == [] {
      assert x + [c] + y == [c] + y && ([c] + y)[1..] == y;
    } else {
      assert (x + [c] + y)[1..] == x[1..] + [c] + y;
      if u.whitespace(x[0]) {
        SplitAfter(u, x[1..], c, y, []);
      } else {
        SplitAfter(u, x[1..], c, y, word + [x[0]]);
      }
    }
  }

  lemma {:induction false} SplitOneWord(u: Tables, x: string, word: string)
    requires forall c :: c in x ==> !u.whitespace(c)
    ensures SplitWhitespace(u, x, word) == if word + x == [] then [] else [word + x]
  {
    if x != [] {
      SplitOneWord(u, x[1..], word + [x[0]]);
      assert word + [x[0]] + x[1..] == word + x;
    } else {
      assert word + x == word;
    }
  }

  /** Splitting at white space, for every string: any separator separates what is before it from
      what is after it, however many there are and wherever they stand; and nothing else does. */
  lemma SplitMeans(u: Tables, x: string, c: char, y: string)
    ensures u.whitespace(c) ==>
      SplitWhitespace(u, x + [c] + y, []) == SplitWhitespace(u, x, []) + SplitWhitespace(u, y, [])
    ensures (forall d :: d in x ==> !u.whitespace(d)) ==> SplitWhitespace(u, x, []) == if x == [] then [] else [x]
  {
    if u.whitespace(c) {
      SplitAfter(u, x, c, y, []);
    }
    if forall d :: d in x ==> !u.whitespace(d) {
      SplitOneWord(u, x, []);
      assert [] + x == x;
    }
  }

  /** The tokens of a text already in lower case. */
  function TokensIn(u: Tables, lowered: string): seq<string> {
    SplitWhitespace(u, Clean(u, lowered), [])
  }

  /** Tokens are the maximal runs of letters and digits of the lower-cased text, in order: a
      character that is neither ends one run and may start another, and a text without such a
      character is one token, unless it is empty. */
  lemma TokensAreRuns(u: Tables, text: string, x: string, c: char, y: string)
    requires SpacesSeparate(u)
    ensures Tokenize(u, text) == TokensIn(u, u.lower(text))
    ensures !u.alphanumeric(c) ==> TokensIn(u, x + [c] + y) == TokensIn(u, x) + TokensIn(u, y)
    ensures (forall d :: d in x ==> u.alphanumeric(d)) ==> TokensIn(u, x) == if x == [] then [] else [x]
  {
    if !u.alphanumeric(c) {
      assert Clean(u, x + [c] + y) == Clean(u, x) + [' '] + Clean(u, y);
      SplitMeans(u, Clean(u, x), ' ', Clean(u, y));
    }
    if forall d :: d in x ==> u.alphanumeric(d) {
      assert Clean(u, x) == x;
      SplitMeans(u, x, ' ', []);
    }
  }

  lemma {:induction false} NoTokenIff(u: Tables, s: string)
    requires SpacesSeparate(u)
    ensures TokensIn(u, s) == [] <==> forall c :: c in s ==> !u.alphanumeric(c)
  {
    if i :| 0 <= i < |s| && !u.alphanumeric(s[i]) {
      var x, y := s[..i], s[i + 1..];
      assert s == x + [s[i]] + y;
      TokensAreRuns(u, [], x, s[i], y);
      NoTokenIff(u, x);
      NoTokenIff(u, y);
    } else {
      TokensAreRuns(u, [], s, ' ', []);
      assert s != [] ==> s[0] in s;
    }
  }

  /** Which queries are refused, and how: too long as given; otherwise without a letter or digit;
      otherwise with too many tokens. */
  lemma RefusedQueries(u: Tables, query: string)
    requires SpacesSeparate(u)
    ensures Normalize(u, query) == Failure(TooLong) <==> |query| > 200
    ensures Normalize(u, query) == Failure(Empty) <==>
      |query| <= 200 && forall c :: c in u.lower(query) ==> !u.alphanumeric(c)
    ensures Normalize(u, query) == Failure(TooManyTokens) <==> |query| <= 200 && |Tokenize(u, query)| > 16
    ensures Normalize(u, query).Success? ==> Normalize(u, query).value == Tokenize(u, query)
  {
    NoTokenIff(u, u.lower(query));
  }

  /** The words joined by single spaces. */
  function Join(words: seq<string>): string {
    if words == [] then []
    else if |words| == 1 then words[0]
    else words[0] + [' '] + Join(words[1..])
  }

  ghost predicate IsToken(u: Tables, t: string) {
    t != [] && forall c :: c in t ==> u.alphanumeric(c) && u.settled(c)
  }

  lemma {:induction false} SplitGivesTokens(u: Tables, s: string, word: string)
    requires ValidTables(u)
    requires forall c :: c in s ==> c == ' ' || (u.alphanumeric(c) && u.settled(c))
    requires word == [] || IsToken(u, word)
    ensures forall t :: t in SplitWhitespace(u, s, word) ==> IsToken(u, t)
  {
    if s != [] {
      assert s[0] in s;
      if u.whitespace(s[0]) {
        SplitGivesTokens(u, s[1..], []);
      } else {
        SplitGivesTokens(u, s[1..], word + [s[0]]);
      }
    }
  }

  /** Every token is a non-empty run of lower-case letters and digits. */
  lemma TokensAreWords(u: Tables, text: string)
    requires ValidTables(u)
    ensures forall t :: t in Tokenize(u, text) ==> IsToken(u, t)
  {
    SplitGivesTokens(u, Clean(u, u.lower(text)), []);
  }

  lemma {:induction false} SplitReadsWord(u: Tables, t: string, rest: string, word: string)
    requires forall c :: c in t ==> !u.whitespace(c)
    ensures SplitWhitespace(u, t + rest, word) == SplitWhitespace(u, rest, word + t)
  {
    if t == [] {
      assert t + rest == rest && word + t == word;
    } else {
      assert t[0] in t;
      assert (t + rest)[1..] == t[1..] + rest;
      assert word + [t[0]] + t[1..] == word + t;
      SplitReadsWord(u, t[1..], rest, word + [t[0]]);
    }
  }

  lemma {:induction false} SplitUndoesJoin(u: Tables, words: seq<string>)
    requires ValidTables(u)
    requires forall t :: t in words ==> IsToken(u, t)
    ensures SplitWhitespace(u, Join(words), []) == words
    ensures forall c :: c in Join(words) ==> c == ' ' || (u.alphanumeric(c) && u.settled(c))
  {
    if words != [] {
      assert words[0] in words;
      SplitUndoesJoin(u, words[1..]);
      var rest := if |words| == 1 then [] else [' '] + Join(words[1..]);
      assert Join(words) == words[0] + rest;
      SplitReadsWord(u, words[0], rest, []);
      assert [] + words[0] == words[0];
      if |words| > 1 {
        assert rest[1..] == Join(words[1..]);
        assert words == [words[0]] + words[1..];
      }
    }
  }

  /** Tokenising what a text was normalised to changes nothing: queries and keywords can be
      stored and passed on in normal form. */
  lemma TokenizeRoundTrip(u: Tables, text: string)
    requires ValidTables(u)
    ensures Tokenize(u, Join(Tokenize(u, text))) == Tokenize(u, text)
  {
    TokensAreWords(u, text);
    var joined := Join(Tokenize(u, text));
    SplitUndoesJoin(u, Tokenize(u, text));
    assert u.lower(joined) == joined;
    assert Clean(u, joined) == joined;
  }

  lemma {:induction false} DistinctWords(words: seq<string>)
    ensures |set t | t in words| <= |words|
    ensures words != [] ==> |set t | t in words| > 0
  {
    if words != [] {
      DistinctWords(words[1..]);
      assert (set t | t in words) == (set t | t in words[1..]) + {words[0]};
    }
  }

  /** An accepted query has between one and sixteen distinct tokens. */
  lemma AcceptedQueryIsSmall(u: Tables, query: string)
    requires Normalize(u, query).Success?
    ensures Normalize(u, query).value == Tokenize(u, query)
    ensures 1 <= |TokenSet(u, query)| <= MAX_QUERY_TOKENS
  {
    DistinctWords(Tokenize(u, query));
  }
}
