/** The tokens an index build reads, what reading them does to the vocabulary, and when a `u32` can
    number their words (crates/admatch-core/src/index.rs). */
module Corpus {
  import opened Model
  import opened Normalization
  import opened Vocabulary

  function KeywordTexts(c: Campaign): seq<string> {
    seq(|c.keywords|, i requires 0 <= i < |c.keywords| => c.keywords[i].text)
  }

  function NegativeTexts(c: Campaign): seq<string> {
    seq(|c.negativeKeywords|, i requires 0 <= i < |c.negativeKeywords| => c.negativeKeywords[i].text)
  }

  // ---------- reading, step by step ----------

  /** None once an id was wanted and there was none left, for a known word too. */
  function ReadToken(vocab: Option<Vocab>, token: string): Option<Vocab> {
    match vocab
    case None => None
    case Some(v) =>
      if |v| > U32_MAX then None
      else if token in v then vocab
      else Some(v[token := |v|])
  }

  /** The first `n` tokens of a text. */
  function ReadTokens(vocab: Option<Vocab>, tokens: seq<string>, n: nat): Option<Vocab>
    requires n <= |tokens|
  {
    if n == 0 then vocab else ReadToken(ReadTokens(vocab, tokens, n - 1), tokens[n - 1])
  }

  function ReadText(u: Tables, vocab: Option<Vocab>, text: string): Option<Vocab> {
    ReadTokens(vocab, Tokenize(u, text), |Tokenize(u, text)|)
  }

  function ReadTexts(u: Tables, vocab: Option<Vocab>, texts: seq<string>, n: nat): Option<Vocab>
    requires n <= |texts|
  {
    if n == 0 then vocab else ReadText(u, ReadTexts(u, vocab, texts, n - 1), texts[n - 1])
  }

  function ReadCampaign(u: Tables, vocab: Option<Vocab>, c: Campaign): Option<Vocab> {
    ReadTexts(u, ReadTexts(u, vocab, KeywordTexts(c), |c.keywords|), NegativeTexts(c), |c.negativeKeywords|)
  }

  /** The vocabulary when the first `p` campaigns have been read. */
  function ReadCampaigns(u: Tables, campaigns: seq<Campaign>, p: nat): Option<Vocab>
    requires p <= |campaigns|
  {
    if p == 0 then Some(map[]) else ReadCampaign(u, ReadCampaigns(u, campaigns, p - 1), campaigns[p - 1])
  }

  // ---------- the whole stream ----------

  /** The tokens of these texts, one text after the other. */
  function Stream(u: Tables, texts: seq<string>, n: nat): seq<string>
    requires n <= |texts|
  {
    if n == 0 then [] else Stream(u, texts, n - 1) + Tokenize(u, texts[n - 1])
  }

  function CampaignTokens(u: Tables, c: Campaign): seq<string> {
    Stream(u, KeywordTexts(c), |c.keywords|) + Stream(u, NegativeTexts(c), |c.negativeKeywords|)
  }

  /** Every token of the first `p` campaigns, in the order read. */
  function TokensUpTo(u: Tables, campaigns: seq<Campaign>, p: nat): seq<string>
    requires p <= |campaigns|
  {
    if p == 0 then [] else TokensUpTo(u, campaigns, p - 1) + CampaignTokens(u, campaigns[p - 1])
  }

  function CorpusTokens(u: Tables, campaigns: seq<Campaign>): seq<string> {
    TokensUpTo(u, campaigns, |campaigns|)
  }

  function Words(stream: seq<string>): set<string> {
    set w | w in stream
  }

  /** Each token finds at most `U32_MAX` different words before it, so that there is an id for it
      even if it is new. */
  predicate Numberable(stream: seq<string>) {
    stream == [] || |Words(stream[..|stream| - 1])| <= U32_MAX
  }

  /** Reading the stream gave this vocabulary: of its words and no others, if it can be numbered. */
  ghost predicate Tracks(vocab: Option<Vocab>, stream: seq<string>) {
    match vocab
    case None => !Numberable(stream)
    case Some(v) => v.Keys == Words(stream) && Numberable(stream)
  }

  lemma FewerWords(a: seq<string>, b: seq<string>)
    ensures |Words(a)| <= |Words(a + b)|
  {
    assert forall w :: w in a ==> w in a + b;
    SubsetIsSmaller(Words(a), Words(a + b));
  }

  lemma NumberableNext(stream: seq<string>, token: string)
    ensures Numberable(stream + [token]) <==> |Words(stream)| <= U32_MAX
    ensures Words(stream + [token]) == Words(stream) + {token}
  {
    assert (stream + [token])[..|stream|] == stream;
  }

  /** A token without an id is not made up for by the next one. */
  lemma NotNumberableNext(stream: seq<string>, token: string)
    requires !Numberable(stream)
    ensures !Numberable(stream + [token])
  {
    var rest := stream[..|stream| - 1];
    assert stream == rest + [stream[|stream| - 1]];
    FewerWords(rest, [stream[|stream| - 1]]);
    NumberableNext(stream, token);
  }

  lemma TracksToken(vocab: Option<Vocab>, stream: seq<string>, token: string)
    requires Tracks(vocab, stream)
    ensures Tracks(ReadToken(vocab, token), stream + [token])
  {
    NumberableNext(stream, token);
    match vocab {
      case None => NotNumberableNext(stream, token);
      case Some(v) =>
        assert |v| == |v.Keys|;
        assert v[token := |v|].Keys == v.Keys + {token};
    }
  }

  lemma {:induction false} TracksTokens(vocab: Option<Vocab>, stream: seq<string>, tokens: seq<string>, n: nat)
    requires Tracks(vocab, stream) && n <= |tokens|
    ensures Tracks(ReadTokens(vocab, tokens, n), stream + tokens[..n])
  {
    if n == 0 {
      assert stream + tokens[..0] == stream;
    } else {
      TracksTokens(vocab, stream, tokens, n - 1);
      TracksToken(ReadTokens(vocab, tokens, n - 1), stream + tokens[..n - 1], tokens[n - 1]);
      assert stream + tokens[..n] == stream + tokens[..n - 1] + [tokens[n - 1]];
    }
  }

  lemma {:induction false} TracksTexts(u: Tables, vocab: Option<Vocab>, stream: seq<string>, texts: seq<string>, n: nat)
    requires Tracks(vocab, stream) && n <= |texts|
    ensures Tracks(ReadTexts(u, vocab, texts, n), stream + Stream(u, texts, n))
  {
    if n == 0 {
      assert stream + [] == stream;
    } else {
      var before, tokens := stream + Stream(u, texts, n - 1), Tokenize(u, texts[n - 1]);
      TracksTexts(u, vocab, stream, texts, n - 1);
      TracksTokens(ReadTexts(u, vocab, texts, n - 1), before, tokens, |tokens|);
      assert tokens[..|tokens|] == tokens;
      assert stream + Stream(u, texts, n) == before + tokens;
    }
  }

  lemma TracksCampaign(u: Tables, vocab: Option<Vocab>, stream: seq<string>, c: Campaign)
    requires Tracks(vocab, stream)
    ensures Tracks(ReadCampaign(u, vocab, c), stream + CampaignTokens(u, c))
  {
    var first, second := Stream(u, KeywordTexts(c), |c.keywords|), Stream(u, NegativeTexts(c), |c.negativeKeywords|);
    TracksTexts(u, vocab, stream, KeywordTexts(c), |c.keywords|);
    TracksTexts(u, ReadTexts(u, vocab, KeywordTexts(c), |c.keywords|), stream + first, NegativeTexts(c), |c.negativeKeywords|);
    assert stream + (first + second) == stream + first + second;
  }

  lemma {:induction false} TracksCampaigns(u: Tables, campaigns: seq<Campaign>, p: nat)
    requires p <= |campaigns|
    ensures Tracks(ReadCampaigns(u, campaigns, p), TokensUpTo(u, campaigns, p))
  {
    if p > 0 {
      TracksCampaigns(u, campaigns, p - 1);
      TracksCampaign(u, ReadCampaigns(u, campaigns, p - 1), TokensUpTo(u, campaigns, p - 1), campaigns[p - 1]);
    }
  }

  /** Step by step reading succeeds exactly on a numberable corpus, and leaves exactly its words. */
  lemma ReadingIff(u: Tables, campaigns: seq<Campaign>)
    ensures ReadCampaigns(u, campaigns, |campaigns|).Some? <==> Numberable(CorpusTokens(u, campaigns))
    ensures ReadCampaigns(u, campaigns, |campaigns|).Some? ==>
      ReadCampaigns(u, campaigns, |campaigns|).value.Keys == Words(CorpusTokens(u, campaigns))
  {
    TracksCampaigns(u, campaigns, |campaigns|);
  }

  // ---------- once stuck, stuck ----------

  lemma {:induction false} StuckInTokens(vocab: Option<Vocab>, tokens: seq<string>, n: nat, m: nat)
    requires n <= m <= |tokens| && ReadTokens(vocab, tokens, n) == None
    ensures ReadTokens(vocab, tokens, m) == None
  {
    if n < m {
      StuckInTokens(vocab, tokens, n, m - 1);
    }
  }

  lemma {:induction false} StuckInTexts(u: Tables, vocab: Option<Vocab>, texts: seq<string>, n: nat, m: nat)
    requires n <= m <= |texts| && ReadTexts(u, vocab, texts, n) == None
    ensures ReadTexts(u, vocab, texts, m) == None
  {
    if n < m {
      StuckInTexts(u, vocab, texts, n, m - 1);
      StuckInTokens(None, Tokenize(u, texts[m - 1]), 0, |Tokenize(u, texts[m - 1])|);
    }
  }

  lemma {:induction false} StuckInCampaigns(u: Tables, campaigns: seq<Campaign>, p: nat, q: nat)
    requires p <= q <= |campaigns| && ReadCampaigns(u, campaigns, p) == None
    ensures ReadCampaigns(u, campaigns, q) == None
  {
    if p < q {
      StuckInCampaigns(u, campaigns, p, q - 1);
      StuckInTexts(u, None, KeywordTexts(campaigns[q - 1]), 0, |campaigns[q - 1].keywords|);
      StuckInTexts(u, None, NegativeTexts(campaigns[q - 1]), 0, |campaigns[q - 1].negativeKeywords|);
    }
  }

  /** Unless there are exactly 2^32 different words, their number alone decides; then it depends on
      whether the last token is a new word. */
  lemma NumberableIff(stream: seq<string>)
    ensures |Words(stream)| <= U32_MAX ==> Numberable(stream)
    ensures |Words(stream)| > U32_MAX + 1 ==> !Numberable(stream)
    ensures |Words(stream)| == U32_MAX + 1 ==>
      (Numberable(stream) <==> stream[|stream| - 1] !in stream[..|stream| - 1])
  {
    if stream == [] {
      assert Words(stream) == {};
    } else {
      var rest, last := stream[..|stream| - 1], stream[|stream| - 1];
      assert stream == rest + [last];
      NumberableNext(rest, last);
      assert last in rest ==> Words(rest) + {last} == Words(rest);
      assert last !in rest ==> |Words(rest) + {last}| == |Words(rest)| + 1;
    }
  }

  // ---------- which words a corpus has ----------

  /** The campaign uses the word in a keyword or a negative keyword. */
  ghost predicate Uses(u: Tables, c: Campaign, w: string) {
    || (exists k :: k in c.keywords && w in Tokenize(u, k.text))
    || (exists n :: n in c.negativeKeywords && w in Tokenize(u, n.text))
  }

  lemma {:induction false} StreamIff(u: Tables, texts: seq<string>, n: nat, w: string)
    requires n <= |texts|
    ensures w in Stream(u, texts, n) <==> exists i :: 0 <= i < n && w in Tokenize(u, texts[i])
  {
    if n > 0 {
      StreamIff(u, texts, n - 1, w);
    }
  }

  lemma UsesIff(u: Tables, c: Campaign, w: string)
    ensures w in CampaignTokens(u, c) <==> Uses(u, c, w)
  {
    StreamIff(u, KeywordTexts(c), |c.keywords|, w);
    StreamIff(u, NegativeTexts(c), |c.negativeKeywords|, w);
    if Uses(u, c, w) {
      if k :| k in c.keywords && w in Tokenize(u, k.text) {
        var i :| 0 <= i < |c.keywords| && c.keywords[i] == k;
        assert KeywordTexts(c)[i] == k.text;
      } else {
        var n :| n in c.negativeKeywords && w in Tokenize(u, n.text);
        var i :| 0 <= i < |c.negativeKeywords| && c.negativeKeywords[i] == n;
        assert NegativeTexts(c)[i] == n.text;
      }
    }
  }

  lemma {:induction false} TokensUpToIff(u: Tables, campaigns: seq<Campaign>, p: nat, w: string)
    requires p <= |campaigns|
    ensures w in TokensUpTo(u, campaigns, p) <==> exists i :: 0 <= i < p && Uses(u, campaigns[i], w)
  {
    if p > 0 {
      TokensUpToIff(u, campaigns, p - 1, w);
      UsesIff(u, campaigns[p - 1], w);
    }
  }
}
