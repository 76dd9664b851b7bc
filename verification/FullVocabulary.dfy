/** With exactly 2^32 words the order of the keywords decides whether an index can be built. */
module FullVocabulary {
  import opened Model
  import opened Normalization
  import opened Vocabulary
  import opened Corpus
  import opened Identity
  import opened Matching
  import opened Reordering
  import opened Examples

  const FULL: nat := 0x1_0000_0000

  function Letters(n: nat): string {
    seq(n, _ => 'a')
  }

  /** Keywords of one word each, all different. */
  function Different(n: nat): seq<Keyword>
    requires n <= FULL
  {
    seq(n, i requires 0 <= i < n => Keyword(i, Letters(i + 1), Broad, 100))
  }

  /** One more keyword, on the first of these words. */
  const AGAIN := Keyword(FULL, Letters(1), Broad, 100)

  function Holding(keywords: seq<Keyword>): Campaign {
    Campaign(1, 1, "", Active, 150, [IN], None, None, keywords, [])
  }

  lemma LettersAreOneToken(n: nat)
    requires n > 0
    ensures Tokenize(PLAIN, Letters(n)) == [Letters(n)]
  {
    var w := Letters(n);
    assert Clean(PLAIN, w) == w;
    SplitReadsWord(PLAIN, w, [], []);
    assert w + [] == w && [] + w == w;
  }

  /** The texts as a stream: one token each. */
  lemma {:induction false} StreamOfWords(texts: seq<string>, n: nat)
    requires n <= |texts| && forall t :: t in texts ==> t == Letters(|t|) && t != []
    ensures Stream(PLAIN, texts, n) == texts[..n]
  {
    if n > 0 {
      StreamOfWords(texts, n - 1);
      assert texts[n - 1] in texts;
      LettersAreOneToken(|texts[n - 1]|);
      assert texts[..n] == texts[..n - 1] + [texts[n - 1]];
    }
  }

  lemma OneCampaignStream(keywords: seq<Keyword>)
    requires forall k :: k in keywords ==> k.text == Letters(|k.text|) && k.text != []
    ensures CorpusTokens(PLAIN, [Holding(keywords)]) == KeywordTexts(Holding(keywords))
  {
    var c := Holding(keywords);
    var texts := KeywordTexts(c);
    StreamOfWords(texts, |texts|);
    assert texts[..|texts|] == texts;
    assert CampaignTokens(PLAIN, c) == texts + [];
    assert TokensUpTo(PLAIN, [c], 1) == TokensUpTo(PLAIN, [c], 0) + CampaignTokens(PLAIN, c);
  }

  function WordList(n: nat): seq<string> {
    seq(n, i requires 0 <= i < n => Letters(i + 1))
  }

  lemma NextIsNew(n: nat)
    ensures Letters(n + 1) !in WordList(n)
  {
    forall i | 0 <= i < n ensures WordList(n)[i] != Letters(n + 1) {
      assert |WordList(n)[i]| == i + 1;
    }
  }

  lemma {:induction false} SoManyWords(n: nat)
    ensures |Words(WordList(n))| == n
  {
    if n == 0 {
      assert Words(WordList(0)) == {};
    } else {
      SoManyWords(n - 1);
      NextIsNew(n - 1);
      assert WordList(n) == WordList(n - 1) + [Letters(n)];
      NumberableNext(WordList(n - 1), Letters(n));
      assert Letters(n) !in Words(WordList(n - 1));
    }
  }

  lemma LastIsKnown()
    ensures !Numberable(WordList(FULL) + [Letters(1)])
  {
    SoManyWords(FULL);
    NumberableNext(WordList(FULL), Letters(1));
  }

  lemma LastIsNew()
    ensures Numberable([Letters(1)] + WordList(FULL))
  {
    SoManyWords(FULL - 1);
    var rest := [Letters(1)] + WordList(FULL - 1);
    assert [Letters(1)] + WordList(FULL) == rest + [Letters(FULL)];
    assert WordList(FULL - 1)[0] == Letters(1);
    assert Words(rest) == Words(WordList(FULL - 1));
    NumberableNext(rest, Letters(FULL));
  }

  lemma IdsAreUnique(cs: seq<Campaign>)
    requires |cs| == 1 && forall i, j :: 0 <= i < j < |cs[0].keywords| ==> cs[0].keywords[i].id != cs[0].keywords[j].id
    ensures AllIdsUnique(cs)
  {}

  /** The new word at the end or at the front. */
  lemma KeywordStreams()
    ensures CorpusTokens(PLAIN, [Holding(Different(FULL) + [AGAIN])]) == WordList(FULL) + [Letters(1)]
    ensures CorpusTokens(PLAIN, [Holding([AGAIN] + Different(FULL))]) == [Letters(1)] + WordList(FULL)
  {
    var last, first := Different(FULL) + [AGAIN], [AGAIN] + Different(FULL);
    OneCampaignStream(last);
    OneCampaignStream(first);
    assert KeywordTexts(Holding(last)) == WordList(FULL) + [Letters(1)];
    assert KeywordTexts(Holding(first)) == [Letters(1)] + WordList(FULL);
  }

  lemma ExactlyFull()
    ensures |Words(WordList(FULL) + [Letters(1)])| == FULL
  {
    SoManyWords(FULL);
    assert WordList(FULL)[0] == Letters(1);
    assert Words(WordList(FULL) + [Letters(1)]) == Words(WordList(FULL));
  }

  /** The same keywords in two orders: one is accepted, the other is not. */
  lemma OrderDecidesWhenExactlyFull() returns (cs: seq<Campaign>, ds: seq<Campaign>)
    ensures Reordered(cs, ds, [0], [0]) && AllIdsUnique(cs) && AllIdsUnique(ds)
    ensures |Words(CorpusTokens(PLAIN, cs))| == U32_MAX + 1
    ensures !Numberable(CorpusTokens(PLAIN, cs)) && Numberable(CorpusTokens(PLAIN, ds))
  {
    cs, ds := [Holding(Different(FULL) + [AGAIN])], [Holding([AGAIN] + Different(FULL))];
    KeywordStreams();
    LastIsKnown();
    LastIsNew();
    ExactlyFull();
    IdsAreUnique(cs);
    IdsAreUnique(ds);
    assert multiset(cs[0].keywords) == multiset(ds[0].keywords);
  }
}
