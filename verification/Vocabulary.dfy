/** Interned tokens: how sets of token ids stand for sets of words. Value-level facts behind the
    index of crates/admatch-core/src/index.rs. */
module Vocabulary {
  import opened Model
  import opened Sorting

  type Vocab = map<string, TokenId>

  ghost predicate IdsNameWords(vocab: Vocab, words: seq<string>) {
    forall w :: w in vocab ==> vocab[w] < |words| && words[vocab[w]] == w
  }

  ghost predicate WordsHaveIds(vocab: Vocab, words: seq<string>) {
    forall i :: 0 <= i < |words| ==> words[i] in vocab && vocab[words[i]] == i
  }

  /** The vocabulary is a bijection between its words and the ids `0..len`, all within `u32`;
      `words` is the inverse. */
  ghost predicate VocabOk(vocab: Vocab, words: seq<string>) {
    |vocab| == |words| <= U32_MAX + 1 && IdsNameWords(vocab, words) && WordsHaveIds(vocab, words)
  }

  /** `tokens` are the ids of exactly the words `ts`. */
  ghost predicate Describes(vocab: Vocab, words: seq<string>, tokens: seq<TokenId>, ts: set<string>) {
    && Increasing(tokens)
    && (forall t :: t in tokens ==> t < |words| && words[t] in ts)
    && (forall w :: w in ts ==> w in vocab && vocab[w] in tokens)
  }

  ghost predicate Grows(vocab: Vocab, words: seq<string>, vocab': Vocab, words': seq<string>) {
    && VocabOk(vocab, words) && VocabOk(vocab', words')
    && words <= words'
  }

  lemma GrowthKeepsIds(vocab: Vocab, words: seq<string>, vocab': Vocab, words': seq<string>)
    requires Grows(vocab, words, vocab', words')
    ensures forall w :: w in vocab ==> w in vocab' && vocab'[w] == vocab[w]
    ensures forall tokens, ts :: Describes(vocab, words, tokens, ts) ==> Describes(vocab', words', tokens, ts)
  {}

  lemma IdsStillNameWords(vocab: Vocab, words: seq<string>, w: string)
    requires IdsNameWords(vocab, words)
    ensures IdsNameWords(vocab[w := |words|], words + [w])
  {
    var vocab', words' := vocab[w := |words|], words + [w];
    forall x | x in vocab' ensures vocab'[x] < |words'| && words'[vocab'[x]] == x {
      assert x != w ==> x in vocab && words[vocab[x]] == x;
    }
  }

  lemma WordsStillHaveIds(vocab: Vocab, words: seq<string>, w: string)
    requires WordsHaveIds(vocab, words) && w !in vocab
    ensures WordsHaveIds(vocab[w := |words|], words + [w])
  {
    var vocab', words' := vocab[w := |words|], words + [w];
    forall i | 0 <= i < |words'| ensures words'[i] in vocab' && vocab'[words'[i]] == i {
      assert i < |words| ==> words[i] in vocab && words[i] != w;
    }
  }

  lemma OneMoreWord(vocab: Vocab, w: string, id: TokenId)
    requires w !in vocab
    ensures |vocab[w := id]| == |vocab| + 1
  {
    assert vocab[w := id].Keys == vocab.Keys + {w};
    assert |vocab[w := id].Keys| == |vocab.Keys| + 1;
  }

  /** Interning one new word. */
  lemma InternWord(vocab: Vocab, words: seq<string>, w: string)
    requires VocabOk(vocab, words) && w !in vocab && |vocab| <= U32_MAX
    ensures Grows(vocab, words, vocab[w := |vocab|], words + [w])
  {
    IdsStillNameWords(vocab, words, w);
    WordsStillHaveIds(vocab, words, w);
    OneMoreWord(vocab, w, |words|);
  }

  /** The ids of a list of interned words, sorted and without repeats, describe its set. */
  lemma IdsDescribe(vocab: Vocab, words: seq<string>, list: seq<string>, ids: seq<TokenId>)
    requires VocabOk(vocab, words) && |ids| == |list|
    requires forall i :: 0 <= i < |list| ==> list[i] in vocab && ids[i] == vocab[list[i]]
    ensures Describes(vocab, words, SortDedup(ids), set w | w in list)
  {}

  lemma {:induction false} DescribedSize(vocab: Vocab, words: seq<string>, tokens: seq<TokenId>, ts: set<string>)
    requires VocabOk(vocab, words) && Describes(vocab, words, tokens, ts)
    ensures |tokens| == |ts|
  {
    if tokens == [] {
      assert ts == {};
    } else {
      var t, rest := tokens[|tokens| - 1], tokens[..|tokens| - 1];
      assert t in tokens;
      var w := words[t];
      forall s | s in rest ensures words[s] in ts - {w} {
        assert s in tokens;
        assert vocab[words[s]] == s && vocab[w] == t;
      }
      forall v | v in ts - {w} ensures vocab[v] in rest {
        assert vocab[v] in tokens && vocab[v] != t;
      }
      DescribedSize(vocab, words, rest, ts - {w});
      assert w in ts;
    }
  }

  lemma {:induction false} SubsetOfSameSize(a: set<string>, b: set<string>)
    requires a <= b && |a| == |b|
    ensures a == b
  {
    if a != {} {
      var x :| x in a;
      SubsetOfSameSize(a - {x}, b - {x});
    } else {
      assert b == {};
    }
  }

  lemma {:induction false} SubsetIsSmaller(a: set<string>, b: set<string>)
    requires a <= b
    ensures |a| <= |b|
    decreases a
  {
    if a != {} {
      var x :| x in a;
      SubsetIsSmaller(a - {x}, b - {x});
    }
  }

  /** The words of `q` the vocabulary knows. */
  ghost function Known(vocab: Vocab, q: set<string>): set<string> {
    q * vocab.Keys
  }

  /** Every id of the keyword is among the query's known ids iff every word is in the query. */
  lemma SubsetByIds(vocab: Vocab, words: seq<string>, tokens: seq<TokenId>, ts: set<string>,
                    known: seq<TokenId>, q: set<string>)
    requires VocabOk(vocab, words)
    requires Describes(vocab, words, tokens, ts) && Describes(vocab, words, known, Known(vocab, q))
    ensures (forall t :: t in tokens ==> t in known) <==> ts <= q
  {}

  /** All query words are known and the id lists agree iff the word sets are equal. */
  lemma EqualityByIds(vocab: Vocab, words: seq<string>, tokens: seq<TokenId>, ts: set<string>,
                      known: seq<TokenId>, q: set<string>)
    requires VocabOk(vocab, words)
    requires Describes(vocab, words, tokens, ts) && Describes(vocab, words, known, Known(vocab, q))
    ensures (|known| == |q| && tokens == known) <==> ts == q
  {
    DescribedSize(vocab, words, known, Known(vocab, q));
    if |known| == |q| && tokens == known {
      SubsetOfSameSize(Known(vocab, q), q);
      SubsetByIds(vocab, words, tokens, ts, known, q);
      forall w | w in q ensures w in ts {
        assert w in Known(vocab, q) && vocab[w] in tokens && words[vocab[w]] == w;
      }
    }
    if ts == q {
      assert Known(vocab, q) == q;
      SubsetByIds(vocab, words, tokens, ts, known, q);
      forall t | t in known ensures t in tokens {
        assert words[t] in q && vocab[words[t]] == t;
      }
      IncreasingIsUnique(tokens, known);
    }
  }

  // ---------- counting hits ----------

  /** How many of `ks` are in `tokens`. */
  function Common(tokens: seq<TokenId>, ks: seq<TokenId>): nat {
    if ks == [] then 0
    else Common(tokens, ks[..|ks| - 1]) + if ks[|ks| - 1] in tokens then 1 else 0
  }

  ghost function Ids(s: seq<TokenId>): set<TokenId> {
    set t | t in s
  }

  lemma IdsOfIncreasing(s: seq<TokenId>)
    requires Increasing(s) && s != []
    ensures Ids(s) == Ids(s[..|s| - 1]) + {s[|s| - 1]}
    ensures s[|s| - 1] !in Ids(s[..|s| - 1])
  {}

  lemma {:induction false} CommonIsOverlap(tokens: seq<TokenId>, ks: seq<TokenId>)
    requires Increasing(ks)
    ensures Common(tokens, ks) == |Ids(tokens) * Ids(ks)|
  {
    if ks == [] {
      assert Ids(tokens) * Ids(ks) == {};
    } else {
      var k, rest := ks[|ks| - 1], ks[..|ks| - 1];
      CommonIsOverlap(tokens, rest);
      IdsOfIncreasing(ks);
      if k in tokens {
        assert Ids(tokens) * Ids(ks) == Ids(tokens) * Ids(rest) + {k};
      } else {
        assert Ids(tokens) * Ids(ks) == Ids(tokens) * Ids(rest);
      }
    }
  }

  lemma {:induction false} IncreasingSize(s: seq<TokenId>)
    requires Increasing(s)
    ensures |Ids(s)| == |s|
  {
    if s != [] {
      IncreasingSize(s[..|s| - 1]);
      IdsOfIncreasing(s);
    }
  }

  lemma OverlapOfSameSize(a: set<nat>, b: set<nat>)
    ensures |a * b| == |a| <==> a <= b
  {
    assert a == a * b + (a - b);
    assert |a| == |a * b| + |a - b|;
    if a <= b {
      assert a - b == {};
    } else {
      assert a - b != {};
    }
  }

  /** The hit count reaches the number of tokens iff every token was hit. */
  lemma HitCountMeansSubset(tokens: seq<TokenId>, known: seq<TokenId>)
    requires Increasing(tokens) && Increasing(known)
    ensures Common(tokens, known) == |tokens| <==> forall t :: t in tokens ==> t in known
    ensures Common(tokens, known) > 0 <==> exists t :: t in tokens && t in known
  {
    CommonIsOverlap(tokens, known);
    IncreasingSize(tokens);
    OverlapOfSameSize(Ids(tokens), Ids(known));
    if Ids(tokens) <= Ids(known) {
      forall t | t in tokens ensures t in known {
        assert t in Ids(tokens);
      }
    }
    if exists t :: t in tokens && t in known {
      var t :| t in tokens && t in known;
      assert t in Ids(tokens) * Ids(known);
    } else {
      assert Ids(tokens) * Ids(known) == {};
    }
  }
}
