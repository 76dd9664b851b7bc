/** The inverted keyword index (crates/admatch-core/src/index.rs). */
module KeywordIndexing {
  import opened Model
  import opened Sorting
  import opened Normalization
  import opened Scoring
  import opened Corpus
  import opened Identity
  import opened Vocabulary
  import opened Matching

  datatype IndexedKeyword = IndexedKeyword(
    campaignPos: nat,
    campaignId: CampaignId,
    id: KeywordId,
    matchType: MatchType,
    bid: Micros,
    tokens: seq<TokenId>)

  datatype IndexedNegative = IndexedNegative(matchType: MatchType, tokens: seq<TokenId>)

  datatype PreparedQuery = PreparedQuery(known: seq<TokenId>, distinct: nat) {
    predicate AllKnown() {
      |known| == distinct
    }

    /** A binary search per id, on the increasing `known`. */
    predicate ContainsAll(tokens: seq<TokenId>) {
      forall t :: t in tokens ==> t in known
    }
  }

  datatype VocabularyFull = VocabularyFull

  // ---------- the representation, field by field ----------

  ghost predicate StoredAs(u: Tables, vocab: Vocab, words: seq<string>, c: Campaign, pos: nat, k: Keyword, e: IndexedKeyword) {
    && e.campaignPos == pos && e.campaignId == c.id
    && e.id == k.id && e.matchType == k.matchType && e.bid == k.maxCptBid
    && Describes(vocab, words, e.tokens, TokenSet(u, k.text))
    && e.tokens != []
  }

  /** Every stored keyword comes from one place, every visited keyword with a token is stored
      once: `origin` and `slot` are inverse to each other. */
  ghost predicate KeywordsOk(u: Tables, vocab: Vocab, words: seq<string>, keywords: seq<IndexedKeyword>,
                             origin: seq<Place>, slot: map<Place, nat>, campaigns: seq<Campaign>, p: nat, k: nat) {
    && |origin| == |keywords|
    && (forall i :: 0 <= i < |keywords| ==>
      && IsPlace(campaigns, origin[i]) && Visited(origin[i], p, k)
      && StoredAs(u, vocab, words, campaigns[origin[i].0], origin[i].0,
                  campaigns[origin[i].0].keywords[origin[i].1], keywords[i])
      && origin[i] in slot && slot[origin[i]] == i)
    && (forall o :: o in slot ==> slot[o] < |keywords| && origin[slot[o]] == o)
    && (forall o: Place ::
      IsPlace(campaigns, o) && Visited(o, p, k) && TokenSet(u, campaigns[o.0].keywords[o.1].text) != {} ==> o in slot)
  }

  /** Position `i` is in the list of `key`. */
  predicate Listed<K>(lists: map<K, seq<nat>>, key: K, i: nat) {
    key in lists && i in lists[key]
  }

  ghost predicate ListsIncrease<K>(lists: map<K, seq<nat>>) {
    forall key :: key in lists ==> Increasing(lists[key])
  }

  /** Each exact keyword sits once in the bucket of its token set, and buckets hold nothing else. */
  ghost predicate ExactOk(keywords: seq<IndexedKeyword>, exact: map<seq<TokenId>, seq<nat>>) {
    && ListsIncrease(exact)
    && forall key, i: nat :: Listed(exact, key, i) <==>
         i < |keywords| && keywords[i].matchType.Exact? && keywords[i].tokens == key
  }

  /** Each broad keyword sits once in the posting list of each of its tokens, and posting lists
      hold nothing else. */
  ghost predicate BroadOk(keywords: seq<IndexedKeyword>, broad: map<TokenId, seq<nat>>) {
    && ListsIncrease(broad)
    && forall t: nat, i: nat :: Listed(broad, t, i) <==>
         i < |keywords| && keywords[i].matchType.Broad? && t in keywords[i].tokens
  }

  ghost predicate NegativeStoredAs(u: Tables, vocab: Vocab, words: seq<string>, n: NegativeKeyword, e: IndexedNegative) {
    && e.matchType == n.matchType && e.tokens != []
    && Describes(vocab, words, e.tokens, TokenSet(u, n.text))
  }

  /** The stored negatives are, one for one and in order, those of the first `n` negative keywords
      that have a token. */
  ghost predicate NegativesOk(u: Tables, vocab: Vocab, words: seq<string>, stored: seq<IndexedNegative>,
                              negatives: seq<NegativeKeyword>, n: nat)
    requires n <= |negatives|
  {
    if n == 0 then stored == []
    else if TokenSet(u, negatives[n - 1].text) == {} then NegativesOk(u, vocab, words, stored, negatives, n - 1)
    else
      && stored != []
      && NegativeStoredAs(u, vocab, words, negatives[n - 1], stored[|stored| - 1])
      && NegativesOk(u, vocab, words, stored[..|stored| - 1], negatives, n - 1)
  }

  ghost predicate AllNegativesOk(u: Tables, vocab: Vocab, words: seq<string>, negatives: seq<seq<IndexedNegative>>,
                                 campaigns: seq<Campaign>, p: nat)
    requires p <= |campaigns|
  {
    && |negatives| == p
    && forall i :: 0 <= i < p ==>
      NegativesOk(u, vocab, words, negatives[i], campaigns[i].negativeKeywords, |campaigns[i].negativeKeywords|)
  }

  // ---------- each building step keeps its part ----------

  lemma GrowthKeepsKeywords(u: Tables, vocab: Vocab, words: seq<string>, vocab': Vocab, words': seq<string>,
                            keywords: seq<IndexedKeyword>, origin: seq<Place>, slot: map<Place, nat>,
                            campaigns: seq<Campaign>, p: nat, k: nat)
    requires Grows(vocab, words, vocab', words')
    requires KeywordsOk(u, vocab, words, keywords, origin, slot, campaigns, p, k)
    ensures KeywordsOk(u, vocab', words', keywords, origin, slot, campaigns, p, k)
  {
    GrowthKeepsIds(vocab, words, vocab', words');
  }

  lemma {:induction false} GrowthKeepsNegatives(u: Tables, vocab: Vocab, words: seq<string>, vocab': Vocab,
                                                words': seq<string>, stored: seq<IndexedNegative>,
                                                negatives: seq<NegativeKeyword>, n: nat)
    requires Grows(vocab, words, vocab', words') && n <= |negatives|
    requires NegativesOk(u, vocab, words, stored, negatives, n)
    ensures NegativesOk(u, vocab', words', stored, negatives, n)
  {
    if n > 0 {
      GrowthKeepsIds(vocab, words, vocab', words');
      if TokenSet(u, negatives[n - 1].text) == {} {
        GrowthKeepsNegatives(u, vocab, words, vocab', words', stored, negatives, n - 1);
      } else {
        GrowthKeepsNegatives(u, vocab, words, vocab', words', stored[..|stored| - 1], negatives, n - 1);
      }
    }
  }

  lemma GrowthKeepsAllNegatives(u: Tables, vocab: Vocab, words: seq<string>, vocab': Vocab, words': seq<string>,
                                negatives: seq<seq<IndexedNegative>>, campaigns: seq<Campaign>, p: nat)
    requires Grows(vocab, words, vocab', words') && p <= |campaigns|
    requires AllNegativesOk(u, vocab, words, negatives, campaigns, p)
    ensures AllNegativesOk(u, vocab', words', negatives, campaigns, p)
  {
    forall i | 0 <= i < p
      ensures NegativesOk(u, vocab', words', negatives[i], campaigns[i].negativeKeywords, |campaigns[i].negativeKeywords|)
    {
      GrowthKeepsNegatives(u, vocab, words, vocab', words', negatives[i], campaigns[i].negativeKeywords,
                           |campaigns[i].negativeKeywords|);
    }
  }

  lemma StoreKeyword(u: Tables, vocab: Vocab, words: seq<string>, keywords: seq<IndexedKeyword>, origin: seq<Place>,
                     slot: map<Place, nat>, campaigns: seq<Campaign>, p: nat, k: nat, e: IndexedKeyword)
    requires KeywordsOk(u, vocab, words, keywords, origin, slot, campaigns, p, k)
    requires IsPlace(campaigns, (p, k))
    requires StoredAs(u, vocab, words, campaigns[p], p, campaigns[p].keywords[k], e)
    ensures KeywordsOk(u, vocab, words, keywords + [e], origin + [(p, k)], slot[(p, k) := |keywords|], campaigns, p, k + 1)
  {}

  /** `or_default().push`. */
  function Push<K>(lists: map<K, seq<nat>>, key: K, pos: nat): map<K, seq<nat>> {
    lists[key := (if key in lists then lists[key] else []) + [pos]]
  }

  lemma PushLists<K(!new)>(lists: map<K, seq<nat>>, key: K, pos: nat)
    requires ListsIncrease(lists) && forall i: nat :: Listed(lists, key, i) ==> i < pos
    ensures ListsIncrease(Push(lists, key, pos))
    ensures forall k, i: nat :: Listed(Push(lists, key, pos), k, i) <==> Listed(lists, k, i) || (k == key && i == pos)
  {
    var list := if key in lists then lists[key] else [];
    forall i | 0 <= i < |list| ensures list[i] < pos {
      assert Listed(lists, key, list[i]);
    }
    assert Increasing(list + [pos]);
    forall k, i: nat ensures Listed(Push(lists, key, pos), k, i) <==> Listed(lists, k, i) || (k == key && i == pos) {
      assert i in list + [pos] <==> i in list || i == pos;
    }
  }

  lemma PushExact(keywords: seq<IndexedKeyword>, exact: map<seq<TokenId>, seq<nat>>, e: IndexedKeyword)
    requires ExactOk(keywords, exact) && e.matchType.Exact?
    ensures ExactOk(keywords + [e], Push(exact, e.tokens, |keywords|))
  {
    PushLists(exact, e.tokens, |keywords|);
  }

  /** The posting lists while the tokens of the next keyword are pushed, `done` of them so far. */
  ghost predicate Pushed(keywords: seq<IndexedKeyword>, broad: map<TokenId, seq<nat>>, done: seq<TokenId>) {
    && ListsIncrease(broad)
    && forall t: nat, i: nat :: Listed(broad, t, i) <==>
         || (i < |keywords| && keywords[i].matchType.Broad? && t in keywords[i].tokens)
         || (i == |keywords| && t in done)
  }

  lemma PushBroad(keywords: seq<IndexedKeyword>, broad: map<TokenId, seq<nat>>, done: seq<TokenId>, t: TokenId)
    requires Pushed(keywords, broad, done) && t !in done
    ensures Pushed(keywords, Push(broad, t, |keywords|), done + [t])
  {
    PushLists(broad, t, |keywords|);
  }

  lemma StorePostings(keywords: seq<IndexedKeyword>, exact: map<seq<TokenId>, seq<nat>>,
                      broad: map<TokenId, seq<nat>>, e: IndexedKeyword)
    ensures ExactOk(keywords, exact) && e.matchType.Broad? ==> ExactOk(keywords + [e], exact)
    ensures BroadOk(keywords, broad) && e.matchType.Exact? ==> BroadOk(keywords + [e], broad)
    ensures Pushed(keywords, broad, e.tokens) && e.matchType.Broad? ==> BroadOk(keywords + [e], broad)
  {}

  /** The loop state of `build` at keyword `k` of campaign `p`. */
  ghost predicate Building(u: Tables, vocab: Vocab, words: seq<string>, keywords: seq<IndexedKeyword>,
                           origin: seq<Place>, slot: map<Place, nat>, exact: map<seq<TokenId>, seq<nat>>,
                           broad: map<TokenId, seq<nat>>, campaigns: seq<Campaign>, p: nat, k: nat) {
    && VocabOk(vocab, words)
    && KeywordsOk(u, vocab, words, keywords, origin, slot, campaigns, p, k)
    && ExactOk(keywords, exact) && BroadOk(keywords, broad)
  }

  /** The build is at keyword `k` of campaign `p`, unless reading the texts so far got stuck. */
  ghost predicate Reached(u: Tables, vocab: Vocab, words: seq<string>, keywords: seq<IndexedKeyword>,
                          origin: seq<Place>, slot: map<Place, nat>, exact: map<seq<TokenId>, seq<nat>>,
                          broad: map<TokenId, seq<nat>>, negatives: seq<seq<IndexedNegative>>,
                          campaigns: seq<Campaign>, p: nat, k: nat, read: Option<Vocab>, ok: bool)
    requires p <= |campaigns|
  {
    match read
    case None => !ok
    case Some(v) =>
      && ok && v == vocab
      && Building(u, vocab, words, keywords, origin, slot, exact, broad, campaigns, p, k)
      && AllNegativesOk(u, vocab, words, negatives, campaigns, p)
  }

  lemma InterningKeepsBuilding(u: Tables, vocab: Vocab, words: seq<string>, vocab': Vocab, words': seq<string>,
                               keywords: seq<IndexedKeyword>, origin: seq<Place>, slot: map<Place, nat>,
                               exact: map<seq<TokenId>, seq<nat>>, broad: map<TokenId, seq<nat>>,
                               campaigns: seq<Campaign>, p: nat, k: nat)
    requires Building(u, vocab, words, keywords, origin, slot, exact, broad, campaigns, p, k)
    requires Grows(vocab, words, vocab', words')
    ensures Building(u, vocab', words', keywords, origin, slot, exact, broad, campaigns, p, k)
  {
    GrowthKeepsKeywords(u, vocab, words, vocab', words', keywords, origin, slot, campaigns, p, k);
  }

  /** `ids` are those of the words in `list`, in order. */
  ghost predicate IdsOf(vocab: Vocab, list: seq<string>, ids: seq<TokenId>) {
    |ids| == |list| && forall i :: 0 <= i < |list| ==> list[i] in vocab && ids[i] == vocab[list[i]]
  }

  lemma IdsOfOneMore(vocab: Vocab, words: seq<string>, vocab': Vocab, words': seq<string>, list: seq<string>,
                     ids: seq<TokenId>, token: string)
    requires Grows(vocab, words, vocab', words') && IdsOf(vocab, list, ids) && token in vocab'
    ensures IdsOf(vocab', list + [token], ids + [vocab'[token]])
  {
    GrowthKeepsIds(vocab, words, vocab', words');
  }

  lemma SkipKeyword(u: Tables, vocab: Vocab, words: seq<string>, keywords: seq<IndexedKeyword>, origin: seq<Place>,
                    slot: map<Place, nat>, campaigns: seq<Campaign>, p: nat, k: nat)
    requires KeywordsOk(u, vocab, words, keywords, origin, slot, campaigns, p, k)
    requires IsPlace(campaigns, (p, k)) && TokenSet(u, campaigns[p].keywords[k].text) == {}
    ensures KeywordsOk(u, vocab, words, keywords, origin, slot, campaigns, p, k + 1)
  {}

  /** The first `n` tokens have been read, or the next id was wanting. */
  ghost predicate TokensRead(tokens: seq<string>, n: nat, vocab0: Vocab, words0: seq<string>, vocab: Vocab,
                             words: seq<string>, r: Result<seq<TokenId>, VocabularyFull>)
    requires n <= |tokens|
  {
    match r
    case Failure(_) =>
      Grows(vocab0, words0, vocab, words) && ReadTokens(Some(vocab0), tokens, n) == None
    case Success(ids) =>
      && Grows(vocab0, words0, vocab, words)
      && ReadTokens(Some(vocab0), tokens, n) == Some(vocab)
      && IdsOf(vocab, tokens[..n], ids)
  }

  /** The first `n` negative keywords of a campaign have been read: interned and stored, or not. */
  ghost predicate NegativesRead(u: Tables, c: Campaign, n: nat, vocab0: Vocab, words0: seq<string>, vocab: Vocab,
                                words: seq<string>, r: Result<seq<IndexedNegative>, VocabularyFull>)
    requires n <= |c.negativeKeywords|
  {
    match r
    case Failure(_) => ReadTexts(u, Some(vocab0), NegativeTexts(c), n) == None
    case Success(stored) =>
      && Grows(vocab0, words0, vocab, words)
      && ReadTexts(u, Some(vocab0), NegativeTexts(c), n) == Some(vocab)
      && NegativesOk(u, vocab, words, stored, c.negativeKeywords, n)
  }

  lemma NextCampaign(u: Tables, vocab: Vocab, words: seq<string>, keywords: seq<IndexedKeyword>, origin: seq<Place>,
                     slot: map<Place, nat>, campaigns: seq<Campaign>, p: nat)
    requires p < |campaigns|
    requires KeywordsOk(u, vocab, words, keywords, origin, slot, campaigns, p, |campaigns[p].keywords|)
    ensures KeywordsOk(u, vocab, words, keywords, origin, slot, campaigns, p + 1, 0)
  {}

  lemma NextNegatives(u: Tables, vocab: Vocab, words: seq<string>, negatives: seq<seq<IndexedNegative>>,
                      campaigns: seq<Campaign>, p: nat, stored: seq<IndexedNegative>)
    requires p < |campaigns| && AllNegativesOk(u, vocab, words, negatives, campaigns, p)
    requires NegativesOk(u, vocab, words, stored, campaigns[p].negativeKeywords, |campaigns[p].negativeKeywords|)
    ensures AllNegativesOk(u, vocab, words, negatives + [stored], campaigns, p + 1)
  {
    var more := negatives + [stored];
    forall i | 0 <= i < p + 1
      ensures NegativesOk(u, vocab, words, more[i], campaigns[i].negativeKeywords, |campaigns[i].negativeKeywords|)
    {
      if i == p {
        assert more[i] == stored;
      } else {
        assert more[i] == negatives[i];
      }
    }
  }

  lemma DescribedEmptiness(vocab: Vocab, words: seq<string>, tokens: seq<TokenId>, ts: set<string>)
    requires Describes(vocab, words, tokens, ts)
    ensures tokens == [] <==> ts == {}
  {
    if tokens != [] { assert tokens[0] in tokens; }
  }

  class KeywordIndex {
    var vocab: Vocab
    var keywords: seq<IndexedKeyword>
    var exact: map<seq<TokenId>, seq<nat>>
    var broad: map<TokenId, seq<nat>>
    var negatives: seq<seq<IndexedNegative>>
    ghost var words: seq<string>
    ghost var origin: seq<Place>
    ghost var slot: map<Place, nat>

    /** The index of these campaigns. */
    ghost predicate Represents(u: Tables, campaigns: seq<Campaign>)
      reads this
    {
      && Building(u, vocab, words, keywords, origin, slot, exact, broad, campaigns, |campaigns|, 0)
      && AllNegativesOk(u, vocab, words, negatives, campaigns, |campaigns|)
      && vocab.Keys == Words(CorpusTokens(u, campaigns))
    }

    constructor Default()
      ensures vocab == map[] && keywords == [] && exact == map[] && broad == map[] && negatives == []
      ensures words == [] && origin == [] && slot == map[]
    {
      vocab, keywords, exact, broad, negatives := map[], [], map[], map[], [];
      words, origin, slot := [], [], map[];
    }

    /** Interns the next token of a text, if an id is left. */
    method InternToken(tokens: seq<string>, n: nat, ids: seq<TokenId>, ghost vocab0: Vocab, ghost words0: seq<string>)
        returns (r: Result<seq<TokenId>, VocabularyFull>)
      requires n < |tokens| && TokensRead(tokens, n, vocab0, words0, vocab, words, Success(ids))
      modifies this`vocab, this`words
      ensures TokensRead(tokens, n + 1, vocab0, words0, vocab, words, r)
    {
      if |vocab| > U32_MAX {
        return Failure(VocabularyFull);
      }
      if tokens[n] !in vocab {
        InternWord(vocab, words, tokens[n]);
        vocab := vocab[tokens[n] := |vocab|];
        words := words + [tokens[n]];
      }
      assert tokens[..n + 1] == tokens[..n] + [tokens[n]];
      IdsOfOneMore(old(vocab), old(words), vocab, words, tokens[..n], ids, tokens[n]);
      return Success(ids + [vocab[tokens[n]]]);
    }

    /** Interns every token of the text: the vocabulary only grows, and the ids returned stand for
        exactly the text's words. */
    method InternSet(u: Tables, text: string) returns (r: Result<seq<TokenId>, VocabularyFull>)
      requires VocabOk(vocab, words)
      modifies this`vocab, this`words
      ensures VocabOk(vocab, words) && old(words) <= words
      ensures ReadText(u, Some(old(vocab)), text) == if r.Success? then Some(vocab) else None
      ensures r.Success? ==> Describes(vocab, words, r.value, TokenSet(u, text))
      ensures r.Success? ==> (r.value == [] <==> TokenSet(u, text) == {})
    {
      var ids: seq<TokenId> := [];
      var tokens := Tokenize(u, text);
      for n := 0 to |tokens|
        invariant TokensRead(tokens, n, old(vocab), old(words), vocab, words, Success(ids))
      {
        r := InternToken(tokens, n, ids, old(vocab), old(words));
        if r.Failure? {
          StuckInTokens(Some(old(vocab)), tokens, n + 1, |tokens|);
          return;
        }
        ids := r.value;
      }
      assert tokens[..|tokens|] == tokens;
      IdsDescribe(vocab, words, tokens, ids);
      DescribedEmptiness(vocab, words, SortDedup(ids), TokenSet(u, text));
      return Success(SortDedup(ids));
    }

    /** One keyword of the build loop. */
    method AddKeyword(u: Tables, campaigns: seq<Campaign>, p: nat, k: nat, ghost read: Option<Vocab>) returns (ok: bool)
      requires p < |campaigns| && k < |campaigns[p].keywords|
      requires Reached(u, vocab, words, keywords, origin, slot, exact, broad, negatives, campaigns,
                       p, k, read, true)
      modifies this
      ensures Reached(u, vocab, words, keywords, origin, slot, exact, broad, negatives, campaigns,
                      p, k + 1, ReadText(u, read, campaigns[p].keywords[k].text), ok)
    {
      var r := InternSet(u, campaigns[p].keywords[k].text);
      if r.Failure? { return false; }
      InterningKeepsBuilding(u, old(vocab), old(words), vocab, words, keywords, origin, slot, exact, broad, campaigns, p, k);
      GrowthKeepsAllNegatives(u, old(vocab), old(words), vocab, words, negatives, campaigns, p);
      if r.value != [] {
        Store(u, campaigns, p, k, r.value);
      } else {
        SkipKeyword(u, vocab, words, keywords, origin, slot, campaigns, p, k);
      }
      return true;
    }

    /** Adds the next keyword to the posting list of each of its tokens. */
    method PushPostings(tokens: seq<TokenId>)
      requires BroadOk(keywords, broad) && Increasing(tokens)
      modifies this`broad
      ensures Pushed(keywords, broad, tokens)
    {
      for n := 0 to |tokens|
        invariant Pushed(keywords, broad, tokens[..n])
      {
        PushBroad(keywords, broad, tokens[..n], tokens[n]);
        assert tokens[..n + 1] == tokens[..n] + [tokens[n]];
        broad := Push(broad, tokens[n], |keywords|);
      }
      assert tokens[..|tokens|] == tokens;
    }

    method Store(u: Tables, campaigns: seq<Campaign>, p: nat, k: nat, tokens: seq<TokenId>)
      requires p < |campaigns| && k < |campaigns[p].keywords|
      requires Building(u, vocab, words, keywords, origin, slot, exact, broad, campaigns, p, k)
      requires tokens != [] && Describes(vocab, words, tokens, TokenSet(u, campaigns[p].keywords[k].text))
      modifies this`keywords, this`exact, this`broad, this`origin, this`slot
      ensures Building(u, vocab, words, keywords, origin, slot, exact, broad, campaigns, p, k + 1)
    {
      var c, keyword := campaigns[p], campaigns[p].keywords[k];
      var pos := |keywords|;
      var entry := IndexedKeyword(p, c.id, keyword.id, keyword.matchType, keyword.maxCptBid, tokens);
      match keyword.matchType {
        case Exact =>
          PushExact(keywords, exact, entry);
          exact := Push(exact, tokens, pos);
        case Broad =>
          PushPostings(tokens);
      }
      StorePostings(keywords, old(exact), broad, entry);
      StoreKeyword(u, vocab, words, keywords, origin, slot, campaigns, p, k, entry);
      keywords := keywords + [entry];
      origin, slot := origin + [(p, k)], slot[(p, k) := pos];
    }

    /** One more negative keyword of the campaign. */
    method AddNegative(u: Tables, c: Campaign, n: nat, stored: seq<IndexedNegative>, ghost vocab0: Vocab, ghost words0: seq<string>)
        returns (r: Result<seq<IndexedNegative>, VocabularyFull>)
      requires n < |c.negativeKeywords| && NegativesRead(u, c, n, vocab0, words0, vocab, words, Success(stored))
      modifies this`vocab, this`words
      ensures NegativesRead(u, c, n + 1, vocab0, words0, vocab, words, r)
    {
      var source := c.negativeKeywords;
      var tokens := InternSet(u, source[n].text);
      if tokens.Failure? { return Failure(VocabularyFull); }
      GrowthKeepsNegatives(u, old(vocab), old(words), vocab, words, stored, source, n);
      if tokens.value == [] { return Success(stored); }
      var e := IndexedNegative(source[n].matchType, tokens.value);
      StoreNegative(u, vocab, words, stored, source, n, e);
      return Success(stored + [e]);
    }

    /** The negatives of one campaign. */
    method CollectNegatives(u: Tables, c: Campaign) returns (r: Result<seq<IndexedNegative>, VocabularyFull>)
      requires VocabOk(vocab, words)
      modifies this`vocab, this`words
      ensures NegativesRead(u, c, |c.negativeKeywords|, old(vocab), old(words), vocab, words, r)
    {
      var stored: seq<IndexedNegative> := [];
      for n := 0 to |c.negativeKeywords|
        invariant NegativesRead(u, c, n, old(vocab), old(words), vocab, words, Success(stored))
      {
        r := AddNegative(u, c, n, stored, old(vocab), old(words));
        if r.Failure? {
          StuckInTexts(u, Some(old(vocab)), NegativeTexts(c), n + 1, |c.negativeKeywords|);
          return;
        }
        stored := r.value;
      }
      return Success(stored);
    }

    /** Files them at the campaign's position. */
    method AddNegatives(u: Tables, campaigns: seq<Campaign>, p: nat, ghost read: Option<Vocab>) returns (ok: bool)
      requires p < |campaigns|
      requires Reached(u, vocab, words, keywords, origin, slot, exact, broad, negatives, campaigns,
                       p, |campaigns[p].keywords|, read, true)
      modifies this`vocab, this`words, this`negatives
      ensures Reached(u, vocab, words, keywords, origin, slot, exact, broad, negatives, campaigns,
                      p + 1, 0, ReadTexts(u, read, NegativeTexts(campaigns[p]), |campaigns[p].negativeKeywords|), ok)
    {
      var stored := CollectNegatives(u, campaigns[p]);
      if stored.Failure? { return false; }
      InterningKeepsBuilding(u, old(vocab), old(words), vocab, words, keywords, origin, slot, exact, broad, campaigns, p,
                             |campaigns[p].keywords|);
      GrowthKeepsAllNegatives(u, old(vocab), old(words), vocab, words, negatives, campaigns, p);
      NextCampaign(u, vocab, words, keywords, origin, slot, campaigns, p);
      NextNegatives(u, vocab, words, negatives, campaigns, p, stored.value);
      negatives := negatives + [stored.value];
      return true;
    }

    /** Drops repeats from the query's tokens. */
    static method Distinct(tokens: seq<string>) returns (distinct: seq<string>)
      ensures (set w | w in distinct) == (set w | w in tokens)
      ensures |distinct| == |set w | w in tokens|
    {
      distinct := [];
      for n := 0 to |tokens|
        invariant forall w :: w in distinct <==> w in tokens[..n]
        invariant forall i, j :: 0 <= i < j < |distinct| ==> distinct[i] != distinct[j]
      {
        assert tokens[..n + 1] == tokens[..n] + [tokens[n]];
        if tokens[n] !in distinct {
          distinct := distinct + [tokens[n]];
        }
      }
      assert tokens[..|tokens|] == tokens;
      assert (set w | w in distinct) == (set w | w in tokens);
      DistinctSize(distinct);
    }

    /** The query in terms of ids: words without one only add to the number of distinct words. */
    method Prepare(tokens: seq<string>) returns (pq: PreparedQuery)
      requires VocabOk(vocab, words)
      ensures Prepared(vocab, words, pq, set t | t in tokens)
    {
      var distinct := Distinct(tokens);
      ghost var q := set w | w in distinct;
      var ids: seq<TokenId> := [];
      for n := 0 to |distinct|
        invariant forall t :: t in ids ==> t < |words| && words[t] in q
        invariant forall i :: 0 <= i < n && distinct[i] in vocab ==> vocab[distinct[i]] in ids
      {
        if distinct[n] in vocab {
          assert distinct[n] in q;
          ids := ids + [vocab[distinct[n]]];
        }
      }
      forall w | w in Known(vocab, q) ensures vocab[w] in ids {
        var i :| 0 <= i < |distinct| && distinct[i] == w;
      }
      return PreparedQuery(SortDedup(ids), |distinct|);
    }

    /** The exact keywords equal to the query: one look-up. */
    method OfferExact(pq: PreparedQuery) returns (best: map<nat, KeywordMatch>)
      requires ExactOk(keywords, exact)
      ensures BestOf(best, keywords, pq.distinct, HitsOf(keywords, pq, Exact))
    {
      best := map[];
      ghost var offered := {};
      if pq.AllKnown() && pq.known in exact {
        var bucket := exact[pq.known];
        for n := 0 to |bucket|
          invariant BestOf(best, keywords, pq.distinct, offered)
          invariant forall i :: i in offered <==> i in bucket[..n]
        {
          var i := bucket[n];
          assert Listed(exact, pq.known, i);
          OfferKeepsBest(best, keywords, pq.distinct, offered, i);
          best, offered := Offered(best, MatchAt(keywords[i], pq.distinct)), offered + {i};
          assert bucket[..n + 1] == bucket[..n] + [i];
        }
        assert bucket[..|bucket|] == bucket;
        assert forall i: nat :: i in offered <==> Listed(exact, pq.known, i);
      }
      assert forall i: nat :: i in offered <==> pq.AllKnown() && Listed(exact, pq.known, i);
      assert offered == HitsOf(keywords, pq, Exact);
    }

    /** A hit per distinct query token and broad keyword holding it. */
    method CountHits(pq: PreparedQuery) returns (hits: map<nat, nat>)
      requires BroadOk(keywords, broad) && Increasing(pq.known)
      ensures Counted(hits, keywords, pq.known)
    {
      hits := map[];
      for n := 0 to |pq.known|
        invariant Counted(hits, keywords, pq.known[..n])
      {
        var token := pq.known[n];
        assert pq.known[..n + 1][..n] == pq.known[..n];
        if token in broad {
          var postings := broad[token];
          for j := 0 to |postings|
            invariant Counting(hits, keywords, pq.known[..n], postings[..j])
          {
            assert Listed(broad, token, postings[j]);
            assert postings[..j + 1] == postings[..j] + [postings[j]];
            CountOne(hits, keywords, pq.known[..n], postings[..j], postings[j]);
            hits := hits[postings[j] := HitCount(hits, postings[j]) + 1];
          }
          assert postings[..|postings|] == postings;
        }
        CountedToken(hits, keywords, broad, pq.known[..n], token);
        assert pq.known[..n + 1] == pq.known[..n] + [token];
      }
      assert pq.known[..|pq.known|] == pq.known;
    }

    /** Offers the broad keywords all of whose tokens were hit, in whatever order the map yields
        them. */
    method OfferBroad(pq: PreparedQuery, hits: map<nat, nat>, best0: map<nat, KeywordMatch>)
        returns (best: map<nat, KeywordMatch>)
      requires Counted(hits, keywords, pq.known) && Increasing(pq.known)
      requires forall i :: 0 <= i < |keywords| ==> Increasing(keywords[i].tokens) && keywords[i].tokens != []
      requires BestOf(best0, keywords, pq.distinct, HitsOf(keywords, pq, Exact))
      ensures BestOf(best, keywords, pq.distinct, HitsOf(keywords, pq, Exact) + HitsOf(keywords, pq, Broad))
    {
      best := best0;
      ghost var offered := HitsOf(keywords, pq, Exact);
      var left := hits.Keys;
      while left != {}
        invariant left <= hits.Keys
        invariant BestOf(best, keywords, pq.distinct, offered)
        invariant forall i: nat :: i in offered <==>
          i in HitsOf(keywords, pq, Exact) || (i in hits.Keys - left && hits[i] == |keywords[i].tokens|)
      {
        var i :| i in left;
        left := left - {i};
        if hits[i] == |keywords[i].tokens| {
          OfferKeepsBest(best, keywords, pq.distinct, offered, i);
          best, offered := Offered(best, MatchAt(keywords[i], pq.distinct)), offered + {i};
        }
      }
      forall i: nat | i < |keywords|
        ensures (i in hits && hits[i] == |keywords[i].tokens|) <==> i in HitsOf(keywords, pq, Broad)
      {
        HitCountMeansSubset(keywords[i].tokens, pq.known);
      }
      assert offered == HitsOf(keywords, pq, Exact) + HitsOf(keywords, pq, Broad);
    }

    /** What brute force finds before negatives are looked at, whatever order the hash maps are
        read in. */
    method BestMatches(u: Tables, ghost campaigns: seq<Campaign>, ghost q: set<string>, pq: PreparedQuery)
        returns (out: seq<KeywordMatch>)
      requires Represents(u, campaigns) && UniqueIds(campaigns) && Prepared(vocab, words, pq, q)
      ensures out == ReferenceBest(u, campaigns, q, |campaigns|)
    {
      var best := OfferExact(pq);
      var hits := CountHits(pq);
      forall i | 0 <= i < |keywords| ensures Increasing(keywords[i].tokens) && keywords[i].tokens != [] {
        assert IsPlace(campaigns, origin[i]);
      }
      best := OfferBroad(pq, hits, best);
      out := Collect(best);
      assert AnswersQuery(out, keywords, pq) by {
        CollectedAnswers(out, best, keywords, pq, HitsOf(keywords, pq, Exact) + HitsOf(keywords, pq, Broad));
      }
      AnswerIsReference(u, vocab, words, keywords, origin, slot, campaigns, pq, q, out);
    }

    /** Some negative keyword of the campaign matches the query. */
    predicate NegativeMatches(pos: nat, pq: PreparedQuery)
      reads this
    {
      pos < |negatives| && exists e :: e in negatives[pos] && NegativeHit(e, pq)
    }

    /** The stored negatives block a campaign exactly when its negative keywords do. */
    lemma NegativeMatchesMeansBlocked(u: Tables, campaigns: seq<Campaign>, q: set<string>, pq: PreparedQuery, pos: nat)
      requires Represents(u, campaigns) && Prepared(vocab, words, pq, q) && pos < |campaigns|
      ensures NegativeMatches(pos, pq) <==> Blocked(u, campaigns[pos], q)
    {
      var source := campaigns[pos].negativeKeywords;
      StoredNegativesDecide(u, vocab, words, negatives[pos], source, |source|, pq, q);
      assert SomeHit(negatives[pos], pq) <==> NegativeMatches(pos, pq);
      assert BlockedBy(u, source, q, |source|) <==> Blocked(u, campaigns[pos], q);
    }

    /** The keywords of one campaign. */
    method AddKeywords(u: Tables, campaigns: seq<Campaign>, p: nat, ghost read: Option<Vocab>) returns (ok: bool)
      requires p < |campaigns|
      requires Reached(u, vocab, words, keywords, origin, slot, exact, broad, negatives, campaigns,
                       p, 0, read, true)
      modifies this
      ensures Reached(u, vocab, words, keywords, origin, slot, exact, broad, negatives, campaigns,
                      p, |campaigns[p].keywords|, ReadTexts(u, read, KeywordTexts(campaigns[p]), |campaigns[p].keywords|), ok)
    {
      ghost var texts := KeywordTexts(campaigns[p]);
      for k := 0 to |campaigns[p].keywords|
        invariant Reached(u, vocab, words, keywords, origin, slot, exact, broad, negatives, campaigns,
                          p, k, ReadTexts(u, read, texts, k), true)
      {
        ok := AddKeyword(u, campaigns, p, k, ReadTexts(u, read, texts, k));
        if !ok {
          StuckInTexts(u, read, texts, k + 1, |texts|);
          return;
        }
      }
      ok := true;
    }

    /** One campaign of the build loop. */
    method AddCampaign(u: Tables, campaigns: seq<Campaign>, p: nat, ghost read: Option<Vocab>) returns (ok: bool)
      requires p < |campaigns|
      requires Reached(u, vocab, words, keywords, origin, slot, exact, broad, negatives, campaigns,
                       p, 0, read, true)
      modifies this
      ensures Reached(u, vocab, words, keywords, origin, slot, exact, broad, negatives, campaigns,
                      p + 1, 0, ReadCampaign(u, read, campaigns[p]), ok)
    {
      ok := AddKeywords(u, campaigns, p, read);
      ghost var next := ReadTexts(u, read, KeywordTexts(campaigns[p]), |campaigns[p].keywords|);
      if !ok {
        StuckInTexts(u, next, NegativeTexts(campaigns[p]), 0, |campaigns[p].negativeKeywords|);
        return;
      }
      ok := AddNegatives(u, campaigns, p, next);
    }

    /** Builds the index: possible iff every token finds an id left for it. */
    static method Build(u: Tables, campaigns: seq<Campaign>) returns (r: Result<KeywordIndex, VocabularyFull>)
      ensures r.Success? <==> Numberable(CorpusTokens(u, campaigns))
      ensures r.Success? ==> fresh(r.value) && r.value.Represents(u, campaigns)
    {
      var index := new KeywordIndex.Default();
      ReadingIff(u, campaigns);
      for p := 0 to |campaigns|
        invariant fresh(index)
        invariant Reached(u, index.vocab, index.words, index.keywords, index.origin, index.slot, index.exact, index.broad,
                          index.negatives, campaigns, p, 0, ReadCampaigns(u, campaigns, p), true)
      {
        var ok := index.AddCampaign(u, campaigns, p, ReadCampaigns(u, campaigns, p));
        if !ok {
          StuckInCampaigns(u, campaigns, p + 1, |campaigns|);
          return Failure(VocabularyFull);
        }
      }
      return Success(index);
    }
  }

  lemma StoreNegative(u: Tables, vocab: Vocab, words: seq<string>, stored: seq<IndexedNegative>,
                      negatives: seq<NegativeKeyword>, n: nat, e: IndexedNegative)
    requires n < |negatives| && NegativesOk(u, vocab, words, stored, negatives, n)
    requires NegativeStoredAs(u, vocab, words, negatives[n], e) && TokenSet(u, negatives[n].text) != {}
    ensures NegativesOk(u, vocab, words, stored + [e], negatives, n + 1)
  {
    assert (stored + [e])[..|stored|] == stored;
  }

  // ---------- answering a query ----------

  /** The prepared form of the token set `q`. */
  ghost predicate Prepared(vocab: Vocab, words: seq<string>, pq: PreparedQuery, q: set<string>) {
    && Describes(vocab, words, pq.known, Known(vocab, q))
    && pq.distinct == |q|
  }

  lemma {:induction false} DistinctSize(s: seq<string>)
    requires forall i, j :: 0 <= i < j < |s| ==> s[i] != s[j]
    ensures |set w | w in s| == |s|
  {
    if s != [] {
      DistinctSize(s[1..]);
      assert (set w | w in s) == (set w | w in s[1..]) + {s[0]};
    }
  }

  /** Comparing ids decides the matching rules on words. */
  lemma TokensDecide(vocab: Vocab, words: seq<string>, tokens: seq<TokenId>, ts: set<string>, pq: PreparedQuery, q: set<string>)
    requires VocabOk(vocab, words) && Describes(vocab, words, tokens, ts) && Prepared(vocab, words, pq, q)
    ensures (pq.AllKnown() && tokens == pq.known) <==> ts == q
    ensures pq.ContainsAll(tokens) <==> ts <= q
    ensures |tokens| == |ts|
    ensures tokens == [] <==> ts == {}
  {
    EqualityByIds(vocab, words, tokens, ts, pq.known, q);
    SubsetByIds(vocab, words, tokens, ts, pq.known, q);
    DescribedSize(vocab, words, tokens, ts);
    DescribedEmptiness(vocab, words, tokens, ts);
  }

  ghost predicate IndexHit(keywords: seq<IndexedKeyword>, pq: PreparedQuery, i: nat) {
    i < |keywords| &&
    match keywords[i].matchType
    case Exact => pq.AllKnown() && keywords[i].tokens == pq.known
    case Broad => pq.ContainsAll(keywords[i].tokens)
  }

  /** The stored keywords of one match type that the query hits. */
  ghost function HitsOf(keywords: seq<IndexedKeyword>, pq: PreparedQuery, matchType: MatchType): set<nat> {
    set i: nat | i < |keywords| && IndexHit(keywords, pq, i) && keywords[i].matchType == matchType
  }

  function MatchAt(e: IndexedKeyword, distinct: nat): KeywordMatch {
    KeywordMatch(e.campaignPos, e.campaignId, e.id, e.matchType, e.bid,
                 if e.matchType.Exact? then EXACT_RELEVANCE_BP else BroadRelevance(|e.tokens|, distinct))
  }

  /** The best-so-far map after one more offer. */
  function Offered(best: map<nat, KeywordMatch>, m: KeywordMatch): map<nat, KeywordMatch> {
    if m.campaignPos !in best || Beats(m, best[m.campaignPos]) then best[m.campaignPos := m] else best
  }

  /** For each campaign offered, one of its offers that no other offer of it beats. */
  ghost predicate BestOf(best: map<nat, KeywordMatch>, keywords: seq<IndexedKeyword>, distinct: nat, offered: set<nat>) {
    && (forall p :: p in best ==> best[p].campaignPos == p && Among(best[p], keywords, distinct, offered))
    && (forall i :: i in offered ==> i < |keywords| && Beaten(MatchAt(keywords[i], distinct), best))
  }

  ghost predicate Among(m: KeywordMatch, keywords: seq<IndexedKeyword>, distinct: nat, offered: set<nat>) {
    exists i :: i in offered && i < |keywords| && m == MatchAt(keywords[i], distinct)
  }

  predicate Beaten(m: KeywordMatch, best: map<nat, KeywordMatch>) {
    m.campaignPos in best && !Beats(m, best[m.campaignPos])
  }

  lemma OfferKeepsBest(best: map<nat, KeywordMatch>, keywords: seq<IndexedKeyword>, distinct: nat, offered: set<nat>, i: nat)
    requires BestOf(best, keywords, distinct, offered) && i < |keywords|
    ensures BestOf(Offered(best, MatchAt(keywords[i], distinct)), keywords, distinct, offered + {i})
  {}

  // ---------- hit counts ----------

  function HitCount(hits: map<nat, nat>, i: nat): nat {
    if i in hits then hits[i] else 0
  }

  /** Entries are broad keywords with a hit; counts are the tokens shared with `known`. */
  ghost predicate Counted(hits: map<nat, nat>, keywords: seq<IndexedKeyword>, known: seq<TokenId>) {
    && (forall i :: i in hits ==> i < |keywords| && keywords[i].matchType.Broad? && hits[i] > 0)
    && (forall i: nat :: i < |keywords| && keywords[i].matchType.Broad? ==>
      HitCount(hits, i) == Common(keywords[i].tokens, known))
  }

  /** The same in the middle of a posting list, of which `done` has been walked. */
  ghost predicate Counting(hits: map<nat, nat>, keywords: seq<IndexedKeyword>, known: seq<TokenId>, done: seq<nat>) {
    && (forall i :: i in hits ==> i < |keywords| && keywords[i].matchType.Broad? && hits[i] > 0)
    && (forall i: nat :: i < |keywords| && keywords[i].matchType.Broad? ==>
      HitCount(hits, i) == Common(keywords[i].tokens, known) + if i in done then 1 else 0)
  }

  lemma CountOne(hits: map<nat, nat>, keywords: seq<IndexedKeyword>, known: seq<TokenId>, done: seq<nat>, i: nat)
    requires Counting(hits, keywords, known, done)
    requires i < |keywords| && keywords[i].matchType.Broad? && i !in done
    ensures Counting(hits[i := HitCount(hits, i) + 1], keywords, known, done + [i])
  {}

  /** A whole posting list adds one to each of its keywords. */
  lemma CountedToken(hits: map<nat, nat>, keywords: seq<IndexedKeyword>, broad: map<TokenId, seq<nat>>,
                     known: seq<TokenId>, token: TokenId)
    requires BroadOk(keywords, broad)
    requires if token in broad then Counting(hits, keywords, known, broad[token]) else Counted(hits, keywords, known)
    ensures Counted(hits, keywords, known + [token])
  {}

  // ---------- collecting the answer ----------

  method Collect(best: map<nat, KeywordMatch>) returns (out: seq<KeywordMatch>)
    requires forall p :: p in best ==> best[p].campaignPos == p
    ensures StrictlySorted(out, PositionBefore)
    ensures forall m :: m in out <==> m.campaignPos in best && best[m.campaignPos] == m
  {
    var values: seq<KeywordMatch> := [];
    var left := best.Keys;
    while left != {}
      invariant left <= best.Keys
      invariant forall m :: m in values <==> m.campaignPos in best.Keys - left && best[m.campaignPos] == m
      invariant forall i, j :: 0 <= i < j < |values| ==> values[i].campaignPos != values[j].campaignPos
    {
      var p :| p in left;
      left := left - {p};
      assert forall m :: m in values ==> m.campaignPos != p;
      values := values + [best[p]];
    }
    SortWithoutTies(values, PositionNoLater, PositionBefore);
    out := Sort(values, PositionNoLater);
  }

  /** What the index answers, in its own terms. */
  ghost predicate AnswersQuery(out: seq<KeywordMatch>, keywords: seq<IndexedKeyword>, pq: PreparedQuery) {
    && StrictlySorted(out, PositionBefore)
    && (forall m :: m in out ==> AnswerOf(m, keywords, pq))
    && EveryHitAnswered(out, keywords, pq)
  }

  ghost predicate EveryHitAnswered(out: seq<KeywordMatch>, keywords: seq<IndexedKeyword>, pq: PreparedQuery) {
    forall i: nat :: IndexHit(keywords, pq, i) ==>
      exists m :: m in out && m.campaignPos == keywords[i].campaignPos
  }

  ghost predicate AnswerOf(m: KeywordMatch, keywords: seq<IndexedKeyword>, pq: PreparedQuery) {
    && (exists i: nat :: IndexHit(keywords, pq, i) && m == MatchAt(keywords[i], pq.distinct))
    && (forall i: nat :: IndexHit(keywords, pq, i) && keywords[i].campaignPos == m.campaignPos ==>
      !Beats(MatchAt(keywords[i], pq.distinct), m))
  }

  lemma CollectedAnswers(out: seq<KeywordMatch>, best: map<nat, KeywordMatch>, keywords: seq<IndexedKeyword>,
                         pq: PreparedQuery, offered: set<nat>)
    requires BestOf(best, keywords, pq.distinct, offered)
    requires forall i: nat :: i in offered <==> IndexHit(keywords, pq, i)
    requires StrictlySorted(out, PositionBefore)
    requires forall m :: m in out <==> m.campaignPos in best && best[m.campaignPos] == m
    ensures AnswersQuery(out, keywords, pq)
  {}

  /** A stored keyword is hit iff its keyword matches the query, with the same result. */
  lemma HitMeansMatch(u: Tables, vocab: Vocab, words: seq<string>, c: Campaign, k: Keyword,
                      keywords: seq<IndexedKeyword>, pq: PreparedQuery, q: set<string>, i: nat)
    requires VocabOk(vocab, words) && Prepared(vocab, words, pq, q) && i < |keywords|
    requires StoredAs(u, vocab, words, c, keywords[i].campaignPos, k, keywords[i])
    ensures IndexHit(keywords, pq, i) <==> Hits(u, k, q)
    ensures MatchAt(keywords[i], pq.distinct) == MatchOf(u, keywords[i].campaignPos, c, k, q)
  {
    TokensDecide(vocab, words, keywords[i].tokens, TokenSet(u, k.text), pq, q);
  }

  /** An answer of the index is the best match of its campaign. */
  lemma AnswerIsBest(u: Tables, vocab: Vocab, words: seq<string>, keywords: seq<IndexedKeyword>, origin: seq<Place>,
                     slot: map<Place, nat>, campaigns: seq<Campaign>, pq: PreparedQuery, q: set<string>, m: KeywordMatch)
    requires VocabOk(vocab, words) && Prepared(vocab, words, pq, q)
    requires KeywordsOk(u, vocab, words, keywords, origin, slot, campaigns, |campaigns|, 0)
    requires AnswerOf(m, keywords, pq)
    ensures m.campaignPos < |campaigns| && IsBest(u, m.campaignPos, campaigns[m.campaignPos], q, m)
  {
    var i: nat :| IndexHit(keywords, pq, i) && m == MatchAt(keywords[i], pq.distinct);
    var pos := m.campaignPos;
    assert IsPlace(campaigns, origin[i]) && origin[i].0 == pos;
    var c := campaigns[pos];
    var k := c.keywords[origin[i].1];
    HitMeansMatch(u, vocab, words, c, k, keywords, pq, q, i);
    assert k in c.keywords && FromKeyword(u, pos, c, q, m, k);
    forall j | 0 <= j < |c.keywords| && Hits(u, c.keywords[j], q)
      ensures !Beats(MatchOf(u, pos, c, c.keywords[j], q), m)
    {
      var at := PlaceIsStored(u, vocab, words, keywords, origin, slot, campaigns, pq, q, pos, j);
    }
  }

  lemma PlaceIsStored(u: Tables, vocab: Vocab, words: seq<string>, keywords: seq<IndexedKeyword>, origin: seq<Place>,
                      slot: map<Place, nat>, campaigns: seq<Campaign>, pq: PreparedQuery, q: set<string>, pos: nat, j: nat)
      returns (at: nat)
    requires VocabOk(vocab, words) && Prepared(vocab, words, pq, q)
    requires KeywordsOk(u, vocab, words, keywords, origin, slot, campaigns, |campaigns|, 0)
    requires pos < |campaigns| && j < |campaigns[pos].keywords| && Hits(u, campaigns[pos].keywords[j], q)
    ensures IndexHit(keywords, pq, at) && keywords[at].campaignPos == pos
    ensures MatchAt(keywords[at], pq.distinct) == MatchOf(u, pos, campaigns[pos], campaigns[pos].keywords[j], q)
  {
    assert IsPlace(campaigns, (pos, j)) && Visited((pos, j), |campaigns|, 0);
    at := slot[(pos, j)];
    assert origin[at] == (pos, j);
    HitMeansMatch(u, vocab, words, campaigns[pos], campaigns[pos].keywords[j], keywords, pq, q, at);
  }

  lemma HitIsAnswered(keywords: seq<IndexedKeyword>, pq: PreparedQuery, out: seq<KeywordMatch>, i: nat)
      returns (n: KeywordMatch)
    requires EveryHitAnswered(out, keywords, pq) && IndexHit(keywords, pq, i)
    ensures n in out && n.campaignPos == keywords[i].campaignPos
  {
    n :| n in out && n.campaignPos == keywords[i].campaignPos;
  }

  lemma BestIsAnswered(u: Tables, vocab: Vocab, words: seq<string>, keywords: seq<IndexedKeyword>,
                       origin: seq<Place>, slot: map<Place, nat>, campaigns: seq<Campaign>, pq: PreparedQuery,
                       q: set<string>, out: seq<KeywordMatch>, m: KeywordMatch)
    requires VocabOk(vocab, words) && Prepared(vocab, words, pq, q)
    requires KeywordsOk(u, vocab, words, keywords, origin, slot, campaigns, |campaigns|, 0)
    requires AnswersQuery(out, keywords, pq)
    requires m.campaignPos < |campaigns| && DistinctKeywords(campaigns[m.campaignPos])
    requires IsBest(u, m.campaignPos, campaigns[m.campaignPos], q, m)
    ensures m in out
  {
    var j := BestHasPlace(u, m.campaignPos, campaigns[m.campaignPos], q, m);
    var at := PlaceIsStored(u, vocab, words, keywords, origin, slot, campaigns, pq, q, m.campaignPos, j);
    var n := HitIsAnswered(keywords, pq, out, at);
    AnswerIsBest(u, vocab, words, keywords, origin, slot, campaigns, pq, q, n);
    BestIsUnique(u, m.campaignPos, campaigns[m.campaignPos], q, m, n);
  }

  lemma BestHasPlace(u: Tables, pos: nat, c: Campaign, q: set<string>, m: KeywordMatch) returns (j: nat)
    requires IsBest(u, pos, c, q, m)
    ensures j < |c.keywords| && Hits(u, c.keywords[j], q)
  {
    var k :| FromKeyword(u, pos, c, q, m, k);
    j :| 0 <= j < |c.keywords| && c.keywords[j] == k;
  }

  lemma AnswerIsReference(u: Tables, vocab: Vocab, words: seq<string>, keywords: seq<IndexedKeyword>,
                          origin: seq<Place>, slot: map<Place, nat>, campaigns: seq<Campaign>, pq: PreparedQuery,
                          q: set<string>, out: seq<KeywordMatch>)
    requires VocabOk(vocab, words) && Prepared(vocab, words, pq, q) && UniqueIds(campaigns)
    requires KeywordsOk(u, vocab, words, keywords, origin, slot, campaigns, |campaigns|, 0)
    requires AnswersQuery(out, keywords, pq)
    ensures out == ReferenceBest(u, campaigns, q, |campaigns|)
  {
    var expected := ReferenceBest(u, campaigns, q, |campaigns|);
    ReferenceBestIff(u, campaigns, q, |campaigns|);
    forall m | m in out ensures m in expected {
      AnswerIsBest(u, vocab, words, keywords, origin, slot, campaigns, pq, q, m);
    }
    forall m | m in expected ensures m in out {
      assert campaigns[m.campaignPos] in campaigns;
      BestIsAnswered(u, vocab, words, keywords, origin, slot, campaigns, pq, q, out, m);
    }
    StrictlySortedIsUnique(out, expected, PositionBefore);
  }

  predicate NegativeHit(e: IndexedNegative, pq: PreparedQuery) {
    match e.matchType
    case Exact => pq.AllKnown() && e.tokens == pq.known
    case Broad => pq.ContainsAll(e.tokens)
  }

  lemma StoredNegativeDecides(u: Tables, vocab: Vocab, words: seq<string>, n: NegativeKeyword, e: IndexedNegative,
                              pq: PreparedQuery, q: set<string>)
    requires VocabOk(vocab, words) && Prepared(vocab, words, pq, q) && NegativeStoredAs(u, vocab, words, n, e)
    ensures NegativeHit(e, pq) <==> TokensMatch(n.matchType, TokenSet(u, n.text), q)
  {
    TokensDecide(vocab, words, e.tokens, TokenSet(u, n.text), pq, q);
  }

  ghost predicate SomeHit(stored: seq<IndexedNegative>, pq: PreparedQuery) {
    exists e :: e in stored && NegativeHit(e, pq)
  }

  /** One of the first `n` negative keywords matches. */
  ghost predicate BlockedBy(u: Tables, negatives: seq<NegativeKeyword>, q: set<string>, n: nat)
    requires n <= |negatives|
  {
    exists i :: 0 <= i < n && TokensMatch(negatives[i].matchType, TokenSet(u, negatives[i].text), q)
  }

  lemma {:induction false} StoredNegativesDecide(u: Tables, vocab: Vocab, words: seq<string>, stored: seq<IndexedNegative>,
                                                 negatives: seq<NegativeKeyword>, n: nat, pq: PreparedQuery, q: set<string>)
    requires VocabOk(vocab, words) && Prepared(vocab, words, pq, q) && n <= |negatives|
    requires NegativesOk(u, vocab, words, stored, negatives, n)
    ensures SomeHit(stored, pq) <==> BlockedBy(u, negatives, q, n)
  {
    if n > 0 {
      var last := negatives[n - 1];
      assert BlockedBy(u, negatives, q, n) <==>
        BlockedBy(u, negatives, q, n - 1) || TokensMatch(last.matchType, TokenSet(u, last.text), q);
      if TokenSet(u, last.text) == {} {
        StoredNegativesDecide(u, vocab, words, stored, negatives, n - 1, pq, q);
      } else {
        var rest, e := stored[..|stored| - 1], stored[|stored| - 1];
        StoredNegativesDecide(u, vocab, words, rest, negatives, n - 1, pq, q);
        StoredNegativeDecides(u, vocab, words, last, e, pq, q);
        LastOrEarlier(rest, e, pq);
        assert stored == rest + [e];
      }
    }
  }

  lemma LastOrEarlier(rest: seq<IndexedNegative>, e: IndexedNegative, pq: PreparedQuery)
    ensures SomeHit(rest + [e], pq) <==> SomeHit(rest, pq) || NegativeHit(e, pq)
  {
    assert e in rest + [e];
    if SomeHit(rest, pq) {
      var x :| x in rest && NegativeHit(x, pq);
      assert x in rest + [e];
    }
  }
}
