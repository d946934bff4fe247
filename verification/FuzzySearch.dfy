/** searchFuzzy of internal/repo/word_repo.go end to end: the FTS5 query FTSMatch writes,
    evaluated on the full-text index, selects the words one would find by reading the table.

    FTS5 tokenizes a phrase with the tokenizer of the table.  A phrase without tokens, such as
    one of punctuation only, is taken to match nothing. */
module FuzzySearch {
  import opened Options
  import opened Text
  import opened FtsQuery
  import opened WordTable

  type Tokenizer = string -> seq<string>

  // ---------------------------------------------------------------------------
  // On the index

  /** Some term of the index at this place is the token, or starts with it. */
  ghost predicate Posted(index: multiset<Posting>, token: string, prefix: bool, id: nat, column: nat, position: nat) {
    exists term :: Fits(token, prefix, term) && Posting(term, id, column, position) in index
  }

  predicate Fits(token: string, prefix: bool, term: string) {
    if prefix then token <= term else token == term
  }

  /** The tokens of the phrase stand one after the other, only the last of them as a prefix. */
  ghost predicate PhraseAt(index: multiset<Posting>, tokens: seq<string>, prefix: bool,
                           id: nat, column: nat, start: nat)
  {
    forall k :: 0 <= k < |tokens| ==> Posted(index, tokens[k], prefix && k == |tokens| - 1, id, column, start + k)
  }

  ghost predicate PhraseMatches(index: multiset<Posting>, tokenize: Tokenizer, phrase: Phrase, id: nat) {
    var tokens := tokenize(phrase.text);
    tokens != [] && exists column: nat, start: nat :: PhraseAt(index, tokens, phrase.prefix, id, column, start)
  }

  /** words_fts MATCH query. */
  ghost predicate Matched(index: multiset<Posting>, tokenize: Tokenizer, query: string, id: nat) {
    match Parse(query)
    case None => false
    case Some(phrases) => forall i :: 0 <= i < |phrases| ==> PhraseMatches(index, tokenize, phrases[i], id)
  }

  // ---------------------------------------------------------------------------
  // On the table

  /** The tokens occur consecutively in the text, the last as a prefix. */
  predicate OccursAt(tokens: seq<string>, text: seq<string>, start: nat) {
    && start + |tokens| <= |text|
    && forall k :: 0 <= k < |tokens| ==>
         if k == |tokens| - 1 then tokens[k] <= text[start + k] else tokens[k] == text[start + k]
  }

  /** There is a token at least, and the tokens stand in the text. */
  ghost predicate StandsIn(tokens: seq<string>, text: seq<string>) {
    tokens != [] && exists start: nat :: OccursAt(tokens, text, start)
  }

  lemma InIndex(env: Env, tokenize: Tokenizer, db: Db, p: Posting)
    requires Valid(env, db) && UsesTokenizer(env, tokenize)
    ensures p in db.index <==> p.rowid in db.rows && Tokenizes(tokenize, db.rows[p.rowid].word, p)
  {
    IndexIsExact(env, tokenize, db, p);
  }

  lemma PostedMeans(env: Env, tokenize: Tokenizer, db: Db, token: string, prefix: bool, id: nat, column: nat, at: nat)
    requires Valid(env, db) && UsesTokenizer(env, tokenize)
    ensures Posted(db.index, token, prefix, id, column, at) <==>
      && id in db.rows && column < 3
      && var text := tokenize(ColumnText(db.rows[id].word, column));
        at < |text| && Fits(token, prefix, text[at])
  {
    if Posted(db.index, token, prefix, id, column, at) {
      var term :| Fits(token, prefix, term) && Posting(term, id, column, at) in db.index;
      InIndex(env, tokenize, db, Posting(term, id, column, at));
    }
    if id in db.rows && column < 3 {
      var text := tokenize(ColumnText(db.rows[id].word, column));
      if at < |text| {
        InIndex(env, tokenize, db, Posting(text[at], id, column, at));
      }
    }
  }

  /** The k-th token is where it should be. */
  predicate FitsAt(tokens: seq<string>, text: seq<string>, start: nat, k: nat)
    requires k < |tokens|
  {
    start + k < |text| && Fits(tokens[k], k == |tokens| - 1, text[start + k])
  }

  predicate AllFit(tokens: seq<string>, text: seq<string>, start: nat) {
    forall k :: 0 <= k < |tokens| ==> FitsAt(tokens, text, start, k)
  }

  lemma OccursTokenByToken(tokens: seq<string>, text: seq<string>, start: nat)
    requires tokens != []
    ensures OccursAt(tokens, text, start) <==> AllFit(tokens, text, start)
  {
    if AllFit(tokens, text, start) {
      assert FitsAt(tokens, text, start, |tokens| - 1);
      forall k | 0 <= k < |tokens|
        ensures if k == |tokens| - 1 then tokens[k] <= text[start + k] else tokens[k] == text[start + k]
      {
        assert FitsAt(tokens, text, start, k);
      }
    }
  }

  lemma TokenIsPosted(env: Env, tokenize: Tokenizer, db: Db, tokens: seq<string>, id: nat, column: nat,
                      start: nat, k: nat)
    requires Valid(env, db) && UsesTokenizer(env, tokenize) && k < |tokens|
    ensures Posted(db.index, tokens[k], k == |tokens| - 1, id, column, start + k) <==>
      id in db.rows && column < 3 && FitsAt(tokens, tokenize(ColumnText(db.rows[id].word, column)), start, k)
  {
    PostedMeans(env, tokenize, db, tokens[k], k == |tokens| - 1, id, column, start + k);
  }

  lemma PhraseAtMeans(env: Env, tokenize: Tokenizer, db: Db, tokens: seq<string>, id: nat, column: nat, start: nat)
    requires Valid(env, db) && UsesTokenizer(env, tokenize) && tokens != []
    ensures PhraseAt(db.index, tokens, true, id, column, start) <==>
      id in db.rows && column < 3 && OccursAt(tokens, tokenize(ColumnText(db.rows[id].word, column)), start)
  {
    TokenIsPosted(env, tokenize, db, tokens, id, column, start, 0);
    forall k | 0 <= k < |tokens|
      ensures Posted(db.index, tokens[k], true && k == |tokens| - 1, id, column, start + k) <==>
        id in db.rows && column < 3 && FitsAt(tokens, tokenize(ColumnText(db.rows[id].word, column)), start, k)
    {
      TokenIsPosted(env, tokenize, db, tokens, id, column, start, k);
    }
    if id in db.rows && column < 3 {
      var text := tokenize(ColumnText(db.rows[id].word, column));
      OccursTokenByToken(tokens, text, start);
      assert PhraseAt(db.index, tokens, true, id, column, start) <==> AllFit(tokens, text, start);
    }
  }

  lemma PhraseMeans(env: Env, tokenize: Tokenizer, db: Db, term: string, id: nat)
    requires Valid(env, db) && UsesTokenizer(env, tokenize)
    ensures PhraseMatches(db.index, tokenize, Phrase(term, true), id) <==>
            && id in db.rows
            && var w := db.rows[id].word;
              || StandsIn(tokenize(term), tokenize(w.word))
              || StandsIn(tokenize(term), tokenize(w.definition))
              || StandsIn(tokenize(term), tokenize(w.translation))
  {
    var tokens := tokenize(term);
    if tokens != [] {
      forall column: nat, start: nat
        ensures PhraseAt(db.index, tokens, true, id, column, start) <==>
          id in db.rows && column < 3 && OccursAt(tokens, tokenize(ColumnText(db.rows[id].word, column)), start)
      {
        PhraseAtMeans(env, tokenize, db, tokens, id, column, start);
      }
      if id in db.rows {
        var w := db.rows[id].word;
        assert ColumnText(w, 0) == w.word && ColumnText(w, 1) == w.definition && ColumnText(w, 2) == w.translation;
        assert forall start: nat :: OccursAt(tokens, tokenize(w.word), start) ==>
          PhraseAt(db.index, tokens, true, id, 0, start);
        assert forall start: nat :: OccursAt(tokens, tokenize(w.definition), start) ==>
          PhraseAt(db.index, tokens, true, id, 1, start);
        assert forall start: nat :: OccursAt(tokens, tokenize(w.translation), start) ==>
          PhraseAt(db.index, tokens, true, id, 2, start);
      }
    }
  }

  /** The tokens of a term stand in one of the three texts that are searched. */
  ghost predicate Found(tokenize: Tokenizer, term: string, w: Word) {
    || StandsIn(tokenize(term), tokenize(w.word))
    || StandsIn(tokenize(term), tokenize(w.definition))
    || StandsIn(tokenize(term), tokenize(w.translation))
  }

  /** For every text without NUL that is not blank, and every table whose index is the rebuilt
      one: the query matches exactly the rows in whose word, definition or translation every term
      of the lower-cased text stands. */
  lemma FuzzySearchFinds(env: Env, tokenize: Tokenizer, db: Db, q: string, id: nat)
    requires Valid(env, db) && UsesTokenizer(env, tokenize)
    requires '\0' !in env.lower(q) && !AllSpace(env.lower(q))
    ensures Matched(db.index, tokenize, Query(q, env.lower), id) <==>
      id in db.rows && forall term :: term in Fields(env.lower(q)) ==>
        || StandsIn(tokenize(term), tokenize(db.rows[id].word.word))
        || StandsIn(tokenize(term), tokenize(db.rows[id].word.definition))
        || StandsIn(tokenize(term), tokenize(db.rows[id].word.translation))
  {
    var terms := Fields(env.lower(q));
    QueryMeansTerms(q, env.lower);
    BlankHasNoFields(env.lower(q));
    forall i | 0 <= i < |terms|
      ensures PhraseMatches(db.index, tokenize, PrefixPhrases(terms)[i], id) <==>
              id in db.rows && Found(tokenize, terms[i], db.rows[id].word)
    {
      PhraseMeans(env, tokenize, db, terms[i], id);
    }
    if Matched(db.index, tokenize, Query(q, env.lower), id) {
      assert PhraseMatches(db.index, tokenize, PrefixPhrases(terms)[0], id);
    }
  }

  /** And so it does after any run of inserts, upserts and deletes. */
  lemma FuzzySearchFindsAfterWrites(env: Env, tokenize: Tokenizer, writes: seq<Write>, q: string, id: nat)
    requires UsesTokenizer(env, tokenize)
    requires '\0' !in env.lower(q) && !AllSpace(env.lower(q))
    ensures Valid(env, EMPTY)
    ensures var db := ExecuteAll(env, EMPTY, writes);
      Matched(db.index, tokenize, Query(q, env.lower), id) <==>
      id in db.rows && forall term :: term in Fields(env.lower(q)) ==>
        || StandsIn(tokenize(term), tokenize(db.rows[id].word.word))
        || StandsIn(tokenize(term), tokenize(db.rows[id].word.definition))
        || StandsIn(tokenize(term), tokenize(db.rows[id].word.translation))
  {
    RunsKeepIndex(env, EMPTY, writes);
    FuzzySearchFinds(env, tokenize, ExecuteAll(env, EMPTY, writes), q, id);
  }
}
