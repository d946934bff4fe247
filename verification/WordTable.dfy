/** The `words` table with its unique index and full-text index: the schema and triggers of
    migrations/schema.sql and the writes of internal/repo/word_repo.go.  The full-text index is
    external-content: it holds postings only, and 'delete' removes the postings of the values
    it is handed, whatever the table says. */
module WordTable {
  import opened Options
  import opened Text

  datatype Word = Word(
    word: string, phonetic: string, definition: string, translation: string, pos: string,
    collins: int, oxford: int, tag: string, bnc: int, frq: int,
    exchange: string, detail: string, audio: string)

  datatype Row = Row(wordLower: string, word: Word)

  datatype Posting = Posting(term: string, rowid: nat, column: nat, position: nat)

  /** The library functions the code relies on: the postings FTS5 derives from the columns of
      one row, and strings.ToLower.  Nothing is assumed of either until IndexIsExact. */
  datatype Env = Env(postings: (nat, Word) -> multiset<Posting>, lower: string -> string)

  /** Table, AUTOINCREMENT counter, unique index on word_lower, full-text index. */
  datatype Db = Db(rows: map<nat, Row>, lastId: nat, byLower: map<string, nat>, index: multiset<Posting>)

  const EMPTY: Db := Db(map[], 0, map[], multiset{})

  // ---------------------------------------------------------------------------
  // The full-text index

  /** The index built from scratch from a table. */
  ghost function Rebuild(env: Env, rows: map<nat, Row>): multiset<Posting> {
    if rows == map[] then multiset{} else
      var id :| id in rows;
      env.postings(id, rows[id].word) + Rebuild(env, rows - {id})
  }

  // ---------------------------------------------------------------------------
  // Writes, each with its trigger

  function InsertRow(env: Env, db: Db, row: Row): Db {
    var id := db.lastId + 1;
    Db(db.rows[id := row], id, db.byLower[row.wordLower := id], db.index + env.postings(id, row.word))
  }

  function UpdateRow(env: Env, db: Db, id: nat, w: Word): Db
    requires id in db.rows
  {
    db.(rows := db.rows[id := db.rows[id].(word := w)],
        index := db.index - env.postings(id, db.rows[id].word) + env.postings(id, w))
  }

  function DeleteRow(env: Env, db: Db, id: nat): Db
    requires id in db.rows
  {
    db.(rows := db.rows - {id},
        byLower := db.byLower - {db.rows[id].wordLower},
        index := db.index - env.postings(id, db.rows[id].word))
  }

  /** The unique index agrees with the table: so no two rows share a word_lower. */
  ghost predicate UniqueLower(db: Db) {
    && (forall id :: id in db.rows ==>
          db.rows[id].wordLower in db.byLower && db.byLower[db.rows[id].wordLower] == id)
    && (forall l :: l in db.byLower ==> db.byLower[l] in db.rows && db.rows[db.byLower[l]].wordLower == l)
  }

  ghost predicate Valid(env: Env, db: Db) {
    && UniqueLower(db)
    && (forall id :: id in db.rows ==> id <= db.lastId)
    && db.index == Rebuild(env, db.rows)
  }

  /** INSERT ... ON CONFLICT(word_lower) DO UPDATE.  The row id is drawn before the conflict
      is found, so an update uses one up too. */
  function Upsert(env: Env, db: Db, w: Word): Db
    requires UniqueLower(db)
  {
    var l := env.lower(w.word);
    if l in db.byLower then UpdateRow(env, db, db.byLower[l], w).(lastId := db.lastId + 1)
    else InsertRow(env, db, Row(l, w))
  }

  predicate Skipped(w: Word) {
    TrimSpace(w.word) == ""
  }

  function UpsertAll(env: Env, db: Db, words: seq<Word>): Db
    requires Valid(env, db)
    decreases |words|
  {
    if words == [] then db
    else if Skipped(words[0]) then UpsertAll(env, db, words[1..])
    else
      UpsertKeepsValid(env, db, words[0]);
      UpsertAll(env, Upsert(env, db, words[0]), words[1..])
  }

  function GetByWord(env: Env, db: Db, word: string): Option<(nat, Word)>
    requires UniqueLower(db)
  {
    var l := env.lower(TrimSpace(word));
    if l in db.byLower then Some((db.byLower[l], db.rows[db.byLower[l]].word)) else None
  }

  // ---------------------------------------------------------------------------
  // The index always equals the rebuilt index

  lemma SumsSwap(a: multiset<Posting>, b: multiset<Posting>, c: multiset<Posting>)
    ensures a + (b + c) == b + (a + c)
  {
  }

  lemma SumsCancel(a: multiset<Posting>, b: multiset<Posting>)
    ensures a + b - a == b && b + a == a + b
  {
  }

  lemma KeysWithout(rows: map<nat, Row>, id: nat)
    requires id in rows
    ensures (rows - {id}).Keys == rows.Keys - {id} && |rows - {id}| < |rows|
  {
    assert (rows - {id}).Keys == rows.Keys - {id};
  }

  lemma {:induction false} RebuildWithout(env: Env, rows: map<nat, Row>, id: nat)
    requires id in rows
    ensures Rebuild(env, rows) == env.postings(id, rows[id].word) + Rebuild(env, rows - {id})
    decreases |rows|
  {
    var first :| first in rows
      && Rebuild(env, rows) == env.postings(first, rows[first].word) + Rebuild(env, rows - {first});
    if first != id {
      KeysWithout(rows, first);
      KeysWithout(rows, id);
      RebuildWithout(env, rows - {first}, id);
      RebuildWithout(env, rows - {id}, first);
      assert rows - {first} - {id} == rows - {id} - {first};
      SumsSwap(env.postings(first, rows[first].word), env.postings(id, rows[id].word),
               Rebuild(env, rows - {id} - {first}));
    }
  }

  lemma RebuildWith(env: Env, rows: map<nat, Row>, id: nat, row: Row)
    requires id !in rows
    ensures Rebuild(env, rows[id := row]) == Rebuild(env, rows) + env.postings(id, row.word)
  {
    RebuildWithout(env, rows[id := row], id);
    assert rows[id := row] - {id} == rows;
    SumsCancel(env.postings(id, row.word), Rebuild(env, rows));
  }

  lemma RebuildLess(env: Env, rows: map<nat, Row>, id: nat)
    requires id in rows
    ensures Rebuild(env, rows - {id}) == Rebuild(env, rows) - env.postings(id, rows[id].word)
  {
    RebuildWithout(env, rows, id);
    SumsCancel(env.postings(id, rows[id].word), Rebuild(env, rows - {id}));
  }

  lemma UpdateIndex(env: Env, rows: map<nat, Row>, id: nat, was: Word)
    requires id in rows
    ensures var before := rows[id := rows[id].(word := was)];
      Rebuild(env, rows) == Rebuild(env, before) - env.postings(id, was) + env.postings(id, rows[id].word)
  {
    var before := rows[id := rows[id].(word := was)];
    RebuildLess(env, before, id);
    RebuildWithout(env, rows, id);
    assert before - {id} == rows - {id};
    SumsCancel(env.postings(id, rows[id].word), Rebuild(env, rows - {id}));
  }

  lemma InsertKeepsValid(env: Env, db: Db, row: Row)
    requires Valid(env, db) && row.wordLower !in db.byLower
    ensures Valid(env, InsertRow(env, db, row))
  {
    RebuildWith(env, db.rows, db.lastId + 1, row);
  }

  lemma UpdateKeepsValid(env: Env, db: Db, id: nat, w: Word)
    requires Valid(env, db) && id in db.rows
    ensures Valid(env, UpdateRow(env, db, id, w))
  {
    var rows := db.rows[id := db.rows[id].(word := w)];
    UpdateIndex(env, rows, id, db.rows[id].word);
    assert rows[id := rows[id].(word := db.rows[id].word)] == db.rows;
  }

  lemma DeleteKeepsValid(env: Env, db: Db, id: nat)
    requires Valid(env, db) && id in db.rows
    ensures Valid(env, DeleteRow(env, db, id))
  {
    RebuildLess(env, db.rows, id);
  }

  lemma UpsertKeepsValid(env: Env, db: Db, w: Word)
    requires Valid(env, db)
    ensures Valid(env, Upsert(env, db, w))
  {
    var l := env.lower(w.word);
    if l in db.byLower {
      UpdateKeepsValid(env, db, db.byLower[l], w);
    } else {
      InsertKeepsValid(env, db, Row(l, w));
    }
  }

  /** In rows: the one row with the key gets the word and keeps its id, or a new row with the
      next id gets it; an id is used up either way. */
  lemma UpsertRows(env: Env, db: Db, w: Word)
    requires UniqueLower(db)
    ensures var l, db' := env.lower(w.word), Upsert(env, db, w);
      && db'.lastId == db.lastId + 1
      && (forall id :: id in db.rows && db.rows[id].wordLower == l ==> db'.rows == db.rows[id := Row(l, w)])
      && ((forall id :: id in db.rows ==> db.rows[id].wordLower != l) ==>
            db'.rows == db.rows[db.lastId + 1 := Row(l, w)])
  {
  }

  datatype Write = Insert(row: Row) | Put(word: Word) | Delete(id: nat)

  /** One statement; an INSERT that breaks the unique index fails and changes nothing. */
  function Execute(env: Env, db: Db, write: Write): Db
    requires UniqueLower(db)
  {
    match write
    case Insert(row) => if row.wordLower in db.byLower then db else InsertRow(env, db, row)
    case Put(w) => Upsert(env, db, w)
    case Delete(id) => if id in db.rows then DeleteRow(env, db, id) else db
  }

  lemma ExecuteKeepsValid(env: Env, db: Db, write: Write)
    requires Valid(env, db)
    ensures Valid(env, Execute(env, db, write))
  {
    match write
    case Insert(row) => if row.wordLower !in db.byLower { InsertKeepsValid(env, db, row); }
    case Put(w) => UpsertKeepsValid(env, db, w);
    case Delete(id) => if id in db.rows { DeleteKeepsValid(env, db, id); }
  }

  function ExecuteAll(env: Env, db: Db, writes: seq<Write>): Db
    requires Valid(env, db)
    decreases |writes|
  {
    if writes == [] then db
    else
      ExecuteKeepsValid(env, db, writes[0]);
      ExecuteAll(env, Execute(env, db, writes[0]), writes[1..])
  }

  /** Row ids are not reused, and a row that survives keeps its word_lower. */
  ghost predicate KeepsIds(before: Db, after: Db) {
    && before.lastId <= after.lastId
    && (forall id :: id in after.rows && id <= before.lastId ==>
          id in before.rows && after.rows[id].wordLower == before.rows[id].wordLower)
  }

  /** In rows: an INSERT adds its row under a new id unless a row has its key, a DELETE takes its
      row away. */
  lemma ExecuteRows(env: Env, db: Db, write: Write)
    requires UniqueLower(db)
    ensures var rows := Execute(env, db, write).rows;
      match write
      case Insert(row) =>
        rows == (if exists id :: id in db.rows && db.rows[id].wordLower == row.wordLower then db.rows
                 else db.rows[db.lastId + 1 := row])
      case Put(w) => rows == Upsert(env, db, w).rows
      case Delete(id) => rows == db.rows - {id}
  {
    if write.Insert? && write.row.wordLower in db.byLower {
      assert db.rows[db.byLower[write.row.wordLower]].wordLower == write.row.wordLower;
    }
    if write.Delete? && write.id !in db.rows {
      assert db.rows - {write.id} == db.rows;
    }
  }

  lemma ExecuteKeepsIds(env: Env, db: Db, write: Write)
    requires Valid(env, db)
    ensures KeepsIds(db, Execute(env, db, write))
  {
  }

  /** After any run of inserts, upserts and deletes the full-text index is the one rebuilt
      from the table, word_lower is unique, and ids are kept. */
  lemma {:induction false} RunsKeepIndex(env: Env, db: Db, writes: seq<Write>)
    requires Valid(env, db)
    ensures var end := ExecuteAll(env, db, writes);
      UniqueLower(end) && end.index == Rebuild(env, end.rows) && Valid(env, end) && KeepsIds(db, end)
    decreases |writes|
  {
    if writes != [] {
      ExecuteKeepsValid(env, db, writes[0]);
      ExecuteKeepsIds(env, db, writes[0]);
      RunsKeepIndex(env, Execute(env, db, writes[0]), writes[1..]);
    }
  }

  // The tokenizer at work

  function ColumnText(w: Word, column: nat): string {
    if column == 0 then w.word else if column == 1 then w.definition else w.translation
  }

  function ColumnPostings(tokenize: string -> seq<string>, id: nat, w: Word, column: nat): seq<Posting> {
    var terms := tokenize(ColumnText(w, column));
    seq(|terms|, i requires 0 <= i < |terms| => Posting(terms[i], id, column, i))
  }

  /** The columns word, definition and translation of a row, tokenized. */
  function RowPostings(tokenize: string -> seq<string>, id: nat, w: Word): seq<Posting> {
    ColumnPostings(tokenize, id, w, 0) + ColumnPostings(tokenize, id, w, 1) + ColumnPostings(tokenize, id, w, 2)
  }

  ghost predicate UsesTokenizer(env: Env, tokenize: string -> seq<string>) {
    forall id, w :: env.postings(id, w) == multiset(RowPostings(tokenize, id, w))
  }

  predicate Tokenizes(tokenize: string -> seq<string>, w: Word, p: Posting) {
    && p.column < 3
    && p.position < |tokenize(ColumnText(w, p.column))|
    && tokenize(ColumnText(w, p.column))[p.position] == p.term
  }

  lemma ColumnPostingCount(tokenize: string -> seq<string>, id: nat, w: Word, column: nat, p: Posting)
    requires column < 3
    ensures multiset(ColumnPostings(tokenize, id, w, column))[p] ==
            if p.rowid == id && p.column == column && Tokenizes(tokenize, w, p) then 1 else 0
  {
    var ps := ColumnPostings(tokenize, id, w, column);
    if p.rowid == id && p.column == column && Tokenizes(tokenize, w, p) {
      var k := p.position;
      assert ps[k] == p;
      assert ps == ps[..k] + [ps[k]] + ps[k + 1..];
      assert p !in ps[..k] && p !in ps[k + 1..];
    } else {
      assert p !in ps;
    }
  }

  lemma RowPostingCount(tokenize: string -> seq<string>, id: nat, w: Word, p: Posting)
    ensures multiset(RowPostings(tokenize, id, w))[p] == if p.rowid == id && Tokenizes(tokenize, w, p) then 1 else 0
  {
    ColumnPostingCount(tokenize, id, w, 0, p);
    ColumnPostingCount(tokenize, id, w, 1, p);
    ColumnPostingCount(tokenize, id, w, 2, p);
  }

  /** In the row's own fields: its postings are the tokens of its word, its definition and its
      translation, every one of them, each once with its position; no other field matters. */
  lemma RowPostingsAreTokens(tokenize: string -> seq<string>, id: nat, w: Word, p: Posting)
    ensures multiset(RowPostings(tokenize, id, w))[p] ==
      if p.rowid == id
         && (|| (p.column == 0 && p.position < |tokenize(w.word)| && p.term == tokenize(w.word)[p.position])
             || (p.column == 1 && p.position < |tokenize(w.definition)| && p.term == tokenize(w.definition)[p.position])
             || (p.column == 2 && p.position < |tokenize(w.translation)|
                 && p.term == tokenize(w.translation)[p.position]))
      then 1 else 0
  {
    RowPostingCount(tokenize, id, w, p);
  }

  lemma {:induction false} RebuildCount(env: Env, tokenize: string -> seq<string>, rows: map<nat, Row>, p: Posting)
    requires UsesTokenizer(env, tokenize)
    ensures Rebuild(env, rows)[p] ==
            if p.rowid in rows && Tokenizes(tokenize, rows[p.rowid].word, p) then 1 else 0
    decreases |rows|
  {
    if rows != map[] {
      var id :| id in rows && Rebuild(env, rows) == env.postings(id, rows[id].word) + Rebuild(env, rows - {id});
      KeysWithout(rows, id);
      RebuildCount(env, tokenize, rows - {id}, p);
      RowPostingCount(tokenize, id, rows[id].word, p);
    }
  }

  /** What a valid index answers: exactly the occurrences in the current table, each once. */
  lemma IndexIsExact(env: Env, tokenize: string -> seq<string>, db: Db, p: Posting)
    requires Valid(env, db) && UsesTokenizer(env, tokenize)
    ensures db.index[p] ==
      if p.rowid in db.rows
         && var w := db.rows[p.rowid].word;
            || (p.column == 0 && p.position < |tokenize(w.word)| && p.term == tokenize(w.word)[p.position])
            || (p.column == 1 && p.position < |tokenize(w.definition)| && p.term == tokenize(w.definition)[p.position])
            || (p.column == 2 && p.position < |tokenize(w.translation)|
                && p.term == tokenize(w.translation)[p.position])
      then 1 else 0
  {
    RebuildCount(env, tokenize, db.rows, p);
  }

  // ---------------------------------------------------------------------------
  // Batches

  lemma {:induction false} UpsertAllKeepsValid(env: Env, db: Db, words: seq<Word>)
    requires Valid(env, db)
    ensures Valid(env, UpsertAll(env, db, words))
    decreases |words|
  {
    if words != [] {
      if Skipped(words[0]) {
        UpsertAllKeepsValid(env, db, words[1..]);
      } else {
        UpsertKeepsValid(env, db, words[0]);
        UpsertAllKeepsValid(env, Upsert(env, db, words[0]), words[1..]);
      }
    }
  }

  /** Two batches do what one does. */
  lemma {:induction false} BatchesCompose(env: Env, db: Db, xs: seq<Word>, ys: seq<Word>)
    requires Valid(env, db)
    ensures Valid(env, UpsertAll(env, db, xs))
    ensures UpsertAll(env, db, xs + ys) == UpsertAll(env, UpsertAll(env, db, xs), ys)
    decreases |xs|
  {
    UpsertAllKeepsValid(env, db, xs);
    if xs == [] {
      assert xs + ys == ys;
    } else {
      assert (xs + ys)[1..] == xs[1..] + ys;
      if Skipped(xs[0]) {
        BatchesCompose(env, db, xs[1..], ys);
      } else {
        UpsertKeepsValid(env, db, xs[0]);
        BatchesCompose(env, Upsert(env, db, xs[0]), xs[1..], ys);
      }
    }
  }

  /** The last word of a batch stored under key `l`, if any. */
  function LastFor(env: Env, words: seq<Word>, l: string): Option<Word> {
    if words == [] then None
    else
      var w := words[|words| - 1];
      if !Skipped(w) && env.lower(w.word) == l then Some(w) else LastFor(env, words[..|words| - 1], l)
  }

  lemma UpsertAllSnoc(env: Env, db: Db, words: seq<Word>)
    requires Valid(env, db) && words != []
    ensures var rest, w := words[..|words| - 1], words[|words| - 1];
      && Valid(env, UpsertAll(env, db, rest))
      && UpsertAll(env, db, words) ==
         if Skipped(w) then UpsertAll(env, db, rest) else Upsert(env, UpsertAll(env, db, rest), w)
  {
    var rest, w := words[..|words| - 1], words[|words| - 1];
    assert words == rest + [w];
    BatchesCompose(env, db, rest, [w]);
    var mid := UpsertAll(env, db, rest);
    UpsertAllKeepsValid(env, db, rest);
    if !Skipped(w) {
      UpsertKeepsValid(env, mid, w);
      assert UpsertAll(env, Upsert(env, mid, w), [w][1..]) == Upsert(env, mid, w);
    }
  }

  /** The word stored under a key. */
  function Stored(db: Db, l: string): Option<Word>
    requires UniqueLower(db)
  {
    if l in db.byLower then Some(db.rows[db.byLower[l]].word) else None
  }

  /** It is the word of the only row with that key. */
  lemma StoredMeans(db: Db, l: string, w: Word)
    requires UniqueLower(db)
    ensures Stored(db, l) == Some(w) <==> exists id :: id in db.rows && db.rows[id] == Row(l, w)
    ensures Stored(db, l) == None <==> forall id :: id in db.rows ==> db.rows[id].wordLower != l
  {
    if l in db.byLower {
      assert db.rows[db.byLower[l]].wordLower == l;
    }
  }

  lemma UpsertStores(env: Env, db: Db, w: Word, l: string)
    requires Valid(env, db)
    ensures Valid(env, Upsert(env, db, w))
    ensures Stored(Upsert(env, db, w), l) == if env.lower(w.word) == l then Some(w) else Stored(db, l)
    ensures l in db.byLower ==> l in Upsert(env, db, w).byLower && Upsert(env, db, w).byLower[l] == db.byLower[l]
  {
    UpsertKeepsValid(env, db, w);
  }

  lemma {:induction false} LastForWins(env: Env, db: Db, words: seq<Word>, l: string)
    requires Valid(env, db)
    ensures Valid(env, UpsertAll(env, db, words))
    ensures Stored(UpsertAll(env, db, words), l) ==
            if LastFor(env, words, l).Some? then LastFor(env, words, l) else Stored(db, l)
    ensures l in db.byLower ==>
      l in UpsertAll(env, db, words).byLower && UpsertAll(env, db, words).byLower[l] == db.byLower[l]
    decreases |words|
  {
    UpsertAllKeepsValid(env, db, words);
    if words != [] {
      var rest, w := words[..|words| - 1], words[|words| - 1];
      LastForWins(env, db, rest, l);
      UpsertAllSnoc(env, db, words);
      UpsertStores(env, UpsertAll(env, db, rest), w, l);
    }
  }

  /** The i-th word is the last of the batch that is not blank and has the key. */
  predicate IsLast(env: Env, words: seq<Word>, i: nat, l: string) {
    && i < |words| && TrimSpace(words[i].word) != "" && env.lower(words[i].word) == l
    && forall j :: i < j < |words| && TrimSpace(words[j].word) != "" ==> env.lower(words[j].word) != l
  }

  lemma {:induction false} LastForIsLast(env: Env, words: seq<Word>, l: string)
    ensures forall i: nat :: IsLast(env, words, i, l) ==> LastFor(env, words, l) == Some(words[i])
    ensures (forall i: nat :: !IsLast(env, words, i, l)) ==> LastFor(env, words, l) == None
    decreases |words|
  {
    if words != [] {
      var n := |words| - 1;
      var rest, w := words[..n], words[n];
      LastForIsLast(env, rest, l);
      if !Skipped(w) && env.lower(w.word) == l {
        assert IsLast(env, words, n, l);
      } else {
        forall i: nat
          ensures IsLast(env, words, i, l) <==> IsLast(env, rest, i, l)
        {
          LastDoesNotMatter(env, words, i, l);
        }
      }
    }
  }

  lemma LastDoesNotMatter(env: Env, words: seq<Word>, i: nat, l: string)
    requires words != []
    requires var w := words[|words| - 1]; TrimSpace(w.word) == "" || env.lower(w.word) != l
    ensures IsLast(env, words, i, l) <==> IsLast(env, words[..|words| - 1], i, l)
  {
    var rest := words[..|words| - 1];
    assert forall j :: 0 <= j < |rest| ==> rest[j] == words[j];
  }

  /** A batch stores, under every key, the last of its words that is not blank and has that key;
      keys without such a word keep theirs, and existing keys keep their row id. */
  lemma LastWordWins(env: Env, db: Db, words: seq<Word>, l: string)
    requires Valid(env, db)
    ensures Valid(env, UpsertAll(env, db, words))
    ensures forall i: nat :: IsLast(env, words, i, l) ==> Stored(UpsertAll(env, db, words), l) == Some(words[i])
    ensures (forall i: nat :: !IsLast(env, words, i, l)) ==> Stored(UpsertAll(env, db, words), l) == Stored(db, l)
    ensures forall id :: id in db.rows && db.rows[id].wordLower == l ==>
      id in UpsertAll(env, db, words).rows && UpsertAll(env, db, words).rows[id].wordLower == l
  {
    LastForWins(env, db, words, l);
    LastForIsLast(env, words, l);
  }

  /** A stored word is found again under its own spelling exactly when trimming does not
      change its key: the key is not trimmed on the way in, but it is on the way out. */
  lemma StoredWordIsFound(env: Env, db: Db, w: Word)
    requires Valid(env, db)
    ensures Valid(env, Upsert(env, db, w))
    ensures var db' := Upsert(env, db, w);
      var id := db'.byLower[env.lower(w.word)];
      (GetByWord(env, db', w.word).Some? && GetByWord(env, db', w.word).value.0 == id
       <==> env.lower(TrimSpace(w.word)) == env.lower(w.word))
      && (env.lower(TrimSpace(w.word)) == env.lower(w.word) ==> GetByWord(env, db', w.word) == Some((id, w)))
  {
    UpsertKeepsValid(env, db, w);
  }

  /** A lookup finds exactly the row whose key is the lower-cased, trimmed text. */
  lemma LookupFinds(env: Env, db: Db, text: string, id: nat, w: Word)
    requires UniqueLower(db)
    ensures GetByWord(env, db, text) == Some((id, w)) <==>
      id in db.rows && db.rows[id].wordLower == env.lower(TrimSpace(text)) && db.rows[id].word == w
    ensures GetByWord(env, db, text) == None <==>
      forall i :: i in db.rows ==> db.rows[i].wordLower != env.lower(TrimSpace(text))
  {
    var l := env.lower(TrimSpace(text));
    if l in db.byLower {
      assert db.rows[db.byLower[l]].wordLower == l;
    }
  }

  /** All spellings with one key get one answer, white space around them included. */
  lemma SpellingsAgree(env: Env, db: Db, a: string, b: string)
    requires UniqueLower(db) && env.lower(TrimSpace(a)) == env.lower(TrimSpace(b))
    ensures GetByWord(env, db, a) == GetByWord(env, db, b)
    ensures GetByWord(env, db, a).Some? ==> db.rows[GetByWord(env, db, a).value.0].wordLower == env.lower(TrimSpace(b))
  {
  }

  // ---------------------------------------------------------------------------
  // The repository

  /** Where the database reports an error while a batch is written, if it does. */
  datatype Fault = NoFault | AtRow(i: nat) | AtCommit

  predicate Strikes(fault: Fault, words: seq<Word>) {
    match fault
    case NoFault => false
    case AtRow(i) => i < |words| && !Skipped(words[i])
    case AtCommit => true
  }

  class WordRepository {
    const env: Env
    var rows: map<nat, Row>
    var lastId: nat
    var byLower: map<string, nat>
    var index: multiset<Posting>

    ghost function View(): Db
      reads this
    {
      Db(rows, lastId, byLower, index)
    }

    constructor (env: Env)
      ensures this.env == env && View() == EMPTY && Valid(env, View())
    {
      this.env := env;
      rows, lastId, byLower, index := map[], 0, map[], multiset{};
    }

    /** Trigger words_ai: an index of the other rows becomes the index of all rows. */
    method AfterInsert(id: nat)
      requires id in rows
      modifies this`index
      ensures index == old(index) + env.postings(id, rows[id].word)
      ensures old(index) == Rebuild(env, rows - {id}) ==> index == Rebuild(env, rows)
    {
      RebuildWithout(env, rows, id);
      SumsCancel(env.postings(id, rows[id].word), index);
      index := index + env.postings(id, rows[id].word);
    }

    /** Trigger words_au: the index of the table before the update becomes that after it. */
    method AfterUpdate(id: nat, was: Word)
      requires id in rows
      modifies this`index
      ensures index == old(index) - env.postings(id, was) + env.postings(id, rows[id].word)
      ensures old(index) == Rebuild(env, rows[id := rows[id].(word := was)]) ==> index == Rebuild(env, rows)
    {
      UpdateIndex(env, rows, id, was);
      index := index - env.postings(id, was);
      index := index + env.postings(id, rows[id].word);
    }

    /** Trigger words_ad: the index of the table with the row becomes that without it. */
    method AfterDelete(id: nat, was: Row)
      requires id !in rows
      modifies this`index
      ensures index == old(index) - env.postings(id, was.word)
      ensures old(index) == Rebuild(env, rows[id := was]) ==> index == Rebuild(env, rows)
    {
      RebuildLess(env, rows[id := was], id);
      assert rows[id := was] - {id} == rows;
      index := index - env.postings(id, was.word);
    }

    method UpsertWord(w: Word)
      requires Valid(env, View())
      modifies this
      ensures View() == Upsert(env, old(View()), w) && Valid(env, View())
      ensures lastId == old(lastId) + 1
      ensures forall id :: id in old(rows) && old(rows)[id].wordLower == env.lower(w.word) ==>
        rows == old(rows)[id := Row(env.lower(w.word), w)]
      ensures (forall id :: id in old(rows) ==> old(rows)[id].wordLower != env.lower(w.word)) ==>
        rows == old(rows)[old(lastId) + 1 := Row(env.lower(w.word), w)]
    {
      UpsertRows(env, View(), w);
      UpsertKeepsValid(env, View(), w);
      var l := env.lower(w.word);
      lastId := lastId + 1;
      if l in byLower {
        UpdateExisting(byLower[l], w);
      } else {
        InsertNew(Row(l, w));
      }
    }

    method UpdateExisting(id: nat, w: Word)
      requires id in rows
      modifies this
      ensures View() == UpdateRow(env, old(View()), id, w)
    {
      var was := rows[id].word;
      rows := rows[id := rows[id].(word := w)];
      AfterUpdate(id, was);
    }

    /** The id was drawn already. */
    method InsertNew(row: Row)
      requires lastId > 0
      modifies this
      ensures View() == InsertRow(env, old(View()).(lastId := old(lastId) - 1), row)
    {
      rows := rows[lastId := row];
      byLower := byLower[row.wordLower := lastId];
      AfterInsert(lastId);
    }

    method Delete(id: nat)
      requires Valid(env, View()) && id in rows
      modifies this
      ensures View() == DeleteRow(env, old(View()), id) && Valid(env, View())
      ensures rows == old(rows) - {id} && lastId == old(lastId)
    {
      DeleteKeepsValid(env, View(), id);
      var was := rows[id];
      rows := rows - {id};
      byLower := byLower - {was.wordLower};
      AfterDelete(id, was);
    }

    /** A batch in one transaction: all of it, or nothing when the database reports an error. */
    method UpsertWords(words: seq<Word>, fault: Fault) returns (ok: bool)
      requires Valid(env, View())
      modifies this
      ensures Valid(env, View())
      ensures ok <==> !Strikes(fault, words)
      ensures View() == if ok then UpsertAll(env, old(View()), words) else old(View())
    {
      ghost var before := View();
      var rows0, lastId0, byLower0, index0 := rows, lastId, byLower, index;
      var rest, i := words, 0;
      while rest != []
        invariant Valid(env, View()) && UpsertAll(env, before, words) == UpsertAll(env, View(), rest)
        invariant i <= |words| && rest == words[i..]
        invariant fault.AtRow? && fault.i < i ==> Skipped(words[fault.i])
        decreases |rest|
      {
        if TrimSpace(rest[0].word) != "" {
          if fault == AtRow(i) {
            rows, lastId, byLower, index := rows0, lastId0, byLower0, index0;
            return false;
          }
          UpsertWord(rest[0]);
        }
        rest, i := rest[1..], i + 1;
      }
      if fault == AtCommit {
        rows, lastId, byLower, index := rows0, lastId0, byLower0, index0;
        return false;
      }
      return true;
    }

    method Lookup(word: string) returns (found: Option<(nat, Word)>)
      requires Valid(env, View())
      ensures found == GetByWord(env, View(), word)
      ensures forall id, w :: found == Some((id, w)) <==>
        id in rows && rows[id].wordLower == env.lower(TrimSpace(word)) && rows[id].word == w
      ensures found == None <==> forall id :: id in rows ==> rows[id].wordLower != env.lower(TrimSpace(word))
    {
      forall id, w {
        LookupFinds(env, View(), word, id, w);
      }
      var l := env.lower(TrimSpace(word));
      if l in byLower {
        return Some((byLower[l], rows[byLower[l]].word));
      }
      return None;
    }
  }
}
