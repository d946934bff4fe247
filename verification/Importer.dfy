/** importCSV of cmd/importer/main.go: read records, batch words, flush full batches.  What
    the CSV reader yields, which flushes the database refuses, and strconv.Atoi are inputs. */
module Importer {
  import opened Options
  import opened WordTable
  import opened Text

  /** What one read yields before the end of the file. */
  datatype Item = Record(fields: seq<string>) | BadRecord

  datatype Header = Header(index: map<string, nat>, atoi: string -> Option<int>)

  /** Column names, trimmed and lower-cased; a repeated name means its last column. */
  function HeaderIndex(names: seq<string>, lower: string -> string): map<string, nat> {
    if names == [] then map[]
    else HeaderIndex(names[..|names| - 1], lower)[lower(TrimSpace(names[|names| - 1])) := |names| - 1]
  }

  /** A key is mapped to the last column so named. */
  lemma {:induction false} HeaderMapsToLastColumn(names: seq<string>, lower: string -> string, key: string)
    ensures var index := HeaderIndex(names, lower);
      && (key in index <==> exists i :: 0 <= i < |names| && lower(TrimSpace(names[i])) == key)
      && (key in index ==> index[key] < |names| && lower(TrimSpace(names[index[key]])) == key
                           && forall i :: index[key] < i < |names| ==> lower(TrimSpace(names[i])) != key)
  {
    if names != [] {
      var rest, last := names[..|names| - 1], names[|names| - 1];
      HeaderMapsToLastColumn(rest, lower, key);
      assert names == rest + [last];
      if lower(TrimSpace(last)) == key {
        assert HeaderIndex(names, lower)[key] == |rest|;
      }
    }
  }

  function Get(fields: seq<string>, header: Header, key: string): string {
    if key !in header.index || header.index[key] >= |fields| then "" else TrimSpace(fields[header.index[key]])
  }

  function ParseInt(header: Header, v: string): int {
    match header.atoi(TrimSpace(v)) case Some(n) => n case None => 0
  }

  function WordOf(fields: seq<string>, header: Header): Word {
    Word(
      Get(fields, header, "word"), Get(fields, header, "phonetic"), Get(fields, header, "definition"),
      Get(fields, header, "translation"), Get(fields, header, "pos"),
      ParseInt(header, Get(fields, header, "collins")), ParseInt(header, Get(fields, header, "oxford")),
      Get(fields, header, "tag"),
      ParseInt(header, Get(fields, header, "bnc")), ParseInt(header, Get(fields, header, "frq")),
      Get(fields, header, "exchange"), Get(fields, header, "detail"), Get(fields, header, "audio"))
  }

  /** The last column with a name, lower-cased and trimmed. */
  ghost predicate IsColumn(names: seq<string>, lower: string -> string, key: string, i: nat) {
    && i < |names| && lower(TrimSpace(names[i])) == key
    && forall j :: i < j < |names| ==> lower(TrimSpace(names[j])) != key
  }

  /** `text` is what the record has in that column, without outer white space; it is empty when
      there is no such column or the record is too short. */
  ghost predicate IsField(names: seq<string>, lower: string -> string, fields: seq<string>, key: string, text: string) {
    && (forall i: nat :: IsColumn(names, lower, key, i) && i < |fields| ==> text == TrimSpace(fields[i]))
    && ((forall i: nat :: IsColumn(names, lower, key, i) ==> i >= |fields|) ==> text == "")
  }

  /** `n` is the number that is written there, or 0. */
  ghost predicate IsNumber(names: seq<string>, lower: string -> string, atoi: string -> Option<int>,
                           fields: seq<string>, key: string, n: int)
  {
    exists text :: IsField(names, lower, fields, key, text) && n == match atoi(text) case Some(k) => k case None => 0
  }

  lemma GetIsField(names: seq<string>, lower: string -> string, header: Header, fields: seq<string>, key: string)
    requires header.index == HeaderIndex(names, lower)
    ensures IsField(names, lower, fields, key, Get(fields, header, key))
    ensures TrimSpace(Get(fields, header, key)) == Get(fields, header, key)
  {
    HeaderMapsToLastColumn(names, lower, key);
    if key in header.index {
      assert IsColumn(names, lower, key, header.index[key]);
      if header.index[key] < |fields| {
        TrimIdempotent(fields[header.index[key]]);
      }
    }
  }

  lemma GetIsNumber(names: seq<string>, lower: string -> string, header: Header, fields: seq<string>, key: string)
    requires header.index == HeaderIndex(names, lower)
    ensures IsNumber(names, lower, header.atoi, fields, key, ParseInt(header, Get(fields, header, key)))
  {
    GetIsField(names, lower, header, fields, key);
  }

  /** Every field of an imported word comes from the column of its own name. */
  lemma WordReadsItsColumns(names: seq<string>, lower: string -> string, atoi: string -> Option<int>,
                            fields: seq<string>)
    ensures var w := WordOf(fields, Header(HeaderIndex(names, lower), atoi));
      && IsField(names, lower, fields, "word", w.word) && IsField(names, lower, fields, "phonetic", w.phonetic)
      && IsField(names, lower, fields, "definition", w.definition)
      && IsField(names, lower, fields, "translation", w.translation) && IsField(names, lower, fields, "pos", w.pos)
      && IsNumber(names, lower, atoi, fields, "collins", w.collins)
      && IsNumber(names, lower, atoi, fields, "oxford", w.oxford) && IsField(names, lower, fields, "tag", w.tag)
      && IsNumber(names, lower, atoi, fields, "bnc", w.bnc) && IsNumber(names, lower, atoi, fields, "frq", w.frq)
      && IsField(names, lower, fields, "exchange", w.exchange) && IsField(names, lower, fields, "detail", w.detail)
      && IsField(names, lower, fields, "audio", w.audio)
  {
    var header := Header(HeaderIndex(names, lower), atoi);
    GetIsField(names, lower, header, fields, "word");
    GetIsField(names, lower, header, fields, "phonetic");
    GetIsField(names, lower, header, fields, "definition");
    GetIsField(names, lower, header, fields, "translation");
    GetIsField(names, lower, header, fields, "pos");
    GetIsNumber(names, lower, header, fields, "collins");
    GetIsNumber(names, lower, header, fields, "oxford");
    GetIsField(names, lower, header, fields, "tag");
    GetIsNumber(names, lower, header, fields, "bnc");
    GetIsNumber(names, lower, header, fields, "frq");
    GetIsField(names, lower, header, fields, "exchange");
    GetIsField(names, lower, header, fields, "detail");
    GetIsField(names, lower, header, fields, "audio");
  }

  /** The column of that name holds the text, with or without white space around it. */
  ghost predicate Writes(names: seq<string>, lower: string -> string, fields: seq<string>, key: string, text: string) {
    exists i: nat :: IsColumn(names, lower, key, i) && i < |fields| && TrimSpace(fields[i]) == text
  }

  ghost predicate WritesNumber(names: seq<string>, lower: string -> string, atoi: string -> Option<int>,
                               fields: seq<string>, key: string, n: int)
  {
    exists text :: Writes(names, lower, fields, key, text) && atoi(text) == Some(n)
  }

  lemma WrittenIsField(names: seq<string>, lower: string -> string, fields: seq<string>, key: string,
                       text: string, read: string)
    requires Writes(names, lower, fields, key, text) && IsField(names, lower, fields, key, read)
    ensures read == text
  {
  }

  lemma WrittenIsNumber(names: seq<string>, lower: string -> string, atoi: string -> Option<int>,
                        fields: seq<string>, key: string, n: int, read: int)
    requires WritesNumber(names, lower, atoi, fields, key, n) && IsNumber(names, lower, atoi, fields, key, read)
    ensures read == n
  {
    var text :| Writes(names, lower, fields, key, text) && atoi(text) == Some(n);
    var other :| IsField(names, lower, fields, key, other)
      && read == match atoi(other) case Some(k) => k case None => 0;
    WrittenIsField(names, lower, fields, key, text, other);
  }

  /** A word that is written out under its column names, in any order of the columns and with any
      further ones between, is read back unchanged. */
  lemma WrittenWordIsRead(names: seq<string>, lower: string -> string, atoi: string -> Option<int>,
                          fields: seq<string>, w: Word)
    requires Writes(names, lower, fields, "word", w.word) && Writes(names, lower, fields, "phonetic", w.phonetic)
    requires Writes(names, lower, fields, "definition", w.definition)
    requires Writes(names, lower, fields, "translation", w.translation) && Writes(names, lower, fields, "pos", w.pos)
    requires WritesNumber(names, lower, atoi, fields, "collins", w.collins)
    requires WritesNumber(names, lower, atoi, fields, "oxford", w.oxford) && Writes(names, lower, fields, "tag", w.tag)
    requires WritesNumber(names, lower, atoi, fields, "bnc", w.bnc)
    requires WritesNumber(names, lower, atoi, fields, "frq", w.frq)
    requires Writes(names, lower, fields, "exchange", w.exchange) && Writes(names, lower, fields, "detail", w.detail)
    requires Writes(names, lower, fields, "audio", w.audio)
    ensures WordOf(fields, Header(HeaderIndex(names, lower), atoi)) == w
  {
    var r := WordOf(fields, Header(HeaderIndex(names, lower), atoi));
    WordReadsItsColumns(names, lower, atoi, fields);
    WrittenIsField(names, lower, fields, "word", w.word, r.word);
    WrittenIsField(names, lower, fields, "phonetic", w.phonetic, r.phonetic);
    WrittenIsField(names, lower, fields, "definition", w.definition, r.definition);
    WrittenIsField(names, lower, fields, "translation", w.translation, r.translation);
    WrittenIsField(names, lower, fields, "pos", w.pos, r.pos);
    WrittenIsNumber(names, lower, atoi, fields, "collins", w.collins, r.collins);
    WrittenIsNumber(names, lower, atoi, fields, "oxford", w.oxford, r.oxford);
    WrittenIsField(names, lower, fields, "tag", w.tag, r.tag);
    WrittenIsNumber(names, lower, atoi, fields, "bnc", w.bnc, r.bnc);
    WrittenIsNumber(names, lower, atoi, fields, "frq", w.frq, r.frq);
    WrittenIsField(names, lower, fields, "exchange", w.exchange, r.exchange);
    WrittenIsField(names, lower, fields, "detail", w.detail, r.detail);
    WrittenIsField(names, lower, fields, "audio", w.audio, r.audio);
  }

  /** How a file's header makes words of its records. */
  type Parser = seq<string> -> Word

  function ParserFor(header: Header): Parser {
    fields => WordOf(fields, header)
  }

  function Contribution(item: Item, parse: Parser): seq<Word> {
    if item.BadRecord? || parse(item.fields).word == "" then [] else [parse(item.fields)]
  }

  /** The words of a file, up to its first unreadable record. */
  function WordsOf(items: seq<Item>, parse: Parser): seq<Word> {
    if items == [] || items[0].BadRecord? then [] else Contribution(items[0], parse) + WordsOf(items[1..], parse)
  }

  /** Record by record: one with a word is appended, one without is passed over, and nothing
      after an unreadable one counts. */
  lemma {:induction false} WordsOfAppends(items: seq<Item>, fields: seq<string>, more: seq<Item>, parse: Parser)
    requires forall i :: 0 <= i < |items| ==> items[i].Record?
    ensures WordsOf([], parse) == []
    ensures WordsOf(items + [Record(fields)], parse) ==
      WordsOf(items, parse) + (if parse(fields).word == "" then [] else [parse(fields)])
    ensures WordsOf(items + [BadRecord] + more, parse) == WordsOf(items, parse)
    decreases |items|
  {
    if items == [] {
      assert [Record(fields)][1..] == [] && items + [BadRecord] + more == [BadRecord] + more;
      assert items + [Record(fields)] == [Record(fields)];
    } else {
      WordsOfAppends(items[1..], fields, more, parse);
      assert (items + [Record(fields)])[1..] == items[1..] + [Record(fields)];
      assert (items + [BadRecord] + more)[1..] == items[1..] + [BadRecord] + more;
    }
  }

  predicate Readable(items: seq<Item>) {
    forall i :: 0 <= i < |items| ==> items[i].Record?
  }

  lemma Regroup(a: seq<Word>, b: seq<Word>, c: seq<Word>)
    ensures a + (b + c) == a + b + c && a + b <= a + (b + c)
  {
  }

  lemma NextRecord(seen: seq<Word>, items: seq<Item>, parse: Parser)
    requires items != [] && items[0].Record?
    ensures Readable(items) <==> Readable(items[1..])
    ensures seen + WordsOf(items, parse) == seen + Contribution(items[0], parse) + WordsOf(items[1..], parse)
    ensures seen + Contribution(items[0], parse) <= seen + WordsOf(items, parse)
  {
    ReadableRest(items);
    Regroup(seen, Contribution(items[0], parse), WordsOf(items[1..], parse));
  }

  lemma ReadableRest(items: seq<Item>)
    requires items != [] && items[0].Record?
    ensures Readable(items) <==> Readable(items[1..])
  {
    assert items == [items[0]] + items[1..];
  }

  /** UpsertWords skips none of the words the importer hands it, so `total` counts stored words. */
  lemma {:induction false} ImportedAreNotSkipped(items: seq<Item>, header: Header)
    ensures forall w :: w in WordsOf(items, ParserFor(header)) ==> !Skipped(w)
  {
    if items != [] && items[0].Record? {
      ImportedAreNotSkipped(items[1..], header);
      var fields := items[0].fields;
      if "word" in header.index && header.index["word"] < |fields| {
        TrimIdempotent(fields[header.index["word"]]);
      }
    }
  }

  /** `total` is a number of whole batches. */
  predicate WholeBatches(total: nat, batchSize: nat)
    requires batchSize > 0
  {
    total == 0 || (total >= batchSize && WholeBatches(total - batchSize, batchSize))
  }

  lemma {:induction false} WholeBatchesDivide(total: nat, batchSize: nat)
    requires batchSize > 0
    ensures WholeBatches(total, batchSize) <==> total % batchSize == 0
  {
    if total >= batchSize {
      WholeBatchesDivide(total - batchSize, batchSize);
      RemainderStays(total - batchSize, batchSize);
    }
  }

  lemma RemainderStays(n: nat, d: nat)
    requires d > 0
    ensures (n + d) % d == n % d
  {
    var q, r := n / d + 1, (n + d) / d;
    assert n == d * (n / d) + n % d && n + d == d * r + (n + d) % d;
    assert d * q == d * (n / d) + d;
    if q > r {
      AtLeastOnce(d, r, q);
    } else if r > q {
      AtLeastOnce(d, q, r);
    }
  }

  lemma {:induction false} AtLeastOnce(d: nat, a: int, b: int)
    requires a < b
    ensures d * b >= d * a + d
    decreases b - a
  {
    if b > a + 1 {
      AtLeastOnce(d, a, b - 1);
    }
  }

  lemma OneBatchMore(total: nat, batchSize: nat)
    requires batchSize > 0 && WholeBatches(total, batchSize)
    ensures WholeBatches(total + batchSize, batchSize)
  {
  }

  /** The table holds the first `total` of the words seen so far; the rest is the batch. */
  ghost predicate Progress(env: Env, start: Db, seen: seq<Word>, total: nat, batch: seq<Word>, db: Db) {
    && Valid(env, start) && Valid(env, db)
    && total <= |seen| && seen[total..] == batch
    && db == UpsertAll(env, start, seen[..total])
  }

  lemma SplitAt(seen: seq<Word>, total: nat)
    requires total <= |seen|
    ensures seen[..total] + seen[total..] == seen == seen[..|seen|] && seen[|seen|..] == []
  {
  }

  lemma BatchStored(env: Env, start: Db, seen: seq<Word>, total: nat, batch: seq<Word>, db: Db)
    requires Progress(env, start, seen, total, batch, db)
    ensures Progress(env, start, seen, total + |batch|, [], UpsertAll(env, db, batch))
    ensures total + |batch| == |seen|
  {
    SplitAt(seen, total);
    BatchesCompose(env, start, seen[..total], batch);
    UpsertAllKeepsValid(env, db, batch);
  }

  lemma SameProgress(env: Env, start: Db, seen: seq<Word>, total: nat, batch: seq<Word>, db: Db,
                     total': nat, batch': seq<Word>, db': Db)
    requires Progress(env, start, seen, total, batch, db) && total' == total && batch' == batch && db' == db
    ensures Progress(env, start, seen, total', batch', db')
  {
  }

  lemma BatchGrows(env: Env, start: Db, seen: seq<Word>, total: nat, batch: seq<Word>, db: Db, w: Word)
    requires Progress(env, start, seen, total, batch, db)
    ensures Progress(env, start, seen + [w], total, batch + [w], db)
  {
    assert (seen + [w])[total..] == batch + [w] && (seen + [w])[..total] == seen[..total];
  }

  datatype Stop = EndOfFile | BadInput | Refused

  class Import {
    const repo: WordRepository
    const batchSize: nat
    const fault: nat -> Fault  // what the database does to the i-th flush
    var batch: seq<Word>
    var total: nat
    var flushes: nat

    constructor (repo: WordRepository, batchSize: nat, fault: nat -> Fault)
      ensures this.repo == repo && this.batchSize == batchSize && this.fault == fault
      ensures batch == [] && total == 0 && flushes == 0
    {
      this.repo, this.batchSize, this.fault := repo, batchSize, fault;
      batch, total, flushes := [], 0, 0;
    }

    ghost predicate InStep(start: Db, seen: seq<Word>)
      reads this, repo
    {
      Progress(repo.env, start, seen, total, batch, repo.View())
    }

    /** The flush closure. */
    method Flush(ghost start: Db, ghost seen: seq<Word>) returns (ok: bool)
      requires InStep(start, seen)
      modifies this, repo
      ensures InStep(start, seen)
      ensures total == if ok then |seen| else old(total)
      ensures !ok ==> exists i :: fault(i) != NoFault
    {
      if |batch| == 0 {
        return true;
      }
      ok := WriteBatch(start, seen);
    }

    /** The transaction of one flush. */
    method WriteBatch(ghost start: Db, ghost seen: seq<Word>) returns (ok: bool)
      requires InStep(start, seen) && batch != []
      modifies this, repo
      ensures InStep(start, seen)
      ensures total == if ok then |seen| else old(total)
      ensures !ok ==> exists i :: fault(i) != NoFault
    {
      ghost var db, t, b := repo.View(), total, batch;
      var now := fault(flushes);
      flushes := flushes + 1;
      ok := repo.UpsertWords(batch, now);
      assert ok || now != NoFault;
      if ok {
        total, batch := total + |batch|, [];
        BatchStored(repo.env, start, seen, t, b, db);
        SameProgress(repo.env, start, seen, t + |b|, [], UpsertAll(repo.env, db, b), total, batch, repo.View());
      } else {
        SameProgress(repo.env, start, seen, t, b, db, total, batch, repo.View());
      }
    }

    /** What an import leaves: the table holds the first `total` of the file's words; all of
        them on success.  On failure whole batches are stored, and without a database fault
        the only failure is an unreadable record, which loses just the batch being filled. */
    ghost predicate Imported(start: Db, all: seq<Word>, readable: bool, ok: bool)
      reads this, repo
    {
      && batchSize > 0 && Valid(repo.env, start) && Valid(repo.env, repo.View())
      && total <= |all| && repo.View() == UpsertAll(repo.env, start, all[..total])
      && (ok ==> readable && total == |all|)
      && (!ok ==> WholeBatches(total, batchSize))
      && ((forall i :: fault(i) == NoFault) ==>
            if readable then ok else !ok && |all| - total < batchSize)
    }

    /** The read loop, up to the end of the file, a record that cannot be read, or a flush
        that the database refuses. */
    method ReadRecords(parse: Parser, items: seq<Item>, ghost start: Db) returns (stop: Stop, ghost seen: seq<Word>)
      requires InStep(start, []) && batchSize > 0 && total == 0
      modifies this, repo
      ensures InStep(start, seen) && WholeBatches(total, batchSize)
      ensures stop == EndOfFile <==> Readable(items) && !stop.Refused?
      ensures if stop.Refused? then seen <= WordsOf(items, parse) && exists i :: fault(i) != NoFault
              else seen == WordsOf(items, parse) && |batch| < batchSize
    {
      seen := [];
      var rest := items;
      while rest != []
        invariant Readable(items) <==> Readable(rest)
        invariant WordsOf(items, parse) == seen + WordsOf(rest, parse)
        invariant InStep(start, seen) && WholeBatches(total, batchSize) && |batch| < batchSize
        decreases |rest|
      {
        if rest[0].BadRecord? {
          return BadInput, seen;
        }
        NextRecord(seen, rest, parse);
        var ok := ReadRecord(parse, rest[0].fields, start, seen);
        seen := seen + Contribution(rest[0], parse);
        if !ok {
          return Refused, seen;
        }
        rest := rest[1..];
      }
      stop := EndOfFile;
    }

    method ReadRecord(parse: Parser, fields: seq<string>, ghost start: Db, ghost seen: seq<Word>) returns (ok: bool)
      requires batchSize > 0 && WholeBatches(total, batchSize) && |batch| < batchSize
      requires InStep(start, seen)
      modifies this, repo
      ensures InStep(start, seen + Contribution(Record(fields), parse)) && WholeBatches(total, batchSize)
      ensures if ok then |batch| < batchSize else exists i :: fault(i) != NoFault
    {
      ok := true;
      var w := parse(fields);
      if w.word != "" {
        ok := Add(w, start, seen);
      } else {
        assert seen + [] == seen;
      }
    }

    method ImportRecords(parse: Parser, items: seq<Item>) returns (ok: bool)
      requires Valid(repo.env, repo.View()) && batch == [] && total == 0 && batchSize > 0
      modifies this, repo
      ensures Imported(old(repo.View()), WordsOf(items, parse), Readable(items), ok)
    {
      ghost var start := repo.View();
      var stop, seen := ReadRecords(parse, items, start);
      ok := false;
      if stop == EndOfFile {
        ok := Flush(start, seen);
      }
      PrefixStored(start, seen, WordsOf(items, parse));
    }

    lemma PrefixStored(start: Db, seen: seq<Word>, all: seq<Word>)
      requires InStep(start, seen) && seen <= all
      ensures total <= |all| && repo.View() == UpsertAll(repo.env, start, all[..total])
    {
      assert all[..total] == seen[..total];
    }

    /** Append one word and flush when the batch is full. */
    method Add(w: Word, ghost start: Db, ghost seen: seq<Word>) returns (ok: bool)
      requires batchSize > 0 && WholeBatches(total, batchSize) && |batch| < batchSize
      requires InStep(start, seen)
      modifies this, repo
      ensures InStep(start, seen + [w])
      ensures WholeBatches(total, batchSize)
      ensures if ok then |batch| < batchSize else exists i :: fault(i) != NoFault
    {
      BatchGrows(repo.env, start, seen, total, batch, repo.View(), w);
      batch := batch + [w];
      ok := true;
      if |batch| >= batchSize {
        OneBatchMore(total, batchSize);
        ok := Flush(start, seen + [w]);
      }
    }

    /** The whole file: its header decides how records are read.  The outcome does not depend
        on the batch size unless something fails. */
    method ImportCSV(names: seq<string>, items: seq<Item>, atoi: string -> Option<int>) returns (ok: bool)
      requires Valid(repo.env, repo.View()) && batch == [] && total == 0 && batchSize > 0
      modifies this, repo
      ensures Imported(old(repo.View()), WordsOf(items, ParserFor(Header(HeaderIndex(names, repo.env.lower), atoi))),
                       Readable(items), ok)
      ensures !ok ==> total % batchSize == 0
    {
      var index: map<string, nat> := map[];
      assert names[..0] == [];
      for i := 0 to |names|
        invariant index == HeaderIndex(names[..i], repo.env.lower)
      {
        assert names[..i + 1][..i] == names[..i];
        index := index[repo.env.lower(TrimSpace(names[i])) := i];
      }
      assert names[..|names|] == names;
      ok := ImportRecords(ParserFor(Header(index, atoi)), items);
      WholeBatchesDivide(total, batchSize);
    }
  }

  /** Two imports of the same readable file that nothing fails leave the same table, index and
      total, whatever their batch sizes. */
  lemma BatchSizeIsIrrelevant(a: Import, b: Import, start: Db, all: seq<Word>, okA: bool, okB: bool)
    requires a.repo.env == b.repo.env
    requires a.Imported(start, all, true, okA) && b.Imported(start, all, true, okB)
    requires forall i :: a.fault(i) == NoFault && b.fault(i) == NoFault
    ensures a.repo.View() == b.repo.View() == UpsertAll(a.repo.env, start, all)
    ensures a.total == b.total == |all|
  {
    assert all[..|all|] == all;
  }
}
