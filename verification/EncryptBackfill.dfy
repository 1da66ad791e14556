/** The in-place encryption backfill: batch by batch in key order, checkpointed, resumable after a crash at any
    point (encrypt.go:94-232, migration.go:180-204). */
module EncryptBackfill {
  import opened Wrappers
  import opened Crypto
  import opened Keyset

  /** hash gives the lookup index of a plaintext: NULL for text that is empty after normalising, none on error. */
  datatype Keys = Keys(a: Aead, p: Provider, hash: Bytes -> Option<Option<Bytes>>)

  /** One encrypted field of a row, with its lookup column (unused in a field without lookup). */
  datatype Cell = Cell(value: Option<Bytes>, index: Option<Bytes>)

  type Row = seq<Cell>

  /** The provider decrypts what it encrypts now. */
  ghost predicate Coherent(ks: Keys) {
    && OpensSealed(ks.a)
    && (ks.p.current.Some? ==> ks.p.key(ks.p.current.value.0) == Some(ks.p.current.value.1))
  }

  /** The provider can encrypt and hash, so no row fails. */
  ghost predicate Able(ks: Keys) {
    && ks.p.current.Some? && IdSize(ks.p.current.value.0) && KeySize(ks.p.current.value.1)
    && forall v :: ks.hash(v).Some?
  }

  /** The text a stored value stands for: what it decrypts to, or the value itself. */
  function Plain(ks: Keys, v: Bytes): Bytes {
    var d := Decrypt(ks.a, ks.p, v);
    if d.Some? then d.value else v
  }

  /** bytes.Equal takes NULL for empty. */
  function BytesOf(v: Option<Bytes>): Bytes {
    if v.None? then [] else v.value
  }

  // ---------------------------------------------------------------- what must come out

  ghost predicate CellKept(ks: Keys, was: Cell, now: Cell) {
    && (was.value.None? ==> now == was)
    && (was.value.Some? ==>
          && now.value.Some? && Plain(ks, now.value.value) == Plain(ks, was.value.value)
          && (Decrypt(ks.a, ks.p, was.value.value).Some? ==> now.value == was.value))
  }

  ghost predicate CellDone(ks: Keys, lookup: bool, now: Cell) {
    now.value.Some? ==>
      var d := Decrypt(ks.a, ks.p, now.value.value);
      d.Some? && (lookup ==> ks.hash(d.value).Some? && BytesOf(now.index) == BytesOf(ks.hash(d.value).value))
  }

  ghost predicate RowKept(ks: Keys, was: Row, now: Row) {
    |now| == |was| && forall j | 0 <= j < |was| :: CellKept(ks, was[j], now[j])
  }

  ghost predicate RowDone(ks: Keys, lookups: seq<bool>, now: Row) {
    |now| == |lookups| && forall j | 0 <= j < |now| :: CellDone(ks, lookups[j], now[j])
  }

  lemma KeptTransitive(ks: Keys, a: Row, b: Row, c: Row)
    requires RowKept(ks, a, b) && RowKept(ks, b, c)
    ensures RowKept(ks, a, c)
  {
    hide Decrypt, Plain;
    forall j | 0 <= j < |a| ensures CellKept(ks, a[j], c[j]) {
      assert CellKept(ks, a[j], b[j]) && CellKept(ks, b[j], c[j]);
      SamePlain(ks, a[j], b[j]);
    }
  }

  lemma SamePlain(ks: Keys, was: Cell, now: Cell)
    requires CellKept(ks, was, now)
    ensures was.value.Some? && Decrypt(ks.a, ks.p, was.value.value).Some? ==> now.value == was.value
  {
  }

  // ---------------------------------------------------------------- one cell

  /** The SET items for one cell; None leaves the column alone. */
  datatype CellSet = CellSet(value: Option<Bytes>, index: Option<Option<Bytes>>)

  const UNTOUCHED := CellSet(None, None)

  function SetCell(c: Cell, s: CellSet): Cell {
    Cell(if s.value.Some? then s.value else c.value, if s.index.Some? then s.index.value else c.index)
  }

  function CellUpdate(ks: Keys, lookup: bool, c: Cell, nonce: Nonce): Option<CellSet> {
    if c.value.None? then Some(UNTOUCHED)
    else
      var text := Decrypt(ks.a, ks.p, c.value.value);
      if text.Some? then IndexUpdate(ks, lookup, c, text.value, None)
      else
        match Encrypt(ks.a, ks.p, nonce, c.value.value)
        case None => None
        case Some(blob) => IndexUpdate(ks, lookup, c, c.value.value, Some(blob))
  }

  function IndexUpdate(ks: Keys, lookup: bool, c: Cell, plain: Bytes, value: Option<Bytes>): Option<CellSet> {
    if !lookup then Some(CellSet(value, None))
    else
      match ks.hash(plain)
      case None => None
      case Some(h) => Some(CellSet(value, if BytesOf(h) == BytesOf(c.index) then None else Some(h)))
  }

  lemma CellUpdateDone(ks: Keys, lookup: bool, c: Cell, nonce: Nonce)
    requires Coherent(ks)
    ensures Able(ks) ==> CellUpdate(ks, lookup, c, nonce).Some?
    ensures CellUpdate(ks, lookup, c, nonce).Some? ==>
              var now := SetCell(c, CellUpdate(ks, lookup, c, nonce).value);
              CellKept(ks, c, now) && CellDone(ks, lookup, now)
  {
    hide Decrypt, Frame;
    if c.value.Some? && Encrypt(ks.a, ks.p, nonce, c.value.value).Some? {
      DecryptEncrypted(ks.a, ks.p, ks.p, nonce, c.value.value);
    }
  }

  /** A column that held plain text: after the update the cell decrypts to that text exactly when the text was not taken
      for ciphertext of something else; then it is left as it was, and decrypts to that. */
  lemma PlainKept(ks: Keys, lookup: bool, text: Bytes, index: Option<Bytes>, nonce: Nonce)
    requires Coherent(ks) && CellUpdate(ks, lookup, Cell(Some(text), index), nonce).Some?
    ensures var now := SetCell(Cell(Some(text), index), CellUpdate(ks, lookup, Cell(Some(text), index), nonce).value);
      && now.value.Some?
      && (Decrypt(ks.a, ks.p, now.value.value) == Some(text)
          <==> Decrypt(ks.a, ks.p, text) == None || Decrypt(ks.a, ks.p, text) == Some(text))
      && (Decrypt(ks.a, ks.p, text).Some? ==> now.value.value == text)
  {
    hide Decrypt, Frame;
    if Encrypt(ks.a, ks.p, nonce, text).Some? {
      DecryptEncrypted(ks.a, ks.p, ks.p, nonce, text);
    }
  }

  /** A write between the SELECT of a batch and its UPDATE: its value survives exactly when the cell as read was
      NULL or ciphertext already, or held the same text. */
  lemma ConcurrentWriteSurvives(ks: Keys, lookup: bool, read: Cell, nonce: Nonce, written: Cell)
    requires Coherent(ks) && CellUpdate(ks, lookup, read, nonce).Some? && written.value.Some?
    ensures var now := SetCell(written, CellUpdate(ks, lookup, read, nonce).value);
      && now.value.Some?
      && (Plain(ks, now.value.value) == Plain(ks, written.value.value)
          <==> || read.value.None? || Decrypt(ks.a, ks.p, read.value.value).Some?
               || Plain(ks, written.value.value) == read.value.value)
  {
    hide Decrypt, Frame;
    if read.value.Some? && Encrypt(ks.a, ks.p, nonce, read.value.value).Some? {
      DecryptEncrypted(ks.a, ks.p, ks.p, nonce, read.value.value);
    }
  }

  // ---------------------------------------------------------------- one row

  predicate Matches(row: Row, sets: seq<CellSet>) {
    |sets| == |row|
  }

  function SetRow(row: Row, sets: seq<CellSet>): Row
    requires Matches(row, sets)
  {
    seq(|row|, j requires 0 <= j < |row| => SetCell(row[j], sets[j]))
  }

  ghost predicate CellOf(ks: Keys, lookup: bool, c: Cell, s: CellSet) {
    exists nonce: Nonce :: CellUpdate(ks, lookup, c, nonce) == Some(s)
  }

  lemma CellIsOf(ks: Keys, lookup: bool, c: Cell, nonce: Nonce, s: CellSet)
    requires CellUpdate(ks, lookup, c, nonce) == Some(s)
    ensures CellOf(ks, lookup, c, s)
  {
  }

  /** The updates the field loop computes from a row. */
  ghost predicate UpdateOf(ks: Keys, lookups: seq<bool>, read: Row, sets: seq<CellSet>) {
    && |read| == |sets| == |lookups|
    && forall j | 0 <= j < |read| :: CellOf(ks, lookups[j], read[j], sets[j])
  }

  /** The field loop over one row. */
  method RowUpdate(ks: Keys, lookups: seq<bool>, row: Row) returns (sets: Option<seq<CellSet>>)
    requires Coherent(ks) && |row| == |lookups|
    ensures Able(ks) ==> sets.Some?
    ensures sets.Some? ==>
              && Matches(row, sets.value) && UpdateOf(ks, lookups, row, sets.value)
              && RowKept(ks, row, SetRow(row, sets.value)) && RowDone(ks, lookups, SetRow(row, sets.value))
  {
    hide Coherent, Able, CellUpdate, CellKept, CellDone, SetCell;
    var out: seq<CellSet> := [];
    var j := 0;
    while j < |row|
      invariant 0 <= j <= |row| && |out| == j
      invariant forall i | 0 <= i < j :: CellOf(ks, lookups[i], row[i], out[i])
      invariant forall i | 0 <= i < j ::
          CellKept(ks, row[i], SetCell(row[i], out[i])) && CellDone(ks, lookups[i], SetCell(row[i], out[i]))
    {
      var nonce: Nonce := *;
      var one := CellUpdate(ks, lookups[j], row[j], nonce);
      CellUpdateDone(ks, lookups[j], row[j], nonce);
      if one.None? {
        return None;
      }
      CellIsOf(ks, lookups[j], row[j], nonce, one.value);
      out := out + [one.value];
      j := j + 1;
    }
    return Some(out);
  }

  // ---------------------------------------------------------------- the table

  type Table = map<Pk, Row>

  /** The checkpoint row of ormpp_migration_progress. */
  datatype Progress = Progress(lastKey: nat, rowsDone: nat, done: bool)

  function Passed(p: Progress, k: Pk): bool {
    p.done || k <= p.lastKey
  }

  // ---------------------------------------------------------------- what others write meanwhile

  datatype Write = Put(pk: Pk, row: Row) | Remove(pk: Pk)

  function Wrote(rows: Table, w: Write): Table {
    match w
    case Put(pk, row) => rows[pk := row]
    case Remove(pk) => rows - {pk}
  }

  function AllWrote(rows: Table, log: seq<Write>): Table {
    if log == [] then rows else Wrote(AllWrote(rows, log[..|log| - 1]), log[|log| - 1])
  }

  /** What others wrote so far; the keys among it written behind the cursor or while their batch was under way; and
      those that the update of a batch hit with values read before. */
  datatype Book = Book(log: seq<Write>, touched: set<Pk>, raced: set<Pk>)

  function Noted(p: Progress, b: Book, w: Write): Book {
    Book(b.log + [w], if Passed(p, w.pk) then b.touched + {w.pk} else b.touched, b.raced - {w.pk})
  }

  /** A row as others left it, under an update computed from an older row. */
  ghost predicate Raced(ks: Keys, lookups: seq<bool>, want: Row, now: Row) {
    exists read: Row, sets: seq<CellSet> ::
      UpdateOf(ks, lookups, read, sets) && Matches(want, sets) && now == SetRow(want, sets)
  }

  /** want is the table with the writes of others alone: every row is that of want with its texts, encrypted where the
      backfill has passed, except where an update raced with a write. */
  ghost predicate Inv(ks: Keys, lookups: seq<bool>, want: Table, b: Book, rows: Table, p: Progress) {
    && rows.Keys == want.Keys && p.lastKey <= KEYS
    && b.raced <= b.touched && (forall k <- b.touched :: Passed(p, k))
    && forall k <- rows :: RowOk(ks, lookups, want, b, rows, p, k)
  }

  ghost predicate RowOk(ks: Keys, lookups: seq<bool>, want: Table, b: Book, rows: Table, p: Progress, k: Pk)
    requires k in rows && k in want
  {
    && |rows[k]| == |want[k]| == |lookups|
    && (!Passed(p, k) ==> rows[k] == want[k])
    && (k !in b.raced ==> RowKept(ks, want[k], rows[k]))
    && (k !in b.raced && Passed(p, k) && (k !in b.touched || RowDone(ks, lookups, want[k])) ==>
          RowDone(ks, lookups, rows[k]))
    && (k in b.raced ==> Raced(ks, lookups, want[k], rows[k]))
  }

  lemma KeptReflexive(ks: Keys, row: Row)
    ensures RowKept(ks, row, row)
  {
  }

  lemma WriteKeepsInv(ks: Keys, lookups: seq<bool>, want: Table, b: Book, rows: Table, p: Progress, w: Write)
    requires Inv(ks, lookups, want, b, rows, p) && (w.Put? ==> |w.row| == |lookups|)
    ensures Inv(ks, lookups, Wrote(want, w), Noted(p, b, w), Wrote(rows, w), p)
  {
    hide RowKept, RowDone, Raced;
    var rows', want', b' := Wrote(rows, w), Wrote(want, w), Noted(p, b, w);
    forall k | k in rows' ensures k in want' && RowOk(ks, lookups, want', b', rows', p, k) {
      if k == w.pk {
        KeptReflexive(ks, w.row);
      } else {
        assert RowOk(ks, lookups, want, b, rows, p, k);
      }
    }
  }

  /** Only keys in since have changed. */
  ghost predicate Elsewhere(rows: Table, u: Table, since: set<Pk>) {
    forall k | k !in since :: (k in rows <==> k in u) && (k in rows ==> rows[k] == u[k])
  }

  /** The transaction of a batch on the table it finds; a row that is gone stays gone. */
  function Updated(rows: Table, updates: map<Pk, seq<CellSet>>): Table {
    map k | k in rows :: if k in updates && Matches(rows[k], updates[k]) then SetRow(rows[k], updates[k]) else rows[k]
  }

  /** The book after the transaction of a batch that ends at key last, since being written after its SELECT. */
  function BatchNoted(p: Progress, b: Book, since: set<Pk>, updates: map<Pk, seq<CellSet>>, last: nat): Book {
    b.(touched := b.touched + (set k <- since | p.lastKey < k <= last),
       raced := b.raced + (set k <- since | k in updates))
  }

  /** Every key of the batch seen so far has an update that finishes its row. */
  ghost predicate Finishing(ks: Keys, lookups: seq<bool>, rows: Table, batch: seq<(Pk, Row)>, n: nat,
                            updates: map<Pk, seq<CellSet>>) {
    && n <= |batch|
    && (forall i | 0 <= i < n :: batch[i].0 in updates)
    && forall k <- updates :: k in rows && Matches(rows[k], updates[k]) && InBatch(batch, k)
         && UpdateOf(ks, lookups, rows[k], updates[k])
         && RowKept(ks, rows[k], SetRow(rows[k], updates[k])) && RowDone(ks, lookups, SetRow(rows[k], updates[k]))
  }

  /** The batch transaction: updates and checkpoint together, the rows r as read, u as found. */
  lemma BatchKeepsInv(ks: Keys, lookups: seq<bool>, want: Table, b: Book, r: Table, u: Table, p: Progress, n: nat,
                      since: set<Pk>, updates: map<Pk, seq<CellSet>>, rowsDone: nat)
    requires Inv(ks, lookups, want, b, u, p) && !p.done && Elsewhere(r, u, since)
    requires var batch := Batch(r, p.lastKey, n); batch != [] && Finishing(ks, lookups, r, batch, |batch|, updates)
    ensures var batch := Batch(r, p.lastKey, n); var last := batch[|batch| - 1].0;
      Inv(ks, lookups, want, BatchNoted(p, b, since, updates, last), Updated(u, updates),
          Progress(last, rowsDone, false))
  {
    hide RowOk, SetRow, Batch, Matches, Finishing;
    var batch := Batch(r, p.lastKey, n);
    BatchIsStretch(r, p.lastKey, n);
    var last := batch[|batch| - 1].0;
    assert forall k <- updates :: p.lastKey < k <= last by { UpdatesInStretch(ks, lookups, r, p.lastKey, n, updates); }
    var b', p' := BatchNoted(p, b, since, updates, last), Progress(last, rowsDone, false);
    forall k | k in u ensures RowOk(ks, lookups, want, b', Updated(u, updates), p', k) {
      assert RowOk(ks, lookups, want, b, u, p, k);
      RowAfterBatch(ks, lookups, want, b, r, u, p, n, since, updates, rowsDone, k);
    }
  }

  lemma UpdatesInStretch(ks: Keys, lookups: seq<bool>, r: Table, last: nat, n: nat, updates: map<Pk, seq<CellSet>>)
    requires var batch := Batch(r, last, n); batch != [] && Finishing(ks, lookups, r, batch, |batch|, updates)
    ensures var batch := Batch(r, last, n);
      forall k <- updates :: last < k <= batch[|batch| - 1].0 && k in r && InBatch(batch, k)
  {
    hide RowKept, RowDone, SetRow, Batch;
    BatchIsStretch(r, last, n);
  }

  lemma RowAfterBatch(ks: Keys, lookups: seq<bool>, want: Table, b: Book, r: Table, u: Table, p: Progress, n: nat,
                      since: set<Pk>, updates: map<Pk, seq<CellSet>>, rowsDone: nat, k: Pk)
    requires k in u && k in want && RowOk(ks, lookups, want, b, u, p, k) && !p.done && Elsewhere(r, u, since)
    requires (forall j <- b.touched :: Passed(p, j)) && b.raced <= b.touched
    requires var batch := Batch(r, p.lastKey, n); batch != [] && Finishing(ks, lookups, r, batch, |batch|, updates)
    ensures var batch := Batch(r, p.lastKey, n); var last := batch[|batch| - 1].0;
      RowOk(ks, lookups, want, BatchNoted(p, b, since, updates, last), Updated(u, updates),
            Progress(last, rowsDone, false), k)
  {
    hide RowKept, RowDone, SetRow, Batch, Raced, UpdateOf, Elsewhere;
    var batch := Batch(r, p.lastKey, n);
    BatchIsStretch(r, p.lastKey, n);
    UpdatesInStretch(ks, lookups, r, p.lastKey, n, updates);
    SameElsewhere(r, u, since, k);
    if k in updates {
      assert !Passed(p, k) && k !in b.touched && u[k] == want[k];
      UpdateFits(ks, lookups, r, batch, updates, k);
      if k in since {
        RacedBy(ks, lookups, want[k], updates[k]);
      }
    }
  }

  lemma SameElsewhere(r: Table, u: Table, since: set<Pk>, k: Pk)
    requires Elsewhere(r, u, since) && k in u
    ensures k !in since ==> k in r && u[k] == r[k]
  {
  }

  lemma UpdateFits(ks: Keys, lookups: seq<bool>, r: Table, batch: seq<(Pk, Row)>, updates: map<Pk, seq<CellSet>>, k: Pk)
    requires Finishing(ks, lookups, r, batch, |batch|, updates) && k in updates
    ensures k in r && Matches(r[k], updates[k]) && UpdateOf(ks, lookups, r[k], updates[k]) && |updates[k]| == |lookups|
    ensures RowKept(ks, r[k], SetRow(r[k], updates[k])) && RowDone(ks, lookups, SetRow(r[k], updates[k]))
    ensures |SetRow(r[k], updates[k])| == |lookups|
  {
    hide RowKept;
  }

  lemma RacedBy(ks: Keys, lookups: seq<bool>, want: Row, sets: seq<CellSet>)
    requires |want| == |sets| && exists read: Row :: UpdateOf(ks, lookups, read, sets)
    ensures Raced(ks, lookups, want, SetRow(want, sets)) && |SetRow(want, sets)| == |want|
  {
    hide UpdateOf;
  }

  /** The last SELECT found nothing beyond the cursor; what lies there now was written since. */
  lemma EmptyBatchIsDone(ks: Keys, lookups: seq<bool>, want: Table, b: Book, r: Table, u: Table, p: Progress,
                         since: set<Pk>, rowsDone: nat)
    requires Inv(ks, lookups, want, b, u, p) && Elsewhere(r, u, since) && forall k <- r :: k <= p.lastKey
    ensures Inv(ks, lookups, want, b.(touched := b.touched + since), u, Progress(p.lastKey, rowsDone, true))
  {
    hide RowKept, RowDone, Raced;
    var b' := b.(touched := b.touched + since);
    forall k | k in u ensures RowOk(ks, lookups, want, b', u, Progress(p.lastKey, rowsDone, true), k) {
      assert RowOk(ks, lookups, want, b, u, p, k);
      SameElsewhere(r, u, since, k);
    }
  }

  /** The promise of EncryptFields about the whole table. */
  ghost predicate AllEncrypted(ks: Keys, lookups: seq<bool>, orig: Table, rows: Table) {
    rows.Keys == orig.Keys && forall k <- rows :: RowKept(ks, orig[k], rows[k]) && RowDone(ks, lookups, rows[k])
  }

  /** What a finished backfill leaves with others writing beside it. A row nobody wrote once its batch was read is
      finished. One that was written then keeps what was written, finished if it came finished, unless the write fell
      between SELECT and UPDATE of its batch: then it is the row written under the update of the row read. */
  ghost predicate Outcome(ks: Keys, lookups: seq<bool>, want: Table, b: Book, rows: Table) {
    && rows.Keys == want.Keys && b.raced <= b.touched
    && (forall k <- rows | k !in b.touched :: RowKept(ks, want[k], rows[k]) && RowDone(ks, lookups, rows[k]))
    && (forall k <- rows | k in b.touched && k !in b.raced ::
          RowKept(ks, want[k], rows[k]) && (RowDone(ks, lookups, want[k]) ==> RowDone(ks, lookups, rows[k])))
    && (forall k <- rows | k in b.raced :: Raced(ks, lookups, want[k], rows[k]))
  }

  lemma FinishedOutcome(ks: Keys, lookups: seq<bool>, want: Table, b: Book, rows: Table, p: Progress)
    requires Inv(ks, lookups, want, b, rows, p) && p.done
    ensures Outcome(ks, lookups, want, b, rows)
    ensures b.touched == {} ==> AllEncrypted(ks, lookups, want, rows)
  {
    hide RowKept, RowDone, Raced;
    assert forall k <- rows :: RowOk(ks, lookups, want, b, rows, p, k);
  }

  /** In a raced row, cell by cell: the text written survives exactly when the cell read was NULL or ciphertext, or held
      that text. */
  lemma RacedText(ks: Keys, lookups: seq<bool>, read: Row, sets: seq<CellSet>, want: Row, j: nat)
    requires Coherent(ks) && UpdateOf(ks, lookups, read, sets) && Matches(want, sets) && j < |want|
    requires want[j].value.Some?
    ensures var now := SetRow(want, sets)[j];
      && now.value.Some?
      && (Plain(ks, now.value.value) == Plain(ks, want[j].value.value)
          <==> || read[j].value.None? || Decrypt(ks.a, ks.p, read[j].value.value).Some?
               || Plain(ks, want[j].value.value) == read[j].value.value)
  {
    hide Coherent, Plain, Decrypt, CellUpdate, SetCell;
    assert CellOf(ks, lookups[j], read[j], sets[j]);
    var nonce: Nonce :| CellUpdate(ks, lookups[j], read[j], nonce) == Some(sets[j]);
    ConcurrentWriteSurvives(ks, lookups[j], read[j], nonce, want[j]);
  }

  class Backfill {
    const ks: Keys
    const lookups: seq<bool>
    const batchSize: nat
    ghost const orig: Table
    var rows: Table
    var progress: Progress
    ghost var book: Book

    constructor (ks: Keys, lookups: seq<bool>, batchSize: nat, rows: Table)
      requires forall k <- rows :: |rows[k]| == |lookups|
      ensures this.ks == ks && this.lookups == lookups && this.batchSize == batchSize && this.rows == rows
      ensures progress == Progress(0, 0, false) && orig == rows && book == Book([], {}, {}) && Valid()
    {
      this.ks, this.lookups, this.batchSize := ks, lookups, batchSize;
      this.rows, progress := rows, Progress(0, 0, false);
      this.orig, book := rows, Book([], {}, {});
    }

    /** The table with the writes of others alone. */
    ghost function Want(): Table
      reads this
    {
      AllWrote(orig, book.log)
    }

    ghost predicate Valid()
      reads this
    {
      Inv(ks, lookups, Want(), book, rows, progress)
    }

    /** Others write meanwhile, rows in the old form and in the new; nothing when alone. */
    method Others(alone: bool) returns (ghost since: set<Pk>)
      requires Valid()
      modifies this`rows, this`book
      ensures Valid() && Elsewhere(old(rows), rows, since) && Longer(old(book), book)
      ensures alone ==> rows == old(rows) && book == old(book) && since == {}
    {
      hide Inv, Noted;
      since := {};
      var n: nat := *;
      var i := 0;
      while i < n && !alone
        invariant Valid() && Elsewhere(old(rows), rows, since) && Longer(old(book), book)
        invariant alone ==> rows == old(rows) && book == old(book) && since == {}
        decreases n - i
      {
        var w: Write := *;
        if w.Put? ==> |w.row| == |lookups| {
          WriteKeepsInv(ks, lookups, Want(), book, rows, progress, w);
          NotedLog(orig, progress, book, w);
          rows, since, book := Wrote(rows, w), since + {w.pk}, Noted(progress, book, w);
        }
        i := i + 1;
      }
    }

    /** The SELECT loop of one batch: the pending updates, or None when a row cannot be encrypted or hashed. */
    method Updates(batch: seq<(Pk, Row)>) returns (r: Option<map<Pk, seq<CellSet>>>)
      requires Coherent(ks) && forall i | 0 <= i < |batch| :: batch[i].0 in rows && rows[batch[i].0] == batch[i].1
      requires forall k <- rows :: |rows[k]| == |lookups|
      ensures Able(ks) ==> r.Some?
      ensures r.Some? ==> Finishing(ks, lookups, rows, batch, |batch|, r.value)
    {
      hide Coherent, Able, RowKept, RowDone, SetRow, UpdateOf, InBatch;
      var updates: map<Pk, seq<CellSet>> := map[];
      var i := 0;
      while i < |batch|
        invariant 0 <= i <= |batch|
        invariant Finishing(ks, lookups, rows, batch, i, updates)
      {
        var sets := RowUpdate(ks, lookups, batch[i].1);
        if sets.None? {
          return None;
        }
        AtInBatch(batch, i);
        updates := updates[batch[i].0 := sets.value];
        i := i + 1;
      }
      return Some(updates);
    }

    /** The update transaction of one batch read as r, with the checkpoint. */
    method WriteBatch(ghost r: Table, batch: seq<(Pk, Row)>, updates: map<Pk, seq<CellSet>>, done: nat, alone: bool)
      requires Valid() && !progress.done && rows == r && batch != [] && batch == Batch(r, progress.lastKey, batchSize)
      requires Finishing(ks, lookups, r, batch, |batch|, updates)
      modifies this
      ensures Valid() && Longer(old(book), book) && (alone ==> book == old(book))
      ensures progress == Progress(batch[|batch| - 1].0, done, false)
    {
      hide Batch, Finishing, Updated, Inv, Elsewhere, Longer;
      var last := batch[|batch| - 1].0;
      ghost var since := Others(alone);
      BatchKeepsInv(ks, lookups, Want(), book, r, rows, progress, batchSize, since, updates, done);
      ghost var noted := book;
      book := BatchNoted(progress, book, since, updates, last);
      SameLog(old(book), noted, book);
      rows, progress := Updated(rows, updates), Progress(last, done, false);
    }

    /** backfillEncrypt, from the stored checkpoint. Unless calm, a crash may come between any two statements;
        calling again resumes. Unless alone, others write between any two statements. */
    method BackfillEncrypt(calm: bool, alone: bool) returns (ok: bool)
      requires Coherent(ks) && batchSize > 0 && Valid()
      modifies this
      ensures Valid() && Longer(old(book), book)
      ensures ok ==> progress.done && Outcome(ks, lookups, Want(), book, rows)
      ensures calm && Able(ks) ==> ok
      ensures alone ==> book == old(book)
      ensures old(progress.done) ==> ok && progress == old(progress)
    {
      hide Coherent, Able, Batch, Finishing, Updated, Inv, Outcome, Elsewhere, Longer, AllWrote;
      LongerReflexive(book);
      ghost var since := Others(alone);
      if progress.done {
        FinishedOutcome(ks, lookups, Want(), book, rows, progress);
        return true;
      }
      var last: nat, done: nat := progress.lastKey, progress.rowsDone;
      Widths(ks, lookups, Want(), book, rows, progress);
      while true
        invariant Valid() && !progress.done && last == progress.lastKey <= KEYS && Longer(old(book), book)
        invariant alone ==> book == old(book)
        decreases KEYS - last
      {
        Widths(ks, lookups, Want(), book, rows, progress);
        var batch := Batch(rows, last, batchSize);
        BatchIsStretch(rows, last, batchSize);
        if batch == [] {
          break;
        }
        var updates := Updates(batch);
        var crash: bool := *;
        if updates.None? || (crash && !calm) {
          return false;
        }
        done := done + |batch|;
        ghost var noted := book;
        WriteBatch(rows, batch, updates.value, done, alone);
        LongerTransitive(old(book), noted, book);
        last := batch[|batch| - 1].0;
        noted := book;
        since := Others(alone);
        LongerTransitive(old(book), noted, book);
      }
      ghost var read, noted := rows, book;
      since := Others(alone);
      LongerTransitive(old(book), noted, book);
      EmptyBatchIsDone(ks, lookups, Want(), book, read, rows, progress, since, done);
      var crash: bool := *;
      if crash && !calm {
        return false;
      }
      noted := book;
      book := book.(touched := book.touched + since);
      SameLog(old(book), noted, book);
      progress := Progress(last, done, true);
      FinishedOutcome(ks, lookups, Want(), book, rows, progress);
      return true;
    }

    /** Any number of crashed attempts, then one that comes through. */
    method RunToEnd(attempts: nat, alone: bool)
      requires Coherent(ks) && Able(ks) && batchSize > 0 && Valid() && progress == Progress(0, 0, false)
      requires book == Book([], {}, {})
      modifies this
      ensures progress.done && Outcome(ks, lookups, Want(), book, rows)
      ensures alone ==> AllEncrypted(ks, lookups, orig, rows)
    {
      hide Coherent, Able, Inv, Outcome, AllEncrypted;
      var i, ok := 0, false;
      while i < attempts
        invariant i <= attempts && Valid() && (alone ==> book == Book([], {}, {}))
      {
        ok := BackfillEncrypt(false, alone);
        i := i + 1;
      }
      ok := BackfillEncrypt(true, alone);
      FinishedOutcome(ks, lookups, Want(), book, rows, progress);
    }
  }

  /** Others have only written more. */
  ghost predicate Longer(b: Book, u: Book) {
    |b.log| <= |u.log| && u.log[..|b.log|] == b.log
  }

  lemma LongerReflexive(b: Book)
    ensures Longer(b, b)
  {
  }

  lemma SameLog(a: Book, b: Book, c: Book)
    requires Longer(a, b) && c.log == b.log
    ensures Longer(a, c)
  {
  }

  lemma LongerTransitive(a: Book, b: Book, c: Book)
    requires Longer(a, b) && Longer(b, c)
    ensures Longer(a, c)
  {
    assert c.log[..|a.log|] == c.log[..|b.log|][..|a.log|];
  }

  lemma NotedLog(orig: Table, p: Progress, b: Book, w: Write)
    ensures AllWrote(orig, Noted(p, b, w).log) == Wrote(AllWrote(orig, b.log), w) && Longer(b, Noted(p, b, w))
    ensures forall u: Book :: Longer(u, b) ==> Longer(u, Noted(p, b, w))
  {
    assert (b.log + [w])[..|b.log|] == b.log;
    forall u: Book | Longer(u, b) ensures Longer(u, Noted(p, b, w)) {
      assert (b.log + [w])[..|u.log|] == b.log[..|u.log|];
    }
  }

  lemma AtInBatch(batch: seq<(Pk, Row)>, i: nat)
    requires i < |batch|
    ensures InBatch(batch, batch[i].0)
  {
  }

  lemma Widths(ks: Keys, lookups: seq<bool>, want: Table, b: Book, rows: Table, p: Progress)
    requires Inv(ks, lookups, want, b, rows, p)
    ensures forall k <- rows :: |rows[k]| == |lookups|
    ensures p.lastKey <= KEYS
  {
    forall k | k in rows ensures |rows[k]| == |lookups| {
      assert RowOk(ks, lookups, want, b, rows, p, k);
    }
  }
}
