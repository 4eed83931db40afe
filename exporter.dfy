/** exporter.py: merge each direction's records into its workbook, dropping rows whose dedup
    key is already present, over a file system kept as a map from paths to workbooks. */
module Exporter {
  import opened Wrappers
  import opened Text
  import opened Dedup
  import opened Sheets

  /** One record of `grouped`: a dict from column names to cells, in insertion order. */
  type Record = seq<(string, Cell)>

  /** The entries of config the function reads; sheetName has already taken its "data" default. */
  datatype ExportConfig = ExportConfig(dir: string, fileTemplate: seq<Piece>, sheetName: string, dedupKeys: seq<string>)

  function ColumnName(c: string): string { c }

  /** The keys of a record, in insertion order. */
  function RecordKeys(r: Record): (ks: seq<string>)
    ensures |ks| == |r| && forall i :: 0 <= i < |r| ==> ks[i] == r[i].0
  {
    seq(|r|, i requires 0 <= i < |r| => r[i].0)
  }

  /** The record as a row: each key holds the last value given for it. */
  function RecordRow(r: Record): Row {
    if r == [] then map[] else RecordRow(r[..|r| - 1])[r[|r| - 1].0 := r[|r| - 1].1]
  }

  /** All keys of all records, in order, repeats included. */
  function AllKeys(records: seq<Record>): seq<string> {
    if records == [] then [] else AllKeys(records[..|records| - 1]) + RecordKeys(records[|records| - 1])
  }

  /** A row widened or narrowed to the given columns, a missing cell reading as NaN. */
  function Normalize(row: Row, cols: seq<string>): Row {
    map c | c in cols :: CellAt(row, c)
  }

  function NormalizeAll(rows: seq<Row>, cols: seq<string>): (r: seq<Row>)
    ensures |r| == |rows| && forall i :: 0 <= i < |rows| ==> r[i] == Normalize(rows[i], cols)
  {
    seq(|rows|, i requires 0 <= i < |rows| => Normalize(rows[i], cols))
  }

  /** `pd.DataFrame(records)`: the columns are the keys in order of first appearance, one row
      per record. */
  function Frame(records: seq<Record>): Sheet {
    var cols := DedupBy(AllKeys(records), ColumnName);
    Sheet(cols, NormalizeAll(seq(|records|, i requires 0 <= i < |records| => RecordRow(records[i])), cols))
  }

  /** The column union of `pd.concat`: first frame's columns, then the second's new ones. */
  function Union(a: seq<string>, b: seq<string>): seq<string> {
    DedupBy(a + b, ColumnName)
  }

  /** `pd.concat([a, b], ignore_index=True)`. */
  function Concat(a: Sheet, b: Sheet): Sheet {
    var u := Union(a.columns, b.columns);
    Sheet(u, NormalizeAll(a.rows, u) + NormalizeAll(b.rows, u))
  }

  /** The row's cells under the dedup keys: what drop_duplicates compares (NaN equal to NaN). */
  function KeyOf(keys: seq<string>): Row -> seq<Cell> {
    (r: Row) => seq(|keys|, i requires 0 <= i < |keys| => CellAt(r, keys[i]))
  }

  /** The first dedup key that is not a column, if any. */
  function MissingKey(keys: seq<string>, cols: seq<string>): (m: Option<string>)
    ensures m.None? <==> forall k :: k in keys ==> k in cols
    ensures m.Some? ==> m.value in keys && m.value !in cols
  {
    if keys == [] then None
    else if keys[0] !in cols then Some(keys[0])
    else MissingKey(keys[1..], cols)
  }

  /** `df.drop_duplicates(subset=keys)`: the KeyError of a missing key, or the first row of each key. */
  function DropDuplicates(s: Sheet, keys: seq<string>): Result<Sheet, Error> {
    match MissingKey(keys, s.columns)
    case Some(k) => Err(KeyError(k))
    case None => Ok(Sheet(s.columns, DedupBy(s.rows, KeyOf(keys))))
  }

  /** `output_dir / file_template.format(direction=direction)`. */
  function TargetPath(cfg: ExportConfig, direction: string): string {
    PathJoin(cfg.dir, Format(cfg.fileTemplate, direction))
  }

  /** The rows to deduplicate: the existing sheet followed by the new records, or the new
      records alone when the file does not exist. */
  function Combined(cfg: ExportConfig, files: Files, path: string, records: seq<Record>): Result<Sheet, Error> {
    if path !in files then Ok(Frame(records))
    else if files[path].sheetName != cfg.sheetName then Err(ValueError(WorksheetMissing))
    else Ok(Concat(files[path].table, Frame(records)))
  }

  /** One direction: nothing for no records, otherwise the workbook to write or the error. */
  function ExportOne(cfg: ExportConfig, files: Files, direction: string, records: seq<Record>): Result<Option<Workbook>, Error> {
    if records == [] then Ok(None)
    else
      match Combined(cfg, files, TargetPath(cfg, direction), records)
      case Err(e) => Err(e)
      case Ok(combined) =>
        match DropDuplicates(combined, cfg.dedupKeys)
        case Err(e) => Err(e)
        case Ok(deduped) => Ok(Some(Workbook(cfg.sheetName, deduped)))
  }

  /** The outputs map (or the exception) and the files afterwards. */
  datatype ExportRun = ExportRun(result: Result<map<string, string>, Error>, files: Files)

  /** The directions in order; the first exception ends the run, files written so far staying. */
  function ExportAll(cfg: ExportConfig, grouped: seq<(string, seq<Record>)>, files: Files): ExportRun {
    if grouped == [] then ExportRun(Ok(map[]), files)
    else
      var run := ExportAll(cfg, grouped[..|grouped| - 1], files);
      var (direction, records) := grouped[|grouped| - 1];
      if run.result.Err? then run
      else
        match ExportOne(cfg, run.files, direction, records)
        case Err(e) => ExportRun(Err(e), run.files)
        case Ok(None) => run
        case Ok(Some(book)) =>
          var path := TargetPath(cfg, direction);
          ExportRun(Ok(run.result.value[direction := path]), run.files[path := book])
  }

  method ExportByDirection(cfg: ExportConfig, grouped: seq<(string, seq<Record>)>, files: Files)
    returns (result: Result<map<string, string>, Error>, files': Files)
    ensures ExportRun(result, files') == ExportAll(cfg, grouped, files)
  {
    var outputs: map<string, string> := map[];
    files' := files;
    for i := 0 to |grouped|
      invariant ExportAll(cfg, grouped[..i], files) == ExportRun(Ok(outputs), files')
    {
      ExportStep(cfg, grouped, files, i);
      var (direction, records) := grouped[i];
      var step := MergeDirection(cfg, files', direction, records);
      if step.Err? {
        ErrorEndsRun(cfg, grouped, files, i + 1);
        return Err(step.error), files';
      }
      if step.value.Some? {
        var path := TargetPath(cfg, direction);
        files' := files'[path := step.value.value];
        outputs := outputs[direction := path];
      }
    }
    assert grouped[..|grouped|] == grouped;
    result := Ok(outputs);
  }

  /** The body of the loop for one direction, up to the write: skip empty records, build the
      frame, concatenate with the existing file if there is one, and drop duplicates. */
  method MergeDirection(cfg: ExportConfig, files: Files, direction: string, records: seq<Record>)
    returns (step: Result<Option<Workbook>, Error>)
    ensures step == ExportOne(cfg, files, direction, records)
  {
    if records == [] {
      return Ok(None);
    }
    var path := TargetPath(cfg, direction);
    var newDf := Frame(records);
    var combined;
    if path in files {
      if files[path].sheetName != cfg.sheetName {
        return Err(ValueError(WorksheetMissing));
      }
      combined := Concat(files[path].table, newDf);
    } else {
      combined := newDf;
    }
    var deduped := DropDuplicates(combined, cfg.dedupKeys);
    if deduped.Err? {
      return Err(deduped.error);
    }
    step := Ok(Some(Workbook(cfg.sheetName, deduped.value)));
  }

  /** One more direction: ExportAll of a longer prefix in terms of the shorter one. */
  lemma ExportStep(cfg: ExportConfig, grouped: seq<(string, seq<Record>)>, files: Files, i: nat)
    requires i < |grouped|
    ensures var run := ExportAll(cfg, grouped[..i], files);
      ExportAll(cfg, grouped[..i + 1], files) ==
        if run.result.Err? then run
        else match ExportOne(cfg, run.files, grouped[i].0, grouped[i].1)
          case Err(e) => ExportRun(Err(e), run.files)
          case Ok(None) => run
          case Ok(Some(book)) =>
            ExportRun(Ok(run.result.value[grouped[i].0 := TargetPath(cfg, grouped[i].0)]),
                      run.files[TargetPath(cfg, grouped[i].0) := book])
  {
    assert grouped[..i + 1][..i] == grouped[..i];
  }

  /** Once a direction raises, the later ones change nothing. */
  lemma {:induction false} ErrorEndsRun(cfg: ExportConfig, grouped: seq<(string, seq<Record>)>, files: Files, i: nat)
    requires i <= |grouped| && ExportAll(cfg, grouped[..i], files).result.Err?
    ensures ExportAll(cfg, grouped, files) == ExportAll(cfg, grouped[..i], files)
    decreases |grouped|
  {
    if i < |grouped| {
      var q := grouped[..|grouped| - 1];
      assert q[..i] == grouped[..i];
      ErrorEndsRun(cfg, q, files, i);
    } else {
      assert grouped[..i] == grouped;
    }
  }

  // ---------------------------------------------------------------------------
  // Frames, columns and keys
  // ---------------------------------------------------------------------------

  /** A column list as a set of names. */
  lemma ColumnsAsSet(cols: seq<string>, c: string)
    ensures c in KeySet(cols, ColumnName) <==> c in cols
  {
    if c in cols {
      var i :| 0 <= i < |cols| && cols[i] == c;
      assert ColumnName(cols[i]) == c;
    }
  }

  /** The union holds every column of either frame, each once. */
  lemma UnionFacts(a: seq<string>, b: seq<string>, c: string)
    ensures c in Union(a, b) <==> c in a || c in b
    ensures NoDupKeys(Union(a, b), ColumnName)
  {
    DedupKeySet(a + b, ColumnName);
    DedupNoDup(a + b, ColumnName);
    ColumnsAsSet(Union(a, b), c);
    ColumnsAsSet(a + b, c);
  }

  /** Adding columns that are already there changes nothing. */
  lemma UnionAbsorbed(a: seq<string>, b: seq<string>)
    requires NoDupKeys(a, ColumnName) && forall c :: c in b ==> c in a
    ensures Union(a, b) == a
  {
    forall c | c in KeySet(b, ColumnName) ensures c in KeySet(a, ColumnName) {
      ColumnsAsSet(b, c);
      ColumnsAsSet(a, c);
    }
    DedupAppendKnown(a, b, ColumnName);
    DedupOfDistinct(a, ColumnName);
  }

  /** Normalizing to columns that include the keys leaves the key cells as they were. */
  lemma KeyOfNormalize(keys: seq<string>, r: Row, u: seq<string>)
    requires forall k :: k in keys ==> k in u
    ensures KeyOf(keys)(Normalize(r, u)) == KeyOf(keys)(r)
  {
    var n := Normalize(r, u);
    assert forall i :: 0 <= i < |keys| ==> CellAt(n, keys[i]) == CellAt(r, keys[i]);
  }

  lemma KeySetNormalize(keys: seq<string>, rows: seq<Row>, u: seq<string>)
    requires forall k :: k in keys ==> k in u
    ensures KeySet(NormalizeAll(rows, u), KeyOf(keys)) == KeySet(rows, KeyOf(keys))
  {
    var n := NormalizeAll(rows, u);
    forall i | 0 <= i < |rows| ensures KeyOf(keys)(n[i]) == KeyOf(keys)(rows[i]) {
      KeyOfNormalize(keys, rows[i], u);
    }
  }

  lemma NormalizeTwice(r: Row, u: seq<string>)
    ensures Normalize(Normalize(r, u), u) == Normalize(r, u)
  {
  }

  /** A frame's columns are the record keys, each once, and every row is normalized to them. */
  lemma FrameFacts(records: seq<Record>)
    ensures var f := Frame(records);
      && NoDupKeys(f.columns, ColumnName)
      && |f.rows| == |records|
      && forall i :: 0 <= i < |f.rows| ==> Normalize(f.rows[i], f.columns) == f.rows[i]
  {
    DedupNoDup(AllKeys(records), ColumnName);
  }

  /** A record's row has the record's keys, each holding the value given last for it. */
  lemma {:induction false} RecordRowAt(r: Record, c: string)
    ensures c in RecordRow(r) <==> c in RecordKeys(r)
    ensures forall j :: 0 <= j < |r| && r[j].0 == c && (forall j' :: j < j' < |r| ==> r[j'].0 != c) ==>
              RecordRow(r)[c] == r[j].1
  {
    if r != [] {
      var q := r[..|r| - 1];
      RecordRowAt(q, c);
      assert RecordKeys(r) == RecordKeys(q) + [r[|r| - 1].0];
      forall j | 0 <= j < |r| && r[j].0 == c && (forall j' :: j < j' < |r| ==> r[j'].0 != c)
        ensures RecordRow(r)[c] == r[j].1
      {
        if j < |r| - 1 {
          assert q[j] == r[j];
          assert r[|r| - 1].0 != c;
        }
      }
    }
  }

  /** The keys of all records are exactly the keys of some record. */
  lemma {:induction false} AllKeysAt(records: seq<Record>, c: string)
    ensures c in AllKeys(records) <==> exists i :: 0 <= i < |records| && c in RecordKeys(records[i])
  {
    if records != [] {
      var q := records[..|records| - 1];
      AllKeysAt(q, c);
      if exists i :: 0 <= i < |q| && c in RecordKeys(q[i]) {
        var i :| 0 <= i < |q| && c in RecordKeys(q[i]);
        assert records[i] == q[i];
      }
      if exists i :: 0 <= i < |records| && c in RecordKeys(records[i]) {
        var i :| 0 <= i < |records| && c in RecordKeys(records[i]);
        if i < |q| { assert q[i] == records[i]; }
      }
    }
  }

  /** `pd.DataFrame(records)`: a column for every key of any record, and in row i the cell
      record i gives for the column (see RecordRowAt), NaN when it has none. */
  lemma FrameCells(records: seq<Record>, i: nat, c: string)
    requires i < |records|
    ensures var f := Frame(records);
      && (c in f.columns <==> exists j :: 0 <= j < |records| && c in RecordKeys(records[j]))
      && CellAt(f.rows[i], c) == CellAt(RecordRow(records[i]), c)
  {
    var ks := AllKeys(records);
    DedupKeySet(ks, ColumnName);
    ColumnsAsSet(ks, c);
    ColumnsAsSet(DedupBy(ks, ColumnName), c);
    AllKeysAt(records, c);
    RecordRowAt(records[i], c);
    if c in RecordKeys(records[i]) {
      assert exists j :: 0 <= j < |records| && c in RecordKeys(records[j]);
    }
  }

  // ---------------------------------------------------------------------------
  // One direction
  // ---------------------------------------------------------------------------

  /** A sheet as the merge leaves it: distinct columns including the keys, every row
      normalized to the columns, no two rows with the same key. */
  ghost predicate Settled(s: Sheet, keys: seq<string>) {
    && NoDupKeys(s.columns, ColumnName)
    && (forall k :: k in keys ==> k in s.columns)
    && (forall i :: 0 <= i < |s.rows| ==> Normalize(s.rows[i], s.columns) == s.rows[i])
    && NoDupKeys(s.rows, KeyOf(keys))
  }

  /** Merging the frame n into s would add nothing: its columns are there and so are its keys. */
  ghost predicate Absorbs(s: Sheet, n: Sheet, keys: seq<string>) {
    && (forall c :: c in n.columns ==> c in s.columns)
    && KeySet(n.rows, KeyOf(keys)) <= KeySet(s.rows, KeyOf(keys))
  }

  /** A direction fails with ValueError exactly when its file exists without the sheet, and
      otherwise with KeyError exactly when a dedup key is neither a column of the existing file
      nor a key of any record. */
  lemma ExportOneErrors(cfg: ExportConfig, files: Files, direction: string, records: seq<Record>)
    requires records != []
    ensures var path := TargetPath(cfg, direction);
      var r := ExportOne(cfg, files, direction, records);
      && (path in files && files[path].sheetName != cfg.sheetName ==> r == Err(ValueError(WorksheetMissing)))
      && ((path in files ==> files[path].sheetName == cfg.sheetName) ==>
            && (r.Err? <==>
                  exists k :: k in cfg.dedupKeys && (path in files ==> k !in files[path].table.columns) &&
                              forall j :: 0 <= j < |records| ==> k !in RecordKeys(records[j]))
            && (r.Err? ==> r.error.KeyError? && r.error.key in cfg.dedupKeys))
  {
    var path := TargetPath(cfg, direction);
    if path in files ==> files[path].sheetName == cfg.sheetName {
      var combined := Combined(cfg, files, path, records).value;
      var f := Frame(records);
      forall k | k in cfg.dedupKeys
        ensures k !in combined.columns <==>
                  (path in files ==> k !in files[path].table.columns) &&
                  forall j :: 0 <= j < |records| ==> k !in RecordKeys(records[j])
      {
        FrameCells(records, 0, k);
        if path in files {
          UnionFacts(files[path].table.columns, f.columns, k);
        }
      }
    }
  }

  /** What a direction writes: its sheet, settled, holding the combined rows' keys, each once,
      with its first row in combined order, and absorbing the direction's own records. */
  lemma ExportOneWrites(cfg: ExportConfig, files: Files, direction: string, records: seq<Record>)
    requires records != [] && ExportOne(cfg, files, direction, records).Ok?
    ensures var path := TargetPath(cfg, direction);
      var r := ExportOne(cfg, files, direction, records);
      var combined := Combined(cfg, files, path, records).value;
      && r.value.Some?
      && r.value.value.sheetName == cfg.sheetName
      && r.value.value.table.columns ==
           (if path in files then Union(files[path].table.columns, Frame(records).columns) else Frame(records).columns)
      && r.value.value.table == Sheet(combined.columns, DedupBy(combined.rows, KeyOf(cfg.dedupKeys)))
      && SubseqOf(r.value.value.table.rows, combined.rows)
      && KeySet(r.value.value.table.rows, KeyOf(cfg.dedupKeys)) == KeySet(combined.rows, KeyOf(cfg.dedupKeys))
      && Settled(r.value.value.table, cfg.dedupKeys)
      && Absorbs(r.value.value.table, Frame(records), cfg.dedupKeys)
  {
    var path := TargetPath(cfg, direction);
    var keys := cfg.dedupKeys;
    var combined := Combined(cfg, files, path, records).value;
    var f := Frame(records);
    CombinedNormal(cfg, files, path, records);
    DropSettles(combined, keys);
    if path in files {
      var e := files[path].table;
      forall c | c in f.columns ensures c in combined.columns {
        UnionFacts(e.columns, f.columns, c);
      }
      KeySetNormalize(keys, f.rows, combined.columns);
      KeySetAppend(NormalizeAll(e.rows, combined.columns), NormalizeAll(f.rows, combined.columns), KeyOf(keys));
    }
  }

  /** The combined frame has distinct columns and every row normalized to them. */
  lemma CombinedNormal(cfg: ExportConfig, files: Files, path: string, records: seq<Record>)
    requires Combined(cfg, files, path, records).Ok?
    ensures var c := Combined(cfg, files, path, records).value;
      NoDupKeys(c.columns, ColumnName) && forall i :: 0 <= i < |c.rows| ==> Normalize(c.rows[i], c.columns) == c.rows[i]
  {
    var f := Frame(records);
    FrameFacts(records);
    if path in files {
      var e := files[path].table;
      var c := Concat(e, f);
      UnionFacts(e.columns, f.columns, "");
      forall i | 0 <= i < |c.rows| ensures Normalize(c.rows[i], c.columns) == c.rows[i] {
        if i < |e.rows| {
          NormalizeTwice(e.rows[i], c.columns);
        } else {
          NormalizeTwice(f.rows[i - |e.rows|], c.columns);
        }
      }
    }
  }

  /** drop_duplicates of a sheet with distinct columns and normalized rows settles it, keeping
      a subsequence of the rows with every key of the input. */
  lemma DropSettles(c: Sheet, keys: seq<string>)
    requires NoDupKeys(c.columns, ColumnName)
    requires forall i :: 0 <= i < |c.rows| ==> Normalize(c.rows[i], c.columns) == c.rows[i]
    requires DropDuplicates(c, keys).Ok?
    ensures var t := DropDuplicates(c, keys).value;
      && t == Sheet(c.columns, DedupBy(c.rows, KeyOf(keys)))
      && Settled(t, keys)
      && SubseqOf(t.rows, c.rows)
      && KeySet(t.rows, KeyOf(keys)) == KeySet(c.rows, KeyOf(keys))
  {
    var t := DropDuplicates(c, keys).value;
    DedupIsSubseq(c.rows, KeyOf(keys));
    DedupKeySet(c.rows, KeyOf(keys));
    DedupNoDup(c.rows, KeyOf(keys));
    forall i | 0 <= i < |t.rows| ensures Normalize(t.rows[i], t.columns) == t.rows[i] {
      DedupMembers(c.rows, KeyOf(keys), t.rows[i]);
    }
  }

  /** A row the merge keeps whose key the existing file already has is an existing row: on a
      duplicate key the file's row wins over the new record. */
  lemma ExistingRowsWin(cfg: ExportConfig, files: Files, direction: string, records: seq<Record>, r: Row)
    requires records != [] && ExportOne(cfg, files, direction, records).Ok?
    requires TargetPath(cfg, direction) in files
    requires r in ExportOne(cfg, files, direction, records).value.value.table.rows
    requires var e := files[TargetPath(cfg, direction)].table;
      KeyOf(cfg.dedupKeys)(r) in KeySet(e.rows, KeyOf(cfg.dedupKeys))
    ensures var e := files[TargetPath(cfg, direction)].table;
      r in NormalizeAll(e.rows, Union(e.columns, Frame(records).columns))
  {
    var path := TargetPath(cfg, direction);
    var e := files[path].table;
    var combined := Combined(cfg, files, path, records).value;
    var keys := cfg.dedupKeys;
    var a := NormalizeAll(e.rows, combined.columns);
    assert forall k :: k in keys ==> k in combined.columns;
    KeySetNormalize(keys, e.rows, combined.columns);
    DedupKeepsEarlier(a, NormalizeAll(Frame(records).rows, combined.columns), KeyOf(keys), r);
  }

  /** Merging a frame that a settled sheet absorbs gives the sheet back. */
  lemma MergeFixpoint(s: Sheet, n: Sheet, keys: seq<string>)
    requires Settled(s, keys) && Absorbs(s, n, keys)
    ensures DropDuplicates(Concat(s, n), keys) == Ok(s)
  {
    UnionAbsorbed(s.columns, n.columns);
    var u := Union(s.columns, n.columns);
    assert NormalizeAll(s.rows, u) == s.rows;
    KeySetNormalize(keys, n.rows, u);
    DedupAppendKnown(s.rows, NormalizeAll(n.rows, u), KeyOf(keys));
    DedupOfDistinct(s.rows, KeyOf(keys));
  }

  /** Merging another frame into a settled sheet keeps every frame it absorbed absorbed. */
  lemma MergeKeepsAbsorbed(s: Sheet, n1: Sheet, n2: Sheet, keys: seq<string>)
    requires Settled(s, keys) && Absorbs(s, n1, keys) && DropDuplicates(Concat(s, n2), keys).Ok?
    ensures Absorbs(DropDuplicates(Concat(s, n2), keys).value, n1, keys)
  {
    var u := Union(s.columns, n2.columns);
    forall c | c in s.columns ensures c in u {
      UnionFacts(s.columns, n2.columns, c);
    }
    var c := Concat(s, n2);
    KeySetNormalize(keys, s.rows, u);
    KeySetAppend(NormalizeAll(s.rows, u), NormalizeAll(n2.rows, u), KeyOf(keys));
    DedupKeySet(c.rows, KeyOf(keys));
  }

  // ---------------------------------------------------------------------------
  // The whole run
  // ---------------------------------------------------------------------------

  /** A run that ends without an exception ran every shorter prefix without one. */
  lemma OkPrefix(cfg: ExportConfig, grouped: seq<(string, seq<Record>)>, files: Files)
    requires grouped != [] && ExportAll(cfg, grouped, files).result.Ok?
    ensures ExportAll(cfg, grouped[..|grouped| - 1], files).result.Ok?
  {
  }

  /** A run that ends well adds the last direction to the outputs exactly when it has records. */
  lemma OkStep(cfg: ExportConfig, grouped: seq<(string, seq<Record>)>, files: Files)
    requires grouped != [] && ExportAll(cfg, grouped, files).result.Ok?
    ensures var run := ExportAll(cfg, grouped[..|grouped| - 1], files);
      var (d, recs) := grouped[|grouped| - 1];
      && run.result.Ok?
      && ExportAll(cfg, grouped, files).result.value ==
           if recs == [] then run.result.value else run.result.value[d := TargetPath(cfg, d)]
  {
  }

  /** Some direction named d has records. */
  ghost predicate HasRecords(grouped: seq<(string, seq<Record>)>, d: string) {
    exists i :: 0 <= i < |grouped| && grouped[i].0 == d && grouped[i].1 != []
  }

  lemma HasRecordsSnoc(grouped: seq<(string, seq<Record>)>, d: string)
    requires grouped != []
    ensures var last := grouped[|grouped| - 1];
      HasRecords(grouped, d) <==> HasRecords(grouped[..|grouped| - 1], d) || (last.0 == d && last.1 != [])
  {
    var q := grouped[..|grouped| - 1];
    if HasRecords(q, d) {
      var i :| 0 <= i < |q| && q[i].0 == d && q[i].1 != [];
      assert grouped[i] == q[i];
    }
    if HasRecords(grouped, d) {
      var i :| 0 <= i < |grouped| && grouped[i].0 == d && grouped[i].1 != [];
      if i < |q| { assert q[i] == grouped[i]; }
    }
  }

  /** The outputs map exactly the directions with records, each to its target path. */
  lemma {:induction false} ExportOutputs(cfg: ExportConfig, grouped: seq<(string, seq<Record>)>, files: Files, d: string)
    requires ExportAll(cfg, grouped, files).result.Ok?
    ensures var out := ExportAll(cfg, grouped, files).result.value;
      && (d in out <==> exists i :: 0 <= i < |grouped| && grouped[i].0 == d && grouped[i].1 != [])
      && (d in out ==> out[d] == TargetPath(cfg, d))
  {
    if grouped != [] {
      OkStep(cfg, grouped, files);
      ExportOutputs(cfg, grouped[..|grouped| - 1], files, d);
      HasRecordsSnoc(grouped, d);
    }
  }

  /** A file at a path no direction with records leads to is left as it was, whether or not
      the run raises. */
  lemma {:induction false} ExportUntouched(cfg: ExportConfig, grouped: seq<(string, seq<Record>)>, files: Files, path: string)
    requires forall i :: 0 <= i < |grouped| && grouped[i].1 != [] ==> TargetPath(cfg, grouped[i].0) != path
    ensures var f := ExportAll(cfg, grouped, files).files;
      (path in f <==> path in files) && (path in files ==> f[path] == files[path])
  {
    if grouped != [] {
      var q := grouped[..|grouped| - 1];
      assert forall i :: 0 <= i < |q| ==> q[i] == grouped[i];
      ExportUntouched(cfg, q, files, path);
    }
  }

  /** The direction's file exists with the configured sheet, settled and absorbing the records. */
  ghost predicate SettledFor(cfg: ExportConfig, files: Files, d: string, recs: seq<Record>) {
    var path := TargetPath(cfg, d);
    && path in files
    && files[path].sheetName == cfg.sheetName
    && Settled(files[path].table, cfg.dedupKeys)
    && Absorbs(files[path].table, Frame(recs), cfg.dedupKeys)
  }

  /** Every direction with records is settled. */
  ghost predicate AllSettled(cfg: ExportConfig, grouped: seq<(string, seq<Record>)>, files: Files) {
    forall i :: 0 <= i < |grouped| && grouped[i].1 != [] ==> SettledFor(cfg, files, grouped[i].0, grouped[i].1)
  }

  /** A direction's merge settles its own records and keeps every other direction settled. */
  lemma WriteKeepsSettled(cfg: ExportConfig, f: Files, d: string, recs: seq<Record>, d0: string, recs0: seq<Record>)
    requires recs != [] && ExportOne(cfg, f, d, recs).Ok?
    requires (d0, recs0) == (d, recs) || SettledFor(cfg, f, d0, recs0)
    ensures SettledFor(cfg, f[TargetPath(cfg, d) := ExportOne(cfg, f, d, recs).value.value], d0, recs0)
  {
    var path := TargetPath(cfg, d);
    ExportOneWrites(cfg, f, d, recs);
    if (d0, recs0) != (d, recs) && TargetPath(cfg, d0) == path {
      MergeKeepsAbsorbed(f[path].table, Frame(recs0), Frame(recs), cfg.dedupKeys);
    }
  }

  /** Writing one more direction's merge keeps every direction settled. */
  lemma SettleStep(cfg: ExportConfig, q: seq<(string, seq<Record>)>, f: Files, d: string, recs: seq<Record>)
    requires AllSettled(cfg, q, f) && recs != [] && ExportOne(cfg, f, d, recs).Ok?
    ensures AllSettled(cfg, q + [(d, recs)], f[TargetPath(cfg, d) := ExportOne(cfg, f, d, recs).value.value])
  {
    var g := q + [(d, recs)];
    forall i | 0 <= i < |g| && g[i].1 != []
      ensures SettledFor(cfg, f[TargetPath(cfg, d) := ExportOne(cfg, f, d, recs).value.value], g[i].0, g[i].1)
    {
      if i < |q| {
        assert g[i] == q[i];
      }
      WriteKeepsSettled(cfg, f, d, recs, g[i].0, g[i].1);
    }
  }

  /** After a run without an exception every direction's file is settled and absorbs its
      records, later directions writing to the same path included. */
  lemma {:induction false} RunSettles(cfg: ExportConfig, grouped: seq<(string, seq<Record>)>, files: Files)
    requires ExportAll(cfg, grouped, files).result.Ok?
    ensures AllSettled(cfg, grouped, ExportAll(cfg, grouped, files).files)
  {
    if grouped != [] {
      var q := grouped[..|grouped| - 1];
      var (d, recs) := grouped[|grouped| - 1];
      assert grouped == q + [(d, recs)];
      OkPrefix(cfg, grouped, files);
      RunSettles(cfg, q, files);
      var f := ExportAll(cfg, q, files).files;
      if recs != [] {
        SettleStep(cfg, q, f, d, recs);
      } else {
        assert forall i :: 0 <= i < |q| ==> q[i] == grouped[i];
      }
    }
  }

  /** On files where every direction is settled, a run changes nothing and raises nothing. */
  lemma {:induction false} SettledRunIsIdle(cfg: ExportConfig, grouped: seq<(string, seq<Record>)>, files: Files)
    requires AllSettled(cfg, grouped, files)
    ensures ExportAll(cfg, grouped, files).result.Ok? && ExportAll(cfg, grouped, files).files == files
  {
    if grouped != [] {
      var q := grouped[..|grouped| - 1];
      var (d, recs) := grouped[|grouped| - 1];
      assert forall i :: 0 <= i < |q| ==> q[i] == grouped[i];
      SettledRunIsIdle(cfg, q, files);
      if recs != [] {
        var path := TargetPath(cfg, d);
        assert grouped[|grouped| - 1].1 != [];
        MergeFixpoint(files[path].table, Frame(recs), cfg.dedupKeys);
        assert ExportOne(cfg, files, d, recs) == Ok(Some(files[path]));
      }
    }
  }

  /** Running the export a second time with the same records returns the same outputs and
      leaves every file exactly as the first run wrote it. */
  lemma ExportIdempotent(cfg: ExportConfig, grouped: seq<(string, seq<Record>)>, files: Files)
    requires ExportAll(cfg, grouped, files).result.Ok?
    ensures var once := ExportAll(cfg, grouped, files);
      ExportAll(cfg, grouped, once.files) == once
  {
    var once := ExportAll(cfg, grouped, files);
    RunSettles(cfg, grouped, files);
    SettledRunIsIdle(cfg, grouped, once.files);
    var twice := ExportAll(cfg, grouped, once.files);
    forall d ensures (d in twice.result.value <==> d in once.result.value) &&
                     (d in once.result.value ==> twice.result.value[d] == once.result.value[d]) {
      ExportOutputs(cfg, grouped, files, d);
      ExportOutputs(cfg, grouped, once.files, d);
    }
    assert twice.result.value == once.result.value;
  }
}
