/** processor.py: safe file names, and the split of a downloaded workbook into one file per
    actual booker after the consignor filter and the exclusion. */
module Processor {
  import opened Wrappers
  import opened Text
  import opened Dedup
  import opened Sheets

  // ---------------------------------------------------------------------------
  // _sanitize_filename
  // ---------------------------------------------------------------------------

  /** The characters the chain of replace calls turns into "_". */
  predicate Forbidden(c: char) {
    c == '/' || c == '\\' || c == ':' || c == '*' || c == '?' || c == '"' || c == '<' || c == '>' || c == '|'
  }

  /** `name.replace("/", "_").replace("\\", "_")...replace("|", "_")`: the nine calls, in order. */
  function ReplaceChain(name: string): string {
    var s1 := Replace(name, '/', '_');
    var s2 := Replace(s1, '\\', '_');
    var s3 := Replace(s2, ':', '_');
    var s4 := Replace(s3, '*', '_');
    var s5 := Replace(s4, '?', '_');
    var s6 := Replace(s5, '"', '_');
    var s7 := Replace(s6, '<', '_');
    var s8 := Replace(s7, '>', '_');
    Replace(s8, '|', '_')
  }

  /** The replace chain, then strip. */
  function Sanitize(name: string): string {
    Strip(ReplaceChain(name))
  }

  /** Every forbidden character replaced by "_" in one pass: the reference for the chain. */
  function Clean(s: string): (r: string)
    ensures |r| == |s| && forall i :: 0 <= i < |s| ==> r[i] == if Forbidden(s[i]) then '_' else s[i]
  {
    seq(|s|, i requires 0 <= i < |s| => if Forbidden(s[i]) then '_' else s[i])
  }

  /** The chain of replacements is the one-pass substitution: a character comes out as "_"
      exactly when it was forbidden (or already "_"), and unchanged otherwise. */
  lemma ReplaceChainIsClean(name: string)
    ensures ReplaceChain(name) == Clean(name)
  {
    var s1 := Replace(name, '/', '_');
    var s2 := Replace(s1, '\\', '_');
    var s3 := Replace(s2, ':', '_');
    var s4 := Replace(s3, '*', '_');
    var s5 := Replace(s4, '?', '_');
    var s6 := Replace(s5, '"', '_');
    var s7 := Replace(s6, '<', '_');
    var s8 := Replace(s7, '>', '_');
    var s9 := Replace(s8, '|', '_');
    ReplaceAt(name, '/', '_');
    ReplaceAt(s1, '\\', '_');
    ReplaceAt(s2, ':', '_');
    ReplaceAt(s3, '*', '_');
    ReplaceAt(s4, '?', '_');
    ReplaceAt(s5, '"', '_');
    ReplaceAt(s6, '<', '_');
    ReplaceAt(s7, '>', '_');
    ReplaceAt(s8, '|', '_');
    forall i | 0 <= i < |name| ensures s9[i] == Clean(name)[i] {
      assert s1[i] == if name[i] == '/' then '_' else name[i];
      assert s2[i] == if s1[i] == '\\' then '_' else s1[i];
      assert s3[i] == if s2[i] == ':' then '_' else s2[i];
      assert s4[i] == if s3[i] == '*' then '_' else s3[i];
      assert s5[i] == if s4[i] == '?' then '_' else s4[i];
      assert s6[i] == if s5[i] == '"' then '_' else s5[i];
      assert s7[i] == if s6[i] == '<' then '_' else s6[i];
      assert s8[i] == if s7[i] == '>' then '_' else s7[i];
    }
  }

  /** The name is sanitized by cleaning every forbidden character and trimming the ends. */
  lemma SanitizeIsStripClean(name: string)
    ensures Sanitize(name) == Strip(Clean(name))
  {
    ReplaceChainIsClean(name);
  }

  /** Stripping keeps a name free of forbidden characters: it only drops characters. */
  lemma StripKeepsSafe(c: string)
    requires forall i :: 0 <= i < |c| ==> !Forbidden(c[i])
    ensures forall i :: 0 <= i < |Strip(c)| ==> !Forbidden(Strip(c)[i])
  {
    var t := Strip(c);
    var start := StripIsInfix(c);
    forall i | 0 <= i < |t| ensures !Forbidden(t[i]) {
      assert t[i] == c[start + i];
    }
  }

  /** A sanitized name holds no forbidden character. */
  lemma SanitizeClean(name: string)
    ensures forall i :: 0 <= i < |Sanitize(name)| ==> !Forbidden(Sanitize(name)[i])
  {
    SanitizeIsStripClean(name);
    StripKeepsSafe(Clean(name));
  }

  lemma CleanOfClean(s: string)
    requires forall i :: 0 <= i < |s| ==> !Forbidden(s[i])
    ensures Clean(s) == s
  {
  }

  /** Sanitizing twice is sanitizing once. */
  lemma SanitizeIdempotent(name: string)
    ensures Sanitize(Sanitize(name)) == Sanitize(name)
  {
    var s := Sanitize(name);
    SanitizeClean(name);
    SanitizeIsStripClean(s);
    CleanOfClean(s);
    SanitizeIsStripClean(name);
    StripIdempotent(Clean(name));
  }

  // ---------------------------------------------------------------------------
  // split_excel_by_booker
  // ---------------------------------------------------------------------------

  /** The keyword arguments; DefaultSplit gives the defaults of the signature. */
  datatype SplitParams = SplitParams(
    inputPath: string, outputDir: string,
    consignerField: string, consignerValue: Option<string>,
    bookerField: string, bookerExclude: Option<string>,
    sheetName: string, outputTemplate: seq<Piece>)

  function DefaultSplit(inputPath: string, outputDir: string): SplitParams {
    SplitParams(inputPath, outputDir, "委托客户", None, "实际订舱客户", None, "data", [Hole, Lit(".xlsx")])
  }

  /** `if value:` on an optional string: set and non-empty. */
  predicate Given(v: Option<string>) {
    v.Some? && v.value != ""
  }

  /** The rows left after the consignor filter and the exclusion, or the KeyError of a
      missing column. */
  function Remaining(p: SplitParams, df: Sheet): Result<seq<Row>, Error> {
    if Given(p.consignerValue) && p.consignerField !in df.columns then Err(KeyError(p.consignerField))
    else if p.bookerField !in df.columns then Err(KeyError(p.bookerField))
    else
      var rows := if Given(p.consignerValue) then Where(df.rows, CellIs(p.consignerField, Str(p.consignerValue.value)))
                  else df.rows;
      Ok(if Given(p.bookerExclude) then Where(rows, CellIsNot(p.bookerField, Str(p.bookerExclude.value))) else rows)
  }

  /** `output_root / output_template.format(actual_booker=_sanitize_filename(name))`. */
  function OutputPath(p: SplitParams, name: string): string {
    PathJoin(p.outputDir, Format(p.outputTemplate, Sanitize(name)))
  }

  /** The rows of one group, in their order. */
  function GroupRows(p: SplitParams, rows: seq<Row>, c: Cell): seq<Row> {
    Where(rows, CellIs(p.bookerField, c))
  }

  /** A group is skipped when its name is blank. */
  predicate Blank(c: Cell) {
    Strip(CellName(c)) == []
  }

  /** One file the group loop writes: the group's name, its path and its contents. */
  datatype Output = Output(name: string, path: string, book: Workbook)

  /** What the loop does for one group key: nothing for a blank name, otherwise one file. */
  function Plan(p: SplitParams, cols: seq<string>, rows: seq<Row>): Cell -> Option<Output> {
    (c: Cell) =>
      if Blank(c) then None
      else Some(Output(CellName(c), OutputPath(p, CellName(c)),
                       Workbook(p.sheetName, Sheet(cols, GroupRows(p, rows, c)))))
  }

  /** The files of the keys, in key order. */
  function Planned(keys: seq<Cell>, plan: Cell -> Option<Output>): seq<Output> {
    if keys == [] then []
    else
      var q := Planned(keys[..|keys| - 1], plan);
      match plan(keys[|keys| - 1])
      case None => q
      case Some(o) => q + [o]
  }

  datatype Written = Written(outputs: map<string, string>, files: Files)

  /** `group.to_excel(output_path)` then `outputs[name] = output_path`, file after file. */
  function WriteAll(outs: seq<Output>, w: Written): Written {
    if outs == [] then w
    else
      var v := WriteAll(outs[..|outs| - 1], w);
      var o := outs[|outs| - 1];
      Written(v.outputs[o.name := o.path], v.files[o.path := o.book])
  }

  /** The result (the outputs map or the error) and the files afterwards. */
  datatype SplitRun = SplitRun(result: Result<map<string, string>, Error>, files: Files)

  function SplitSpec(p: SplitParams, files: Files): SplitRun {
    if p.inputPath !in files then SplitRun(Err(FileNotFoundError(p.inputPath)), files)
    else
      var df := files[p.inputPath].table;
      match Remaining(p, df)
      case Err(e) => SplitRun(Err(e), files)
      case Ok(rows) =>
        var outs := Planned(GroupKeys(rows, p.bookerField), Plan(p, df.columns, rows));
        var w := WriteAll(outs, Written(map[], files));
        SplitRun(Ok(w.outputs), w.files)
  }

  method SplitExcelByBooker(p: SplitParams, files: Files) returns (result: Result<map<string, string>, Error>, files': Files)
    ensures SplitRun(result, files') == SplitSpec(p, files)
  {
    if p.inputPath !in files {
      return Err(FileNotFoundError(p.inputPath)), files;
    }
    var df := files[p.inputPath].table;
    var rows := df.rows;
    if Given(p.consignerValue) {
      if p.consignerField !in df.columns {
        return Err(KeyError(p.consignerField)), files;
      }
      rows := Where(rows, CellIs(p.consignerField, Str(p.consignerValue.value)));
    }
    if p.bookerField !in df.columns {
      return Err(KeyError(p.bookerField)), files;
    }
    if Given(p.bookerExclude) {
      rows := Where(rows, CellIsNot(p.bookerField, Str(p.bookerExclude.value)));
    }
    assert Remaining(p, df) == Ok(rows);
    var outputs;
    outputs, files' := WriteGroupFiles(p, df.columns, rows, GroupKeys(rows, p.bookerField), files);
    result := Ok(outputs);
  }

  /** The loop over the groups: write each non-blank group's rows to its file and record the
      file under the group's name. */
  method WriteGroupFiles(p: SplitParams, cols: seq<string>, rows: seq<Row>, keys: seq<Cell>, files: Files)
    returns (outputs: map<string, string>, files': Files)
    ensures Written(outputs, files') == WriteAll(Planned(keys, Plan(p, cols, rows)), Written(map[], files))
  {
    ghost var plan := Plan(p, cols, rows);
    outputs := map[];
    files' := files;
    for i := 0 to |keys|
      invariant Written(outputs, files') == WriteAll(Planned(keys[..i], plan), Written(map[], files))
    {
      PlannedStep(keys, plan, i);
      var c := keys[i];
      var name := CellName(c);
      if Strip(name) != [] {
        var path := OutputPath(p, name);
        var book := Workbook(p.sheetName, Sheet(cols, GroupRows(p, rows, c)));
        PlanAt(p, cols, rows, c);
        WriteAllStep(Planned(keys[..i], plan), Output(name, path, book), Written(map[], files));
        files' := files'[path := book];
        outputs := outputs[name := path];
        assert Planned(keys[..i + 1], plan) == Planned(keys[..i], plan) + [Output(name, path, book)];
      } else {
        PlanAt(p, cols, rows, c);
        assert Planned(keys[..i + 1], plan) == Planned(keys[..i], plan) + [];
        assert Planned(keys[..i + 1], plan) == Planned(keys[..i], plan);
      }
    }
    assert keys[..|keys|] == keys;
  }

  lemma PlanAt(p: SplitParams, cols: seq<string>, rows: seq<Row>, c: Cell)
    ensures Plan(p, cols, rows)(c) ==
              if Strip(CellName(c)) == [] then None
              else Some(Output(CellName(c), OutputPath(p, CellName(c)),
                               Workbook(p.sheetName, Sheet(cols, GroupRows(p, rows, c)))))
  {
  }

  lemma PlannedStep(keys: seq<Cell>, plan: Cell -> Option<Output>, i: nat)
    requires i < |keys|
    ensures Planned(keys[..i + 1], plan) ==
              Planned(keys[..i], plan) + (match plan(keys[i]) case None => [] case Some(o) => [o])
  {
    assert keys[..i + 1][..i] == keys[..i];
  }

  lemma WriteAllStep(outs: seq<Output>, o: Output, w: Written)
    ensures var v := WriteAll(outs, w);
      WriteAll(outs + [o], w) == Written(v.outputs[o.name := o.path], v.files[o.path := o.book])
  {
    assert (outs + [o])[..|outs|] == outs;
  }

  /** A missing input file, then a missing consignor column (only when filtering), then a
      missing booker column; no error writes anything. */
  lemma SplitErrors(p: SplitParams, files: Files)
    ensures var r := SplitSpec(p, files);
      && (p.inputPath !in files ==> r.result == Err(FileNotFoundError(p.inputPath)))
      && (p.inputPath in files ==>
            var cols := files[p.inputPath].table.columns;
            && (Given(p.consignerValue) && p.consignerField !in cols ==> r.result == Err(KeyError(p.consignerField)))
            && ((!Given(p.consignerValue) || p.consignerField in cols) && p.bookerField !in cols ==>
                  r.result == Err(KeyError(p.bookerField))))
      && (r.result.Err? ==> r.files == files)
  {
  }

  /** The remaining rows are the input rows, in order, that carry the consignor value when one
      is given and do not carry the excluded booker when one is given. */
  lemma RemainingFacts(p: SplitParams, df: Sheet, r: Row)
    requires Remaining(p, df).Ok?
    ensures var rows := Remaining(p, df).value;
      && SubseqOf(rows, df.rows)
      && (r in rows <==>
            && r in df.rows
            && (Given(p.consignerValue) ==> CellAt(r, p.consignerField) == Str(p.consignerValue.value))
            && (Given(p.bookerExclude) ==> CellAt(r, p.bookerField) != Str(p.bookerExclude.value)))
      && multiset(rows)[r] ==
           if && (Given(p.consignerValue) ==> CellAt(r, p.consignerField) == Str(p.consignerValue.value))
              && (Given(p.bookerExclude) ==> CellAt(r, p.bookerField) != Str(p.bookerExclude.value))
           then multiset(df.rows)[r] else 0
  {
    var rows := if Given(p.consignerValue) then Where(df.rows, CellIs(p.consignerField, Str(p.consignerValue.value)))
                else df.rows;
    if Given(p.consignerValue) {
      WhereIff(df.rows, CellIs(p.consignerField, Str(p.consignerValue.value)), r);
      WhereCount(df.rows, CellIs(p.consignerField, Str(p.consignerValue.value)), r);
      WhereIsSubseq(df.rows, CellIs(p.consignerField, Str(p.consignerValue.value)));
    } else {
      SubseqOfRefl(df.rows);
    }
    if Given(p.bookerExclude) {
      var keep := CellIsNot(p.bookerField, Str(p.bookerExclude.value));
      WhereIff(rows, keep, r);
      WhereCount(rows, keep, r);
      WhereIsSubseq(rows, keep);
      SubseqOfTrans(Where(rows, keep), rows, df.rows);
    }
  }

  /** The files planned are those of the keys the plan does not skip. */
  lemma {:induction false} PlannedIff(keys: seq<Cell>, plan: Cell -> Option<Output>, o: Output)
    ensures o in Planned(keys, plan) <==> exists c :: c in keys && plan(c) == Some(o)
  {
    if keys != [] {
      var q := keys[..|keys| - 1];
      PlannedIff(q, plan, o);
      assert keys == q + [keys[|keys| - 1]];
    }
  }

  /** The names entered: those already there and those of the files written; a new name maps
      to the path its files share. */
  lemma {:induction false} WriteAllOutputs(outs: seq<Output>, w: Written, name: string, pathOf: string -> string)
    requires forall o :: o in outs ==> o.path == pathOf(o.name)
    ensures var v := WriteAll(outs, w);
      && (name in v.outputs <==> name in w.outputs || exists o :: o in outs && o.name == name)
      && (name in v.outputs && name !in w.outputs ==> v.outputs[name] == pathOf(name))
  {
    if outs != [] {
      var q := outs[..|outs| - 1];
      assert outs == q + [outs[|outs| - 1]];
      WriteAllOutputs(q, w, name, pathOf);
    }
  }

  /** A path no file is written to is left as it was. */
  lemma {:induction false} WriteAllOther(outs: seq<Output>, w: Written, path: string)
    requires forall o :: o in outs ==> o.path != path
    ensures var v := WriteAll(outs, w);
      (path in v.files <==> path in w.files) && (path in w.files ==> v.files[path] == w.files[path])
  {
    if outs != [] {
      var q := outs[..|outs| - 1];
      assert outs == q + [outs[|outs| - 1]];
      WriteAllOther(q, w, path);
    }
  }

  /** A file that is the only one written to its path is there afterwards as written. */
  lemma {:induction false} WriteAllFile(outs: seq<Output>, w: Written, o: Output)
    requires o in outs && forall o' :: o' in outs && o'.path == o.path ==> o' == o
    ensures var v := WriteAll(outs, w);
      o.path in v.files && v.files[o.path] == o.book
  {
    var q, x := outs[..|outs| - 1], outs[|outs| - 1];
    assert outs == q + [x];
    if x != o {
      WriteAllFile(q, w, o);
    }
  }

  function PathFor(p: SplitParams): string -> string {
    (name: string) => OutputPath(p, name)
  }

  /** Each planned file is a group's: its name, its path and its rows. */
  lemma PlannedGroup(p: SplitParams, cols: seq<string>, rows: seq<Row>, keys: seq<Cell>, o: Output)
    ensures o in Planned(keys, Plan(p, cols, rows)) <==>
              exists c :: c in keys && !Blank(c) &&
                o == Output(CellName(c), OutputPath(p, CellName(c)), Workbook(p.sheetName, Sheet(cols, GroupRows(p, rows, c))))
  {
    PlannedIff(keys, Plan(p, cols, rows), o);
  }

  /** Every planned file lies at the output path of its name. */
  lemma PlannedPaths(p: SplitParams, cols: seq<string>, rows: seq<Row>, keys: seq<Cell>)
    ensures forall o :: o in Planned(keys, Plan(p, cols, rows)) ==> o.path == PathFor(p)(o.name)
  {
    forall o | o in Planned(keys, Plan(p, cols, rows)) ensures o.path == PathFor(p)(o.name) {
      PlannedGroup(p, cols, rows, keys, o);
    }
  }

  /** A planned name is the non-blank name of a cell of the booker column. */
  lemma PlannedNameIn(p: SplitParams, cols: seq<string>, rows: seq<Row>, o: Output)
    requires o in Planned(GroupKeys(rows, p.bookerField), Plan(p, cols, rows))
    ensures Strip(o.name) != [] && exists i :: 0 <= i < |rows| && CellName(CellAt(rows[i], p.bookerField)) == o.name
  {
    var keys := GroupKeys(rows, p.bookerField);
    PlannedGroup(p, cols, rows, keys, o);
    var c :| c in keys && !Blank(c) && o.name == CellName(c);
    GroupKeysFacts(rows, p.bookerField, c);
    var i :| 0 <= i < |rows| && CellAt(rows[i], p.bookerField) == c;
  }

  /** The non-blank name of any cell of the booker column is planned. */
  lemma NamePlanned(p: SplitParams, cols: seq<string>, rows: seq<Row>, i: nat)
    requires i < |rows| && Strip(CellName(CellAt(rows[i], p.bookerField))) != []
    ensures exists o :: o in Planned(GroupKeys(rows, p.bookerField), Plan(p, cols, rows)) &&
                        o.name == CellName(CellAt(rows[i], p.bookerField))
  {
    var keys := GroupKeys(rows, p.bookerField);
    var c := CellAt(rows[i], p.bookerField);
    GroupKeysFacts(rows, p.bookerField, c);
    var o := Output(CellName(c), OutputPath(p, CellName(c)), Workbook(p.sheetName, Sheet(cols, GroupRows(p, rows, c))));
    PlannedGroup(p, cols, rows, keys, o);
  }

  /** A name is planned exactly when it is the non-blank name of a cell of the booker column. */
  lemma PlannedNames(p: SplitParams, cols: seq<string>, rows: seq<Row>, name: string)
    ensures var outs := Planned(GroupKeys(rows, p.bookerField), Plan(p, cols, rows));
      (exists o :: o in outs && o.name == name) <==>
        Strip(name) != [] && exists i :: 0 <= i < |rows| && CellName(CellAt(rows[i], p.bookerField)) == name
  {
    var outs := Planned(GroupKeys(rows, p.bookerField), Plan(p, cols, rows));
    if exists o :: o in outs && o.name == name {
      var o :| o in outs && o.name == name;
      PlannedNameIn(p, cols, rows, o);
    }
    if Strip(name) != [] && exists i :: 0 <= i < |rows| && CellName(CellAt(rows[i], p.bookerField)) == name {
      var i :| 0 <= i < |rows| && CellName(CellAt(rows[i], p.bookerField)) == name;
      NamePlanned(p, cols, rows, i);
    }
  }

  /** The outputs are exactly the distinct non-blank booker names of the remaining rows, each
      mapped to output_dir / template(sanitized name). */
  lemma SplitOutputs(p: SplitParams, files: Files, name: string)
    requires SplitSpec(p, files).result.Ok?
    ensures var rows := Remaining(p, files[p.inputPath].table).value;
      var out := SplitSpec(p, files).result.value;
      && (name in out <==> Strip(name) != [] &&
                            exists i :: 0 <= i < |rows| && CellName(CellAt(rows[i], p.bookerField)) == name)
      && (name in out ==> out[name] == OutputPath(p, name))
  {
    var df := files[p.inputPath].table;
    var rows := Remaining(p, df).value;
    var keys := GroupKeys(rows, p.bookerField);
    var outs := Planned(keys, Plan(p, df.columns, rows));
    assert SplitSpec(p, files).result.value == WriteAll(outs, Written(map[], files)).outputs;
    PlannedPaths(p, df.columns, rows, keys);
    WriteAllOutputs(outs, Written(map[], files), name, PathFor(p));
    PlannedNames(p, df.columns, rows, name);
  }

  /** A group whose path no other group's name leads to is the only file planned there. */
  lemma PlannedSolePath(p: SplitParams, cols: seq<string>, rows: seq<Row>, c: Cell)
    requires !Blank(c)
    requires forall i :: 0 <= i < |rows| && CellAt(rows[i], p.bookerField) != c && !Blank(CellAt(rows[i], p.bookerField))
                         ==> OutputPath(p, CellName(CellAt(rows[i], p.bookerField))) != OutputPath(p, CellName(c))
    ensures var o := Output(CellName(c), OutputPath(p, CellName(c)), Workbook(p.sheetName, Sheet(cols, GroupRows(p, rows, c))));
      forall o' :: o' in Planned(GroupKeys(rows, p.bookerField), Plan(p, cols, rows)) && o'.path == o.path ==> o' == o
  {
    var keys := GroupKeys(rows, p.bookerField);
    var o := Output(CellName(c), OutputPath(p, CellName(c)), Workbook(p.sheetName, Sheet(cols, GroupRows(p, rows, c))));
    forall o' | o' in Planned(keys, Plan(p, cols, rows)) && o'.path == o.path ensures o' == o {
      PlannedGroup(p, cols, rows, keys, o');
      var d :| d in keys && !Blank(d) &&
        o' == Output(CellName(d), OutputPath(p, CellName(d)), Workbook(p.sheetName, Sheet(cols, GroupRows(p, rows, d))));
      GroupKeysFacts(rows, p.bookerField, d);
    }
  }

  /** Each group's file holds exactly the remaining rows carrying that booker cell, in their
      original order, when no other group's name leads to the same path. */
  lemma SplitGroupFile(p: SplitParams, files: Files, c: Cell, r: Row)
    requires SplitSpec(p, files).result.Ok?
    requires var rows := Remaining(p, files[p.inputPath].table).value;
      && !Blank(c) && (exists i :: 0 <= i < |rows| && CellAt(rows[i], p.bookerField) == c)
      && forall i :: 0 <= i < |rows| && CellAt(rows[i], p.bookerField) != c && !Blank(CellAt(rows[i], p.bookerField))
                     ==> OutputPath(p, CellName(CellAt(rows[i], p.bookerField))) != OutputPath(p, CellName(c))
    ensures var df := files[p.inputPath].table;
      var rows := Remaining(p, df).value;
      var path := OutputPath(p, CellName(c));
      var out := SplitSpec(p, files).files;
      && path in out && out[path].sheetName == p.sheetName && out[path].table.columns == df.columns
      && SubseqOf(out[path].table.rows, rows)
      && (r in out[path].table.rows <==> r in rows && CellAt(r, p.bookerField) == c)
      && multiset(out[path].table.rows)[r] == if CellAt(r, p.bookerField) == c then multiset(rows)[r] else 0
  {
    var df := files[p.inputPath].table;
    var rows := Remaining(p, df).value;
    var keys := GroupKeys(rows, p.bookerField);
    var outs := Planned(keys, Plan(p, df.columns, rows));
    assert SplitSpec(p, files).files == WriteAll(outs, Written(map[], files)).files;
    var o := Output(CellName(c), OutputPath(p, CellName(c)), Workbook(p.sheetName, Sheet(df.columns, GroupRows(p, rows, c))));
    GroupKeysFacts(rows, p.bookerField, c);
    PlannedGroup(p, df.columns, rows, keys, o);
    PlannedSolePath(p, df.columns, rows, c);
    WriteAllFile(outs, Written(map[], files), o);
    WhereIff(rows, CellIs(p.bookerField, c), r);
    WhereCount(rows, CellIs(p.bookerField, c), r);
    WhereIsSubseq(rows, CellIs(p.bookerField, c));
  }

  /** Files at paths no output name leads to are untouched, the input file included unless an
      output path coincides with it. */
  lemma SplitOtherFiles(p: SplitParams, files: Files, path: string)
    requires SplitSpec(p, files).result.Ok?
    requires forall name :: name in SplitSpec(p, files).result.value ==> OutputPath(p, name) != path
    ensures var out := SplitSpec(p, files).files;
      (path in out <==> path in files) && (path in files ==> out[path] == files[path])
  {
    var df := files[p.inputPath].table;
    var rows := Remaining(p, df).value;
    var keys := GroupKeys(rows, p.bookerField);
    var outs := Planned(keys, Plan(p, df.columns, rows));
    forall o | o in outs ensures o.path == PathFor(p)(o.name) {
      PlannedGroup(p, df.columns, rows, keys, o);
    }
    forall o | o in outs ensures o.path != path {
      WriteAllOutputs(outs, Written(map[], files), o.name, PathFor(p));
    }
    WriteAllOther(outs, Written(map[], files), path);
  }

  /** The excluded booker gets no output, unless a numeric cell spells the same name. */
  lemma SplitExcluded(p: SplitParams, files: Files)
    requires SplitSpec(p, files).result.Ok? && Given(p.bookerExclude)
    ensures var rows := Remaining(p, files[p.inputPath].table).value;
      var e := p.bookerExclude.value;
      e in SplitSpec(p, files).result.value ==>
        exists i :: 0 <= i < |rows| && CellAt(rows[i], p.bookerField).Num? && CellName(CellAt(rows[i], p.bookerField)) == e
  {
    var df := files[p.inputPath].table;
    var rows := Remaining(p, df).value;
    var e := p.bookerExclude.value;
    SplitOutputs(p, files, e);
    if e in SplitSpec(p, files).result.value {
      var i :| 0 <= i < |rows| && CellName(CellAt(rows[i], p.bookerField)) == e;
      RemainingFacts(p, df, rows[i]);
      assert CellAt(rows[i], p.bookerField) != Str(e);
    }
  }
}
