/** The plugin object: it walks the parsed source files one after another,
    rewrites each in place, keeps one ledger for the whole run, writes back
    (after a backup) every file processed while the ledger is not empty, and
    finally renders the ledger as an HTML report. Parsing, the file system
    and the printer of the rewritten tree are outside the model: a file
    arrives parsed, or as `None` when parsing failed, and a write is
    returned as the pair of trees it would put on disk. */
module Engine {
  import opened Ast
  import opened Names
  import opened Shapes
  import opened Markers
  import opened Scanning
  import opened Rewrite
  import opened Report
  import opened Seqs

  /** A write-back: the backup keeps the file as it was, the file itself
      receives the rewritten tree. */
  datatype FileWrite = FileWrite(backup: Unit, contents: Unit)

  /** The ledger records of one file; a file that failed to parse
      contributes nothing. */
  function FileEntries(parsed: Option<Unit>): seq<Record> {
    match parsed
    case None => []
    case Some(u) => RewriteUnit(u).entries
  }

  /** The ledger records of a sequence of files, file after file. */
  function RunEntries(files: seq<Option<Unit>>): seq<Record>
    decreases |files|
  {
    if files == [] then [] else RunEntries(files[..|files| - 1]) + FileEntries(files[|files| - 1])
  }

  lemma RunEntriesStep(files: seq<Option<Unit>>, i: nat)
    requires i < |files|
    ensures RunEntries(files[..i + 1]) == RunEntries(files[..i]) + FileEntries(files[i])
  {
    SplitAt(files, i);
    assert files[..i + 1][..i] == files[..i];
  }

  /** The write decision as the plugin makes it: a parsed file is written
      back whenever the run's ledger, including this file's records, is not
      empty. */
  function WriteAsWritten(prior: seq<string>, files: seq<Option<Unit>>, j: nat): Option<FileWrite>
    requires j < |files|
  {
    match files[j]
    case None => None
    case Some(u) =>
      if prior != [] || RunEntries(files[..j + 1]) != [] then Some(FileWrite(u, RewriteUnit(u).unit)) else None
  }

  /** The write decisions for the first `n` files of a run. */
  function WritesAsWritten(prior: seq<string>, files: seq<Option<Unit>>, n: nat): (r: seq<Option<FileWrite>>)
    requires n <= |files|
    ensures |r| == n
  {
    if n == 0 then [] else WritesAsWritten(prior, files, n - 1) + [WriteAsWritten(prior, files, n - 1)]
  }

  /** Position `j` of the decisions is the decision for file `j`. */
  lemma {:induction false} WritesAsWrittenAt(prior: seq<string>, files: seq<Option<Unit>>, n: nat, j: nat)
    requires j < n <= |files|
    ensures WritesAsWritten(prior, files, n)[j] == WriteAsWritten(prior, files, j)
  {
    if j < n - 1 {
      WritesAsWrittenAt(prior, files, n - 1, j);
    }
  }

  /** The corrected write decision: a file is backed up and written back
      only when its own rewrite recorded something. */
  function WriteIntended(parsed: Option<Unit>): Option<FileWrite> {
    match parsed
    case None => None
    case Some(u) => if RewriteUnit(u).entries != [] then Some(FileWrite(u, RewriteUnit(u).unit)) else None
  }

  /** Appending the lines of the records added since keeps the ledger the
      formatted list of all records so far. */
  lemma LedgerStep(start: seq<string>, mid: seq<string>, now: seq<string>, before: seq<Record>, added: seq<Record>)
    requires mid == start + FormatAll(before) && now == mid + FormatAll(added)
    ensures now == start + FormatAll(before + added)
  {
    FormatAllAppend(before, added);
    AppendAssoc(start, FormatAll(before), FormatAll(added));
  }

  /** Under the intended decision a parsed file is written back exactly
      when its rewrite differs from it. */
  lemma WriteIntendedIffChanged(u: Unit)
    ensures WriteIntended(Some(u)).Some? <==> RewriteUnit(u).unit != u
    ensures WriteIntended(Some(u)).Some? ==> WriteIntended(Some(u)).value == FileWrite(u, RewriteUnit(u).unit)
  {
    RewriteUnitChangesIffEntries(u);
  }

  /** A class without methods is left exactly as it is. */
  lemma PlainUnitUnchanged()
    ensures var plain := Unit([Class("Plain", [], [])], []);
            RewriteUnit(plain) == FileResult(plain, [])
  {
    var c := Class("Plain", [], []);
    var us := UnitScan([], [], []);
    assert ScanMethods(Classify, "Plain", Scan([], [], [], []), []) == Scan([], [], [], []);
    assert VisitClass(Classify, us, c) == UnitScan([c], [], []);
    assert ScanClasses(Classify, us, [c]) == ScanClasses(Classify, UnitScan([c], [], []), []);
  }

  /** As written, a file processed after one that produced ledger lines is
      backed up and written back although its rewrite leaves it unchanged. */
  lemma UnchangedFileWrittenBack()
    ensures var person := Unit([Class("Person", [Field(["name"], [])],
                                      [Method("getName", [], Some([Return(Some(Name("name")))]))])], []);
            var plain := Unit([Class("Plain", [], [])], []);
            var files := [Some(person), Some(plain)];
            RewriteUnit(plain).unit == plain &&
            WriteAsWritten([], files, 1) == Some(FileWrite(plain, plain)) &&
            WriteIntended(Some(plain)).None?
  {
    var person := Unit([Class("Person", [Field(["name"], [])],
                              [Method("getName", [], Some([Return(Some(Name("name")))]))])], []);
    var plain := Unit([Class("Plain", [], [])], []);
    var files := [Some(person), Some(plain)];
    PlainUnitUnchanged();
    PersonGetter();
    assert FileEntries(files[0]) != [];
    LaterFilesWrittenBack([], files, 0, 1);
  }

  /** The run's records up to file `n` include those of every file
      before it. */
  lemma {:induction false} RunEntriesCover(files: seq<Option<Unit>>, i: nat, n: nat)
    requires i < n <= |files|
    ensures |RunEntries(files[..n])| >= |FileEntries(files[i])|
    decreases n
  {
    RunEntriesStep(files, n - 1);
    var before := RunEntries(files[..n - 1]);
    assert |RunEntries(files[..n])| == |before| + |FileEntries(files[n - 1])|;
    if i < n - 1 {
      RunEntriesCover(files, i, n - 1);
    }
  }

  /** As written, once some file of the run has produced records, every
      parsed file after it is backed up and written back, whether or not
      its own rewrite changed anything. */
  lemma LaterFilesWrittenBack(prior: seq<string>, files: seq<Option<Unit>>, i: nat, j: nat)
    requires i < j < |files| && FileEntries(files[i]) != [] && files[j].Some?
    ensures WriteAsWritten(prior, files, j) == Some(FileWrite(files[j].value, RewriteUnit(files[j].value).unit))
  {
    RunEntriesCover(files, i, j + 1);
  }

  /** The method at `pos` is an accessor of declaration `k`: removing it,
      and adding the marker and its import when the marker is absent, is
      the in-place form of its visit, which makes one record. */
  lemma RemovedInPlace(clazz: Class, pos: nat, imps: seq<string>, kind: Kind, k: nat, clazz': Class, imps': seq<string>)
    requires pos < |clazz.methods| && k < |clazz.fields|
    requires FindMatchingField(clazz.methods[pos].name, clazz.fields) == Some(k)
    requires kind == Getter ==> IsTrivialGetter(clazz.methods[pos], clazz.fields)
    requires kind == Setter ==> !IsTrivialGetter(clazz.methods[pos], clazz.fields) && IsTrivialSetter(clazz.methods[pos])
    requires var f := clazz.fields[k];
             clazz'.name == clazz.name &&
             clazz'.methods == clazz.methods[..pos] + clazz.methods[pos + 1..] &&
             if MarkerOf(kind) in f.annotations then clazz'.fields == clazz.fields && imps' == imps
             else clazz'.fields == clazz.fields[k := f.(annotations := f.annotations + [MarkerOf(kind)])] &&
                  imps' == AddImport(imps, ImportOf(kind))
    ensures VisitedInPlace(Classify, clazz.name, clazz.fields, imps, clazz.methods, pos, clazz'.fields, imps', clazz'.methods)
    ensures FormatAll(VisitAlone(Classify, clazz.name, clazz.fields, imps, clazz.methods[pos]).entries) ==
            [Format(Record(kind, clazz.name, clazz.fields[k].vars[0]))]
  {
    var m := clazz.methods[pos];
    VerdictOfClassify(m, clazz.fields);
    assert Classify(m, clazz.fields) == Some(Match(kind, k));
    VisitAloneMatched(Classify, clazz.name, clazz.fields, imps, m, kind, k);
  }

  /** A method that is not an accessor stays, and nothing else changes. */
  lemma KeptInPlace(clazz: Class, pos: nat, imps: seq<string>)
    requires pos < |clazz.methods|
    requires var m := clazz.methods[pos];
             match FindMatchingField(m.name, clazz.fields)
             case None => true
             case Some(_) => !IsTrivialGetter(m, clazz.fields) && !IsTrivialSetter(m)
    ensures VisitedInPlace(Classify, clazz.name, clazz.fields, imps, clazz.methods, pos, clazz.fields, imps, clazz.methods)
    ensures VisitAlone(Classify, clazz.name, clazz.fields, imps, clazz.methods[pos]).entries == []
  {
    var m := clazz.methods[pos];
    VerdictOfClassify(m, clazz.fields);
    assert Classify(m, clazz.fields).None?;
    VisitAloneKept(Classify, clazz.name, clazz.fields, imps, m);
  }

  class Lombocator {
    /** The run's ledger: one line per removed accessor, in order. */
    var reportEntries: seq<string>

    constructor ()
      ensures reportEntries == []
    {
      reportEntries := [];
    }

    /** Visits the method at position `pos` of the class as it now stands:
        when it is a trivial accessor of a field declaration, that
        declaration gains the marker annotation (and the unit the marker's
        import) unless it already has it, the method is removed and the
        ledger gains one line; otherwise nothing changes. */
    method VisitMethod(clazz: Class, pos: nat, imps: seq<string>) returns (clazz': Class, imps': seq<string>)
      requires pos < |clazz.methods|
      modifies this
      ensures clazz'.name == clazz.name
      ensures VisitedInPlace(Classify, clazz.name, clazz.fields, imps, clazz.methods, pos, clazz'.fields, imps', clazz'.methods)
      ensures reportEntries == old(reportEntries) + FormatAll(VisitAlone(Classify, clazz.name, clazz.fields, imps, clazz.methods[pos]).entries)
    {
      var m := clazz.methods[pos];
      clazz' := clazz;
      imps' := imps;
      var matched := FindMatchingField(m.name, clazz.fields);
      if matched.Some? {
        var k := matched.value;
        var field := clazz.fields[k];
        if IsTrivialGetter(m, clazz.fields) {
          if "Getter" !in field.annotations {
            clazz' := clazz'.(fields := clazz'.fields[k := field.(annotations := field.annotations + ["Getter"])]);
            imps' := AddImport(imps', "lombok.Getter");
          }
          clazz' := clazz'.(methods := clazz.methods[..pos] + clazz.methods[pos + 1..]);
          var rec := Record(Getter, clazz.name, field.vars[0]);
          reportEntries := reportEntries + [Format(rec)];
          RemovedInPlace(clazz, pos, imps, Getter, k, clazz', imps');
        } else if IsTrivialSetter(m) {
          if "Setter" !in field.annotations {
            clazz' := clazz'.(fields := clazz'.fields[k := field.(annotations := field.annotations + ["Setter"])]);
            imps' := AddImport(imps', "lombok.Setter");
          }
          clazz' := clazz'.(methods := clazz.methods[..pos] + clazz.methods[pos + 1..]);
          var rec := Record(Setter, clazz.name, field.vars[0]);
          reportEntries := reportEntries + [Format(rec)];
          RemovedInPlace(clazz, pos, imps, Setter, k, clazz', imps');
        } else {
          KeptInPlace(clazz, pos, imps);
        }
      } else {
        KeptInPlace(clazz, pos, imps);
      }
    }

    /** One turn of the scan of a class: visits the method at the front of
        the unvisited part of the live method list, keeping the live list,
        the fields, the imports and the ledger in step with the scan of the
        snapshot that starts from `start`. */
    method ScanStep(clazz: Class, imps: seq<string>, snapshot: seq<Method>, mi: nat,
                    ghost st: Scan, ghost target: Scan, ghost ledger: seq<string>)
      returns (clazz': Class, imps': seq<string>, ghost st': Scan)
      requires mi < |snapshot| && st.fields == clazz.fields && st.imports == imps
      requires InPlace(Classify, clazz.name, snapshot, mi, st, clazz.methods, target)
      requires reportEntries == ledger + FormatAll(st.entries)
      modifies this
      ensures clazz'.name == clazz.name && st'.fields == clazz'.fields && st'.imports == imps'
      ensures InPlace(Classify, clazz.name, snapshot, mi + 1, st', clazz'.methods, target)
      ensures reportEntries == ledger + FormatAll(st'.entries)
    {
      var pos := |clazz.methods| - (|snapshot| - mi);
      assert pos == |st.kept| < |clazz.methods|;
      ghost var before := reportEntries;
      clazz', imps' := VisitMethod(clazz, pos, imps);
      st' := InPlaceStep(Classify, clazz.name, snapshot, mi, st, clazz.methods, target, pos, clazz'.fields, imps', clazz'.methods);
      LedgerStep(ledger, before, reportEntries, st.entries,
                 VisitAlone(Classify, clazz.name, st.fields, st.imports, clazz.methods[pos]).entries);
    }

    /** Scans the methods of one class over a snapshot of its method list,
        updating the class and the unit's imports in place and appending
        one ledger line per removed accessor. */
    method ProcessClass(c: Class, imports: seq<string>) returns (d: Class, imports': seq<string>)
      modifies this
      ensures var s := ScanMethods(Classify, c.name, Scan(c.fields, [], imports, []), c.methods);
              d == Class(c.name, s.fields, s.kept) && imports' == s.imports &&
              reportEntries == old(reportEntries) + FormatAll(s.entries)
    {
      var clazz := c;
      var imps := imports;
      var snapshot := c.methods;
      ghost var st := Scan(c.fields, [], imports, []);
      ghost var target := ScanMethods(Classify, c.name, st, snapshot);
      InPlaceStart(Classify, c.name, snapshot, c.fields, imports);
      var mi := 0;
      while mi < |snapshot|
        invariant clazz.name == c.name && st.fields == clazz.fields && st.imports == imps
        invariant InPlace(Classify, c.name, snapshot, mi, st, clazz.methods, target)
        invariant reportEntries == old(reportEntries) + FormatAll(st.entries)
      {
        clazz, imps, st := ScanStep(clazz, imps, snapshot, mi, st, target, old(reportEntries));
        mi := mi + 1;
      }
      InPlaceDone(Classify, c.name, snapshot, st, clazz.methods, target);
      d := clazz;
      imports' := imps;
    }

    /** Processes one source file: every class in order, then the write
        decision on the run's ledger. A file that failed to parse changes
        nothing. */
    method ProcessFile(parsed: Option<Unit>) returns (written: Option<FileWrite>)
      modifies this
      ensures reportEntries == old(reportEntries) + FormatAll(FileEntries(parsed))
      ensures written.Some? <==> parsed.Some? && reportEntries != []
      ensures written.Some? ==> written.value == FileWrite(parsed.value, RewriteUnit(parsed.value).unit)
    {
      if parsed.None? {
        assert old(reportEntries) + [] == old(reportEntries);
        return None;
      }
      var u := parsed.value;
      var cu := u;
      ghost var us := UnitScan([], u.imports, []);
      ghost var target := ScanClasses(Classify, us, u.classes);
      ClassesInPlaceStart(Classify, u.classes, u.imports);
      var ci := 0;
      while ci < |cu.classes|
        invariant us.imports == cu.imports
        invariant ClassesInPlace(Classify, u.classes, ci, us, cu.classes, target)
        invariant reportEntries == old(reportEntries) + FormatAll(us.entries)
      {
        cu, us := ClassTurn(u, cu, ci, us, target, old(reportEntries));
        ci := ci + 1;
      }
      ClassesInPlaceDone(Classify, u.classes, us, cu.classes, target);
      if reportEntries != [] {
        written := Some(FileWrite(u, cu));
      } else {
        written := None;
      }
    }

    /** One turn of the walk over the classes of a unit: the class at
        position `ci` is processed and put back in place, and the unit's
        imports become those the class scan leaves. */
    method ClassTurn(u: Unit, cu: Unit, ci: nat, ghost us: UnitScan, ghost target: UnitScan, ghost ledger: seq<string>)
      returns (cu': Unit, ghost us': UnitScan)
      requires ci < |u.classes| && us.imports == cu.imports
      requires ClassesInPlace(Classify, u.classes, ci, us, cu.classes, target)
      requires reportEntries == ledger + FormatAll(us.entries)
      modifies this
      ensures us'.imports == cu'.imports
      ensures ClassesInPlace(Classify, u.classes, ci + 1, us', cu'.classes, target)
      ensures reportEntries == ledger + FormatAll(us'.entries)
    {
      var clazz := cu.classes[ci];
      ghost var before := reportEntries;
      var d, imps := ProcessClass(clazz, cu.imports);
      ghost var s := ScanMethods(Classify, clazz.name, Scan(clazz.fields, [], cu.imports, []), clazz.methods);
      us' := ClassesInPlaceStep(Classify, u.classes, ci, us, cu.classes, target, d, imps, s.entries);
      LedgerStep(ledger, before, reportEntries, us.entries, s.entries);
      cu' := cu.(classes := cu.classes[ci := d], imports := imps);
    }

    /** A whole run: every file in order, then the report. */
    method Execute(files: seq<Option<Unit>>) returns (writes: seq<Option<FileWrite>>, report: Option<string>)
      modifies this
      ensures reportEntries == old(reportEntries) + FormatAll(RunEntries(files))
      ensures |writes| == |files|
      ensures writes == WritesAsWritten(old(reportEntries), files, |files|)
      ensures report == Html(reportEntries)
    {
      writes := [];
      var i := 0;
      while i < |files|
        invariant 0 <= i <= |files| && |writes| == i
        invariant reportEntries == old(reportEntries) + FormatAll(RunEntries(files[..i]))
        invariant writes == WritesAsWritten(old(reportEntries), files, i)
      {
        var w := FileTurn(files, i, old(reportEntries));
        writes := writes + [w];
        i := i + 1;
      }
      TakeAll(files);
      report := GenerateHtmlReport();
    }

    /** One turn of the walk over the files of a run: the file at position
        `i` is processed, with the ledger holding the lines of the files
        before it on top of `start`. */
    method FileTurn(files: seq<Option<Unit>>, i: nat, ghost start: seq<string>) returns (w: Option<FileWrite>)
      requires i < |files| && reportEntries == start + FormatAll(RunEntries(files[..i]))
      modifies this
      ensures reportEntries == start + FormatAll(RunEntries(files[..i + 1]))
      ensures w == WriteAsWritten(start, files, i)
    {
      ghost var before := reportEntries;
      w := ProcessFile(files[i]);
      RunEntriesStep(files, i);
      LedgerStep(start, before, reportEntries, RunEntries(files[..i]), FileEntries(files[i]));
    }

    /** Renders the ledger: nothing when it is empty, otherwise the head,
        one list item per line, and the tail. */
    method GenerateHtmlReport() returns (html: Option<string>)
      ensures html == Html(reportEntries)
    {
      if reportEntries == [] {
        return None;
      }
      var out := Head + Title + ListOpen;
      var i := 0;
      while i < |reportEntries|
        invariant 0 <= i <= |reportEntries|
        invariant out == Head + Title + ListOpen + Items(reportEntries[..i])
      {
        assert reportEntries[..i + 1][..i] == reportEntries[..i];
        out := out + Item(reportEntries[i]);
        i := i + 1;
      }
      assert reportEntries[..i] == reportEntries;
      out := out + ListClose + Tail;
      html := Some(out);
    }
  }
}
