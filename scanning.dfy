/** One pass over one compilation unit, stated as functions and generic in
    the test that recognises accessors. Each class's methods are visited in
    their original order (a snapshot: removing the current method does not
    disturb the visit); a matched accessor is dropped, its field declaration
    gains the marker annotation if it lacks it, the marker's import is added
    in that same step, and one ledger record is produced. */
module Scanning {
  import opened Ast
  import opened Names
  import opened Markers
  import opened Seqs

  /** A test that says, for a method of a class with the given fields,
      whether it is an accessor and of which field declaration. */
  type Classifier = (Method, seq<Field>) -> Option<Match>

  /** The test looks only at the variable names of the fields, never at
      their annotations. */
  ghost predicate ReadsOnlyVars(cl: Classifier) {
    forall m, fs, gs {:trigger SameVars(fs, gs), cl(m, fs)} :: SameVars(fs, gs) ==> cl(m, fs) == cl(m, gs)
  }

  /** A verdict is used only when it names an existing field declaration
      that declares at least one variable. */
  function Verdict(cl: Classifier, m: Method, fields: seq<Field>): (r: Option<Match>)
    ensures r.Some? ==> r.value.field < |fields| && fields[r.value.field].vars != []
  {
    var v := cl(m, fields);
    if v.Some? && v.value.field < |fields| && fields[v.value.field].vars != [] then v else None
  }

  lemma VerdictReadsOnlyVars(cl: Classifier, m: Method, fs: seq<Field>, gs: seq<Field>)
    requires ReadsOnlyVars(cl) && SameVars(fs, gs)
    ensures Verdict(cl, m, fs) == Verdict(cl, m, gs)
  {
    assert cl(m, fs) == cl(m, gs);
  }

  /** The state while one class is scanned: its live field list, the
      methods kept so far, the unit's imports and the records produced. */
  datatype Scan = Scan(fields: seq<Field>, kept: seq<Method>, imports: seq<string>, entries: seq<Record>)

  /** Visiting one method of the snapshot. */
  function Visit(cl: Classifier, className: string, s: Scan, m: Method): Scan {
    match Verdict(cl, m, s.fields)
    case None => s.(kept := s.kept + [m])
    case Some(Match(kind, k)) =>
      var field := s.fields[k];
      var marker := MarkerOf(kind);
      var entry := Record(kind, className, field.vars[0]);
      if marker in field.annotations then
        s.(entries := s.entries + [entry])
      else
        s.(fields := s.fields[k := field.(annotations := field.annotations + [marker])],
           imports := AddImport(s.imports, ImportOf(kind)),
           entries := s.entries + [entry])
  }

  /** Visiting the remaining methods of the snapshot, first to last. */
  function ScanMethods(cl: Classifier, className: string, s: Scan, ms: seq<Method>): Scan
    decreases |ms|
  {
    if ms == [] then s
    else ScanMethods(cl, className, Visit(cl, className, s, ms[0]), ms[1..])
  }

  /** The state while a unit is scanned: the classes already rewritten, the
      unit's imports and the records produced. */
  datatype UnitScan = UnitScan(classes: seq<Class>, imports: seq<string>, entries: seq<Record>)

  /** Scanning one class: a fresh snapshot of its methods, its own fields,
      and the unit's imports as they stand. */
  function VisitClass(cl: Classifier, us: UnitScan, c: Class): UnitScan {
    var s := ScanMethods(cl, c.name, Scan(c.fields, [], us.imports, []), c.methods);
    UnitScan(us.classes + [Class(c.name, s.fields, s.kept)], s.imports, us.entries + s.entries)
  }

  function ScanClasses(cl: Classifier, us: UnitScan, cs: seq<Class>): UnitScan
    decreases |cs|
  {
    if cs == [] then us
    else ScanClasses(cl, VisitClass(cl, us, cs[0]), cs[1..])
  }

  /** The rewritten unit and the ledger records of this one file. */
  datatype FileResult = FileResult(unit: Unit, entries: seq<Record>)

  function RewriteWith(cl: Classifier, u: Unit): FileResult {
    var us := ScanClasses(cl, UnitScan([], u.imports, []), u.classes);
    FileResult(Unit(us.classes, us.imports), us.entries)
  }

  // ---------------------------------------------------------------------
  // Reference definitions: which methods stay and which records are made,
  // judged against the class as it was before the pass.

  /** The methods that are not accessors, in their original order. */
  function Unmatched(cl: Classifier, ms: seq<Method>, fields: seq<Field>): seq<Method>
    decreases |ms|
  {
    if ms == [] then []
    else KeptOf(cl, ms[0], fields) + Unmatched(cl, ms[1..], fields)
  }

  /** The method itself, if it is not an accessor. */
  function KeptOf(cl: Classifier, m: Method, fields: seq<Field>): seq<Method> {
    if Verdict(cl, m, fields).None? then [m] else []
  }

  /** The record a method produces, if it is an accessor. */
  function RecordOf(cl: Classifier, className: string, m: Method, fields: seq<Field>): seq<Record> {
    match Verdict(cl, m, fields)
    case None => []
    case Some(Match(kind, k)) => [Record(kind, className, fields[k].vars[0])]
  }

  /** One record per accessor, in order, naming the first variable of the
      matched field declaration. */
  function Removals(cl: Classifier, className: string, ms: seq<Method>, fields: seq<Field>): seq<Record>
    decreases |ms|
  {
    if ms == [] then []
    else RecordOf(cl, className, ms[0], fields) + Removals(cl, className, ms[1..], fields)
  }

  /** Every method is either kept or recorded, never both: the kept methods
      are methods of the list that are not accessors, and kept plus
      recorded accounts for the whole list. */
  lemma {:induction false} PartitionMethods(cl: Classifier, name: string, ms: seq<Method>, fields: seq<Field>)
    ensures |Unmatched(cl, ms, fields)| + |Removals(cl, name, ms, fields)| == |ms|
    ensures forall m :: m in Unmatched(cl, ms, fields) ==> m in ms && Verdict(cl, m, fields).None?
    decreases |ms|
  {
    if ms != [] {
      PartitionMethods(cl, name, ms[1..], fields);
      var head := KeptOf(cl, ms[0], fields);
      forall m | m in Unmatched(cl, ms, fields) ensures m in ms && Verdict(cl, m, fields).None? {
        if m !in head {
          assert m in Unmatched(cl, ms[1..], fields);
        }
      }
    }
  }

  /** The records of all classes, class after class. */
  function AllRemovals(cl: Classifier, cs: seq<Class>): seq<Record>
    decreases |cs|
  {
    if cs == [] then []
    else Removals(cl, cs[0].name, cs[0].methods, cs[0].fields) + AllRemovals(cl, cs[1..])
  }

  /** `after` is `before` with names from `allowed` appended, none of them
      already in `before` and none appended twice. */
  predicate Grown(before: seq<string>, after: seq<string>, allowed: set<string>) {
    |before| <= |after| && after[..|before|] == before &&
    (forall j :: |before| <= j < |after| ==> after[j] in allowed && after[j] !in before) &&
    (forall j, j' :: |before| <= j < j' < |after| ==> after[j] != after[j'])
  }

  /** Every field's annotations grew that way. */
  predicate FieldsGrown(before: seq<Field>, after: seq<Field>) {
    |before| == |after| &&
    forall i :: 0 <= i < |before| ==> Grown(before[i].annotations, after[i].annotations, MarkerNames)
  }

  /** Some field declaration gained the marker of kind `k`. */
  predicate Gained(k: Kind, before: seq<Field>, after: seq<Field>) {
    exists i :: 0 <= i < |before| && i < |after| &&
                MarkerOf(k) in after[i].annotations && MarkerOf(k) !in before[i].annotations
  }

  /** Some method of `ms` is an accessor of kind `k` of field declaration
      `i`. */
  predicate Targeted(cl: Classifier, k: Kind, i: nat, ms: seq<Method>, fields: seq<Field>) {
    exists m :: m in ms && Verdict(cl, m, fields) == Some(Match(k, i))
  }

  /** Every field declaration carries a marker afterwards exactly when it
      carried it before or some method of `ms` is an accessor of that kind
      of that declaration. */
  predicate MarkedExactly(cl: Classifier, ms: seq<Method>, before: seq<Field>, after: seq<Field>) {
    |after| == |before| &&
    forall i: nat, k: Kind :: i < |before| ==>
      (MarkerOf(k) in after[i].annotations <==>
         MarkerOf(k) in before[i].annotations || Targeted(cl, k, i, ms, before))
  }

  /** The rewrite of one class: its name and variables stay, exactly the
      methods that are not accessors stay, in order, each field's
      annotations grow only by absent markers, and a field carries a
      marker afterwards exactly when it did before or an accessor of that
      kind of it was removed. */
  predicate ClassRewritten(cl: Classifier, c: Class, d: Class) {
    d.name == c.name && SameVars(d.fields, c.fields) &&
    d.methods == Unmatched(cl, c.methods, c.fields) &&
    FieldsGrown(c.fields, d.fields) &&
    MarkedExactly(cl, c.methods, c.fields, d.fields)
  }

  // ---------------------------------------------------------------------
  // Facts about the growth relations.

  lemma GrownRefl(a: seq<string>, allowed: set<string>)
    ensures Grown(a, a, allowed)
  {
    assert a[..|a|] == a;
  }

  lemma GrownStep(before: seq<string>, x: string, allowed: set<string>)
    requires x in allowed && x !in before
    ensures Grown(before, before + [x], allowed)
  {
    assert (before + [x])[..|before|] == before;
  }

  lemma GrownTrans(a: seq<string>, b: seq<string>, c: seq<string>, allowed: set<string>)
    requires Grown(a, b, allowed) && Grown(b, c, allowed)
    ensures Grown(a, c, allowed)
  {
    assert c[..|a|] == b[..|b|][..|a|] by { assert c[..|a|] == c[..|b|][..|a|]; }
    forall j | |a| <= j < |c| ensures c[j] in allowed && c[j] !in a {
      if j < |b| {
        assert c[j] == b[j];
      } else {
        assert forall x :: x in a ==> x in b by { assert b[..|a|] == a; }
      }
    }
    forall j, j' | |a| <= j < j' < |c| ensures c[j] != c[j'] {
      if j < |b| && |b| <= j' {
        assert c[j] == b[j] && c[j] in b;
      } else if j < |b| {
        assert c[j] == b[j] && c[j'] == b[j'];
      }
    }
  }

  lemma GrownSubset(a: seq<string>, b: seq<string>, allowed: set<string>, x: string)
    requires Grown(a, b, allowed) && x in a
    ensures x in b
  {
    assert b[..|a|] == a;
  }

  lemma FieldsGrownTrans(a: seq<Field>, b: seq<Field>, c: seq<Field>)
    requires FieldsGrown(a, b) && FieldsGrown(b, c)
    ensures FieldsGrown(a, c)
  {
    forall i | 0 <= i < |a| ensures Grown(a[i].annotations, c[i].annotations, MarkerNames) {
      GrownTrans(a[i].annotations, b[i].annotations, c[i].annotations, MarkerNames);
    }
  }

  lemma FieldsGrownRefl(a: seq<Field>)
    ensures FieldsGrown(a, a)
  {
    forall i | 0 <= i < |a| ensures Grown(a[i].annotations, a[i].annotations, MarkerNames) {
      GrownRefl(a[i].annotations, MarkerNames);
    }
  }

  /** Gaining a marker over two stages is gaining it in one of them. */
  lemma GainedTrans(k: Kind, a: seq<Field>, b: seq<Field>, c: seq<Field>)
    requires FieldsGrown(a, b) && FieldsGrown(b, c)
    ensures Gained(k, a, c) <==> Gained(k, a, b) || Gained(k, b, c)
  {
    var x := MarkerOf(k);
    if Gained(k, a, c) {
      var i :| 0 <= i < |a| && i < |c| && x in c[i].annotations && x !in a[i].annotations;
      if x !in b[i].annotations {
        assert Gained(k, b, c);
      } else {
        assert Gained(k, a, b);
      }
    }
    if Gained(k, a, b) {
      var i :| 0 <= i < |a| && i < |b| && x in b[i].annotations && x !in a[i].annotations;
      GrownSubset(b[i].annotations, c[i].annotations, MarkerNames, x);
      assert Gained(k, a, c);
    }
    if Gained(k, b, c) {
      var i :| 0 <= i < |b| && i < |c| && x in c[i].annotations && x !in b[i].annotations;
      assert x !in a[i].annotations by {
        if x in a[i].annotations { GrownSubset(a[i].annotations, b[i].annotations, MarkerNames, x); }
      }
      assert Gained(k, a, c);
    }
  }

  // ---------------------------------------------------------------------
  // Scanning one class.

  /** One visit keeps the variables; it either keeps the method or adds the
      record of the matched field. */
  lemma VisitStep(cl: Classifier, name: string, s: Scan, m: Method)
    ensures var r := Visit(cl, name, s, m);
            SameVars(r.fields, s.fields) &&
            r.kept == s.kept + KeptOf(cl, m, s.fields) &&
            r.entries == s.entries + RecordOf(cl, name, m, s.fields)
  {
  }

  /** A visit does not look at the methods kept or the records made before
      it: it only appends to them, at most the method itself or one record. */
  lemma VisitFrame(cl: Classifier, name: string, s: Scan, m: Method)
    ensures var v := Visit(cl, name, Scan(s.fields, [], s.imports, []), m);
            Visit(cl, name, s, m) == Scan(v.fields, s.kept + v.kept, v.imports, s.entries + v.entries) &&
            (v.kept == [] || v.kept == [m]) && |v.entries| <= 1
  {
    match Verdict(cl, m, s.fields)
    case None =>
      assert [] + [m] == [m];
    case Some(Match(kind, k)) =>
      var e := Record(kind, name, s.fields[k].vars[0]);
      assert [] + [e] == [e];
  }

  /** Visiting one method with nothing kept or recorded yet. */
  function VisitAlone(cl: Classifier, name: string, fields: seq<Field>, imports: seq<string>, m: Method): Scan {
    Visit(cl, name, Scan(fields, [], imports, []), m)
  }

  /** A method without a verdict is kept and changes nothing else. */
  lemma VisitAloneKept(cl: Classifier, name: string, fields: seq<Field>, imports: seq<string>, m: Method)
    requires Verdict(cl, m, fields).None?
    ensures VisitAlone(cl, name, fields, imports, m) == Scan(fields, [m], imports, [])
  {
  }

  /** An accessor of declaration `k` is dropped and recorded under the
      declaration's first variable; the declaration gains the marker, and
      the unit its import, only when the marker is absent. */
  lemma VisitAloneMatched(cl: Classifier, name: string, fields: seq<Field>, imports: seq<string>, m: Method,
                          kind: Kind, k: nat)
    requires Verdict(cl, m, fields) == Some(Match(kind, k))
    ensures k < |fields| && fields[k].vars != []
    ensures var f := fields[k];
            var v := VisitAlone(cl, name, fields, imports, m);
            v.kept == [] && v.entries == [Record(kind, name, f.vars[0])] &&
            if MarkerOf(kind) in f.annotations then v.fields == fields && v.imports == imports
            else v.fields == fields[k := f.(annotations := f.annotations + [MarkerOf(kind)])] &&
                 v.imports == AddImport(imports, ImportOf(kind))
  {
  }

  /** The in-place form of a visit of the method at position `pos` of the
      live method list: fields and imports become those of the visit, and
      the method leaves the live list exactly when the visit drops it. */
  predicate VisitedInPlace(cl: Classifier, name: string, fields: seq<Field>, imports: seq<string>,
                           live: seq<Method>, pos: nat,
                           fields': seq<Field>, imports': seq<string>, live': seq<Method>)
    requires pos < |live|
  {
    var v := VisitAlone(cl, name, fields, imports, live[pos]);
    fields' == v.fields && imports' == v.imports &&
    live' == (if v.kept == [] then live[..pos] + live[pos + 1..] else live)
  }

  /** The state of a scan done in place over a snapshot `ms`, after the
      first `i` methods: the live method list is the methods kept so far
      followed by the rest of the snapshot, and scanning that rest from the
      current state gives the outcome `target` of the whole scan. */
  predicate InPlace(cl: Classifier, name: string, ms: seq<Method>, i: nat, s: Scan, live: seq<Method>, target: Scan) {
    i <= |ms| && live == s.kept + ms[i..] && ScanMethods(cl, name, s, ms[i..]) == target
  }

  /** Before the first method, the whole scan lies ahead. */
  lemma InPlaceStart(cl: Classifier, name: string, ms: seq<Method>, fields: seq<Field>, imports: seq<string>)
    ensures InPlace(cl, name, ms, 0, Scan(fields, [], imports, []), ms,
                    ScanMethods(cl, name, Scan(fields, [], imports, []), ms))
  {
    assert ms[0..] == ms;
  }

  /** Visiting the next method in place keeps the scan on course; `s'` is
      the scan state after it. */
  lemma InPlaceStep(cl: Classifier, name: string, ms: seq<Method>, i: nat, s: Scan, live: seq<Method>, target: Scan,
                    pos: nat, fields': seq<Field>, imports': seq<string>, live': seq<Method>)
    returns (s': Scan)
    requires i < |ms| && InPlace(cl, name, ms, i, s, live, target) && pos == |s.kept|
    requires pos < |live| && VisitedInPlace(cl, name, s.fields, s.imports, live, pos, fields', imports', live')
    ensures s'.fields == fields' && s'.imports == imports'
    ensures s'.entries == s.entries + VisitAlone(cl, name, s.fields, s.imports, live[pos]).entries
    ensures InPlace(cl, name, ms, i + 1, s', live', target)
  {
    var m := ms[i];
    SplitAt(ms, i);
    DropAfter(s.kept, ms[i..]);
    assert live[pos] == m;
    VisitFrame(cl, name, s, m);
    var v := VisitAlone(cl, name, s.fields, s.imports, m);
    s' := Scan(fields', s.kept + v.kept, imports', s.entries + v.entries);
    assert Visit(cl, name, s, m) == s';
    assert ScanMethods(cl, name, s, ms[i..]) == ScanMethods(cl, name, s', ms[i + 1..]);
    if v.kept == [] {
      assert live' == s'.kept + ms[i + 1..];
    } else {
      KeepAfter(s.kept, ms[i..]);
      assert live' == s'.kept + ms[i + 1..];
    }
  }

  /** After the last method, the live list is what the scan keeps. */
  lemma InPlaceDone(cl: Classifier, name: string, ms: seq<Method>, s: Scan, live: seq<Method>, target: Scan)
    requires InPlace(cl, name, ms, |ms|, s, live, target)
    ensures target == s && live == s.kept
  {
    assert ms[|ms|..] == [];
    assert live == s.kept + [];
  }

  /** A method that is not an accessor is only kept. */
  lemma VisitKeeps(cl: Classifier, name: string, s: Scan, m: Method)
    requires RecordOf(cl, name, m, s.fields) == []
    ensures Visit(cl, name, s, m) == s.(kept := s.kept + [m])
  {
  }

  /** One visit grows annotations and imports only by absent markers, and
      the marker import comes with the marker. */
  lemma VisitMarkers(cl: Classifier, name: string, s: Scan, m: Method, k: Kind)
    ensures var r := Visit(cl, name, s, m);
            FieldsGrown(s.fields, r.fields) &&
            Grown(s.imports, r.imports, MarkerImports) &&
            (ImportOf(k) in r.imports <==> ImportOf(k) in s.imports || Gained(k, s.fields, r.fields))
  {
    var r := Visit(cl, name, s, m);
    match Verdict(cl, m, s.fields)
    case None =>
      FieldsGrownRefl(s.fields);
      GrownRefl(s.imports, MarkerImports);
    case Some(Match(kind, j)) =>
      var marker := MarkerOf(kind);
      KindsDistinct(kind, k);
      if marker in s.fields[j].annotations {
        FieldsGrownRefl(s.fields);
        GrownRefl(s.imports, MarkerImports);
      } else {
        forall i | 0 <= i < |s.fields| ensures Grown(s.fields[i].annotations, r.fields[i].annotations, MarkerNames) {
          if i == j {
            GrownStep(s.fields[i].annotations, marker, MarkerNames);
          } else {
            GrownRefl(s.fields[i].annotations, MarkerNames);
          }
        }
        if ImportOf(kind) in s.imports {
          GrownRefl(s.imports, MarkerImports);
        } else {
          GrownStep(s.imports, ImportOf(kind), MarkerImports);
        }
        if kind == k {
          assert Gained(k, s.fields, r.fields);
        } else {
          forall i | 0 <= i < |s.fields| && i < |r.fields| && MarkerOf(k) in r.fields[i].annotations
            ensures MarkerOf(k) in s.fields[i].annotations
          {
            if i == j {
              assert r.fields[i].annotations == s.fields[i].annotations + [marker];
            }
          }
        }
      }
  }

  /** Judging one method against fields with the same variables keeps it
      or not alike and makes the same record. */
  lemma StepReadsOnlyVars(cl: Classifier, name: string, m: Method, fs: seq<Field>, gs: seq<Field>)
    requires ReadsOnlyVars(cl) && SameVars(fs, gs)
    ensures KeptOf(cl, m, fs) == KeptOf(cl, m, gs)
    ensures RecordOf(cl, name, m, fs) == RecordOf(cl, name, m, gs)
  {
    VerdictReadsOnlyVars(cl, m, fs, gs);
    match Verdict(cl, m, fs)
    case None =>
    case Some(Match(kind, k)) =>
      assert fs[k].vars == gs[k].vars;
  }

  // The scan builds its kept list and its records front to back; these
  // accumulating forms of the reference definitions follow it step by step.

  function UnmatchedFrom(cl: Classifier, acc: seq<Method>, ms: seq<Method>, fields: seq<Field>): seq<Method>
    decreases |ms|
  {
    if ms == [] then acc
    else UnmatchedFrom(cl, acc + KeptOf(cl, ms[0], fields), ms[1..], fields)
  }

  function RemovalsFrom(cl: Classifier, className: string, acc: seq<Record>, ms: seq<Method>, fields: seq<Field>): seq<Record>
    decreases |ms|
  {
    if ms == [] then acc
    else RemovalsFrom(cl, className, acc + RecordOf(cl, className, ms[0], fields), ms[1..], fields)
  }

  lemma {:induction false} UnmatchedFromAppend(cl: Classifier, acc: seq<Method>, ms: seq<Method>, fs: seq<Field>)
    ensures UnmatchedFrom(cl, acc, ms, fs) == acc + Unmatched(cl, ms, fs)
    decreases |ms|
  {
    if ms == [] {
      assert acc + [] == acc;
    } else {
      var head := KeptOf(cl, ms[0], fs);
      UnmatchedFromAppend(cl, acc + head, ms[1..], fs);
      assert acc + head + Unmatched(cl, ms[1..], fs) == acc + (head + Unmatched(cl, ms[1..], fs));
    }
  }

  lemma {:induction false} RemovalsFromAppend(cl: Classifier, name: string, acc: seq<Record>, ms: seq<Method>, fs: seq<Field>)
    ensures RemovalsFrom(cl, name, acc, ms, fs) == acc + Removals(cl, name, ms, fs)
    decreases |ms|
  {
    if ms == [] {
      assert acc + [] == acc;
    } else {
      var rec := RecordOf(cl, name, ms[0], fs);
      RemovalsFromAppend(cl, name, acc + rec, ms[1..], fs);
      assert acc + rec + Removals(cl, name, ms[1..], fs) == acc + (rec + Removals(cl, name, ms[1..], fs));
    }
  }

  lemma {:induction false} ScanMethodsFrom(cl: Classifier, name: string, s: Scan, ms: seq<Method>, fs: seq<Field>)
    requires ReadsOnlyVars(cl) && SameVars(s.fields, fs)
    ensures var r := ScanMethods(cl, name, s, ms);
            SameVars(r.fields, fs) &&
            r.kept == UnmatchedFrom(cl, s.kept, ms, fs) &&
            r.entries == RemovalsFrom(cl, name, s.entries, ms, fs)
    decreases |ms|
  {
    if ms != [] {
      var s' := Visit(cl, name, s, ms[0]);
      assert ScanMethods(cl, name, s, ms) == ScanMethods(cl, name, s', ms[1..]);
      VisitStep(cl, name, s, ms[0]);
      StepReadsOnlyVars(cl, name, ms[0], s.fields, fs);
      ScanMethodsFrom(cl, name, s', ms[1..], fs);
    }
  }

  /** Scanning keeps the variables, keeps exactly the methods that are not
      accessors in order, and appends exactly the records of the others,
      all judged against the fields before the scan. */
  lemma ScanMethodsMeaning(cl: Classifier, name: string, s: Scan, ms: seq<Method>)
    requires ReadsOnlyVars(cl)
    ensures var r := ScanMethods(cl, name, s, ms);
            SameVars(r.fields, s.fields) &&
            r.kept == s.kept + Unmatched(cl, ms, s.fields) &&
            r.entries == s.entries + Removals(cl, name, ms, s.fields)
  {
    ScanMethodsFrom(cl, name, s, ms, s.fields);
    UnmatchedFromAppend(cl, s.kept, ms, s.fields);
    RemovalsFromAppend(cl, name, s.entries, ms, s.fields);
  }

  /** Every field's annotations only gain `Getter`/`Setter`, each at most
      once and only when absent; the imports only gain the marker imports,
      each at most once and only when absent; and a marker import is present
      after the scan exactly when it was before or some field gained that
      marker. */
  lemma {:induction false} ScanMethodsMarkers(cl: Classifier, name: string, s: Scan, ms: seq<Method>, k: Kind)
    ensures var r := ScanMethods(cl, name, s, ms);
            FieldsGrown(s.fields, r.fields) &&
            Grown(s.imports, r.imports, MarkerImports) &&
            (ImportOf(k) in r.imports <==> ImportOf(k) in s.imports || Gained(k, s.fields, r.fields))
    decreases |ms|
  {
    if ms == [] {
      FieldsGrownRefl(s.fields);
      GrownRefl(s.imports, MarkerImports);
    } else {
      var s' := Visit(cl, name, s, ms[0]);
      var r := ScanMethods(cl, name, s, ms);
      VisitMarkers(cl, name, s, ms[0], k);
      ScanMethodsMarkers(cl, name, s', ms[1..], k);
      FieldsGrownTrans(s.fields, s'.fields, r.fields);
      GrownTrans(s.imports, s'.imports, r.imports, MarkerImports);
      GainedTrans(k, s.fields, s'.fields, r.fields);
    }
  }

  /** A method list targets a declaration when its first method does or
      one of the rest does. */
  lemma TargetedSplit(cl: Classifier, k: Kind, i: nat, ms: seq<Method>, fields: seq<Field>)
    requires ms != []
    ensures Targeted(cl, k, i, ms, fields) <==>
              Verdict(cl, ms[0], fields) == Some(Match(k, i)) || Targeted(cl, k, i, ms[1..], fields)
  {
    if Targeted(cl, k, i, ms, fields) {
      var m :| m in ms && Verdict(cl, m, fields) == Some(Match(k, i));
      if m != ms[0] {
        assert m in ms[1..];
      }
    }
    if Targeted(cl, k, i, ms[1..], fields) {
      var m :| m in ms[1..] && Verdict(cl, m, fields) == Some(Match(k, i));
      assert m in ms;
    }
  }

  /** Which declarations a method list targets depends only on the
      variable names of the fields. */
  lemma TargetedReadsOnlyVars(cl: Classifier, k: Kind, i: nat, ms: seq<Method>, fs: seq<Field>, gs: seq<Field>)
    requires ReadsOnlyVars(cl) && SameVars(fs, gs)
    ensures Targeted(cl, k, i, ms, fs) == Targeted(cl, k, i, ms, gs)
  {
    forall m | m in ms ensures Verdict(cl, m, fs) == Verdict(cl, m, gs) {
      VerdictReadsOnlyVars(cl, m, fs, gs);
    }
  }

  /** After one visit, declaration `i` carries the marker of kind `k`
      exactly when it did before or the visited method is an accessor of
      kind `k` of it. */
  lemma VisitMarksField(cl: Classifier, name: string, s: Scan, m: Method, k: Kind, i: nat)
    requires i < |s.fields|
    ensures var r := Visit(cl, name, s, m);
            i < |r.fields| &&
            (MarkerOf(k) in r.fields[i].annotations <==>
               MarkerOf(k) in s.fields[i].annotations || Verdict(cl, m, s.fields) == Some(Match(k, i)))
  {
    var r := Visit(cl, name, s, m);
    match Verdict(cl, m, s.fields)
    case None =>
    case Some(Match(kind, j)) =>
      KindsDistinct(kind, k);
      if MarkerOf(kind) !in s.fields[j].annotations && i == j {
        assert r.fields[i].annotations == s.fields[i].annotations + [MarkerOf(kind)];
      }
  }

  /** After a scan, declaration `i` carries the marker of kind `k` exactly
      when it did before or one of the scanned methods is an accessor of
      kind `k` of it, judged against the fields before the scan. */
  lemma {:induction false} ScanMethodsMarksField(cl: Classifier, name: string, s: Scan, ms: seq<Method>, k: Kind, i: nat)
    requires ReadsOnlyVars(cl) && i < |s.fields|
    ensures var r := ScanMethods(cl, name, s, ms);
            |r.fields| == |s.fields| &&
            (MarkerOf(k) in r.fields[i].annotations <==>
               MarkerOf(k) in s.fields[i].annotations || Targeted(cl, k, i, ms, s.fields))
    decreases |ms|
  {
    if ms != [] {
      var s' := Visit(cl, name, s, ms[0]);
      assert ScanMethods(cl, name, s, ms) == ScanMethods(cl, name, s', ms[1..]);
      VisitStep(cl, name, s, ms[0]);
      VisitMarksField(cl, name, s, ms[0], k, i);
      ScanMethodsMarksField(cl, name, s', ms[1..], k, i);
      TargetedReadsOnlyVars(cl, k, i, ms[1..], s'.fields, s.fields);
      TargetedSplit(cl, k, i, ms, s.fields);
    }
  }

  /** A scan keeps the number of field declarations. */
  lemma {:induction false} VisitsKeepFieldCount(cl: Classifier, name: string, s: Scan, ms: seq<Method>)
    ensures |ScanMethods(cl, name, s, ms).fields| == |s.fields|
    decreases |ms|
  {
    if ms != [] {
      var s' := Visit(cl, name, s, ms[0]);
      assert ScanMethods(cl, name, s, ms) == ScanMethods(cl, name, s', ms[1..]);
      VisitStep(cl, name, s, ms[0]);
      VisitsKeepFieldCount(cl, name, s', ms[1..]);
    }
  }

  /** A scan places markers exactly on the declarations its accessors
      access. */
  lemma ScanMethodsMarked(cl: Classifier, name: string, s: Scan, ms: seq<Method>)
    requires ReadsOnlyVars(cl)
    ensures MarkedExactly(cl, ms, s.fields, ScanMethods(cl, name, s, ms).fields)
  {
    var r := ScanMethods(cl, name, s, ms);
    VisitsKeepFieldCount(cl, name, s, ms);
    forall i: nat, k: Kind | i < |s.fields|
      ensures MarkerOf(k) in r.fields[i].annotations <==>
                MarkerOf(k) in s.fields[i].annotations || Targeted(cl, k, i, ms, s.fields)
    {
      ScanMethodsMarksField(cl, name, s, ms, k, i);
    }
  }

  /** A scan that finds no accessor changes nothing but appends every
      method to the kept list. */
  lemma {:induction false} ScanWithoutRemovals(cl: Classifier, name: string, s: Scan, ms: seq<Method>)
    requires Removals(cl, name, ms, s.fields) == []
    ensures ScanMethods(cl, name, s, ms) == s.(kept := s.kept + ms)
    decreases |ms|
  {
    if ms == [] {
      assert s.kept + [] == s.kept;
    } else {
      var s' := s.(kept := s.kept + [ms[0]]);
      assert RecordOf(cl, name, ms[0], s.fields) + Removals(cl, name, ms[1..], s.fields) == [];
      VisitKeeps(cl, name, s, ms[0]);
      assert ScanMethods(cl, name, s, ms) == ScanMethods(cl, name, s', ms[1..]);
      ScanWithoutRemovals(cl, name, s', ms[1..]);
      assert s.kept + [ms[0]] + ms[1..] == s.kept + ms by { assert [ms[0]] + ms[1..] == ms; }
    }
  }

  /** Methods that are all not accessors produce no records. */
  lemma {:induction false} NoMatchesNoRemovals(cl: Classifier, name: string, ms: seq<Method>, fields: seq<Field>)
    requires forall m :: m in ms ==> Verdict(cl, m, fields).None?
    ensures Removals(cl, name, ms, fields) == []
    decreases |ms|
  {
    if ms != [] {
      assert ms[0] in ms;
      forall m | m in ms[1..] ensures Verdict(cl, m, fields).None? {
        assert m in ms;
      }
      NoMatchesNoRemovals(cl, name, ms[1..], fields);
    }
  }

  // ---------------------------------------------------------------------
  // Scanning a unit.

  lemma VisitClassMeaning(cl: Classifier, us: UnitScan, c: Class, k: Kind)
    requires ReadsOnlyVars(cl)
    ensures var r := VisitClass(cl, us, c);
            |r.classes| == |us.classes| + 1 &&
            r.classes[..|us.classes|] == us.classes &&
            ClassRewritten(cl, c, r.classes[|us.classes|]) &&
            r.entries == us.entries + Removals(cl, c.name, c.methods, c.fields) &&
            Grown(us.imports, r.imports, MarkerImports) &&
            (ImportOf(k) in r.imports <==>
               ImportOf(k) in us.imports || Gained(k, c.fields, r.classes[|us.classes|].fields))
  {
    var s := Scan(c.fields, [], us.imports, []);
    ScanMethodsMeaning(cl, c.name, s, c.methods);
    ScanMethodsMarkers(cl, c.name, s, c.methods, k);
    ScanMethodsMarked(cl, c.name, s, c.methods);
    var r := VisitClass(cl, us, c);
    assert r.classes[..|us.classes|] == us.classes;
    var rem := Removals(cl, c.name, c.methods, c.fields);
    assert [] + rem == rem;
    assert [] + Unmatched(cl, c.methods, c.fields) == Unmatched(cl, c.methods, c.fields);
  }

  /** The record part of `VisitClassMeaning`. */
  lemma VisitClassEntries(cl: Classifier, us: UnitScan, c: Class)
    requires ReadsOnlyVars(cl)
    ensures VisitClass(cl, us, c).entries == us.entries + Removals(cl, c.name, c.methods, c.fields)
  {
    var s := Scan(c.fields, [], us.imports, []);
    ScanMethodsMeaning(cl, c.name, s, c.methods);
    assert [] + Removals(cl, c.name, c.methods, c.fields) == Removals(cl, c.name, c.methods, c.fields);
  }

  /** The class part of `VisitClassMeaning`. */
  lemma VisitClassShape(cl: Classifier, us: UnitScan, c: Class)
    requires ReadsOnlyVars(cl)
    ensures var r := VisitClass(cl, us, c);
            |r.classes| == |us.classes| + 1 &&
            r.classes[..|us.classes|] == us.classes &&
            ClassRewritten(cl, c, r.classes[|us.classes|])
  {
    VisitClassMeaning(cl, us, c, Getter);
  }

  /** Some class of the unit gained the marker of kind `k` on some field. */
  predicate ClassGained(k: Kind, cs: seq<Class>, ds: seq<Class>) {
    exists j :: 0 <= j < |cs| && j < |ds| && Gained(k, cs[j].fields, ds[j].fields)
  }

  /** Scanning a unit keeps the classes already done and rewrites each
      remaining class on its own, in order. */
  lemma {:induction false} ScanClassesShape(cl: Classifier, us: UnitScan, cs: seq<Class>)
    requires ReadsOnlyVars(cl)
    ensures var r := ScanClasses(cl, us, cs);
            |r.classes| == |us.classes| + |cs| &&
            r.classes[..|us.classes|] == us.classes &&
            (forall j :: 0 <= j < |cs| ==> ClassRewritten(cl, cs[j], r.classes[|us.classes| + j]))
    decreases |cs|
  {
    var r := ScanClasses(cl, us, cs);
    if cs == [] {
      assert r.classes[..|us.classes|] == us.classes;
    } else {
      var n := |us.classes|;
      var us' := VisitClass(cl, us, cs[0]);
      assert r == ScanClasses(cl, us', cs[1..]);
      VisitClassShape(cl, us, cs[0]);
      ScanClassesShape(cl, us', cs[1..]);
      assert r.classes[..n] == us.classes by {
        assert r.classes[..n] == r.classes[..n + 1][..n];
        assert us'.classes[..n] == us.classes;
      }
      assert r.classes[n] == us'.classes[n] by {
        assert r.classes[n] == r.classes[..n + 1][n];
      }
      forall j | 0 <= j < |cs| ensures ClassRewritten(cl, cs[j], r.classes[n + j]) {
        if j > 0 {
          assert cs[j] == cs[1..][j - 1];
          assert ClassRewritten(cl, cs[1..][j - 1], r.classes[n + 1 + (j - 1)]);
        }
      }
    }
  }

  /** The records of a unit scan are those of its classes, class after
      class. */
  lemma {:induction false} ScanClassesEntries(cl: Classifier, us: UnitScan, cs: seq<Class>)
    requires ReadsOnlyVars(cl)
    ensures ScanClasses(cl, us, cs).entries == us.entries + AllRemovals(cl, cs)
    decreases |cs|
  {
    if cs == [] {
      assert us.entries + [] == us.entries;
    } else {
      var us' := VisitClass(cl, us, cs[0]);
      assert ScanClasses(cl, us, cs) == ScanClasses(cl, us', cs[1..]);
      VisitClassEntries(cl, us, cs[0]);
      ScanClassesEntries(cl, us', cs[1..]);
      var rem := Removals(cl, cs[0].name, cs[0].methods, cs[0].fields);
      AppendAssoc(us.entries, rem, AllRemovals(cl, cs[1..]));
    }
  }

  /** The imports of a unit scan only gain absent marker imports, and a
      marker import is there afterwards exactly when it was before or some
      field of some class gained that marker. */
  lemma {:induction false} ScanClassesImports(cl: Classifier, us: UnitScan, cs: seq<Class>, k: Kind)
    requires ReadsOnlyVars(cl)
    ensures var r := ScanClasses(cl, us, cs);
            |us.classes| <= |r.classes| &&
            Grown(us.imports, r.imports, MarkerImports) &&
            (ImportOf(k) in r.imports <==>
               ImportOf(k) in us.imports || ClassGained(k, cs, r.classes[|us.classes|..]))
    decreases |cs|
  {
    var r := ScanClasses(cl, us, cs);
    if cs == [] {
      GrownRefl(us.imports, MarkerImports);
    } else {
      var n := |us.classes|;
      var us' := VisitClass(cl, us, cs[0]);
      assert r == ScanClasses(cl, us', cs[1..]);
      VisitClassMeaning(cl, us, cs[0], k);
      ScanClassesImports(cl, us', cs[1..], k);
      ScanClassesShape(cl, us', cs[1..]);
      GrownTrans(us.imports, us'.imports, r.imports, MarkerImports);
      var d := us'.classes[n];
      var done := r.classes[n..];
      var tail := r.classes[n + 1..];
      assert done[0] == d by {
        assert r.classes[n] == r.classes[..n + 1][n];
      }
      assert tail == done[1..];
      ClassGainedSplit(k, cs, done);
    }
  }

  /** Some class gained a marker exactly when the first did or one of the
      rest did. */
  lemma ClassGainedSplit(k: Kind, cs: seq<Class>, ds: seq<Class>)
    requires cs != [] && ds != []
    ensures ClassGained(k, cs, ds) <==>
              Gained(k, cs[0].fields, ds[0].fields) || ClassGained(k, cs[1..], ds[1..])
  {
    if ClassGained(k, cs, ds) {
      var j :| 0 <= j < |cs| && j < |ds| && Gained(k, cs[j].fields, ds[j].fields);
      if j > 0 {
        assert cs[1..][j - 1] == cs[j] && ds[1..][j - 1] == ds[j];
      }
    }
    if ClassGained(k, cs[1..], ds[1..]) {
      var j :| 0 <= j < |cs[1..]| && j < |ds[1..]| && Gained(k, cs[1..][j].fields, ds[1..][j].fields);
      assert cs[j + 1] == cs[1..][j] && ds[j + 1] == ds[1..][j];
    }
  }

  /** A class without accessors is appended unchanged. */
  lemma VisitClassWithoutRemovals(cl: Classifier, us: UnitScan, c: Class)
    requires Removals(cl, c.name, c.methods, c.fields) == []
    ensures VisitClass(cl, us, c) == us.(classes := us.classes + [c])
  {
    var s := Scan(c.fields, [], us.imports, []);
    ScanWithoutRemovals(cl, c.name, s, c.methods);
    assert [] + c.methods == c.methods;
    assert us.entries + [] == us.entries;
  }

  /** A unit scan that finds no accessor appends the classes unchanged. */
  lemma {:induction false} ScanClassesWithoutRemovals(cl: Classifier, us: UnitScan, cs: seq<Class>)
    requires AllRemovals(cl, cs) == []
    ensures ScanClasses(cl, us, cs) == us.(classes := us.classes + cs)
    decreases |cs|
  {
    if cs == [] {
      assert us.classes + [] == us.classes;
    } else {
      var c, rest := cs[0], cs[1..];
      var rem := Removals(cl, c.name, c.methods, c.fields);
      assert AllRemovals(cl, cs) == rem + AllRemovals(cl, rest);
      assert rem == [] && AllRemovals(cl, rest) == [];
      VisitClassWithoutRemovals(cl, us, c);
      var us' := us.(classes := us.classes + [c]);
      assert ScanClasses(cl, us, cs) == ScanClasses(cl, us', rest);
      ScanClassesWithoutRemovals(cl, us', rest);
      assert us'.classes + rest == us.classes + cs by {
        AppendAssoc(us.classes, [c], rest);
        assert [c] + rest == cs;
      }
    }
  }

  /** The state of a scan of a unit done in place, after the first `i`
      classes of `cs`: the live class list holds the rewritten classes
      followed by the classes still to visit, and scanning those from the
      current state gives the outcome `target` of the whole scan. */
  predicate ClassesInPlace(cl: Classifier, cs: seq<Class>, i: nat, us: UnitScan, live: seq<Class>, target: UnitScan) {
    i <= |cs| && |live| == |cs| && live[..i] == us.classes && live[i..] == cs[i..] &&
    ScanClasses(cl, us, cs[i..]) == target
  }

  lemma ClassesInPlaceStart(cl: Classifier, cs: seq<Class>, imports: seq<string>)
    ensures ClassesInPlace(cl, cs, 0, UnitScan([], imports, []), cs, ScanClasses(cl, UnitScan([], imports, []), cs))
  {
    assert cs[0..] == cs;
  }

  /** Rewriting the next class in place keeps the unit scan on course; `us'`
      is the unit scan state after it. */
  lemma ClassesInPlaceStep(cl: Classifier, cs: seq<Class>, i: nat, us: UnitScan, live: seq<Class>, target: UnitScan,
                           d: Class, imports': seq<string>, added: seq<Record>)
    returns (us': UnitScan)
    requires i < |cs| && ClassesInPlace(cl, cs, i, us, live, target)
    requires var s := ScanMethods(cl, live[i].name, Scan(live[i].fields, [], us.imports, []), live[i].methods);
             d == Class(live[i].name, s.fields, s.kept) && imports' == s.imports && added == s.entries
    ensures us'.imports == imports' && us'.entries == us.entries + added
    ensures ClassesInPlace(cl, cs, i + 1, us', live[i := d], target)
  {
    SplitAt(cs, i);
    SplitAt(live, i);
    UpdateAt(live, i, d);
    assert live[i] == cs[i];
    us' := VisitClass(cl, us, cs[i]);
  }

  /** After the last class, the live class list is the rewritten unit's. */
  lemma ClassesInPlaceDone(cl: Classifier, cs: seq<Class>, us: UnitScan, live: seq<Class>, target: UnitScan)
    requires ClassesInPlace(cl, cs, |cs|, us, live, target)
    ensures target == us && live == us.classes
  {
    assert cs[|cs|..] == [];
    assert live[..|cs|] == live;
  }

  // ---------------------------------------------------------------------
  // Properties of a whole-file rewrite.

  /** The rewritten unit has the same classes in the same order, each
      rewritten on its own. */
  lemma RewriteClasses(cl: Classifier, u: Unit)
    requires ReadsOnlyVars(cl)
    ensures var r := RewriteWith(cl, u);
            |r.unit.classes| == |u.classes| &&
            forall j :: 0 <= j < |u.classes| ==> ClassRewritten(cl, u.classes[j], r.unit.classes[j])
  {
    var us := UnitScan([], u.imports, []);
    ScanClassesShape(cl, us, u.classes);
    var r := ScanClasses(cl, us, u.classes);
    forall j | 0 <= j < |u.classes| ensures ClassRewritten(cl, u.classes[j], r.classes[j]) {
      assert r.classes[0 + j] == r.classes[j];
    }
  }

  /** The records of a file are those of its classes, in order. */
  lemma RewriteEntries(cl: Classifier, u: Unit)
    requires ReadsOnlyVars(cl)
    ensures RewriteWith(cl, u).entries == AllRemovals(cl, u.classes)
  {
    ScanClassesEntries(cl, UnitScan([], u.imports, []), u.classes);
    assert [] + AllRemovals(cl, u.classes) == AllRemovals(cl, u.classes);
  }

  /** The imports only gain marker imports that were absent, each once, and
      a marker import is present afterwards exactly when it was before or
      some field gained that marker. */
  lemma RewriteImports(cl: Classifier, u: Unit, k: Kind)
    requires ReadsOnlyVars(cl)
    ensures var r := RewriteWith(cl, u);
            Grown(u.imports, r.unit.imports, MarkerImports) &&
            (ImportOf(k) in r.unit.imports <==> ImportOf(k) in u.imports || ClassGained(k, u.classes, r.unit.classes))
  {
    var us := UnitScan([], u.imports, []);
    ScanClassesImports(cl, us, u.classes, k);
    var r := ScanClasses(cl, us, u.classes);
    assert r.classes[0..] == r.classes;
  }

  /** Some class of `cs` has an accessor of kind `k` of a field declaration
      that does not yet carry that marker. */
  predicate NeedsMarker(cl: Classifier, k: Kind, cs: seq<Class>) {
    exists j: nat, i: nat :: j < |cs| && i < |cs[j].fields| &&
      MarkerOf(k) !in cs[j].fields[i].annotations && Targeted(cl, k, i, cs[j].methods, cs[j].fields)
  }

  /** Across rewritten classes, some field gained a marker exactly when some
      accessor of that kind accessed a field that lacked it. */
  lemma ClassGainedIffNeeded(cl: Classifier, k: Kind, cs: seq<Class>, ds: seq<Class>)
    requires |cs| == |ds| && forall j :: 0 <= j < |cs| ==> ClassRewritten(cl, cs[j], ds[j])
    ensures ClassGained(k, cs, ds) <==> NeedsMarker(cl, k, cs)
  {
    var x := MarkerOf(k);
    if ClassGained(k, cs, ds) {
      var j :| 0 <= j < |cs| && j < |ds| && Gained(k, cs[j].fields, ds[j].fields);
      var i :| 0 <= i < |cs[j].fields| && i < |ds[j].fields| &&
               x in ds[j].fields[i].annotations && x !in cs[j].fields[i].annotations;
      assert ClassRewritten(cl, cs[j], ds[j]);
      assert Targeted(cl, k, i, cs[j].methods, cs[j].fields);
    }
    if NeedsMarker(cl, k, cs) {
      var j: nat, i: nat :| j < |cs| && i < |cs[j].fields| &&
                            x !in cs[j].fields[i].annotations && Targeted(cl, k, i, cs[j].methods, cs[j].fields);
      assert ClassRewritten(cl, cs[j], ds[j]);
      assert x in ds[j].fields[i].annotations;
      assert Gained(k, cs[j].fields, ds[j].fields);
    }
  }

  /** A class that removes something, when the unit's records are not empty. */
  lemma {:induction false} RemovingClass(cl: Classifier, cs: seq<Class>) returns (j: nat)
    requires AllRemovals(cl, cs) != []
    ensures j < |cs| && Removals(cl, cs[j].name, cs[j].methods, cs[j].fields) != []
    decreases |cs|
  {
    var c := cs[0];
    if Removals(cl, c.name, c.methods, c.fields) != [] {
      j := 0;
    } else {
      assert AllRemovals(cl, cs) == [] + AllRemovals(cl, cs[1..]);
      var j' := RemovingClass(cl, cs[1..]);
      j := j' + 1;
      assert cs[j] == cs[1..][j'];
    }
  }

  /** A file produces no records exactly when its rewrite leaves it as it
      was. */
  lemma NoEntriesIffUnchanged(cl: Classifier, u: Unit)
    requires ReadsOnlyVars(cl)
    ensures RewriteWith(cl, u).entries == [] <==> RewriteWith(cl, u).unit == u
  {
    var r := RewriteWith(cl, u);
    RewriteClasses(cl, u);
    RewriteEntries(cl, u);
    if r.entries == [] {
      ScanClassesWithoutRemovals(cl, UnitScan([], u.imports, []), u.classes);
      assert [] + u.classes == u.classes;
    } else {
      var j := RemovingClass(cl, u.classes);
      var c := u.classes[j];
      PartitionMethods(cl, c.name, c.methods, c.fields);
      assert |r.unit.classes[j].methods| < |c.methods|;
    }
  }

  lemma {:induction false} RewrittenClassesRemoveNothing(cl: Classifier, cs: seq<Class>, ds: seq<Class>)
    requires ReadsOnlyVars(cl)
    requires |cs| == |ds|
    requires forall j :: 0 <= j < |cs| ==> ClassRewritten(cl, cs[j], ds[j])
    ensures AllRemovals(cl, ds) == []
    decreases |cs|
  {
    if ds != [] {
      var c, d := cs[0], ds[0];
      assert ClassRewritten(cl, c, d);
      PartitionMethods(cl, c.name, c.methods, c.fields);
      forall m | m in d.methods ensures Verdict(cl, m, d.fields).None? {
        VerdictReadsOnlyVars(cl, m, c.fields, d.fields);
      }
      NoMatchesNoRemovals(cl, d.name, d.methods, d.fields);
      forall j | 0 <= j < |cs[1..]| ensures ClassRewritten(cl, cs[1..][j], ds[1..][j]) {
        assert cs[1..][j] == cs[j + 1] && ds[1..][j] == ds[j + 1];
      }
      RewrittenClassesRemoveNothing(cl, cs[1..], ds[1..]);
    }
  }

  /** A second pass over a rewritten file finds nothing more to do. */
  lemma RewriteIdempotent(cl: Classifier, u: Unit)
    requires ReadsOnlyVars(cl)
    ensures RewriteWith(cl, RewriteWith(cl, u).unit) == FileResult(RewriteWith(cl, u).unit, [])
  {
    var v := RewriteWith(cl, u).unit;
    RewriteClasses(cl, u);
    RewrittenClassesRemoveNothing(cl, u.classes, v.classes);
    ScanClassesWithoutRemovals(cl, UnitScan([], v.imports, []), v.classes);
    assert [] + v.classes == v.classes;
  }

  /** However many accessors of one field are removed, a field that started
      with at most one `Getter` (or `Setter`) ends with at most one, and no
      other annotation changes its count. */
  lemma GrownKeepsSingleMarkers(before: seq<string>, after: seq<string>, allowed: set<string>, x: string)
    requires Grown(before, after, allowed)
    ensures multiset(before)[x] <= 1 ==> multiset(after)[x] <= 1
    ensures x !in allowed ==> multiset(after)[x] == multiset(before)[x]
    ensures x in before ==> multiset(after)[x] == multiset(before)[x]
  {
    var added := after[|before|..];
    assert after == before + added;
    DistinctCountAtMostOne(added, x);
    if x !in allowed || x in before {
      assert x !in added;
    }
  }

  lemma {:induction false} DistinctCountAtMostOne(t: seq<string>, x: string)
    requires forall j, j' :: 0 <= j < j' < |t| ==> t[j] != t[j']
    ensures multiset(t)[x] <= 1
    decreases |t|
  {
    if t != [] {
      DistinctCountAtMostOne(t[1..], x);
      assert t == [t[0]] + t[1..];
      if t[0] == x {
        assert x !in t[1..];
      }
    }
  }
}
