/** The plugin's own accessor test and the whole-file rewrite built on it,
    next to the rewrite with the corrected setter test, which accepts only
    a setter storing its own parameter into the field its name derives. */
module Rewrite {
  import opened Ast
  import opened Names
  import opened Shapes
  import opened Markers
  import opened Scanning

  /** The verdict on one method, as the plugin computes it: the field comes
      from `FindMatchingField`; the getter test runs first and the setter
      test only when the getter test fails. */
  function Classify(m: Method, fields: seq<Field>): (r: Option<Match>)
    ensures r.Some? ==> r.value.field < |fields| && fields[r.value.field].vars != []
  {
    match FindMatchingField(m.name, fields)
    case None => None
    case Some(k) =>
      if IsTrivialGetter(m, fields) then Some(Match(Getter, k))
      else if IsTrivialSetter(m) then Some(Match(Setter, k))
      else None
  }

  /** The same verdict with the intended setter test. */
  function ClassifyIntended(m: Method, fields: seq<Field>): (r: Option<Match>)
    ensures r.Some? ==> r.value.field < |fields| && fields[r.value.field].vars != []
  {
    match FindMatchingField(m.name, fields)
    case None => None
    case Some(k) =>
      if IsTrivialGetter(m, fields) then Some(Match(Getter, k))
      else if IsTrivialSetterIntended(m, fields) then Some(Match(Setter, k))
      else None
  }

  /** A method is classified a getter of field declaration `k` exactly when
      it is named `get…` or `is…` with something after the prefix, takes no
      parameter, its whole body is `return f;` for the decapitalized rest of
      its name `f`, and `k` is the first field declaration declaring `f`. */
  lemma ClassifyGetter(m: Method, fields: seq<Field>, k: nat)
    ensures Classify(m, fields) == Some(Match(Getter, k)) <==>
              var p := AccessorPrefix(m.name);
              (p == "get" || p == "is") && |m.name| > |p| && m.params == [] &&
              var f := Decapitalize(m.name[|p|..]);
              m.body == Some([Return(Some(Name(f)))]) && FindField(fields, f) == Some(k)
  {
    DeriveFieldNameSpec(m.name);
    PrefixesExclusive(m.name);
    GetterShape(m, fields);
    GetterSetterExclusive(m, fields);
  }

  /** A method is classified a setter of field declaration `k` exactly when
      it is named `set…` with something after the prefix, passes the
      written setter test, and `k` is the first field declaration declaring
      the decapitalized rest of its name. */
  lemma ClassifySetter(m: Method, fields: seq<Field>, k: nat)
    ensures Classify(m, fields) == Some(Match(Setter, k)) <==>
              AccessorPrefix(m.name) == "set" && |m.name| > 3 && IsTrivialSetter(m) &&
              FindField(fields, SetterFieldName(m.name)) == Some(k)
  {
    DeriveFieldNameSpec(m.name);
    PrefixesExclusive(m.name);
    GetterSetterExclusive(m, fields);
  }

  /** Under the intended test a setter is classified only when it stores
      its own parameter, with plain `=`, into a variable of the very field
      declaration it is matched with; a bare-name target never names the
      parameter, which would shadow that variable. */
  lemma ClassifyIntendedSetter(m: Method, fields: seq<Field>, k: nat)
    requires ClassifyIntended(m, fields) == Some(Match(Setter, k))
    ensures |m.params| == 1 && m.body.Some? && |m.body.value| == 1
    ensures var s := m.body.value[0];
            s.ExprStmt? && s.expr.Assign? && s.expr.op == Plain && s.expr.value == Name(m.params[0]) &&
            ((s.expr.target.Name? && s.expr.target.id in fields[k].vars) ||
             (s.expr.target.FieldAccess? && s.expr.target.scope == This && s.expr.target.field in fields[k].vars))
    ensures var t := m.body.value[0].expr.target;
            t.Name? ==> t.id != m.params[0]
  {
    DeriveFieldNameSpec(m.name);
    PrefixesExclusive(m.name);
    IntendedSetterIsExact(m, fields);
  }

  /** The intended test agrees with the written one wherever it accepts a
      method, and only ever turns a setter verdict into no verdict. */
  lemma ClassifyIntendedNarrows(m: Method, fields: seq<Field>)
    ensures ClassifyIntended(m, fields).Some? ==> Classify(m, fields) == ClassifyIntended(m, fields)
    ensures Classify(m, fields) != ClassifyIntended(m, fields) ==>
              ClassifyIntended(m, fields).None? && Classify(m, fields).value.kind == Setter
  {
    IntendedSetterNarrowsWritten(m, fields);
  }

  /** Both tests read only the variable names of the fields, never their
      annotations, so adding a marker never changes a verdict. */
  lemma ClassifyReadsOnlyVars()
    ensures ReadsOnlyVars(Classify)
  {
    var cl: Classifier := Classify;
    forall m, fs, gs | SameVars(fs, gs) ensures cl(m, fs) == cl(m, gs) {
      VerdictsReadOnlyVars(m, fs, gs);
    }
  }

  lemma ClassifyIntendedReadsOnlyVars()
    ensures ReadsOnlyVars(ClassifyIntended)
  {
    var cl: Classifier := ClassifyIntended;
    forall m, fs, gs | SameVars(fs, gs) ensures cl(m, fs) == cl(m, gs) {
      VerdictsReadOnlyVars(m, fs, gs);
    }
  }

  lemma VerdictsReadOnlyVars(m: Method, fs: seq<Field>, gs: seq<Field>)
    requires SameVars(fs, gs)
    ensures Classify(m, fs) == Classify(m, gs)
    ensures ClassifyIntended(m, fs) == ClassifyIntended(m, gs)
  {
    FindMatchingFieldReadsOnlyVars(m.name, fs, gs);
    ShapesReadOnlyVars(m, fs, gs);
  }

  /** The plugin never gives a verdict that the scan would discard. */
  lemma VerdictOfClassify(m: Method, fields: seq<Field>)
    ensures Verdict(Classify, m, fields) == Classify(m, fields)
  {
  }

  /** One file as the plugin rewrites it. */
  function RewriteUnit(u: Unit): FileResult {
    RewriteWith(Classify, u)
  }

  /** One file rewritten with the intended setter test. */
  function RewriteUnitIntended(u: Unit): FileResult {
    RewriteWith(ClassifyIntended, u)
  }

  /** What a rewrite does to a file: the same classes in the same order,
      each keeping exactly its non-accessor methods; one record per removed
      accessor, class after class; a field carries a marker afterwards
      exactly when it did before or an accessor of that kind of it was
      removed, and gains only absent markers; and `lombok.Getter` /
      `lombok.Setter` is imported afterwards exactly when it was before or
      some removed accessor of that kind belonged to a field that lacked
      the marker. */
  lemma RewriteUnitMeaning(u: Unit, k: Kind)
    ensures var r := RewriteUnit(u);
            |r.unit.classes| == |u.classes| &&
            (forall j :: 0 <= j < |u.classes| ==> ClassRewritten(Classify, u.classes[j], r.unit.classes[j])) &&
            r.entries == AllRemovals(Classify, u.classes) &&
            Grown(u.imports, r.unit.imports, MarkerImports) &&
            (ImportOf(k) in r.unit.imports <==> ImportOf(k) in u.imports || NeedsMarker(Classify, k, u.classes))
  {
    ClassifyReadsOnlyVars();
    RewriteClasses(Classify, u);
    RewriteEntries(Classify, u);
    RewriteImports(Classify, u, k);
    ClassGainedIffNeeded(Classify, k, u.classes, RewriteUnit(u).unit.classes);
  }

  /** After the rewrite, a field declaration carries `@Getter` (or
      `@Setter`) exactly when it did before or its class had a trivial
      getter (or setter) of it: a field with both accessors ends with both
      markers, and a field without any keeps its annotations. */
  lemma RewriteUnitMarkers(u: Unit, j: nat, i: nat, k: Kind)
    requires j < |u.classes| && i < |u.classes[j].fields|
    ensures var c := u.classes[j];
            var r := RewriteUnit(u).unit;
            j < |r.classes| && i < |r.classes[j].fields| &&
            (MarkerOf(k) in r.classes[j].fields[i].annotations <==>
               MarkerOf(k) in c.fields[i].annotations ||
               exists m :: m in c.methods && Classify(m, c.fields) == Some(Match(k, i)))
  {
    RewriteUnitMeaning(u, k);
    var c := u.classes[j];
    var d := RewriteUnit(u).unit.classes[j];
    assert ClassRewritten(Classify, c, d);
    forall m | m in c.methods ensures Verdict(Classify, m, c.fields) == Classify(m, c.fields) {
      VerdictOfClassify(m, c.fields);
    }
    assert MarkerOf(k) in d.fields[i].annotations <==>
             MarkerOf(k) in c.fields[i].annotations || Targeted(Classify, k, i, c.methods, c.fields);
  }

  /** A field declaration that carried a marker at most once still carries
      it at most once after the rewrite, however many accessors of it were
      removed; and a marker it already had is never added again. */
  lemma RewriteUnitKeepsSingleMarkers(u: Unit, j: nat, i: nat, k: Kind)
    requires j < |u.classes| && i < |u.classes[j].fields|
    ensures var r := RewriteUnit(u).unit;
            j < |r.classes| && i < |r.classes[j].fields| &&
            var before := u.classes[j].fields[i].annotations;
            var after := r.classes[j].fields[i].annotations;
            (multiset(before)[MarkerOf(k)] <= 1 ==> multiset(after)[MarkerOf(k)] <= 1) &&
            (MarkerOf(k) in before ==> multiset(after)[MarkerOf(k)] == multiset(before)[MarkerOf(k)])
  {
    RewriteUnitMeaning(u, k);
    var r := RewriteUnit(u).unit;
    assert ClassRewritten(Classify, u.classes[j], r.classes[j]);
    var before := u.classes[j].fields[i].annotations;
    var after := r.classes[j].fields[i].annotations;
    assert Grown(before, after, MarkerNames);
    GrownKeepsSingleMarkers(before, after, MarkerNames, MarkerOf(k));
  }

  /** Running the plugin again on a file it has rewritten changes nothing
      and records nothing. */
  lemma RewriteUnitIdempotent(u: Unit)
    ensures RewriteUnit(RewriteUnit(u).unit) == FileResult(RewriteUnit(u).unit, [])
  {
    ClassifyReadsOnlyVars();
    RewriteIdempotent(Classify, u);
  }

  /** A file yields ledger entries exactly when its rewrite differs from it. */
  lemma RewriteUnitChangesIffEntries(u: Unit)
    ensures RewriteUnit(u).entries != [] <==> RewriteUnit(u).unit != u
  {
    ClassifyReadsOnlyVars();
    NoEntriesIffUnchanged(Classify, u);
  }

  /** The intended rewrite keeps the same guarantees. */
  lemma RewriteUnitIntendedIdempotent(u: Unit)
    ensures RewriteUnitIntended(RewriteUnitIntended(u).unit) == FileResult(RewriteUnitIntended(u).unit, [])
    ensures RewriteUnitIntended(u).entries != [] <==> RewriteUnitIntended(u).unit != u
  {
    ClassifyIntendedReadsOnlyVars();
    RewriteIdempotent(ClassifyIntended, u);
    NoEntriesIffUnchanged(ClassifyIntended, u);
  }

  // ---------------------------------------------------------------------
  // Small files.

  /** `class Person { String name; String getName() { return name; } }`
      loses its getter, gains `@Getter` on `name` and the `lombok.Getter`
      import, and records `Getter -> field: Person.name`. */
  lemma PersonGetter()
    ensures var getName := Method("getName", [], Some([Return(Some(Name("name")))]));
            var u := Unit([Class("Person", [Field(["name"], [])], [getName])], []);
            var r := RewriteUnit(u);
            r.unit == Unit([Class("Person", [Field(["name"], ["Getter"])], [])], ["lombok.Getter"]) &&
            FormatAll(r.entries) == ["Getter -> field: Person.name"]
  {
    var getName := Method("getName", [], Some([Return(Some(Name("name")))]));
    var fields := [Field(["name"], [])];
    var rec := Record(Getter, "Person", "name");
    var u := Unit([Class("Person", fields, [getName])], []);
    PersonClasses();
    assert RewriteUnit(u) ==
           FileResult(Unit([Class("Person", [Field(["name"], ["Getter"])], [])], ["lombok.Getter"]), [rec]);
    assert FormatAll([rec]) == [Format(rec)];
    assert Format(rec) == "Getter -> field: Person.name";
  }

  /** The class scan of the `Person` unit. */
  lemma PersonClasses()
    ensures var getName := Method("getName", [], Some([Return(Some(Name("name")))]));
            ScanClasses(Classify, UnitScan([], [], []), [Class("Person", [Field(["name"], [])], [getName])]) ==
            UnitScan([Class("Person", [Field(["name"], ["Getter"])], [])], ["lombok.Getter"],
                     [Record(Getter, "Person", "name")])
  {
    var getName := Method("getName", [], Some([Return(Some(Name("name")))]));
    var us := UnitScan([], [], []);
    var c := Class("Person", [Field(["name"], [])], [getName]);
    PersonScan();
    var v := VisitClass(Classify, us, c);
    assert v == UnitScan([Class("Person", [Field(["name"], ["Getter"])], [])], ["lombok.Getter"],
                         [Record(Getter, "Person", "name")]);
    assert [c][1..] == [];
  }

  /** The method scan of `Person`: the getter goes, `name` gains `@Getter`,
      the import comes with it, and one record is made. */
  lemma PersonScan()
    ensures var getName := Method("getName", [], Some([Return(Some(Name("name")))]));
            ScanMethods(Classify, "Person", Scan([Field(["name"], [])], [], [], []), [getName]) ==
            Scan([Field(["name"], ["Getter"])], [], ["lombok.Getter"], [Record(Getter, "Person", "name")])
  {
    var getName := Method("getName", [], Some([Return(Some(Name("name")))]));
    var fields := [Field(["name"], [])];
    GetNameIsGetter();
    VerdictOfClassify(getName, fields);
    assert AddImport([], "lombok.Getter") == ["lombok.Getter"];
    var marked := Field(["name"], ["Getter"]);
    assert [] + ["Getter"] == ["Getter"];
    assert fields[0 := marked] == [marked];
    var s := Visit(Classify, "Person", Scan(fields, [], [], []), getName);
    assert s == Scan([marked], [], ["lombok.Getter"], [Record(Getter, "Person", "name")]);
    assert [getName][1..] == [];
  }

  lemma GetNameIsGetter()
    ensures Classify(Method("getName", [], Some([Return(Some(Name("name")))])), [Field(["name"], [])]) ==
            Some(Match(Getter, 0))
  {
    var getName := Method("getName", [], Some([Return(Some(Name("name")))]));
    var fields := [Field(["name"], [])];
    assert StartsWith(getName.name, "get") && getName.name[3..] == "Name";
    assert Decapitalize("Name") == "name" by {
      assert LowerChar('N') == 'n';
    }
    assert AccessorPrefix(getName.name) == "get";
    assert FindField(fields, "name") == Some(0);
    ClassifyGetter(getName, fields, 0);
  }

  /** `setFoo(v) { this.bar = 42; }` in a class declaring `foo` and `bar`
      is removed as a setter of `foo` although it neither writes `foo` nor
      stores its parameter; the intended test leaves it alone. */
  lemma SetterAcceptsUnrelatedFieldWrite()
    ensures var m := Method("setFoo", ["v"], Some([ExprStmt(Assign(FieldAccess(This, "bar"), Plain, OtherExpr))]));
            var fields := [Field(["foo"], []), Field(["bar"], [])];
            Classify(m, fields) == Some(Match(Setter, 0)) && ClassifyIntended(m, fields).None?
  {
    var m := Method("setFoo", ["v"], Some([ExprStmt(Assign(FieldAccess(This, "bar"), Plain, OtherExpr))]));
    var fields := [Field(["foo"], []), Field(["bar"], [])];
    assert StartsWith(m.name, "set") && m.name[3..] == "Foo";
    assert AccessorPrefix(m.name) == "set";
    assert SetterFieldName(m.name) == "foo" by {
      assert LowerChar('F') == 'f';
    }
    assert FindField(fields, "foo") == Some(0);
    ClassifySetter(m, fields, 0);
  }

  /** `setCount(n) { count += n; }` in a class declaring `count` is
      removed as a setter of `count`: the written test never looks at the
      operator. The intended test leaves it alone. */
  lemma SetterAcceptsCompoundAssignment()
    ensures var m := Method("setCount", ["n"], Some([ExprStmt(Assign(Name("count"), Compound("+="), Name("n")))]));
            var fields := [Field(["count"], [])];
            Classify(m, fields) == Some(Match(Setter, 0)) && ClassifyIntended(m, fields).None?
  {
    var m := Method("setCount", ["n"], Some([ExprStmt(Assign(Name("count"), Compound("+="), Name("n")))]));
    var fields := [Field(["count"], [])];
    assert StartsWith(m.name, "set") && m.name[3..] == "Count";
    assert AccessorPrefix(m.name) == "set";
    assert SetterFieldName(m.name) == "count" by {
      assert LowerChar('C') == 'c';
    }
    assert FindField(fields, "count") == Some(0);
    ClassifySetter(m, fields, 0);
  }

  /** `setName(name) { name = name; }` in a class declaring `name` is
      removed as a setter of `name`, although the bare target is the
      parameter, which shadows the field, so the method writes nothing the
      object keeps. The intended test leaves it alone. */
  lemma SetterAcceptsSelfAssignment()
    ensures var m := Method("setName", ["name"], Some([ExprStmt(Assign(Name("name"), Plain, Name("name")))]));
            var fields := [Field(["name"], [])];
            Classify(m, fields) == Some(Match(Setter, 0)) && ClassifyIntended(m, fields).None?
  {
    var m := Method("setName", ["name"], Some([ExprStmt(Assign(Name("name"), Plain, Name("name")))]));
    var fields := [Field(["name"], [])];
    assert StartsWith(m.name, "set") && m.name[3..] == "Name";
    assert AccessorPrefix(m.name) == "set";
    assert SetterFieldName(m.name) == "name" by {
      assert LowerChar('N') == 'n';
    }
    assert FindField(fields, "name") == Some(0);
    ClassifySetter(m, fields, 0);
  }

  /** `getFullName() { return first; }` is left alone: its name derives the
      field `fullName`, which the class does not declare. */
  lemma UndeclaredFieldNotAnAccessor()
    ensures var m := Method("getFullName", [], Some([Return(Some(Name("first")))]));
            Classify(m, [Field(["first"], []), Field(["last"], [])]).None?
  {
    var m := Method("getFullName", [], Some([Return(Some(Name("first")))]));
    assert StartsWith(m.name, "get") && m.name[3..] == "FullName";
    PrefixesExclusive(m.name);
    assert Decapitalize("FullName") == "fullName" by {
      assert LowerChar('F') == 'f';
    }
    assert DeriveFieldName(m.name) == Some("fullName");
  }
}
