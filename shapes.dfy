/** The structural tests that decide whether a method is a trivial getter or
    a trivial setter, as the plugin writes them, and a corrected setter test
    that accepts only a setter storing its own parameter into the field its
    name derives. */
module Shapes {
  import opened Ast
  import opened Names

  /** A getter: named `get…` or `is…`, no parameters, and a body made of one
      `return` of a bare name that equals the derived field name, where that
      field exists. The field name is taken after `is` for an `is…` name and
      after `get` otherwise. */
  predicate IsTrivialGetter(m: Method, fields: seq<Field>) {
    if (StartsWith(m.name, "get") || StartsWith(m.name, "is")) && m.params == [] then
      var basic := StartsWith(m.name, "is");
      if m.body.None? then false
      else if |m.body.value| != 1 then false
      else if !m.body.value[0].Return? then false
      else if m.body.value[0].result.None? then false
      else
        var fieldName := if basic then Decapitalize(m.name[2..]) else Decapitalize(m.name[3..]);
        var e := m.body.value[0].result.value;
        FindField(fields, fieldName).Some? && e.Name? && e.id == fieldName
    else
      false
  }

  /** The field name a getter named `name` must return. */
  function GetterFieldName(name: string): string
    requires StartsWith(name, "get") || StartsWith(name, "is")
  {
    if StartsWith(name, "is") then Decapitalize(name[2..]) else Decapitalize(name[3..])
  }

  /** A getter is accepted exactly when its whole body is `return f;` for the
      derived field name `f`, it has no parameters and `f` names a field:
      more statements, no body, `return;`, `return this.f;` or any other
      expression are all refused. */
  lemma GetterShape(m: Method, fields: seq<Field>)
    ensures IsTrivialGetter(m, fields) <==>
              (StartsWith(m.name, "get") || StartsWith(m.name, "is")) && m.params == [] &&
              m.body == Some([Return(Some(Name(GetterFieldName(m.name))))]) &&
              FindField(fields, GetterFieldName(m.name)).Some?
  {
    if IsTrivialGetter(m, fields) {
      var b := m.body.value;
      assert b == [b[0]];
    }
  }

  /** A setter as the plugin tests it. The class is not consulted. Because
      `&&` binds tighter than `||`, an assignment whose target is any field
      access is accepted with no check on the names, the value or the
      operator; only a bare-name target is compared with the field name and
      the value with the parameter. */
  predicate IsTrivialSetter(m: Method) {
    if !StartsWith(m.name, "set") || |m.params| != 1 then false
    else if m.body.None? then false
    else if |m.body.value| != 1 then false
    else if !m.body.value[0].ExprStmt? then false
    else if !m.body.value[0].expr.Assign? then false
    else
      var assign := m.body.value[0].expr;
      var fieldName := Decapitalize(m.name[3..]);
      assign.target.FieldAccess? ||
        (assign.target.Name? && assign.target.id == fieldName &&
         assign.value.Name? && assign.value.id == m.params[0])
  }

  /** The derived field name of a setter named `name`. */
  function SetterFieldName(name: string): string
    requires StartsWith(name, "set")
  {
    Decapitalize(name[3..])
  }

  /** A setter is accepted exactly when it is named `set…`, takes one
      parameter and its whole body is one assignment statement whose target
      is a field access (anything else unchecked) or the bare field name with
      the bare parameter name as value. */
  lemma SetterShape(m: Method)
    ensures IsTrivialSetter(m) <==>
              StartsWith(m.name, "set") && |m.params| == 1 && m.body.Some? &&
              |m.body.value| == 1 && m.body.value[0].ExprStmt? && m.body.value[0].expr.Assign? &&
              var a := m.body.value[0].expr;
              (a.target.FieldAccess? ||
               (a.target == Name(SetterFieldName(m.name)) && a.value == Name(m.params[0])))
  {
  }

  /** Both tests that consult the fields read only their variable names. */
  lemma ShapesReadOnlyVars(m: Method, fs: seq<Field>, gs: seq<Field>)
    requires SameVars(fs, gs)
    ensures IsTrivialGetter(m, fs) == IsTrivialGetter(m, gs)
    ensures IsTrivialSetterIntended(m, fs) == IsTrivialSetterIntended(m, gs)
  {
    GetterShape(m, fs);
    GetterShape(m, gs);
    if StartsWith(m.name, "get") || StartsWith(m.name, "is") {
      FindFieldReadsOnlyVars(fs, gs, GetterFieldName(m.name));
    }
    if StartsWith(m.name, "set") {
      FindFieldReadsOnlyVars(fs, gs, SetterFieldName(m.name));
    }
  }

  /** No method passes both tests: a getter needs a `get`/`is` name and no
      parameter, a setter a `set` name and one parameter. */
  lemma GetterSetterExclusive(m: Method, fields: seq<Field>)
    ensures !(IsTrivialGetter(m, fields) && IsTrivialSetter(m))
  {
    PrefixesExclusive(m.name);
  }

  /** The corrected setter test: the target is the field, as `this.<field>`
      or as a bare name that the parameter does not shadow, the operator is
      plain `=`, the value is the bare parameter name, and the field exists. */
  predicate IsTrivialSetterIntended(m: Method, fields: seq<Field>) {
    StartsWith(m.name, "set") && |m.params| == 1 &&
    var f := SetterFieldName(m.name);
    FindField(fields, f).Some? &&
    ((m.params[0] != f && m.body == Some([ExprStmt(Assign(Name(f), Plain, Name(m.params[0])))])) ||
     m.body == Some([ExprStmt(Assign(FieldAccess(This, f), Plain, Name(m.params[0])))]))
  }

  /** The intended test only narrows the written one: whatever it accepts,
      the written test accepts too. */
  lemma IntendedSetterNarrowsWritten(m: Method, fields: seq<Field>)
    ensures IsTrivialSetterIntended(m, fields) ==> IsTrivialSetter(m)
  {
  }

  /** Under the intended test an accepted setter writes exactly its own
      parameter into exactly the field its name derives, with plain `=`; a
      bare-name target is never the parameter itself, which would shadow
      the field. */
  lemma IntendedSetterIsExact(m: Method, fields: seq<Field>)
    requires IsTrivialSetterIntended(m, fields)
    ensures |m.params| == 1 && m.body.Some? && |m.body.value| == 1
    ensures var s := m.body.value[0];
            s.ExprStmt? && s.expr.Assign? && s.expr.op == Plain && s.expr.value == Name(m.params[0])
    ensures var t := m.body.value[0].expr.target;
            t == Name(SetterFieldName(m.name)) || t == FieldAccess(This, SetterFieldName(m.name))
    ensures var t := m.body.value[0].expr.target;
            t.Name? ==> t.id != m.params[0]
  {
  }
}
