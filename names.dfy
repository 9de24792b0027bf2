/** Field resolution: from an accessor's name to the field it accesses.
    `Decapitalize`, `DeriveFieldName` and `FindMatchingField` follow the
    plugin's helpers of the same names; `FindField` is the parser's lookup of
    a field declaration by variable name. */
module Names {
  import opened Ast

  predicate StartsWith(s: string, prefix: string) {
    |prefix| <= |s| && s[..|prefix|] == prefix
  }

  predicate IsUpper(c: char) {
    'A' <= c <= 'Z'
  }

  /** Lower-casing of one character, restricted to ASCII letters. */
  function LowerChar(c: char): char {
    if IsUpper(c) then (c as int + 32) as char else c
  }

  /** Lower-cases the first character and keeps the rest; the empty string
      comes back unchanged. */
  function Decapitalize(s: string): (r: string)
    ensures |r| == |s|
    ensures forall i :: 0 < i < |s| ==> r[i] == s[i]
    ensures s != [] ==> !IsUpper(r[0])
    ensures s != [] && !IsUpper(s[0]) ==> r[0] == s[0]
    ensures s != [] && IsUpper(s[0]) ==> r[0] as int == s[0] as int + 32
  {
    if s == [] then s else [LowerChar(s[0])] + s[1..]
  }

  lemma DecapitalizeIdempotent(s: string)
    ensures Decapitalize(Decapitalize(s)) == Decapitalize(s)
  {
    var r := Decapitalize(s);
    if s != [] {
      assert r == [r[0]] + r[1..];
      assert Decapitalize(r) == [LowerChar(r[0])] + r[1..];
    }
  }

  /** Candidate field name of an accessor name: the tests for `get`, `is`
      and `set` run one after another and the last one that applies wins;
      a name that is exactly a prefix yields nothing. */
  function DeriveFieldName(name: string): Option<string> {
    var afterGet := if StartsWith(name, "get") && |name| > 3 then Some(Decapitalize(name[3..])) else None;
    var afterIs := if StartsWith(name, "is") && |name| > 2 then Some(Decapitalize(name[2..])) else afterGet;
    if StartsWith(name, "set") && |name| > 3 then Some(Decapitalize(name[3..])) else afterIs
  }

  /** Reference definition: the accessor prefix a name starts with, or the
      empty string when it starts with none of them. */
  function AccessorPrefix(name: string): (p: string)
    ensures p in {"", "get", "is", "set"}
    ensures p != "" ==> StartsWith(name, p)
  {
    if StartsWith(name, "get") then "get"
    else if StartsWith(name, "is") then "is"
    else if StartsWith(name, "set") then "set"
    else ""
  }

  /** No name starts with two of the three accessor prefixes. */
  lemma PrefixesExclusive(name: string)
    ensures !(StartsWith(name, "get") && StartsWith(name, "is"))
    ensures !(StartsWith(name, "get") && StartsWith(name, "set"))
    ensures !(StartsWith(name, "is") && StartsWith(name, "set"))
  {
    if StartsWith(name, "get") { assert name[0] == name[..3][0] == 'g'; }
    if StartsWith(name, "is") { assert name[0] == name[..2][0] == 'i'; }
  }

  /** `DeriveFieldName` yields nothing exactly when the name has no accessor
      prefix or is nothing but the prefix; otherwise it yields the remainder
      after the prefix, decapitalized. */
  lemma DeriveFieldNameSpec(name: string)
    ensures DeriveFieldName(name).None? <==> AccessorPrefix(name) == "" || name == AccessorPrefix(name)
    ensures DeriveFieldName(name).Some? ==>
              DeriveFieldName(name).value == Decapitalize(name[|AccessorPrefix(name)|..])
  {
    PrefixesExclusive(name);
    var p := AccessorPrefix(name);
    if p != "" {
      assert name[..|p|] == p;
      assert |name| == |p| ==> name == p;
    }
  }

  /** The first field declaration that declares a variable called `n`. */
  function FindField(fields: seq<Field>, n: string): (r: Option<nat>)
    ensures r.Some? ==> r.value < |fields| && n in fields[r.value].vars
    ensures r.Some? ==> forall j :: 0 <= j < r.value ==> n !in fields[j].vars
    ensures r.None? <==> forall j :: 0 <= j < |fields| ==> n !in fields[j].vars
  {
    if fields == [] then None
    else if n in fields[0].vars then Some(0)
    else match FindField(fields[1..], n)
      case None => None
      case Some(k) => Some(k + 1)
  }

  /** The field declaration an accessor name refers to, if any. */
  function FindMatchingField(name: string, fields: seq<Field>): (r: Option<nat>)
    ensures DeriveFieldName(name).Some? ==> r == FindField(fields, DeriveFieldName(name).value)
    ensures r.Some? ==> r.value < |fields| && fields[r.value].vars != []
    ensures DeriveFieldName(name).None? ==> r.None?
  {
    match DeriveFieldName(name)
    case None => None
    case Some(f) => FindField(fields, f)
  }

  /** Two field lists that declare the same variables, position by position. */
  predicate SameVars(fs: seq<Field>, gs: seq<Field>) {
    |fs| == |gs| && forall i :: 0 <= i < |fs| ==> fs[i].vars == gs[i].vars
  }

  /** The field an accessor name refers to depends only on the variable
      names of the fields. */
  lemma FindMatchingFieldReadsOnlyVars(name: string, fs: seq<Field>, gs: seq<Field>)
    requires SameVars(fs, gs)
    ensures FindMatchingField(name, fs) == FindMatchingField(name, gs)
  {
    if DeriveFieldName(name).Some? {
      FindFieldReadsOnlyVars(fs, gs, DeriveFieldName(name).value);
    }
  }

  /** Field lookup reads only the variable names, never the annotations. */
  lemma {:induction false} FindFieldReadsOnlyVars(fs: seq<Field>, gs: seq<Field>, n: string)
    requires SameVars(fs, gs)
    ensures FindField(fs, n) == FindField(gs, n)
  {
    if fs != [] {
      assert fs[0].vars == gs[0].vars;
      FindFieldReadsOnlyVars(fs[1..], gs[1..], n);
    }
  }
}
