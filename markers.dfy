/** The vocabulary of a rewrite: the two accessor kinds, the annotation and
    import each one introduces, and the ledger line it records. */
module Markers {
  import opened Ast
  import opened Names
  import opened Seqs

  datatype Kind = Getter | Setter

  /** The annotation that replaces an accessor of kind `k`. */
  function MarkerOf(k: Kind): string {
    match k
    case Getter => "Getter"
    case Setter => "Setter"
  }

  /** The import that the marker annotation needs. */
  function ImportOf(k: Kind): string {
    match k
    case Getter => "lombok.Getter"
    case Setter => "lombok.Setter"
  }

  const MarkerNames: set<string> := {"Getter", "Setter"}
  const MarkerImports: set<string> := {"lombok.Getter", "lombok.Setter"}

  lemma KindsDistinct(k: Kind, k': Kind)
    ensures MarkerOf(k) in MarkerNames && ImportOf(k) in MarkerImports
    ensures k != k' ==> MarkerOf(k) != MarkerOf(k') && ImportOf(k) != ImportOf(k')
  {
  }

  /** What one removal records: the accessor kind, the class and the first
      variable of the field declaration that received the marker. */
  datatype Record = Record(kind: Kind, className: string, varName: string)

  const GetterLead: string := "Getter -> field: "
  const SetterLead: string := "Setter -> field: "

  function Lead(k: Kind): (r: string)
    ensures |r| == 17 && r[..6] == MarkerOf(k)
  {
    match k
    case Getter => GetterLead
    case Setter => SetterLead
  }

  /** The ledger line of a record: `<Getter|Setter> -> field: <Class>.<var>`. */
  function Format(r: Record): string {
    Lead(r.kind) + r.className + "." + r.varName
  }

  /** The ledger lines of several records, in order. */
  function FormatAll(rs: seq<Record>): (r: seq<string>)
    ensures |r| == |rs|
    decreases |rs|
  {
    if rs == [] then [] else FormatAll(rs[..|rs| - 1]) + [Format(rs[|rs| - 1])]
  }

  /** The line at position `i` is the line of the record at position `i`. */
  lemma {:induction false} FormatAllAt(rs: seq<Record>, i: nat)
    requires i < |rs|
    ensures FormatAll(rs)[i] == Format(rs[i])
    decreases |rs|
  {
    var n := |rs| - 1;
    if i < n {
      FormatAllAt(rs[..n], i);
    }
  }

  /** The lines of two record lists one after the other. */
  lemma {:induction false} FormatAllAppend(rs: seq<Record>, ts: seq<Record>)
    ensures FormatAll(rs + ts) == FormatAll(rs) + FormatAll(ts)
    decreases |ts|
  {
    if ts == [] {
      assert rs + ts == rs;
    } else {
      var ts' := ts[..|ts| - 1];
      LastOfAppend(rs, ts);
      FormatAllAppend(rs, ts');
      AppendAssoc(FormatAll(rs), FormatAll(ts'), [Format(ts[|ts| - 1])]);
    }
  }

  /** Position of the first dot, or the length when there is none. */
  function IndexOfDot(s: string): (i: nat)
    ensures i <= |s|
    ensures i < |s| ==> s[i] == '.'
    ensures forall j :: 0 <= j < i ==> s[j] != '.'
    decreases |s|
  {
    if s == [] then 0 else if s[0] == '.' then 0 else 1 + IndexOfDot(s[1..])
  }

  /** Reads a ledger line back into its record. */
  function ParseEntry(e: string): Option<Record> {
    var kind := if StartsWith(e, GetterLead) then Some(Getter)
                else if StartsWith(e, SetterLead) then Some(Setter)
                else None;
    if kind.None? then None
    else
      var rest := e[17..];
      var d := IndexOfDot(rest);
      if d == |rest| then None else Some(Record(kind.value, rest[..d], rest[d + 1..]))
  }

  /** A ledger line determines its record whenever the class name has no
      dot, as Java identifiers never do. */
  lemma {:induction false} ParseFormat(r: Record)
    requires '.' !in r.className
    ensures ParseEntry(Format(r)) == Some(r)
  {
    var e := Format(r);
    var lead := Lead(r.kind);
    assert e == lead + (r.className + "." + r.varName);
    assert e[..17] == lead;
    var rest := e[17..];
    assert rest == r.className + "." + r.varName;
    assert r.kind == Getter ==> !StartsWith(e, SetterLead) && StartsWith(e, GetterLead);
    assert r.kind == Setter ==> !StartsWith(e, GetterLead) by {
      if r.kind == Setter { assert e[0] == 'S'; assert GetterLead[0] == 'G'; }
    }
    var d := IndexOfDot(rest);
    assert rest[|r.className|] == '.';
    assert d == |r.className| by {
      forall j | 0 <= j < |r.className| ensures rest[j] != '.' {
        assert rest[j] == r.className[j];
      }
    }
    assert rest[..d] == r.className;
    assert rest[d + 1..] == r.varName;
  }

  /** Appends an import unless the unit already has it. */
  function AddImport(imports: seq<string>, s: string): (r: seq<string>)
    ensures forall x :: x in r <==> x in imports || x == s
    ensures s in imports ==> r == imports
    ensures s !in imports ==> |r| == |imports| + 1 && r[..|imports|] == imports
  {
    if s in imports then imports else imports + [s]
  }

  /** The verdict on one method: which accessor kind it is and which field
      declaration (by position in its class) it accesses. */
  datatype Match = Match(kind: Kind, field: nat)
}
