# Lombocator accessor rewriter, modelled in Dafny

Lombocator is a Maven plugin. It walks a project's Java sources and finds
trivial getters and setters. It deletes each one and puts Lombok's `@Getter`
or `@Setter` annotation on the field it accessed, adding the matching
`lombok.Getter` / `lombok.Setter` import. Each deletion is recorded as one
ledger line, `Getter -> field: <Class>.<variable>`. After a file that parsed
has been processed, it is backed up and written back whenever the run's
ledger is not empty; a file that failed to parse is never written. At the
end, the ledger is rendered as an HTML report.

The model keeps the plugin's own structure:

- `Ast` is the fragment of the Java syntax tree that the plugin reads and
  changes: expressions, statements, methods, field declarations, classes and
  compilation units.
- `Names` models `decapitalize`, the prefix tests of `findMatchingField`, and
  the parser's look-up of a field declaration by variable name.
- `Shapes` models `isTrivialGetter` and `isTrivialSetter` exactly as written,
  including the operator precedence of the setter test. It also holds a
  corrected setter test, which accepts only a setter that stores its own
  parameter into the field its name derives, with plain `=`.
- `Markers` holds the annotation and import names, the ledger line format
  with its parser, and the import list's add-if-absent.
- `Scanning` is the rewrite of one compilation unit as functions, generic in
  the accessor test. It visits classes in order and each class's methods
  over a snapshot of its method list. It also holds reference definitions:
  which methods stay, and which records are made. The lemmas connect the
  scan to those definitions.
- `Rewrite` instantiates the scan with the plugin's verdict: field look-up
  first, then the getter test, then the setter test.
- `Report` models the HTML report text.
- `Engine` is the plugin object. Its `reportEntries` ledger is a field that
  its methods update in place. `ProcessClass`, `ProcessFile`, `Execute` and
  `GenerateHtmlReport` are methods with loops. Each loop is proved against
  the scan functions: `VisitMethod` is one pass of the inner loop, and
  `ScanStep`, `ClassTurn` and `FileTurn` are the bodies of the three loops.
- `Seqs` holds general facts about sequences that the proofs use.

The model follows the code as written. Where the code evidently does not do
what it means to, the model proves the discrepancy and a corrected version
separately (see "Findings"). The setter test accepts any assignment to a
field access; it accepts an assignment of the parameter to the bare field
name whatever its operator, and even when the parameter has the field's
own name and so shadows it. A trivial setter stores its own parameter into
the field its name derives. The write-back test
looks at the ledger of the whole run, where only a file this run changed
needs a backup and a rewrite.

## Model

| member | source | states |
|---|---|---|
| Names.Decapitalize | src/main/java/pl/tomekkup/LombocatorMavenPojo.java:174-177 | The empty string comes back unchanged. Otherwise the length and every character after the first are kept. The first character is lowered: an upper-case ASCII letter moves by 32, anything else stays. |
| Names.DecapitalizeIdempotent | src/main/java/pl/tomekkup/LombocatorMavenPojo.java:174-177 | Decapitalizing a second time changes nothing. |
| Names.AccessorPrefix | src/main/java/pl/tomekkup/LombocatorMavenPojo.java:111-121 | Reference definition: the one accessor prefix (`get`, `is`, `set`) a name starts with, or none. |
| Names.PrefixesExclusive | src/main/java/pl/tomekkup/LombocatorMavenPojo.java:111-121 | No name starts with two of `get`, `is`, `set`, so at most one of the three sequential tests fires. |
| Names.DeriveFieldNameSpec | src/main/java/pl/tomekkup/LombocatorMavenPojo.java:109-124 | No field name is derived exactly when the name has no accessor prefix or is nothing but the prefix. Otherwise the derived name is the decapitalized remainder after the prefix. |
| Names.FindField | src/main/java/pl/tomekkup/LombocatorMavenPojo.java:126 | The look-up returns the first field declaration that declares the variable, with none before it declaring it. It finds nothing exactly when no declaration declares it. |
| Names.FindMatchingField | src/main/java/pl/tomekkup/LombocatorMavenPojo.java:103-127 | Whenever a field name is derived, the match is the first declaration declaring that name, or none when no declaration declares it. No derived name gives no match. A match always has at least one variable. |
| Names.FindMatchingFieldReadsOnlyVars | src/main/java/pl/tomekkup/LombocatorMavenPojo.java:103-127 | The match depends only on the variable names of the fields, never on their annotations. |
| Shapes.GetterShape | src/main/java/pl/tomekkup/LombocatorMavenPojo.java:129-150 | A method passes the getter test exactly when all of these hold: it is named `get…`/`is…`; it has no parameters; its whole body is `return f;` for the derived field name `f`; and some field declares `f`. More statements, no body, `return;` and any other returned expression all fail. |
| Shapes.SetterShape | src/main/java/pl/tomekkup/LombocatorMavenPojo.java:152-172 | A method passes the setter test exactly when it is named `set…`, has one parameter, and its whole body is one assignment statement. The target is then either any field access, or the bare derived field name with the bare parameter name as the value. |
| Shapes.GetterSetterExclusive | src/main/java/pl/tomekkup/LombocatorMavenPojo.java:63-86 | No method passes both tests. |
| Shapes.ShapesReadOnlyVars | src/main/java/pl/tomekkup/LombocatorMavenPojo.java:129-150 | The getter test reads only the variable names of the fields. |
| Shapes.IntendedSetterNarrowsWritten | src/main/java/pl/tomekkup/LombocatorMavenPojo.java:152-172 | Every method the intended setter test accepts, the written test accepts too. |
| Shapes.IntendedSetterIsExact | src/main/java/pl/tomekkup/LombocatorMavenPojo.java:152-172 | The intended test accepts only one plain `=`. It must store the sole parameter into the derived field, written as `this.<field>` or as a bare name. A bare-name target is never the parameter's own name, which would shadow the field. |
| Markers.KindsDistinct | src/main/java/pl/tomekkup/LombocatorMavenPojo.java:65-80 | The two kinds use different annotations and different imports. |
| Markers.FormatAll | src/main/java/pl/tomekkup/LombocatorMavenPojo.java:71-73 | There is one ledger line per record. |
| Markers.FormatAllAt | src/main/java/pl/tomekkup/LombocatorMavenPojo.java:83-85 | Line `i` of the ledger is the line of record `i`. |
| Markers.FormatAllAppend | src/main/java/pl/tomekkup/LombocatorMavenPojo.java:71-73 | The lines of two record lists are the lines of the first followed by the lines of the second. |
| Markers.ParseFormat | src/main/java/pl/tomekkup/LombocatorMavenPojo.java:71-73 | A ledger line reads back as the record it was made from, whenever the class name has no dot. |
| Markers.AddImport | src/main/java/pl/tomekkup/LombocatorMavenPojo.java:67 | After adding, exactly the old imports and the new one are present. A present import leaves the list unchanged. An absent one is appended once at the end. |
| Scanning.PartitionMethods | src/main/java/pl/tomekkup/LombocatorMavenPojo.java:52-87 | Every method of a class is either kept or recorded, never both. Kept methods are non-accessors from the original list. |
| Scanning.VisitFrame | src/main/java/pl/tomekkup/LombocatorMavenPojo.java:55-86 | Visiting one method only appends to what came before it: at most the method itself, or one record. |
| Scanning.VisitMarkers | src/main/java/pl/tomekkup/LombocatorMavenPojo.java:65-68 | A visit grows annotations and imports only by absent markers. The marker import appears exactly when it was there before or a field just gained that marker. |
| Scanning.ScanMethodsMeaning | src/main/java/pl/tomekkup/LombocatorMavenPojo.java:52-87 | Scanning a class keeps its variables. The kept methods are exactly its non-accessors, in their original order. The records are one per accessor, in order. |
| Scanning.InPlaceStep | src/main/java/pl/tomekkup/LombocatorMavenPojo.java:52-87 | Removing a visited accessor from the live method list keeps that list equal to the kept methods followed by the unvisited part of the snapshot. So no method is skipped or visited twice. |
| Scanning.ClassesInPlaceStep | src/main/java/pl/tomekkup/LombocatorMavenPojo.java:52-89 | Putting each processed class back in its place keeps the unit scan on course. |
| Scanning.RewriteClasses | src/main/java/pl/tomekkup/LombocatorMavenPojo.java:52-89 | A rewrite keeps the classes and their order. Each class keeps exactly its non-accessors. Its fields gain only absent markers, and a field carries a marker afterwards exactly when it did before or an accessor of that kind of it was removed. |
| Scanning.VisitMarksField | src/main/java/pl/tomekkup/LombocatorMavenPojo.java:63-86 | After one visit, a field carries a marker exactly when it did before or the visited method is an accessor of that kind of that field. |
| Scanning.ScanMethodsMarked | src/main/java/pl/tomekkup/LombocatorMavenPojo.java:52-87 | After a class scan, each field carries a marker exactly when it did before or some method of the snapshot is an accessor of that kind of that field. |
| Scanning.ClassGainedIffNeeded | src/main/java/pl/tomekkup/LombocatorMavenPojo.java:65-80 | Across rewritten classes, some field gained a marker exactly when some removed accessor of that kind belonged to a field that lacked it. |
| Scanning.RewriteEntries | src/main/java/pl/tomekkup/LombocatorMavenPojo.java:71-85 | The records of a file are the removals, class after class. |
| Scanning.RewriteImports | src/main/java/pl/tomekkup/LombocatorMavenPojo.java:65-80 | Imports gain only absent marker imports. A marker import is present afterwards exactly when it was before, or some field gained that marker. |
| Scanning.NoEntriesIffUnchanged | src/main/java/pl/tomekkup/LombocatorMavenPojo.java:52-89 | A file yields no records exactly when its rewrite leaves it unchanged (for any test that reads only variable names). |
| Scanning.RewriteIdempotent | src/main/java/pl/tomekkup/LombocatorMavenPojo.java:52-89 | Rewriting a rewritten file changes nothing and records nothing. |
| Scanning.GrownKeepsSingleMarkers | src/main/java/pl/tomekkup/LombocatorMavenPojo.java:65-68 | Growing only by absent markers never duplicates one. |
| Rewrite.Classify | src/main/java/pl/tomekkup/LombocatorMavenPojo.java:55-86 | The plugin's verdict on a method: the matched field first, then the getter test, then the setter test. A verdict always names an existing declaration with a variable. |
| Rewrite.ClassifyGetter | src/main/java/pl/tomekkup/LombocatorMavenPojo.java:55-75 | A method is removed as a getter of declaration `k` exactly when it is named `get…`/`is…` with something after the prefix, takes no parameter, its body is `return f;` for the derived name `f`, and `k` is the first declaration of `f`. |
| Rewrite.ClassifySetter | src/main/java/pl/tomekkup/LombocatorMavenPojo.java:55-87 | A method is removed as a setter of declaration `k` exactly when it is named `set…` with something after the prefix, passes the written setter test, and `k` is the first declaration of the derived name. |
| Rewrite.ClassifyIntended | src/main/java/pl/tomekkup/LombocatorMavenPojo.java:55-86 | The same verdict with the intended setter test. It always names an existing declaration with a variable. |
| Rewrite.ClassifyIntendedSetter | src/main/java/pl/tomekkup/LombocatorMavenPojo.java:152-172 | Under the intended test, a removed setter stores its own parameter, with plain `=`, into a variable of the very declaration it is matched with. A bare-name target never names the parameter, so the parameter cannot shadow that variable. |
| Rewrite.ClassifyIntendedNarrows | src/main/java/pl/tomekkup/LombocatorMavenPojo.java:152-172 | The intended verdict agrees with the written one wherever it gives one. The two differ only where a written setter verdict becomes none. |
| Rewrite.ClassifyReadsOnlyVars | src/main/java/pl/tomekkup/LombocatorMavenPojo.java:103-172 | The plugin's verdict ignores annotations, so adding a marker never changes a later verdict. |
| Rewrite.RewriteUnitMeaning | src/main/java/pl/tomekkup/LombocatorMavenPojo.java:52-89 | The plugin's rewrite of a file keeps the classes in order, each keeping exactly its non-accessors, with markers placed exactly on the fields of removed accessors. It makes one record per removed accessor, class after class. A marker import is present afterwards exactly when it was before or some removed accessor of that kind belonged to a field lacking the marker. |
| Rewrite.RewriteUnitMarkers | src/main/java/pl/tomekkup/LombocatorMavenPojo.java:63-86 | After the rewrite, a field carries `@Getter` (or `@Setter`) exactly when it did before or its class had a trivial getter (or setter) of it. A field with both accessors ends with both markers. |
| Rewrite.RewriteUnitKeepsSingleMarkers | src/main/java/pl/tomekkup/LombocatorMavenPojo.java:65-80 | A field that started with at most one `Getter` (or `Setter`) annotation ends with at most one, however many accessors of it are removed. A marker it already had is never added again. |
| Rewrite.RewriteUnitIdempotent | src/main/java/pl/tomekkup/LombocatorMavenPojo.java:52-89 | Running the plugin's rewrite again on its own output changes nothing and records nothing. |
| Rewrite.RewriteUnitChangesIffEntries | src/main/java/pl/tomekkup/LombocatorMavenPojo.java:52-89 | A file yields ledger records exactly when the rewrite changes it. |
| Rewrite.RewriteUnitIntendedIdempotent | src/main/java/pl/tomekkup/LombocatorMavenPojo.java:52-89 | The intended rewrite is idempotent too, and changes a file exactly when it records something. |
| Rewrite.PersonGetter | src/main/java/pl/tomekkup/LombocatorMavenPojo.java:52-75 | `class Person { name; getName() { return name; } }` loses its getter. `name` gains `@Getter`, the unit gains `lombok.Getter`, and the ledger reads `Getter -> field: Person.name`. |
| Rewrite.UndeclaredFieldNotAnAccessor | src/main/java/pl/tomekkup/LombocatorMavenPojo.java:103-127 | `getFullName() { return first; }` in a class without `fullName` is left alone. |
| Rewrite.SetterAcceptsUnrelatedFieldWrite | src/main/java/pl/tomekkup/LombocatorMavenPojo.java:167-171 | `setFoo(v) { this.bar = 42; }` in a class declaring `foo` is removed as a setter of `foo`. The corrected verdict leaves it alone. |
| Rewrite.SetterAcceptsCompoundAssignment | src/main/java/pl/tomekkup/LombocatorMavenPojo.java:163-171 | `setCount(n) { count += n; }` in a class declaring `count` is removed as a setter of `count`. The corrected verdict leaves it alone. |
| Rewrite.SetterAcceptsSelfAssignment | src/main/java/pl/tomekkup/LombocatorMavenPojo.java:167-171 | `setName(name) { name = name; }` in a class declaring `name` is removed as a setter of `name`, although its bare target is the parameter, which shadows the field. The corrected verdict leaves it alone. |
| Report.Html | src/main/java/pl/tomekkup/LombocatorMavenPojo.java:179-190 | There is no report exactly when the ledger is empty. |
| Report.ItemsAppend | src/main/java/pl/tomekkup/LombocatorMavenPojo.java:186-188 | The items of two ledgers are the items of the first followed by those of the second. |
| Report.ItemsSplit | src/main/java/pl/tomekkup/LombocatorMavenPojo.java:186-188 | Every ledger line appears as its own item, after the items of the lines before it and before those after it. |
| Engine.Lombocator.VisitMethod | src/main/java/pl/tomekkup/LombocatorMavenPojo.java:55-86 | One pass of the inner loop changes the fields, the imports and the live method list exactly as one visit of the scan does, and appends that visit's ledger lines. |
| Engine.Lombocator.ScanStep | src/main/java/pl/tomekkup/LombocatorMavenPojo.java:53-87 | One turn of the method loop keeps the live class, the imports and the ledger in step with the scan of the snapshot. |
| Engine.Lombocator.ProcessClass | src/main/java/pl/tomekkup/LombocatorMavenPojo.java:52-88 | Walking a class's method snapshot in place ends with the class and imports that the scan yields. The ledger gains exactly the scan's lines. |
| Engine.Lombocator.ClassTurn | src/main/java/pl/tomekkup/LombocatorMavenPojo.java:52-89 | One turn of the class loop keeps the unit and the ledger in step with the unit scan. |
| Engine.Lombocator.ProcessFile | src/main/java/pl/tomekkup/LombocatorMavenPojo.java:48-101 | The ledger gains exactly the file's lines, and nothing for a file that failed to parse. A write happens exactly when the file parsed and the run's ledger is not empty, and it writes the plugin's rewrite over the backed-up original. |
| Engine.Lombocator.FileTurn | src/main/java/pl/tomekkup/LombocatorMavenPojo.java:36-38 | Processing file `i` extends the run ledger by that file's lines, and makes that file's write decision as written. |
| Engine.Lombocator.Execute | src/main/java/pl/tomekkup/LombocatorMavenPojo.java:34-46 | After a run, the ledger is the old one followed by every file's lines in order. There is one write decision per file, each as written, and the report renders the final ledger. |
| Engine.Lombocator.GenerateHtmlReport | src/main/java/pl/tomekkup/LombocatorMavenPojo.java:179-194 | The text written is the report of the current ledger, or nothing when it is empty. |
| Engine.RunEntriesStep | src/main/java/pl/tomekkup/LombocatorMavenPojo.java:36-38 | The run's records up to file `i` are those before it followed by file `i`'s own. |
| Engine.WritesAsWrittenAt | src/main/java/pl/tomekkup/LombocatorMavenPojo.java:91-96 | Position `j` of a run's write decisions is the decision for file `j`. |
| Engine.RunEntriesCover | src/main/java/pl/tomekkup/LombocatorMavenPojo.java:32 | The run's records up to a file include at least as many records as any single earlier file produced: the ledger is never cleared between files. |
| Engine.LaterFilesWrittenBack | src/main/java/pl/tomekkup/LombocatorMavenPojo.java:91-96 | As written, once any file has produced records, every later file that parsed is backed up and written back with its rewrite, whether or not that rewrite changed it. |
| Engine.RemovedInPlace | src/main/java/pl/tomekkup/LombocatorMavenPojo.java:63-86 | For a matched accessor, removing the method, and adding the marker and its import only when the marker is absent, is exactly one visit of the scan. That visit makes one ledger line naming the class and the declaration's first variable. |
| Engine.KeptInPlace | src/main/java/pl/tomekkup/LombocatorMavenPojo.java:55-86 | A method with no matched field, or one that fails both tests, stays where it is. Fields, imports and ledger are unchanged. |
| Engine.WriteIntendedIffChanged | src/main/java/pl/tomekkup/LombocatorMavenPojo.java:91-96 | Under the intended decision, a parsed file is written back exactly when its rewrite differs from it, and then with that rewrite. |
| Engine.PlainUnitUnchanged | src/main/java/pl/tomekkup/LombocatorMavenPojo.java:52-89 | A class without methods comes through the rewrite unchanged and unrecorded. |
| Engine.UnchangedFileWrittenBack | src/main/java/pl/tomekkup/LombocatorMavenPojo.java:91-96 | As written, a file that the rewrite leaves unchanged, processed after a file that produced ledger lines, is still backed up and written back. |

## Left out

- The directory walk and the `.java` suffix filter are file-system I/O. `Execute` takes the sequence of files the walk yields, each already parsed.
- Parsing and printing are the parser library's. A file that fails to parse arrives as `None` and yields nothing, as the catch-and-continue does. A write is returned as the pair (original tree, rewritten tree) rather than as bytes.
- Other failures mid-file: the backup copy, the write, or any other exception inside `processFile` is logged and swallowed. These failures are not modelled; every parsed file completes.
- The report file: `GenerateHtmlReport` returns the text it would write. The writer's `IOException` and its logging are not modelled.
- Nested classes: the parser's `findAll` yields every class declaration, nested ones included. The model takes them as a flat list in that order and does not model a nested class as a member of its outer class.
- Library behaviour taken as a contract: `getFieldByName` returns the first field declaration that declares the name, `addImport` adds an import only if absent, `isAnnotationPresent` compares names exactly, `addAnnotation` appends, and `getMethods` returns a fresh list (the snapshot).
- Lower-casing covers ASCII letters only. Java's `toLowerCase` also lowers other Unicode letters.
- Maven parameter injection, logging and the `TODO` comment on the name of the `basic` variable are not modelled.
- Engine.Lombocator.VisitMethod: it carries out lines 55-86 for the method at one position of the live list, rather than the `method.remove()` of a node. Removal by position is removal of that node, since the position is where the snapshot's method now stands.

## Findings

| source | as written | input that shows it | evidently intended | confidence | as-written member | corrected member |
|---|---|---|---|---|---|---|
| src/main/java/pl/tomekkup/LombocatorMavenPojo.java:167-171 | `a \|\| b && c && d` accepts any assignment whose target is a field access, with no check of the field, the operator or the value | `setFoo(v) { this.bar = 42; }` is removed as a setter of `foo` | a setter must store its own parameter into the field its name derives | not executed | Rewrite.SetterAcceptsUnrelatedFieldWrite | Rewrite.ClassifyIntendedSetter |
| src/main/java/pl/tomekkup/LombocatorMavenPojo.java:163-171 | any `AssignExpr` passes, whatever its operator | `setCount(n) { count += n; }` is removed as a setter of `count` | only plain `=` makes a trivial setter | not executed | Rewrite.SetterAcceptsCompoundAssignment | Shapes.IntendedSetterIsExact |
| src/main/java/pl/tomekkup/LombocatorMavenPojo.java:167-171 | a bare-name target is compared with the derived field name only, and the parameter's own name may be that name | `setName(name) { name = name; }` is removed as a setter of `name` and replaced by a working `@Setter`, although the method assigns the parameter to itself | the bare target must denote the field, not a parameter that shadows it | not executed | Rewrite.SetterAcceptsSelfAssignment | Rewrite.ClassifyIntendedSetter |
| src/main/java/pl/tomekkup/LombocatorMavenPojo.java:91 | the write-back tests the run-wide ledger | a file with no accessors, processed after a file that had one, is backed up and rewritten | back up and rewrite only a file that this run changed | not executed | Engine.UnchangedFileWrittenBack | Engine.WriteIntendedIffChanged |

The corrected setter test is used by `Rewrite.ClassifyIntended` and
`Rewrite.RewriteUnitIntended`, whose idempotence and change-iff-record
properties are proved in `Rewrite.RewriteUnitIntendedIdempotent`. The
corrected write decision is `Engine.WriteIntended`. The plugin object
`Engine.Lombocator` keeps the behaviour as written.
