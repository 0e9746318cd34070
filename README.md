# Migration-operation extractor, modelled in Dafny

`migration_check.py` reads Django migration files and summarises, per model, what the
migrations change. It has two parts:

- a **parser**, which walks the file's syntax tree. It looks for top-level classes named
  `Migration`, and in them for assignments `operations = [...]`. Each element of such a
  list that is a call with an attribute callee (`migrations.AddField(...)`) becomes an
  operation: the attribute name plus the call's keyword arguments.
- an **accumulator**, which applies each operation, in file order, to the module-level
  dictionary `migration_changes`. This dictionary maps a model key to a `ModelChanges`
  record: `status` (DELETED / MODIFIED / CREATED, reported as -1 / 0 / 1),
  `renamed_from`, and the sets `added` and `removed`.

The model has four files:

- `wrappers.dfy` holds `Option`.
- `py_syntax.dfy` holds the part of Python's `ast` the extractor inspects: string and other
  constants, names, attributes, calls with keywords, lists, tuples, class definitions and
  assignments.
- `migration_check.dfy` holds the records and the pure specification. `Step` applies one
  operation and `Fold` a sequence of them. `ModuleOps` lists the operations the parser
  finds in a file. The file also holds the class `Accumulator`. It owns the dictionary
  (`changes: map<string, ModelChanges>`), and its methods `GetModel`, `Apply` and
  `ParseModule` are proved to compute exactly `SetDefault`, `Step` and
  `Fold(_, ModuleOps(_))`.
- `migration_properties.dfy` holds the lemmas about that specification: what each kind of
  operation does, what no operation ever does, and which parts of a file the parser reads.

Where one might expect otherwise, the model follows the code:

- there is no `current_fields` set;
- adding and removing a field never cancel each other, so a name can sit in both `added`
  and `removed` (`AddThenRemoveOverlaps`);
- model keys are not qualified by an app label;
- `MODEL_OPS` lists `RemoveModel` instead of `DeleteModel`. So a `RemoveModel` call does
  nothing, a `DeleteModel` call takes the field-level path, and no record ever becomes
  DELETED (`NeverDeleted`);
- field-level operations use `model_name` as written, without lower-casing;
- every top-level `Migration` class and every `operations` assignment in it is visited,
  not only the first;
- the report is not sorted.

## Model

| member | source | states |
|---|---|---|
| `MigrationCheck.StatusCode` | migration_check.py:16-19 | A status is reported as -1, 0 or 1, and the code reads back as the same status. |
| `MigrationCheck.ToJson` | migration_check.py:29-36 | The serialised record holds the status code, `renamed_from` and both sets, and it reads back to exactly the original record. |
| `MigrationCheck.Accumulator.Report` | migration_check.py:29-36 | The report has one entry per key of the dictionary, as the loop at lines 148-150 prints one line per key, and each entry reads back to that key's record. |
| `MigrationCheck.ExtractStr` | migration_check.py:44-47 | The result is a value exactly when the node exists and is a constant holding a string, and then it is that string. It is `None` otherwise, including for a missing node. |
| `MigrationCheck.KwArgs` | migration_check.py:78-82 | A name is a key of the keyword dictionary exactly when some keyword carries that name, so `**kwargs` entries are dropped. |
| `MigrationProperties.KwArgsLastWins` | migration_check.py:78-82 | When a keyword name repeats, the dictionary keeps the value of its last occurrence. |
| `MigrationCheck.Lower` | migration_check.py:108-110 | The lower-cased name has the same length, maps each character through ASCII lower-casing, and contains no upper-case letter. |
| `MigrationProperties.LowerIdempotent` | migration_check.py:108-110 | Lower-casing an already lower-cased name changes nothing. |
| `MigrationCheck.SetDefault` | migration_check.py:49-50 | After `get_model(k)`, `k` is present: its existing record is kept, or a default one is added. Every other key keeps its record, and the dictionary is unchanged when `k` was already present. |
| `MigrationCheck.CreateModel` | migration_check.py:87-98 | CreateModel's branch keeps every key and adds the lower-cased name. That record becomes CREATED, its `added` only grows and its `removed` is kept. Every other key keeps its record. |
| `MigrationCheck.DeleteModel` | migration_check.py:100-102 | DeleteModel's branch, as written, marks the record under the lower-cased name DELETED and leaves every other key alone. No operation reaches it (`NeverDeleted`). |
| `MigrationCheck.RenameModel` | migration_check.py:104-116 | RenameModel's branch leaves the lower-cased old name absent and adds no key except the lower-cased new name. When the two differ, the new name holds a record with a `renamed_from`. Every other key keeps its record. |
| `MigrationCheck.FieldChange` | migration_check.py:128-140 | A field-level operation never changes a record's status or `renamed_from`, and never takes a name out of `added` or `removed`. An unknown kind leaves the record as it is. |
| `MigrationCheck.Step` | migration_check.py:84-140 | Applying one operation keeps the invariant that no record is DELETED and every `renamed_from` is lower-case. |
| `MigrationCheck.Fold` | migration_check.py:56-140 | Applying any sequence of operations, one after the other, keeps that invariant. |
| `MigrationCheck.FoldAppend` | migration_check.py:56-82 | Operations are applied in the order they are found: folding `a + b` is folding `a`, then `b`. |
| `MigrationCheck.FieldNames` | migration_check.py:93-98 | The names taken from a `fields` list never include the empty string. |
| `MigrationCheck.FieldsOf` | migration_check.py:91-98 | A `fields` argument contributes no empty name, and nothing at all unless it is a list literal. |
| `MigrationCheck.OperationOf` | migration_check.py:70-82 | An element is an operation exactly when it is a call whose callee is an attribute. Its name is that attribute and its keywords are the call's named keywords. |
| `MigrationCheck.CallOps` | migration_check.py:70-82 | An `operations` list yields at most one operation per element. |
| `MigrationCheck.StmtOps` | migration_check.py:60-69 | A statement of a class body contributes nothing unless it assigns a list literal to a target named `operations`, and then at most one operation per element. |
| `MigrationCheck.ClassOps` | migration_check.py:60-69 | A class body without such an assignment contributes nothing. |
| `MigrationCheck.NodeOps` | migration_check.py:56-59 | A top-level statement other than a class named `Migration` contributes nothing. |
| `MigrationCheck.ModuleOps` | migration_check.py:56-59 | A module body without a top-level `Migration` class contributes nothing. |
| `MigrationCheck.Accumulator.GetModel` | migration_check.py:49-50 | When the key is present, it returns the stored record and leaves the dictionary unchanged. Otherwise it inserts and returns a record with status MODIFIED, no `renamed_from` and empty sets. |
| `MigrationCheck.Accumulator.Apply` | migration_check.py:84-140 | Applying one operation leaves exactly `Step(old dictionary, op)`. The DeleteModel branch is proved unreachable. |
| `MigrationCheck.Accumulator.ApplyCreateModel` | migration_check.py:87-98 | The CreateModel branch leaves exactly `CreateModel(old dictionary, name, fields)`. |
| `MigrationCheck.Accumulator.AddFieldTuples` | migration_check.py:91-98 | The loop over `fields` adds exactly `FieldNames(elts)` to the record's `added` and changes nothing else. |
| `MigrationCheck.Accumulator.ApplyRenameModel` | migration_check.py:104-116 | The RenameModel branch leaves exactly `RenameModel(old dictionary, old, new)`. |
| `MigrationCheck.Accumulator.ParseModule` | migration_check.py:56-59 | Processing a file leaves exactly the fold of `Step` over `ModuleOps(tree.body)`, in order. |
| `MigrationCheck.Accumulator.ApplyClassBody` | migration_check.py:60-69 | Processing a `Migration` class body leaves exactly the fold over `ClassOps(body)`. |
| `MigrationCheck.Accumulator.ApplyCalls` | migration_check.py:70-83 | Processing an `operations` list leaves exactly the fold over `CallOps(elts)`. |
| `MigrationProperties.FieldNamesExact` | migration_check.py:91-98 | A name is taken from a `fields` list exactly when some element is a tuple whose first element is that name as a non-empty string constant. |
| `MigrationProperties.CreateModelEffect` | migration_check.py:87-98 | CreateModel with a non-empty string `name` works on the record under the lower-cased name, created if absent. Its status becomes CREATED, and `added` grows by exactly the field names of a list-literal `fields`. `removed`, `renamed_from` and every other key are unchanged. |
| `MigrationProperties.RenameModelEffect` | migration_check.py:104-116 | With both names present and distinct after lower-casing, the record of `old` (a default one if absent) is moved to `new`, overwriting any record there, and `old` is gone. `renamed_from` becomes `old` only if it was unset. Other keys are untouched. When the two lower-cased names are equal, that key ends up absent. |
| `MigrationProperties.CreateModelIncomplete` | migration_check.py:84-118 | A CreateModel without a non-empty string `name` changes nothing, even with a `fields` list: the guard at line 87 fails and line 118 moves on. |
| `MigrationProperties.RenameModelIncomplete` | migration_check.py:104-108 | A RenameModel that lacks either name as a non-empty string changes nothing. |
| `MigrationProperties.FirstRenameWins` | migration_check.py:112-114 | Renaming a model a to b and then b to c keeps, under c, the name recorded by the first rename. |
| `MigrationProperties.RemoveModelIsNoOp` | migration_check.py:84-118 | A RemoveModel call never changes the dictionary. |
| `MigrationProperties.DeleteModelIsFieldLevel` | migration_check.py:84-126 | DeleteModel is not a model operation. Without both `name` and `model_name` it changes nothing; with both, it only fetches or creates the record under `model_name`. |
| `MigrationProperties.FieldOpNeedsNames` | migration_check.py:120-124 | Any non-model operation that lacks a non-empty string `name` or `model_name` changes nothing. |
| `MigrationProperties.FieldOpTouchesVerbatimKey` | migration_check.py:120-126 | Any other non-model operation adds at most the key `model_name`, taken as written, and leaves every other key alone. An unknown kind such as AlterField only fetches or creates that record. |
| `MigrationProperties.AddFieldEffect` | migration_check.py:128-129 | AddField only inserts the field into `added` of the record under `model_name`. |
| `MigrationProperties.RemoveFieldEffect` | migration_check.py:131-132 | RemoveField only inserts the field into `removed` of the record under `model_name`. |
| `MigrationProperties.RenameFieldEffect` | migration_check.py:134-140 | RenameField without a `name` keyword changes nothing. With one, it inserts `old_name` into `removed` and `new_name` into `added` when both are present, and otherwise only fetches or creates the record. |
| `MigrationProperties.StepNeverShrinks` | migration_check.py:128-140 | Apart from RenameModel, no operation drops a key or removes a name from `added` or `removed`. |
| `MigrationProperties.AddThenRemoveOverlaps` | migration_check.py:128-132 | AddField followed by RemoveField of the same field leaves that field in both `added` and `removed`. |
| `MigrationProperties.NeverDeleted` | migration_check.py:100-102 | Starting from an empty dictionary, no sequence of operations produces a DELETED record. |
| `MigrationProperties.ModuleOpsAppend` | migration_check.py:56-58 | The top-level statements are processed in order: the operations of `a + b` are those of `a` followed by those of `b`. |
| `MigrationProperties.CallOpsAppend` | migration_check.py:70-76 | The elements of an `operations` list are processed in list order. |
| `MigrationProperties.CallOpsIncludes` | migration_check.py:70-82 | Every element that is a call with an attribute callee yields an operation, with that attribute as its name. |
| `MigrationProperties.CallOpsOrigin` | migration_check.py:70-82 | Every operation comes from such an element. |
| `MigrationProperties.ClassOpsIncludes` | migration_check.py:60-69 | Every `operations = [...]` assignment of a `Migration` class contributes its operations. |
| `MigrationProperties.ClassOpsOrigin` | migration_check.py:60-69 | Only assignments with a target named `operations` and a list-literal value contribute. |
| `MigrationProperties.ModuleOpsIncludes` | migration_check.py:56-58 | Every top-level class named `Migration` contributes, not only the first. |
| `MigrationProperties.ModuleOpsOrigin` | migration_check.py:56-58 | Only top-level classes named `Migration` contribute. |
| `MigrationProperties.NoMigrationClassNoChange` | migration_check.py:56-58 | A file without a top-level `Migration` class leaves the dictionary unchanged. |
| `MigrationProperties.CreateWidgetEffect` | migration_check.py:87-98 | CreateModel "Widget" with field tuples "id" and "title" gives the single record "widget": CREATED, with `added` = {id, title}. |
| `MigrationProperties.RemoveTitleEffect` | migration_check.py:120-132 | RemoveField "title" on model_name "Widget" creates a record under "Widget", not "widget", with `removed` = {title}. |
| `MigrationProperties.WidgetExample` | migration_check.py:84-132 | Applying both in turn yields two records: "widget" keeps "title" in `added`, and "Widget" holds it in `removed`. |

## Left out

- Reading the file and `ast.parse` (migration_check.py:53-54) are file I/O and the CPython parser. The input of `ParseModule` is the syntax tree, a `PySyntax.Module`. A file that fails to parse therefore has no counterpart.
- Syntax the extractor never looks at is collapsed into `OtherExpr` and `OtherStmt`. Every non-string constant is collapsed into `NonStr`. Positional arguments of calls are kept in the tree but are never read, as in the source.
- `json.dumps` text formatting, and the order `list(set)` gives (migration_check.py:33-36), belong to a library serialiser whose set order is unspecified. `ToJson` and `Report` stop at the record of code, name and sets.
- `extract_app_label` (migration_check.py:40-42) is a `pathlib` wrapper that nothing calls.
- The loop over the command-line files (migration_check.py:143-145) and the printing of each line (migration_check.py:150) are not modelled. Dictionary insertion order, which only decides the print order, is not modelled either: `map` is unordered.
- Lower: implements ASCII lower-casing only. Python's full Unicode `str.lower()`, which can also change a string's length, is not modelled.
- `ModelChanges` is a value, not a shared mutable object. No two keys ever hold the same record: RenameModel stores the record under the new key and then pops the old one. So updating the record in place is the same as rewriting its dictionary entry, and `Apply` writes every change back at once.
- Apply: the DeleteModel branch (migration_check.py:100-102) stays in the specification function `Step`. In the method it is `assert false`, because the verifier proves that branch unreachable.
- `parse_migration_file` is one function with nested loops. In the model, each inner loop is its own method (`ApplyClassBody`, `ApplyCalls`, `AddFieldTuples`), and so is each live model-level branch of `Apply`. This keeps each proof small, and the loops and their order are unchanged.
- members/models.py is not part of this model: it is declarative Django model classes with no logic.
