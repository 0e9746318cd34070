/**
 * The migration-operation extractor: a parser that walks the syntax tree of a
 * Django migration file looking for `class Migration: operations = [...]`, and
 * an accumulator that folds every `migrations.X(...)` call it finds into a
 * dictionary from model key to `ModelChanges`.
 *
 * The pure specification is `Step` (one operation) and `Fold` (a sequence of
 * them); `ModuleOps` is the sequence of operations the parser finds in a file.
 * `Accumulator` is the mutable dictionary, and its methods are proved against
 * those functions.
 */
module MigrationCheck {
  import opened Wrappers
  import opened PySyntax

  // ---------------------------------------------------------------------------
  // Operation-kind tables

  const AddedOps: set<string> := {"AddField"}
  const RemovedOps: set<string> := {"RemoveField"}
  /** Note: lists "RemoveModel", not "DeleteModel". */
  const ModelOps: set<string> := {"CreateModel", "RemoveModel", "RenameModel"}

  // ---------------------------------------------------------------------------
  // Records

  datatype Status = Deleted | Modified | Created

  /** The code a status is reported as. */
  function StatusCode(s: Status): (c: int)
    ensures -1 <= c <= 1
    ensures StatusOfCode(c) == Some(s)
  {
    match s
    case Deleted => -1
    case Modified => 0
    case Created => 1
  }

  /** The status a code stands for, if any. */
  function StatusOfCode(c: int): Option<Status> {
    if c == -1 then Some(Deleted)
    else if c == 0 then Some(Modified)
    else if c == 1 then Some(Created)
    else None
  }

  datatype ModelChanges = ModelChanges(
    status: Status,
    renamedFrom: Option<string>,
    added: set<string>,
    removed: set<string>)

  /** The record a model gets on its first mention. */
  const DefaultChanges := ModelChanges(Modified, None, {}, {})

  type Changes = map<string, ModelChanges>

  /** The data `to_json` serialises: the status as its code, the rest as is. */
  datatype JsonRecord = JsonRecord(
    status: int,
    renamedFrom: Option<string>,
    added: set<string>,
    removed: set<string>)

  function ToJson(rec: ModelChanges): (j: JsonRecord)
    ensures FromJson(j) == Some(rec)
  {
    JsonRecord(StatusCode(rec.status), rec.renamedFrom, rec.added, rec.removed)
  }

  /** Reads a serialised record back; fails on an unknown status code. */
  function FromJson(j: JsonRecord): Option<ModelChanges> {
    match StatusOfCode(j.status)
    case Some(s) => Some(ModelChanges(s, j.renamedFrom, j.added, j.removed))
    case None => None
  }

  // ---------------------------------------------------------------------------
  // Reading the syntax tree

  /** The value of a node when it is a string constant; `None` otherwise,
      including when there is no node at all. */
  function ExtractStr(node: Option<Expr>): (r: Option<string>)
    ensures r.Some? <==> node.Some? && node.value.Constant? && node.value.value.Str?
    ensures r.Some? ==> node.value.value.s == r.value
  {
    match node
    case Some(Constant(Str(s))) => Some(s)
    case _ => None
  }

  /** Python truthiness of a `str | None`: present and non-empty. */
  predicate Truthy(o: Option<string>) {
    o.GetOr("") != ""
  }

  /** `kwargs.get(key)`. */
  function Get(kwargs: map<string, Expr>, key: string): Option<Expr> {
    if key in kwargs then Some(kwargs[key]) else None
  }

  /** The keyword arguments of a call as a dictionary; `**x` arguments are
      dropped, and a repeated keyword keeps its last value. */
  function KwArgs(keywords: seq<Keyword>): (kw: map<string, Expr>)
    ensures forall k :: k in kw <==> exists i :: 0 <= i < |keywords| && keywords[i].arg == Some(k)
    decreases |keywords|
  {
    if keywords == [] then map[]
    else
      var rest := KwArgs(keywords[..|keywords| - 1]);
      var last := keywords[|keywords| - 1];
      match last.arg
      case None => rest
      case Some(k) => rest[k := last.value]
  }

  // ---------------------------------------------------------------------------
  // Lower-casing of model names

  function LowerChar(c: char): char {
    if 'A' <= c <= 'Z' then (c as int - 'A' as int + 'a' as int) as char else c
  }

  predicate IsLower(s: string) {
    forall i :: 0 <= i < |s| ==> !('A' <= s[i] <= 'Z')
  }

  /** `str.lower()` on the ASCII range. */
  function Lower(s: string): (r: string)
    ensures |r| == |s| && IsLower(r)
    ensures forall i :: 0 <= i < |s| ==> r[i] == LowerChar(s[i])
  {
    if s == [] then [] else [LowerChar(s[0])] + Lower(s[1..])
  }

  // ---------------------------------------------------------------------------
  // Field tuples of CreateModel

  /** `e` is a field tuple whose first element is the non-empty string `f`. */
  predicate IsFieldTuple(e: Expr, f: string) {
    e.Tuple? && |e.elts| >= 1 && e.elts[0] == Constant(Str(f)) && f != ""
  }

  /** The field name a `fields` element contributes, if any. */
  function FieldNameOf(e: Expr): Option<string> {
    if e.Tuple? && |e.elts| >= 1 then
      var name := ExtractStr(Some(e.elts[0]));
      if Truthy(name) then name else None
    else None
  }

  /** The names contributed by the elements of a `fields` list. */
  function FieldNames(elts: seq<Expr>): (names: set<string>)
    ensures "" !in names
    decreases |elts|
  {
    if elts == [] then {}
    else
      var rest := FieldNames(elts[..|elts| - 1]);
      match FieldNameOf(elts[|elts| - 1])
      case Some(f) => rest + {f}
      case None => rest
  }

  /** The names a `fields=` argument contributes: only a list literal counts. */
  function FieldsOf(fieldsNode: Option<Expr>): (names: set<string>)
    ensures "" !in names
    ensures !(fieldsNode.Some? && fieldsNode.value.List?) ==> names == {}
  {
    match fieldsNode
    case Some(List(elts)) => FieldNames(elts)
    case _ => {}
  }

  // ---------------------------------------------------------------------------
  // The accumulator's specification

  /** One `migrations.X(...)` call: the attribute name and its keyword arguments. */
  datatype Operation = Operation(name: string, kwargs: map<string, Expr>)

  /** The record `get_model(key)` returns. */
  function Lookup(m: Changes, key: string): ModelChanges {
    if key in m then m[key] else DefaultChanges
  }

  /** The dictionary after `get_model(key)`. */
  function SetDefault(m: Changes, key: string): (m': Changes)
    ensures key in m' && m'[key] == Lookup(m, key)
    ensures key in m ==> m' == m
    ensures m'.Keys == m.Keys + {key}
    ensures forall k :: k in m && k != key ==> m'[k] == m[k]
  {
    if key in m then m else m[key := DefaultChanges]
  }

  /** The CreateModel branch: the record under the lower-cased name is marked
      created and gains the names of the field tuples. */
  function CreateModel(m: Changes, name: string, fieldsNode: Option<Expr>): (r: Changes)
    ensures r.Keys == m.Keys + {Lower(name)}
    ensures r[Lower(name)].status == Created
    ensures Lookup(m, Lower(name)).added <= r[Lower(name)].added
    ensures r[Lower(name)].removed == Lookup(m, Lower(name)).removed
    ensures r - {Lower(name)} == m - {Lower(name)}
  {
    var key := Lower(name);
    var rec := Lookup(m, key);
    m[key := rec.(status := Created, added := rec.added + FieldsOf(fieldsNode))]
  }

  /** The DeleteModel branch, as written; no operation reaches it. */
  function DeleteModel(m: Changes, name: string): (r: Changes)
    ensures r.Keys == m.Keys + {Lower(name)}
    ensures r[Lower(name)].status == Deleted
    ensures r - {Lower(name)} == m - {Lower(name)}
  {
    var key := Lower(name);
    m[key := Lookup(m, key).(status := Deleted)]
  }

  /** The RenameModel branch: the record moves from the lower-cased old name
      to the lower-cased new name, remembering the old name if none was. */
  function RenameModel(m: Changes, oldName: string, newName: string): (r: Changes)
    ensures Lower(oldName) !in r
    ensures r.Keys <= m.Keys + {Lower(newName)}
    ensures Lower(oldName) != Lower(newName) ==>
              Lower(newName) in r && r[Lower(newName)].renamedFrom.Some?
    ensures r - {Lower(oldName), Lower(newName)} == m - {Lower(oldName), Lower(newName)}
  {
    var o := Lower(oldName);
    var n := Lower(newName);
    var rec := Lookup(m, o);
    var moved := if rec.renamedFrom.None? then rec.(renamedFrom := Some(o)) else rec;
    m[o := moved][n := moved] - {o}
  }

  /** The record after a field-level operation named `name`, for field `field`. */
  function FieldChange(rec: ModelChanges, name: string, field: string, kwargs: map<string, Expr>): (r: ModelChanges)
    ensures r.status == rec.status && r.renamedFrom == rec.renamedFrom
    ensures rec.added <= r.added && rec.removed <= r.removed
    ensures name !in AddedOps + RemovedOps + {"RenameField"} ==> r == rec
  {
    if name in AddedOps then rec.(added := rec.added + {field})
    else if name in RemovedOps then rec.(removed := rec.removed + {field})
    else if name == "RenameField" then
      var oldName := ExtractStr(Get(kwargs, "old_name"));
      var newName := ExtractStr(Get(kwargs, "new_name"));
      if Truthy(oldName) && Truthy(newName) then
        rec.(removed := rec.removed + {oldName.GetOr("")}, added := rec.added + {newName.GetOr("")})
      else rec
    else rec
  }

  /** The invariant every dictionary the extractor builds keeps: no record is
      DELETED, and every recorded former name is lower-case. */
  ghost predicate Reachable(m: Changes) {
    forall k :: k in m ==>
      m[k].status != Deleted && (m[k].renamedFrom.Some? ==> IsLower(m[k].renamedFrom.value))
  }

  /** The dictionary after one operation. */
  function Step(m: Changes, op: Operation): (r: Changes)
    ensures Reachable(m) ==> Reachable(r)
  {
    var kw := op.kwargs;
    if op.name in ModelOps then
      var modelName := ExtractStr(Get(kw, "name"));
      if op.name == "CreateModel" && Truthy(modelName) then
        CreateModel(m, modelName.GetOr(""), Get(kw, "fields"))
      else if op.name == "DeleteModel" && Truthy(modelName) then
        DeleteModel(m, modelName.GetOr(""))
      else if op.name == "RenameModel" then
        var oldName := ExtractStr(Get(kw, "old_name"));
        var newName := ExtractStr(Get(kw, "new_name"));
        if Truthy(oldName) && Truthy(newName) then
          RenameModel(m, oldName.GetOr(""), newName.GetOr(""))
        else m
      else m
    else
      var fieldName := ExtractStr(Get(kw, "name"));
      var modelName := ExtractStr(Get(kw, "model_name"));
      if !Truthy(fieldName) || !Truthy(modelName) then m
      else
        var key := modelName.GetOr("");
        m[key := FieldChange(Lookup(m, key), op.name, fieldName.GetOr(""), kw)]
  }

  /** The dictionary after a sequence of operations, applied in order. */
  function Fold(m: Changes, ops: seq<Operation>): (r: Changes)
    ensures Reachable(m) ==> Reachable(r)
    decreases |ops|
  {
    if ops == [] then m else Step(Fold(m, ops[..|ops| - 1]), ops[|ops| - 1])
  }

  // ---------------------------------------------------------------------------
  // The parser's specification

  predicate IsMigrationClass(s: Stmt) {
    s.ClassDef? && s.name == "Migration"
  }

  predicate IsOperationsTarget(t: Expr) {
    t.Name? && t.id == "operations"
  }

  /** An assignment with some target `operations` and a list literal as value. */
  predicate IsOperationsAssign(s: Stmt) {
    && s.Assign?
    && (exists i :: 0 <= i < |s.targets| && IsOperationsTarget(s.targets[i]))
    && s.value.List?
  }

  /** The operation an element of the `operations` list stands for: only a
      call whose callee is an attribute access counts. */
  function OperationOf(e: Expr): (r: Option<Operation>)
    ensures r.Some? <==> e.Call? && e.func.Attribute?
    ensures r.Some? ==> r.value.name == e.func.attr && r.value.kwargs == KwArgs(e.keywords)
  {
    if e.Call? && e.func.Attribute? then Some(Operation(e.func.attr, KwArgs(e.keywords)))
    else None
  }

  /** The operations of a list of elements, in list order. */
  function CallOps(elts: seq<Expr>): (ops: seq<Operation>)
    ensures |ops| <= |elts|
    decreases |elts|
  {
    if elts == [] then []
    else
      CallOps(elts[..|elts| - 1]) +
      match OperationOf(elts[|elts| - 1])
      case Some(op) => [op]
      case None => []
  }

  /** The operations of one statement of a class body. */
  function StmtOps(s: Stmt): (ops: seq<Operation>)
    ensures !IsOperationsAssign(s) ==> ops == []
    ensures IsOperationsAssign(s) ==> |ops| <= |s.value.elts|
  {
    if IsOperationsAssign(s) then CallOps(s.value.elts) else []
  }

  /** The operations of a class body, statement by statement. */
  function ClassOps(body: seq<Stmt>): (ops: seq<Operation>)
    ensures (forall j :: 0 <= j < |body| ==> !IsOperationsAssign(body[j])) ==> ops == []
    decreases |body|
  {
    if body == [] then [] else ClassOps(body[..|body| - 1]) + StmtOps(body[|body| - 1])
  }

  /** The operations of one top-level statement. */
  function NodeOps(node: Stmt): (ops: seq<Operation>)
    ensures !IsMigrationClass(node) ==> ops == []
  {
    if IsMigrationClass(node) then ClassOps(node.body) else []
  }

  /** The operations of a module body, top-level statement by statement. */
  function ModuleOps(body: seq<Stmt>): (ops: seq<Operation>)
    ensures (forall i :: 0 <= i < |body| ==> !IsMigrationClass(body[i])) ==> ops == []
    decreases |body|
  {
    if body == [] then [] else ModuleOps(body[..|body| - 1]) + NodeOps(body[|body| - 1])
  }

  // ---------------------------------------------------------------------------
  // Lemmas the methods below rely on

  lemma {:induction false} FoldAppend(m: Changes, a: seq<Operation>, b: seq<Operation>)
    ensures Fold(m, a + b) == Fold(Fold(m, a), b)
    decreases |b|
  {
    if b == [] {
      assert a + b == a;
    } else {
      var b' := b[..|b| - 1];
      assert (a + b)[..|a + b| - 1] == a + b';
      FoldAppend(m, a, b');
    }
  }

  lemma FieldNamesSnoc(elts: seq<Expr>, i: nat)
    requires i < |elts|
    ensures FieldNames(elts[..i + 1]) == FieldNames(elts[..i]) +
      match FieldNameOf(elts[i]) case Some(f) => {f} case None => {}
  {
    assert elts[..i + 1][..i] == elts[..i];
  }

  lemma FoldSnoc(m: Changes, a: seq<Operation>, op: Operation)
    ensures Fold(m, a + [op]) == Step(Fold(m, a), op)
  {
  }

  // ---------------------------------------------------------------------------
  // The mutable dictionary

  class Accumulator {
    /** `migration_changes`. */
    var changes: Changes

    constructor ()
      ensures changes == map[]
    {
      changes := map[];
    }

    /** `get_model`: fetch the record under `key`, creating a default one if absent. */
    method GetModel(key: string) returns (model: ModelChanges)
      modifies this
      ensures key in old(changes) ==> model == old(changes)[key] && changes == old(changes)
      ensures key !in old(changes) ==> model == DefaultChanges && changes == old(changes)[key := DefaultChanges]
    {
      if key !in changes {
        changes := changes[key := DefaultChanges];
      }
      model := changes[key];
    }

    /** Folds one operation into the dictionary. Every update of a record is
        written back to the dictionary at once, as the in-place update of the
        shared record is. */
    method Apply(op: Operation)
      modifies this
      ensures changes == Step(old(changes), op)
    {
      var kwargs := op.kwargs;
      if op.name in ModelOps {
        var modelName := ExtractStr(Get(kwargs, "name"));
        if op.name == "CreateModel" && Truthy(modelName) {
          ApplyCreateModel(modelName.GetOr(""), Get(kwargs, "fields"));
        } else if op.name == "DeleteModel" && Truthy(modelName) {
          // DeleteModel is not among the model operations: this branch is dead.
          assert false;
        } else if op.name == "RenameModel" {
          var oldName := ExtractStr(Get(kwargs, "old_name"));
          var newName := ExtractStr(Get(kwargs, "new_name"));
          if Truthy(oldName) && Truthy(newName) {
            ApplyRenameModel(oldName.GetOr(""), newName.GetOr(""));
          }
        }
        return;
      }

      var fieldName := ExtractStr(Get(kwargs, "name"));
      var modelName := ExtractStr(Get(kwargs, "model_name"));
      if !Truthy(fieldName) || !Truthy(modelName) {
        return;
      }
      var key := modelName.GetOr("");
      var model := GetModel(key);
      var field := fieldName.GetOr("");
      if op.name in AddedOps {
        model := model.(added := model.added + {field});
      } else if op.name in RemovedOps {
        model := model.(removed := model.removed + {field});
      } else if op.name == "RenameField" {
        var oldName := ExtractStr(Get(kwargs, "old_name"));
        var newName := ExtractStr(Get(kwargs, "new_name"));
        if Truthy(oldName) && Truthy(newName) {
          model := model.(removed := model.removed + {oldName.GetOr("")});
          model := model.(added := model.added + {newName.GetOr("")});
        }
      }
      changes := changes[key := model];
    }

    /** The `CreateModel` branch: mark the model created, then add the name
        of every field tuple of a `fields` list literal. */
    method ApplyCreateModel(name: string, fieldsNode: Option<Expr>)
      modifies this
      ensures changes == CreateModel(old(changes), name, fieldsNode)
    {
      ghost var m0 := changes;
      var key := Lower(name);
      var model := GetModel(key);
      ghost var rec := Lookup(m0, key);
      assert model == rec;
      model := model.(status := Created);
      changes := changes[key := model];
      if fieldsNode.Some? && fieldsNode.value.List? {
        AddFieldTuples(key, fieldsNode.value.elts);
        assert changes == m0[key := rec.(status := Created, added := rec.added + FieldsOf(fieldsNode))];
      } else {
        assert model.added + FieldsOf(fieldsNode) == model.added;
        assert changes == m0[key := rec.(status := Created, added := rec.added + FieldsOf(fieldsNode))];
      }
    }

    /** The loop over the `fields` list of CreateModel: each tuple whose
        first element is a non-empty string adds that name to `added`. */
    method AddFieldTuples(key: string, elts: seq<Expr>)
      requires key in changes
      modifies this
      ensures changes == old(changes)[key := old(changes)[key].(added := old(changes)[key].added + FieldNames(elts))]
    {
      var model := changes[key];
      ghost var before := model;
      for i := 0 to |elts|
        invariant model == before.(added := before.added + FieldNames(elts[..i]))
        invariant changes == old(changes)[key := model]
      {
        var fieldTuple := elts[i];
        FieldNamesSnoc(elts, i);
        if fieldTuple.Tuple? && |fieldTuple.elts| >= 1 {
          var fieldName := ExtractStr(Some(fieldTuple.elts[0]));
          if Truthy(fieldName) {
            assert FieldNameOf(fieldTuple) == fieldName;
            model := model.(added := model.added + {fieldName.GetOr("")});
            changes := changes[key := model];
          } else {
            assert FieldNameOf(fieldTuple) == None;
          }
        } else {
          assert FieldNameOf(fieldTuple) == None;
        }
      }
      assert elts[..|elts|] == elts;
    }

    /** The `RenameModel` branch: record the first name, store the record
        under the new key and drop the old key. */
    method ApplyRenameModel(oldName: string, newName: string)
      modifies this
      ensures changes == RenameModel(old(changes), oldName, newName)
    {
      var o := Lower(oldName);
      var n := Lower(newName);
      var model := GetModel(o);
      if model.renamedFrom.None? {
        model := model.(renamedFrom := Some(o));
        changes := changes[o := model];
      }
      changes := changes[n := model];
      changes := changes - {o};
    }

    /** `parse_migration_file` after parsing: every call in the `operations`
        list of every top-level `Migration` class is applied, in order. */
    method ParseModule(tree: Module)
      modifies this
      ensures changes == Fold(old(changes), ModuleOps(tree.body))
    {
      ghost var m0 := changes;
      for i := 0 to |tree.body|
        invariant changes == Fold(m0, ModuleOps(tree.body[..i]))
      {
        assert tree.body[..i + 1][..i] == tree.body[..i];
        var node := tree.body[i];
        assert ModuleOps(tree.body[..i + 1]) == ModuleOps(tree.body[..i]) + NodeOps(node);
        if IsMigrationClass(node) {
          ApplyClassBody(node.body);
          FoldAppend(m0, ModuleOps(tree.body[..i]), NodeOps(node));
        } else {
          assert ModuleOps(tree.body[..i]) + NodeOps(node) == ModuleOps(tree.body[..i]);
        }
      }
      assert tree.body[..|tree.body|] == tree.body;
    }

    /** The loop over the statements of a `Migration` class. */
    method ApplyClassBody(body: seq<Stmt>)
      modifies this
      ensures changes == Fold(old(changes), ClassOps(body))
    {
      ghost var m0 := changes;
      for j := 0 to |body|
        invariant changes == Fold(m0, ClassOps(body[..j]))
      {
        assert body[..j + 1][..j] == body[..j];
        var stmt := body[j];
        assert ClassOps(body[..j + 1]) == ClassOps(body[..j]) + StmtOps(stmt);
        if IsOperationsAssign(stmt) {
          ApplyCalls(stmt.value.elts);
          FoldAppend(m0, ClassOps(body[..j]), StmtOps(stmt));
        } else {
          assert ClassOps(body[..j]) + StmtOps(stmt) == ClassOps(body[..j]);
        }
      }
      assert body[..|body|] == body;
    }

    /** The loop over the elements of an `operations` list. */
    method ApplyCalls(elts: seq<Expr>)
      modifies this
      ensures changes == Fold(old(changes), CallOps(elts))
    {
      ghost var m0 := changes;
      for k := 0 to |elts|
        invariant changes == Fold(m0, CallOps(elts[..k]))
      {
        assert elts[..k + 1][..k] == elts[..k];
        var operation := elts[k];
        if operation.Call? && operation.func.Attribute? {
          var op := Operation(operation.func.attr, KwArgs(operation.keywords));
          assert CallOps(elts[..k + 1]) == CallOps(elts[..k]) + [op];
          FoldSnoc(m0, CallOps(elts[..k]), op);
          Apply(op);
        } else {
          assert CallOps(elts[..k + 1]) == CallOps(elts[..k]);
        }
      }
      assert elts[..|elts|] == elts;
    }

    /** The report: each record as `to_json` serialises it. */
    function Report(): (r: map<string, JsonRecord>)
      reads this
      ensures r.Keys == changes.Keys
      ensures forall k :: k in r ==> FromJson(r[k]) == Some(changes[k])
    {
      map k | k in changes :: ToJson(changes[k])
    }
  }
}
