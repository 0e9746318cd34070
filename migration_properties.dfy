/**
 * What the extractor does with each kind of operation, what it never does,
 * and which parts of a migration file the parser looks at — all stated
 * about the specification functions that the `Accumulator` methods are
 * proved against.
 */
module MigrationProperties {
  import opened Wrappers
  import opened PySyntax
  import opened MigrationCheck

  // ---------------------------------------------------------------------------
  // Building operations

  function StrNode(s: string): Expr {
    Constant(Str(s))
  }

  /** `migrations.<kind>(model_name=<model>, name=<field>)`. */
  function FieldOp(kind: string, model: string, field: string): Operation {
    Operation(kind, map["model_name" := StrNode(model), "name" := StrNode(field)])
  }

  /** `migrations.RenameModel(old_name=<oldName>, new_name=<newName>)`. */
  function RenameModelOp(oldName: string, newName: string): Operation {
    Operation("RenameModel", map["old_name" := StrNode(oldName), "new_name" := StrNode(newName)])
  }

  /** The string-literal argument `key` of an operation, or "" when absent. */
  function Arg(op: Operation, key: string): string {
    ExtractStr(Get(op.kwargs, key)).GetOr("")
  }

  // ---------------------------------------------------------------------------
  // Reading the syntax tree

  /** Of a repeated keyword, the last occurrence is the one kept. */
  lemma {:induction false} KwArgsLastWins(keywords: seq<Keyword>, i: nat)
    requires i < |keywords| && keywords[i].arg.Some?
    requires forall j :: i < j < |keywords| ==> keywords[j].arg != keywords[i].arg
    ensures keywords[i].arg.value in KwArgs(keywords)
    ensures KwArgs(keywords)[keywords[i].arg.value] == keywords[i].value
    decreases |keywords|
  {
    var n := |keywords| - 1;
    var rest := keywords[..n];
    assert KwArgs(keywords) == match keywords[n].arg
      case None => KwArgs(rest)
      case Some(k) => KwArgs(rest)[k := keywords[n].value];
    if i < n {
      assert rest[i] == keywords[i];
      forall j | i < j < |rest|
        ensures rest[j].arg != rest[i].arg
      {
        assert rest[j] == keywords[j];
      }
      KwArgsLastWins(rest, i);
      assert keywords[n].arg != keywords[i].arg;
    }
  }

  /** The names taken from a `fields` list are exactly the non-empty string
      first elements of its tuples. */
  lemma {:induction false} FieldNamesExact(elts: seq<Expr>, f: string)
    ensures f in FieldNames(elts) <==> exists i :: 0 <= i < |elts| && IsFieldTuple(elts[i], f)
    decreases |elts|
  {
    if elts != [] {
      var n := |elts| - 1;
      FieldNamesExact(elts[..n], f);
      if exists i :: 0 <= i < |elts| && IsFieldTuple(elts[i], f) {
        var i :| 0 <= i < |elts| && IsFieldTuple(elts[i], f);
        if i < n {
          assert elts[..n][i] == elts[i];
        }
      }
    }
  }

  lemma LowerIdempotent(s: string)
    ensures Lower(Lower(s)) == Lower(s)
  {
  }

  // ---------------------------------------------------------------------------
  // Model-level operations

  /** CreateModel marks the lower-cased model created and adds exactly the
      field names of its `fields` list; nothing else changes. */
  lemma CreateModelEffect(m: Changes, op: Operation)
    requires op.name == "CreateModel" && Arg(op, "name") != ""
    ensures var key := Lower(Arg(op, "name"));
            var before := Lookup(m, key);
            var after := Step(m, op);
            && after.Keys == m.Keys + {key}
            && after[key].status == Created
            && after[key].added == before.added + FieldsOf(Get(op.kwargs, "fields"))
            && after[key].removed == before.removed
            && after[key].renamedFrom == before.renamedFrom
            && forall k :: k in m && k != key ==> after[k] == m[k]
  {
  }

  /** A CreateModel without a non-empty string `name` leaves the dictionary
      alone, even when it has a `fields` list. */
  lemma CreateModelIncomplete(m: Changes, op: Operation)
    requires op.name == "CreateModel" && Arg(op, "name") == ""
    ensures Step(m, op) == m
  {
  }

  /** RenameModel moves the record of the lower-cased old name (a fresh one if
      there was none) to the lower-cased new name, overwriting whatever was
      there, and records the old name unless a name was already recorded. */
  lemma RenameModelEffect(m: Changes, op: Operation)
    requires op.name == "RenameModel" && Arg(op, "old_name") != "" && Arg(op, "new_name") != ""
    ensures var o := Lower(Arg(op, "old_name"));
            var n := Lower(Arg(op, "new_name"));
            var before := Lookup(m, o);
            var after := Step(m, op);
            && o !in after
            && (o != n ==>
                  && after.Keys == m.Keys - {o} + {n}
                  && after[n].status == before.status
                  && after[n].added == before.added
                  && after[n].removed == before.removed
                  && after[n].renamedFrom == (if before.renamedFrom.None? then Some(o) else before.renamedFrom))
            && (o == n ==> after == m - {o})
            && forall k :: k in m && k != o && k != n ==> k in after && after[k] == m[k]
  {
  }

  /** A RenameModel missing either name leaves the dictionary alone. */
  lemma RenameModelIncomplete(m: Changes, op: Operation)
    requires op.name == "RenameModel" && (Arg(op, "old_name") == "" || Arg(op, "new_name") == "")
    ensures Step(m, op) == m
  {
  }

  /** The first rename is the one remembered: renaming a model twice keeps
      the name from before the first rename. */
  lemma {:induction false} FirstRenameWins(m: Changes, a: string, b: string, c: string)
    requires a != "" && b != "" && c != ""
    requires Lower(a) != Lower(b) && Lower(b) != Lower(c)
    ensures var before := Lookup(m, Lower(a));
            var after := Fold(m, [RenameModelOp(a, b), RenameModelOp(b, c)]);
            && Lower(c) in after && Lower(b) !in after
            && after[Lower(c)].renamedFrom ==
                 (if before.renamedFrom.None? then Some(Lower(a)) else before.renamedFrom)
  {
    var first, second := RenameModelOp(a, b), RenameModelOp(b, c);
    assert "old_name" != "new_name" by { assert "old_name"[0] != "new_name"[0]; }
    assert Arg(first, "old_name") == a && Arg(first, "new_name") == b;
    assert Arg(second, "old_name") == b && Arg(second, "new_name") == c;
    var m1 := Step(m, first);
    assert Fold(m, [first]) == m1 by {
      assert [first][..0] == [];
    }
    assert Fold(m, [first, second]) == Step(m1, second) by {
      assert [first, second][..1] == [first];
    }
    RenameModelEffect(m, first);
    RenameModelEffect(m1, second);
  }

  /** RemoveModel is listed among the model operations but has no branch:
      it never changes the dictionary. */
  lemma RemoveModelIsNoOp(m: Changes, op: Operation)
    requires op.name == "RemoveModel"
    ensures Step(m, op) == m
  {
  }

  // ---------------------------------------------------------------------------
  // Field-level operations

  /** Any operation that is not a model operation and lacks a string `name`
      or `model_name` is skipped. */
  lemma FieldOpNeedsNames(m: Changes, op: Operation)
    requires op.name !in ModelOps
    requires Arg(op, "name") == "" || Arg(op, "model_name") == ""
    ensures Step(m, op) == m
  {
  }

  /** Any other operation with both names — an unknown kind such as
      AlterField included — fetches or creates the record under
      `model_name` exactly as written, not lower-cased. */
  lemma FieldOpTouchesVerbatimKey(m: Changes, op: Operation)
    requires op.name !in ModelOps
    requires Arg(op, "name") != "" && Arg(op, "model_name") != ""
    ensures var key := Arg(op, "model_name");
            && Step(m, op).Keys == m.Keys + {key}
            && forall k :: k in m && k != key ==> Step(m, op)[k] == m[k]
    ensures op.name !in AddedOps + RemovedOps + {"RenameField"} ==>
              Step(m, op) == SetDefault(m, Arg(op, "model_name"))
  {
  }

  lemma AddFieldEffect(m: Changes, op: Operation)
    requires op.name == "AddField" && Arg(op, "name") != "" && Arg(op, "model_name") != ""
    ensures var key := Arg(op, "model_name");
            Step(m, op)[key] == Lookup(m, key).(added := Lookup(m, key).added + {Arg(op, "name")})
  {
  }

  lemma RemoveFieldEffect(m: Changes, op: Operation)
    requires op.name == "RemoveField" && Arg(op, "name") != "" && Arg(op, "model_name") != ""
    ensures var key := Arg(op, "model_name");
            Step(m, op)[key] == Lookup(m, key).(removed := Lookup(m, key).removed + {Arg(op, "name")})
  {
  }

  /** RenameField records the old name as removed and the new one as added,
      and only when it also carries a `name` keyword. */
  lemma RenameFieldEffect(m: Changes, op: Operation)
    requires op.name == "RenameField" && Arg(op, "model_name") != ""
    ensures Arg(op, "name") == "" ==> Step(m, op) == m
    ensures Arg(op, "name") != "" ==>
              var key := Arg(op, "model_name");
              var before := Lookup(m, key);
              var oldName := Arg(op, "old_name");
              var newName := Arg(op, "new_name");
              Step(m, op)[key] ==
                if oldName != "" && newName != "" then
                  before.(removed := before.removed + {oldName}, added := before.added + {newName})
                else before
  {
  }

  /** DeleteModel is not one of the model operations, so it goes down the
      field-level path: it never deletes, and with a `model_name` it only
      creates a default record. */
  lemma DeleteModelIsFieldLevel(m: Changes, op: Operation)
    requires op.name == "DeleteModel"
    ensures op.name !in ModelOps
    ensures Arg(op, "name") == "" || Arg(op, "model_name") == "" ==> Step(m, op) == m
    ensures Arg(op, "name") != "" && Arg(op, "model_name") != "" ==>
              Step(m, op) == SetDefault(m, Arg(op, "model_name"))
  {
  }

  // ---------------------------------------------------------------------------
  // What no operation does

  /** Apart from RenameModel, no operation drops a key, and none removes a
      name from `added` or `removed`. */
  lemma StepNeverShrinks(m: Changes, op: Operation)
    requires op.name != "RenameModel"
    ensures forall k :: k in m ==> k in Step(m, op)
    ensures forall k :: k in m ==> m[k].added <= Step(m, op)[k].added && m[k].removed <= Step(m, op)[k].removed
  {
  }

  /** A field added and then removed sits in both sets: there is no cancellation. */
  lemma AddThenRemoveOverlaps(m: Changes, model: string, field: string)
    requires model != "" && field != ""
    ensures var after := Fold(m, [FieldOp("AddField", model, field), FieldOp("RemoveField", model, field)]);
            model in after && field in after[model].added && field in after[model].removed
  {
  }

  /** Starting from the empty dictionary, no sequence of operations ever
      produces a DELETED record: the DeleteModel branch is dead. */
  lemma NeverDeleted(ops: seq<Operation>)
    ensures forall k :: k in Fold(map[], ops) ==> Fold(map[], ops)[k].status != Deleted
  {
  }

  // ---------------------------------------------------------------------------
  // Parser scope

  /** Top-level statements are visited in order. */
  lemma {:induction false} ModuleOpsAppend(a: seq<Stmt>, b: seq<Stmt>)
    ensures ModuleOps(a + b) == ModuleOps(a) + ModuleOps(b)
    decreases |b|
  {
    if b == [] {
      assert a + b == a;
    } else {
      var b', last := b[..|b| - 1], b[|b| - 1];
      calc {
        ModuleOps(a + b);
        { assert (a + b)[..|a + b| - 1] == a + b' && (a + b)[|a + b| - 1] == last; }
        ModuleOps(a + b') + NodeOps(last);
        { ModuleOpsAppend(a, b'); }
        ModuleOps(a) + ModuleOps(b') + NodeOps(last);
      }
    }
  }

  /** The elements of an `operations` list are applied in list order. */
  lemma {:induction false} CallOpsAppend(a: seq<Expr>, b: seq<Expr>)
    ensures CallOps(a + b) == CallOps(a) + CallOps(b)
    decreases |b|
  {
    if b == [] {
      assert a + b == a;
    } else {
      var b', last := b[..|b| - 1], b[|b| - 1];
      calc {
        CallOps(a + b);
        { assert (a + b)[..|a + b| - 1] == a + b' && (a + b)[|a + b| - 1] == last; }
        CallOps(a + b') + match OperationOf(last) case Some(op) => [op] case None => [];
        { CallOpsAppend(a, b'); }
        CallOps(a) + CallOps(b') + match OperationOf(last) case Some(op) => [op] case None => [];
      }
    }
  }

  /** Every element that is a call with an attribute callee is applied. */
  lemma {:induction false} CallOpsIncludes(elts: seq<Expr>, k: nat)
    requires k < |elts| && OperationOf(elts[k]).Some?
    ensures OperationOf(elts[k]).value in CallOps(elts)
    decreases |elts|
  {
    var n := |elts| - 1;
    if k < n {
      assert elts[..n][k] == elts[k];
      CallOpsIncludes(elts[..n], k);
    }
  }

  /** Every applied operation comes from such an element. */
  lemma {:induction false} CallOpsOrigin(elts: seq<Expr>, op: Operation) returns (k: nat)
    requires op in CallOps(elts)
    ensures k < |elts| && OperationOf(elts[k]) == Some(op)
    decreases |elts|
  {
    var n := |elts| - 1;
    if op in CallOps(elts[..n]) {
      k := CallOpsOrigin(elts[..n], op);
      assert elts[..n][k] == elts[k];
    } else {
      k := n;
    }
  }

  /** Every operation of every `operations = [...]` assignment of a class
      body is applied. */
  lemma {:induction false} ClassOpsIncludes(body: seq<Stmt>, j: nat, op: Operation)
    requires j < |body| && IsOperationsAssign(body[j]) && op in CallOps(body[j].value.elts)
    ensures op in ClassOps(body)
    decreases |body|
  {
    var n := |body| - 1;
    assert ClassOps(body) == ClassOps(body[..n]) + StmtOps(body[n]);
    if j < n {
      assert body[..n][j] == body[j];
      ClassOpsIncludes(body[..n], j, op);
    } else {
      assert StmtOps(body[n]) == CallOps(body[n].value.elts);
    }
  }

  /** Within a class body, only `operations = [...]` assignments contribute. */
  lemma {:induction false} ClassOpsOrigin(body: seq<Stmt>, op: Operation) returns (j: nat)
    requires op in ClassOps(body)
    ensures j < |body| && IsOperationsAssign(body[j]) && op in CallOps(body[j].value.elts)
    decreases |body|
  {
    var n := |body| - 1;
    if op in ClassOps(body[..n]) {
      j := ClassOpsOrigin(body[..n], op);
      assert body[..n][j] == body[j];
    } else {
      j := n;
    }
  }

  /** Every top-level class named `Migration` is visited, not only the first. */
  lemma {:induction false} ModuleOpsIncludes(body: seq<Stmt>, i: nat, op: Operation)
    requires i < |body| && IsMigrationClass(body[i]) && op in ClassOps(body[i].body)
    ensures op in ModuleOps(body)
    decreases |body|
  {
    var n := |body| - 1;
    if i < n {
      assert body[..n][i] == body[i];
      ModuleOpsIncludes(body[..n], i, op);
    }
  }

  /** At top level, only classes named `Migration` contribute. */
  lemma {:induction false} ModuleOpsOrigin(body: seq<Stmt>, op: Operation) returns (i: nat)
    requires op in ModuleOps(body)
    ensures i < |body| && IsMigrationClass(body[i]) && op in ClassOps(body[i].body)
    decreases |body|
  {
    var n := |body| - 1;
    if op in ModuleOps(body[..n]) {
      i := ModuleOpsOrigin(body[..n], op);
      assert body[..n][i] == body[i];
    } else {
      i := n;
    }
  }

  /** A file without a top-level `Migration` class changes nothing. */
  lemma NoMigrationClassNoChange(m: Changes, tree: Module)
    requires forall i :: 0 <= i < |tree.body| ==> !IsMigrationClass(tree.body[i])
    ensures Fold(m, ModuleOps(tree.body)) == m
  {
  }

  // ---------------------------------------------------------------------------
  // A worked example

  /** `migrations.CreateModel(name="Widget", fields=[("id", ...), ("title", ...)])`. */
  function CreateWidget(): Operation {
    var fields := List([Tuple([StrNode("id"), OtherExpr]), Tuple([StrNode("title"), OtherExpr])]);
    Operation("CreateModel", map["name" := StrNode("Widget"), "fields" := fields])
  }

  lemma WidgetFields()
    ensures FieldsOf(Get(CreateWidget().kwargs, "fields")) == {"id", "title"}
  {
    var fieldList := CreateWidget().kwargs["fields"].elts;
    assert FieldNameOf(fieldList[0]) == Some("id") && FieldNameOf(fieldList[1]) == Some("title");
    assert FieldNames(fieldList[..1]) == {"id"} by {
      assert fieldList[..1][..0] == [];
    }
    assert FieldNames(fieldList) == FieldNames(fieldList[..1]) + {"title"};
  }

  lemma LowerWidget()
    ensures Lower("Widget") == "widget"
  {
  }

  lemma CreateWidgetEffect()
    ensures Step(map[], CreateWidget()) == map["widget" := ModelChanges(Created, None, {"id", "title"}, {})]
  {
    var create := CreateWidget();
    WidgetFields();
    LowerWidget();
    assert Arg(create, "name") == "Widget";
    CreateModelEffect(map[], create);
    var after := Step(map[], create);
    assert after.Keys == {"widget"};
    assert after["widget"] == ModelChanges(Created, None, {"id", "title"}, {});
  }

  lemma RemoveTitleEffect(m: Changes)
    requires "Widget" !in m
    ensures Step(m, FieldOp("RemoveField", "Widget", "title")) == m["Widget" := ModelChanges(Modified, None, {}, {"title"})]
  {
    var remove := FieldOp("RemoveField", "Widget", "title");
    var expected := m["Widget" := ModelChanges(Modified, None, {}, {"title"})];
    assert "model_name" != "name";
    assert Arg(remove, "name") == "title" && Arg(remove, "model_name") == "Widget";
    RemoveFieldEffect(m, remove);
    FieldOpTouchesVerbatimKey(m, remove);
    var after := Step(m, remove);
    assert after.Keys == expected.Keys;
    assert after["Widget"] == expected["Widget"];
    assert forall k :: k in after ==> after[k] == expected[k];
  }

  /** CreateModel on "Widget" followed by
      `RemoveField(model_name="Widget", name="title")`: the field operation
      reaches a second record under the key as written, and the title stays
      among the added fields of the created model. */
  lemma WidgetExample()
    ensures Fold(map[], [CreateWidget(), FieldOp("RemoveField", "Widget", "title")]) ==
              map["widget" := ModelChanges(Created, None, {"id", "title"}, {}),
                  "Widget" := ModelChanges(Modified, None, {}, {"title"})]
  {
    var create, remove := CreateWidget(), FieldOp("RemoveField", "Widget", "title");
    var m1 := map["widget" := ModelChanges(Created, None, {"id", "title"}, {})];
    CreateWidgetEffect();
    assert "widget" != "Widget" by { assert "widget"[0] != "Widget"[0]; }
    RemoveTitleEffect(m1);
    assert Fold(map[], [create]) == m1 by {
      assert [create][..0] == [];
    }
    assert Fold(map[], [create, remove]) == Step(m1, remove) by {
      assert [create, remove][..1] == [create];
    }
  }
}
