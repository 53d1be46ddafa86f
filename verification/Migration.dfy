/**
  Schema changes of a migration, the inverse the server records for each applied change, and what
  rolling a migration back restores.
 */
module Migration {
  import opened Wrappers
  import opened Literals

  datatype FieldType = StringType | Integer | Float | Boolean | DateTime | Uuid | Json | Binary

  datatype FieldShape = FieldShape(fieldType: FieldType, nullable: bool, unique: bool, indexed: bool)

  datatype FieldDefinition = FieldDefinition(name: string, shape: FieldShape)

  datatype ModelSchema = ModelSchema(name: string, fields: seq<FieldDefinition>)

  datatype SchemaChange =
    | AddModel(name: string, schema: ModelSchema)
    | RemoveModel(name: string, backupPath: Option<string>)
    | AddField(model: string, field: FieldDefinition, defaultValue: Option<string>)
    | RemoveField(model: string, fieldName: string)
    | RenameField(model: string, oldName: string, newName: string)
    | ChangeFieldType(model: string, fieldName: string, newType: FieldType, transform: Option<string>)
    | AddIndex(model: string, fields: seq<string>, unique: bool)
    | Custom(description: string, forward: string, backward: string)

  function JoinComma(parts: seq<string>): string {
    if parts == [] then "" else if |parts| == 1 then parts[0] else parts[0] + "," + JoinComma(parts[1..])
  }

  function TypeName(t: FieldType): string {
    match t
    case StringType => "String" case Integer => "Integer" case Float => "Float" case Boolean => "Boolean"
    case DateTime => "DateTime" case Uuid => "Uuid" case Json => "Json" case Binary => "Binary"
  }

  /** The operation the server records as the undo of an applied change. */
  function Inverse(change: SchemaChange): SchemaChange {
    match change
    case AddModel(name, _) => RemoveModel(name, None)
    case RemoveModel(name, _) =>
      Custom("Restore model: " + name, "restore_model:" + name, "remove_model:" + name)
    case AddField(model, field, _) => RemoveField(model, field.name)
    case RemoveField(model, field) =>
      Custom("Restore field: " + model + "." + field,
             "restore_field:" + model + ":" + field, "remove_field:" + model + ":" + field)
    case RenameField(model, oldName, newName) => RenameField(model, newName, oldName)
    case ChangeFieldType(model, field, newType, _) =>
      Custom("Restore field type: " + model + "." + field,
             "restore_type:" + model + ":" + field,
             "change_type:" + model + ":" + field + ":" + TypeName(newType))
    case AddIndex(model, fields, unique) =>
      Custom("Remove index on " + model + "." + PrintList(fields),
             "drop_index:" + model + ":" + JoinComma(fields),
             "create_index:" + model + ":" + JoinComma(fields) + ":" + (if unique then "true" else "false"))
    case Custom(description, forward, backward) => Custom("Undo: " + description, backward, forward)
  }

  // ---------------------------------------------------------------- meaning of a change

  type Fields = map<string, FieldShape>

  /** The fields of every model. */
  type Schema = map<string, Fields>

  function FieldsOf(defs: seq<FieldDefinition>): Fields {
    if defs == [] then map[] else FieldsOf(defs[..|defs| - 1])[defs[|defs| - 1].name := defs[|defs| - 1].shape]
  }

  /** The schema after a change; None where the change is not valid, or is text without a meaning. */
  function Exec(schema: Schema, change: SchemaChange): Option<Schema> {
    match change
    case AddModel(name, definition) =>
      if name in schema then None else Some(schema[name := FieldsOf(definition.fields)])
    case RemoveModel(name, _) =>
      if name in schema then Some(schema - {name}) else None
    case AddField(model, field, _) =>
      if model !in schema || field.name in schema[model] then None
      else Some(schema[model := schema[model][field.name := field.shape]])
    case RemoveField(model, field) =>
      if model !in schema || field !in schema[model] then None
      else Some(schema[model := schema[model] - {field}])
    case RenameField(model, oldName, newName) =>
      if model !in schema || oldName !in schema[model] || newName in schema[model] then None
      else Some(schema[model := (schema[model] - {oldName})[newName := schema[model][oldName]]])
    case _ => None
  }

  function ExecAll(schema: Schema, changes: seq<SchemaChange>): Option<Schema>
    decreases changes
  {
    if changes == [] then Some(schema)
    else
      match Exec(schema, changes[0])
      case None => None
      case Some(next) => ExecAll(next, changes[1..])
  }

  predicate HasInverse(change: SchemaChange) {
    change.AddModel? || change.AddField? || change.RenameField?
  }

  /**
    For a change that is valid where it runs, executing the recorded inverse restores the schema
    exactly when the change adds a model, adds a field or renames a field.
   */
  lemma InverseRestoresIff(schema: Schema, change: SchemaChange)
    requires Exec(schema, change).Some?
    ensures Exec(Exec(schema, change).value, Inverse(change)) == Some(schema) <==> HasInverse(change)
  {
    var after := Exec(schema, change).value;
    match change
    case AddModel(name, _) => assert after - {name} == schema;
    case AddField(model, field, _) =>
      assert after[model] - {field.name} == schema[model];
      assert after[model := schema[model]] == schema;
    case RenameField(model, oldName, newName) =>
      assert (after[model] - {newName})[oldName := after[model][newName]] == schema[model];
      assert after[model := schema[model]] == schema;
    case _ =>
  }

  /** Undoing an undo gives back the change itself exactly for renames. */
  lemma DoubleInverseIff(change: SchemaChange)
    ensures Inverse(Inverse(change)) == change <==> change.RenameField?
  {
    if change.Custom? {
      assert |Inverse(Inverse(change)).description| > |change.description|;
    }
  }

  /** One inverse exchanges the two texts of a custom change, and two give both back. */
  lemma CustomInverse(description: string, forward: string, backward: string)
    ensures var once := Inverse(Custom(description, forward, backward));
            && once.Custom? && once.forward == backward && once.backward == forward
            && var twice := Inverse(once);
               && twice.Custom? && twice.forward == forward && twice.backward == backward
  {
  }

  /** Where the undo is only text, the text names the change and undoing it again repeats the change. */
  lemma TextUndo(change: SchemaChange)
    requires change.RemoveModel? || change.RemoveField? || change.ChangeFieldType? || change.AddIndex?
    ensures var undo := Inverse(change);
            var again := Inverse(undo);
            && undo.Custom? && again.Custom?
            && (change.RemoveModel? ==>
                  undo.forward == "restore_model:" + change.name && again.forward == "remove_model:" + change.name)
            && (change.RemoveField? ==>
                  && undo.forward == "restore_field:" + change.model + ":" + change.fieldName
                  && again.forward == "remove_field:" + change.model + ":" + change.fieldName)
            && (change.ChangeFieldType? ==>
                  && undo.forward == "restore_type:" + change.model + ":" + change.fieldName
                  && "change_type:" + change.model + ":" + change.fieldName + ":" <= again.forward)
            && (change.AddIndex? ==>
                  && "drop_index:" + change.model + ":" <= undo.forward
                  && "create_index:" + change.model + ":" <= again.forward)
  {
    if change.ChangeFieldType? {
      var start := "change_type:" + change.model + ":" + change.fieldName + ":";
      assert Inverse(change).backward == start + TypeName(change.newType);
    } else if change.AddIndex? {
      var start := "create_index:" + change.model + ":";
      assert Inverse(change).backward ==
        start + (JoinComma(change.fields) + ":" + (if change.unique then "true" else "false"));
    }
  }

  /** Different types have different names. */
  lemma TypeNamesDiffer(a: FieldType, b: FieldType)
    ensures TypeName(a) == TypeName(b) <==> a == b
  {
    match a
    case StringType => case Integer => case Float => case Boolean =>
    case DateTime => case Uuid => case Json => case Binary =>
  }

  /** A joined list is its two parts with a comma in between. */
  lemma {:induction false} JoinOfConcat(a: seq<string>, b: seq<string>)
    requires a != [] && b != []
    ensures JoinComma(a + b) == JoinComma(a) + "," + JoinComma(b)
    ensures |a| == 1 ==> JoinComma(a) == a[0]
  {
    if |a| == 1 {
      assert (a + b)[1..] == b;
    } else {
      assert (a + b)[1..] == a[1..] + b;
      JoinOfConcat(a[1..], b);
      assert a[0] + "," + (JoinComma(a[1..]) + "," + JoinComma(b)) == a[0] + "," + JoinComma(a[1..]) + "," + JoinComma(b);
    }
  }

  /** The shape of a field, if the schema has the model and the model the field. */
  function ShapeOf(schema: Schema, model: string, field: string): Option<FieldShape> {
    if model in schema && field in schema[model] then Some(schema[model][field]) else None
  }

  /** In a definition that names a field twice, the last one counts. */
  lemma {:induction false} LastDefinitionCounts(defs: seq<FieldDefinition>, k: nat)
    requires k < |defs| && forall j :: k < j < |defs| ==> defs[j].name != defs[k].name
    ensures defs[k].name in FieldsOf(defs) && FieldsOf(defs)[defs[k].name] == defs[k].shape
    decreases |defs|
  {
    if k < |defs| - 1 {
      LastDefinitionCounts(defs[..|defs| - 1], k);
    }
  }

  lemma {:induction false} OnlyDefinedFields(defs: seq<FieldDefinition>, field: string)
    requires field in FieldsOf(defs)
    ensures exists k :: 0 <= k < |defs| && defs[k].name == field
  {
    if defs[|defs| - 1].name != field {
      OnlyDefinedFields(defs[..|defs| - 1], field);
    }
  }

  /** The change touches this field of this model. */
  predicate Touches(change: SchemaChange, model: string, field: string) {
    match change
    case AddModel(name, _) => model == name
    case RemoveModel(name, _) => model == name
    case AddField(m, f, _) => model == m && field == f.name
    case RemoveField(m, f) => model == m && field == f
    case RenameField(m, oldName, newName) => model == m && (field == oldName || field == newName)
    case _ => false
  }

  /** A change that runs adds, removes or renames what it says, and leaves every other field alone. */
  lemma ExecEffect(schema: Schema, change: SchemaChange, model: string, field: string)
    requires Exec(schema, change).Some?
    ensures var after := Exec(schema, change).value;
            && (!Touches(change, model, field) ==> ShapeOf(after, model, field) == ShapeOf(schema, model, field))
            && (change.AddModel? ==>
                  change.name !in schema && change.name in after && after[change.name] == FieldsOf(change.schema.fields))
            && (change.RemoveModel? ==> change.name !in after && change.name in schema)
            && (change.AddField? ==>
                  && ShapeOf(schema, change.model, change.field.name) == None
                  && ShapeOf(after, change.model, change.field.name) == Some(change.field.shape))
            && (change.RemoveField? ==>
                  && ShapeOf(schema, change.model, change.fieldName).Some?
                  && ShapeOf(after, change.model, change.fieldName) == None)
            && (change.RenameField? ==>
                  && ShapeOf(schema, change.model, change.newName) == None
                  && ShapeOf(schema, change.model, change.oldName).Some?
                  && ShapeOf(after, change.model, change.newName) == ShapeOf(schema, change.model, change.oldName)
                  && ShapeOf(after, change.model, change.oldName) == None)
  {
  }

  // ---------------------------------------------------------------- the rollback log

  datatype RollbackOp = RollbackOp(stepIndex: nat, operation: SchemaChange)

  class MigrationContext {
    var currentStep: nat
    var rollbackLog: seq<RollbackOp>

    constructor ()
      ensures currentStep == 0 && rollbackLog == []
    {
      currentStep, rollbackLog := 0, [];
    }

    method RecordStep(stepIndex: nat, rollbackOp: SchemaChange)
      modifies this
      ensures rollbackLog == old(rollbackLog) + [RollbackOp(stepIndex, rollbackOp)]
      ensures currentStep == stepIndex + 1
    {
      rollbackLog := rollbackLog + [RollbackOp(stepIndex, rollbackOp)];
      currentStep := stepIndex + 1;
    }

    /** Runs the steps, recording the inverse of each, until one is not valid. */
    method RunSteps(schema: Schema, steps: seq<SchemaChange>) returns (reached: Schema, done: nat)
      requires rollbackLog == []
      modifies this
      ensures done <= |steps|
      ensures ExecAll(schema, steps[..done]) == Some(reached)
      ensures done < |steps| ==> Exec(reached, steps[done]).None?
      ensures Operations(rollbackLog) == Inverses(steps[..done])
    {
      reached, done := schema, 0;
      while done < |steps|
        invariant done <= |steps|
        invariant ExecAll(schema, steps[..done]) == Some(reached)
        invariant Operations(rollbackLog) == Inverses(steps[..done])
      {
        var next := Exec(reached, steps[done]);
        if next.None? {
          return;
        }
        ExecAllSnoc(schema, steps[..done], steps[done]);
        assert steps[..done + 1] == steps[..done] + [steps[done]];
        assert Inverses(steps[..done + 1]) == Inverses(steps[..done]) + [Inverse(steps[done])];
        RecordStep(done, Inverse(steps[done]));
        reached, done := next.value, done + 1;
      }
    }

    /**
      Applies the recorded operations last to first, and empties the log. An operation that does not
      apply is counted as an error and does not stop the others.
     */
    method Rollback(schema: Schema) returns (restored: Schema, errors: nat)
      modifies this`rollbackLog
      ensures rollbackLog == []
      ensures (restored, errors) == UndoAll(schema, Reversed(Operations(old(rollbackLog))))
    {
      ghost var undo := Reversed(Operations(rollbackLog));
      restored, errors := schema, 0;
      var done := 0;
      assert undo[..0] == [];
      while done < |rollbackLog|
        invariant 0 <= done <= |rollbackLog| == |undo| && rollbackLog == old(rollbackLog)
        invariant (restored, errors) == UndoAll(schema, undo[..done])
      {
        assert undo[..done + 1][..done] == undo[..done];
        var next := Exec(restored, rollbackLog[|rollbackLog| - 1 - done].operation);
        if next.Some? {
          restored := next.value;
        } else {
          errors := errors + 1;
        }
        done := done + 1;
      }
      assert undo[..done] == undo;
      rollbackLog := [];
    }
  }

  /** Executes every operation that applies, in order, and counts those that do not. */
  function UndoAll(schema: Schema, ops: seq<SchemaChange>): (Schema, nat) {
    if ops == [] then (schema, 0)
    else
      var (current, errors) := UndoAll(schema, ops[..|ops| - 1]);
      var next := Exec(current, ops[|ops| - 1]);
      if next.Some? then (next.value, errors) else (current, errors + 1)
  }

  /** A rollback without errors is the execution of all its operations, and the other way round. */
  lemma {:induction false} NoErrorsIff(schema: Schema, ops: seq<SchemaChange>)
    ensures UndoAll(schema, ops).1 == 0 <==> ExecAll(schema, ops).Some?
    ensures ExecAll(schema, ops).Some? ==> UndoAll(schema, ops).0 == ExecAll(schema, ops).value
    decreases |ops|
  {
    if ops != [] {
      var front, last := ops[..|ops| - 1], ops[|ops| - 1];
      assert ops == front + [last];
      NoErrorsIff(schema, front);
      if ExecAll(schema, front).Some? {
        ExecAllSnoc(schema, front, last);
      } else if ExecAll(schema, ops).Some? {
        PrefixExecutes(schema, front, [last]);
      }
    }
  }

  /** Undoing goes on where it was: an operation that does not apply costs one error and nothing else. */
  lemma {:induction false} UndoConcat(schema: Schema, a: seq<SchemaChange>, b: seq<SchemaChange>)
    ensures var (middle, before) := UndoAll(schema, a);
            var (end, after) := UndoAll(middle, b);
            UndoAll(schema, a + b) == (end, before + after)
  {
    if b == [] {
      assert a + b == a;
    } else {
      assert (a + b)[..|a + b| - 1] == a + b[..|b| - 1];
      UndoConcat(schema, a, b[..|b| - 1]);
    }
  }

  lemma UndoOne(schema: Schema, op: SchemaChange)
    ensures Exec(schema, op).Some? ==> UndoAll(schema, [op]) == (Exec(schema, op).value, 0)
    ensures Exec(schema, op).None? ==> UndoAll(schema, [op]) == (schema, 1)
  {
    assert [op][..0] == [];
  }

  function Operations(log: seq<RollbackOp>): (ops: seq<SchemaChange>)
    ensures |ops| == |log| && forall k :: 0 <= k < |log| ==> ops[k] == log[k].operation
  {
    seq(|log|, k requires 0 <= k < |log| => log[k].operation)
  }

  function Inverses(steps: seq<SchemaChange>): (ops: seq<SchemaChange>)
    ensures |ops| == |steps| && forall k :: 0 <= k < |steps| ==> ops[k] == Inverse(steps[k])
  {
    seq(|steps|, k requires 0 <= k < |steps| => Inverse(steps[k]))
  }

  function Reversed<T>(s: seq<T>): (r: seq<T>)
    ensures |r| == |s| && forall k :: 0 <= k < |s| ==> r[k] == s[|s| - 1 - k]
  {
    seq(|s|, k requires 0 <= k < |s| => s[|s| - 1 - k])
  }

  lemma ReversedLast<T>(s: seq<T>)
    requires s != []
    ensures Reversed(s)[0] == s[|s| - 1] && Reversed(s)[1..] == Reversed(s[..|s| - 1])
  {
  }

  lemma {:induction false} ExecAllSnoc(schema: Schema, changes: seq<SchemaChange>, last: SchemaChange)
    requires ExecAll(schema, changes).Some?
    ensures ExecAll(schema, changes + [last]) == Exec(ExecAll(schema, changes).value, last)
    decreases changes
  {
    if changes == [] {
      assert changes + [last] == [last];
    } else {
      assert (changes + [last])[1..] == changes[1..] + [last];
      ExecAllSnoc(Exec(schema, changes[0]).value, changes[1..], last);
    }
  }

  /**
    For any steps that add models, add fields or rename fields, each valid where it runs, executing
    the recorded inverses last to first restores the schema the migration started from.
   */
  lemma {:induction false} RollbackRestores(schema: Schema, steps: seq<SchemaChange>)
    requires forall c :: c in steps ==> HasInverse(c)
    requires ExecAll(schema, steps).Some?
    ensures ExecAll(ExecAll(schema, steps).value, Reversed(Inverses(steps))) == Some(schema)
    decreases steps
  {
    if steps != [] {
      var last, front := steps[|steps| - 1], steps[..|steps| - 1];
      assert steps == front + [last];
      PrefixExecutes(schema, front, [last]);
      ExecAllSnoc(schema, front, last);
      InverseRestoresIff(ExecAll(schema, front).value, last);
      RollbackRestores(schema, front);
      ReversedLast(Inverses(steps));
      assert Inverses(steps)[..|steps| - 1] == Inverses(front);
    }
  }

  lemma {:induction false} PrefixExecutes(schema: Schema, a: seq<SchemaChange>, b: seq<SchemaChange>)
    requires ExecAll(schema, a + b).Some?
    ensures ExecAll(schema, a).Some?
    decreases a
  {
    if a != [] {
      assert (a + b)[1..] == a[1..] + b;
      PrefixExecutes(Exec(schema, a[0]).value, a[1..], b);
    }
  }

  /** A migration that stops at an invalid step is undone as a whole by its rollback, without errors. */
  method MigrateAndRollBack(context: MigrationContext, schema: Schema, steps: seq<SchemaChange>)
      returns (restored: Schema, errors: nat)
    requires context.rollbackLog == []
    requires forall c :: c in steps ==> HasInverse(c)
    modifies context
    ensures restored == schema && errors == 0
  {
    var reached, done := context.RunSteps(schema, steps);
    RollbackRestores(schema, steps[..done]);
    NoErrorsIff(reached, Reversed(Inverses(steps[..done])));
    restored, errors := context.Rollback(reached);
  }
}
