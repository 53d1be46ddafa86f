/** Model specifications and the detector that compares a stored specification with the current one. */
module ModelSpecs {
  import opened Wrappers

  datatype Permissions = Permissions(readPermission: Option<string>, writePermission: Option<string>, ownerField: bool)

  datatype Constraints = Constraints(
    primaryKey: bool,
    unique: bool,
    indexed: bool,
    foreignKey: Option<string>,
    nullable: bool,
    immutable: bool,
    audited: bool,
    versioned: nat,
    retention: nat,
    snapshotOnly: bool,
    validationRules: seq<string>,
    permissions: Permissions,
    defaultValue: Option<string>,
    fieldType: Option<string>)

  datatype IndexSpec = IndexSpec(name: string, fields: seq<string>, unique: bool)

  datatype ForeignKey = ForeignKey(field: string, referencesTable: string, referencesField: string)

  datatype ModelSpec = ModelSpec(
    modelName: string,
    version: nat,
    fields: map<string, Constraints>,
    indexes: seq<IndexSpec>,
    foreignKeys: seq<ForeignKey>)

  datatype ChangeType =
    | FieldAdded | FieldRemoved | FieldTypeModified | IndexAdded | IndexRemoved
    | RetentionModified | PermissionsModified | ForeignKeyAdded

  datatype Strategy = Additive | Breaking | Versioned

  /** `subject` is the field, index or key the change is about. */
  datatype Change = Change(changeType: ChangeType, subject: string, strategy: Strategy, requiresConsensus: bool)

  function StrategyForAdd(c: Constraints): Strategy {
    if c.defaultValue.Some? then Additive
    else if c.primaryKey || c.unique then Breaking
    else if c.nullable then Additive
    else Versioned
  }

  function ConsensusForAdd(c: Constraints): bool {
    c.defaultValue.None? && (c.primaryKey || c.unique || !c.nullable)
  }

  function FieldChanges(name: string, before: Constraints, after: Constraints): set<Change> {
    (if before.fieldType != after.fieldType then {Change(FieldTypeModified, name, Breaking, true)} else {})
    + (if before.retention != after.retention then {Change(RetentionModified, name, Additive, false)} else {})
    + (if before.permissions != after.permissions then {Change(PermissionsModified, name, Additive, false)} else {})
    + (if before.indexed == after.indexed then {}
       else if after.indexed then {Change(IndexAdded, name, Additive, false)}
       else {Change(IndexRemoved, name, Breaking, true)})
  }

  function IndexNames(spec: ModelSpec): set<string> {
    set i | i in spec.indexes :: i.name
  }

  function KeyFields(spec: ModelSpec): set<string> {
    set k | k in spec.foreignKeys :: k.field
  }

  /** All changes the detector reports; the order it reports them in is not used by its callers. */
  function DetectChanges(stored: ModelSpec, current: ModelSpec): set<Change> {
    (set f | f in current.fields && f !in stored.fields ::
       Change(FieldAdded, f, StrategyForAdd(current.fields[f]), ConsensusForAdd(current.fields[f])))
    + (set f | f in stored.fields && f !in current.fields :: Change(FieldRemoved, f, Breaking, true))
    + (set f, c | f in current.fields && f in stored.fields && stored.fields[f] != current.fields[f]
                  && c in FieldChanges(f, stored.fields[f], current.fields[f]) :: c)
    + (set n | n in IndexNames(current) && n !in IndexNames(stored) :: Change(IndexAdded, n, Additive, false))
    + (set n | n in IndexNames(stored) && n !in IndexNames(current) :: Change(IndexRemoved, n, Breaking, true))
    + (set k | k in KeyFields(current) && k !in KeyFields(stored) :: Change(ForeignKeyAdded, k, Breaking, true))
  }

  /** The parts of a field's constraints the detector looks at. */
  predicate SameWatched(a: Constraints, b: Constraints) {
    && a.fieldType == b.fieldType
    && a.retention == b.retention
    && a.permissions == b.permissions
    && a.indexed == b.indexed
  }

  /**
    The detector is silent exactly when the two specifications have the same fields with the same
    watched constraints, the same index names, and the current one has no new foreign key. In
    particular it is silent about a dropped foreign key and about a changed `unique` or `nullable`.
   */
  lemma SilentIff(stored: ModelSpec, current: ModelSpec)
    ensures DetectChanges(stored, current) == {} <==>
            && stored.fields.Keys == current.fields.Keys
            && (forall f :: f in current.fields && f in stored.fields ==>
                  SameWatched(stored.fields[f], current.fields[f]))
            && IndexNames(stored) == IndexNames(current)
            && KeyFields(current) <= KeyFields(stored)
  {
    var changes := DetectChanges(stored, current);
    if changes == {} {
      forall f | f in current.fields
        ensures f in stored.fields && SameWatched(stored.fields[f], current.fields[f])
      {
        FieldOfSilent(stored, current, f);
      }
      forall f | f in stored.fields
        ensures f in current.fields
      {
        assert f !in current.fields ==> Change(FieldRemoved, f, Breaking, true) in changes;
      }
      forall n
        ensures n in IndexNames(stored) <==> n in IndexNames(current)
      {
        assert n in IndexNames(current) && n !in IndexNames(stored) ==> Change(IndexAdded, n, Additive, false) in changes;
        assert n in IndexNames(stored) && n !in IndexNames(current) ==> Change(IndexRemoved, n, Breaking, true) in changes;
      }
      forall k | k in KeyFields(current)
        ensures k in KeyFields(stored)
      {
        assert k !in KeyFields(stored) ==> Change(ForeignKeyAdded, k, Breaking, true) in changes;
      }
    }
  }

  lemma FieldOfSilent(stored: ModelSpec, current: ModelSpec, f: string)
    requires DetectChanges(stored, current) == {} && f in current.fields
    ensures f in stored.fields && SameWatched(stored.fields[f], current.fields[f])
  {
    var changes := DetectChanges(stored, current);
    var added := Change(FieldAdded, f, StrategyForAdd(current.fields[f]), ConsensusForAdd(current.fields[f]));
    assert f !in stored.fields ==> added in changes;
    if stored.fields[f] != current.fields[f] {
      var found := FieldChanges(f, stored.fields[f], current.fields[f]);
      assert forall c :: c in found ==> c in changes;
      assert found == {};
    }
  }

  /** A specification has no changes against itself. */
  lemma NoChangesAgainstItself(spec: ModelSpec)
    ensures DetectChanges(spec, spec) == {}
  {
    SilentIff(spec, spec);
  }

  /** The most restrictive strategy among the changes, whatever order they are folded in. */
  function OverallStrategy(changes: set<Change>): Strategy {
    if exists c :: c in changes && c.strategy == Breaking then Breaking
    else if exists c :: c in changes && c.strategy == Versioned then Versioned
    else Additive
  }

  // ---------------------------------------------------------------- vote policy

  datatype VoteStrategy =
    | AutoAccept
    | Reject
    | Consensus
    | ManualApproval(timeout: Option<nat>, minApprovers: nat)

  datatype VotePolicy = VotePolicy(additive: VoteStrategy, breaking: VoteStrategy, versioned: VoteStrategy)

  function StrategyFor(policy: VotePolicy, s: Strategy): VoteStrategy {
    match s
    case Additive => policy.additive
    case Breaking => policy.breaking
    case Versioned => policy.versioned
  }
}
