/** The role derive: it compiles the permission annotations of an enum into a match expression. */
module RbacRole {
  import opened Wrappers

  /** One item inside an attribute: an identifier, or anything else. */
  datatype MetaItem = Ident(name: string) | NotIdent

  datatype Attribute = Permissions(items: seq<MetaItem>) | Permission(items: seq<MetaItem>) | Doc | Other

  datatype Variant = Variant(name: string, isUnit: bool, attrs: seq<Attribute>)

  /** An arm of the generated match. */
  datatype Arm = Always(variant: string) | OneOf(variant: string, permissions: seq<string>) | CatchAll

  function ItemsOf(attr: Attribute): seq<MetaItem> {
    if attr.Permissions? || attr.Permission? then attr.items else []
  }

  /** The annotations list the permission on the variant. */
  predicate Lists(v: Variant, permission: string) {
    exists a :: a in v.attrs && Ident(permission) in ItemsOf(a)
  }

  predicate WellFormed(v: Variant) {
    v.isUnit && forall a :: a in v.attrs ==> NotIdent !in ItemsOf(a)
  }

  /** A `permissions` or a `permission` attribute of the variant lists this item. */
  ghost predicate Annotated(v: Variant, item: MetaItem) {
    || (exists items :: Permissions(items) in v.attrs && item in items)
    || (exists items :: Permission(items) in v.attrs && item in items)
  }

  /** Both spellings of the attribute count, and nothing else does. */
  lemma ListsIff(v: Variant, permission: string)
    ensures Lists(v, permission) <==> Annotated(v, Ident(permission))
    ensures WellFormed(v) <==> v.isUnit && !Annotated(v, NotIdent)
  {
    forall item
      ensures (exists a :: a in v.attrs && item in ItemsOf(a)) <==> Annotated(v, item)
    {
      AnnotatedIff(v, item);
    }
    assert (exists a :: a in v.attrs && NotIdent in ItemsOf(a)) <==> Annotated(v, NotIdent);
    assert (exists a :: a in v.attrs && Ident(permission) in ItemsOf(a)) <==> Annotated(v, Ident(permission));
  }

  lemma AnnotatedIff(v: Variant, item: MetaItem)
    ensures (exists a :: a in v.attrs && item in ItemsOf(a)) <==> Annotated(v, item)
  {
    if a :| a in v.attrs && item in ItemsOf(a) {
      assert a == Permissions(a.items) || a == Permission(a.items);
    }
    if items :| Permissions(items) in v.attrs && item in items {
      assert item in ItemsOf(Permissions(items));
    }
    if items :| Permission(items) in v.attrs && item in items {
      assert item in ItemsOf(Permission(items));
    }
  }

  method ExtractPermissions(v: Variant) returns (permissions: Result<seq<string>>)
    requires v.isUnit
    ensures permissions.Ok? <==> WellFormed(v)
    ensures permissions.Ok? ==> forall p :: p in permissions.value <==> Lists(v, p)
  {
    var found: seq<string> := [];
    for i := 0 to |v.attrs|
      invariant forall a :: a in v.attrs[..i] ==> NotIdent !in ItemsOf(a)
      invariant forall p :: p in found <==> exists a :: a in v.attrs[..i] && Ident(p) in ItemsOf(a)
    {
      assert v.attrs[..i + 1] == v.attrs[..i] + [v.attrs[i]];
      var items := ItemsOf(v.attrs[i]);
      for j := 0 to |items|
        invariant NotIdent !in items[..j]
        invariant forall p :: p in found <==>
                    (exists a :: a in v.attrs[..i] && Ident(p) in ItemsOf(a)) || Ident(p) in items[..j]
      {
        assert items[..j + 1] == items[..j] + [items[j]];
        if items[j].NotIdent? {
          assert v.attrs[i] in v.attrs;
          return Err("Expected permission identifier");
        }
        found := found + [items[j].name];
      }
      assert items[..|items|] == items;
      assert forall a :: a in v.attrs[..i + 1] <==> a in v.attrs[..i] || a == v.attrs[i];
    }
    assert v.attrs[..|v.attrs|] == v.attrs;
    return Ok(found);
  }

  // ---------------------------------------------------------------- evaluating the match

  predicate Selects(arm: Arm, role: string) {
    arm.CatchAll? || arm.variant == role
  }

  /** The first arm that selects the role decides. */
  function Evaluate(arms: seq<Arm>, role: string, permission: string): bool {
    if arms == [] then false
    else if Selects(arms[0], role) then
      match arms[0]
      case Always(_) => true
      case OneOf(_, permissions) => permission in permissions
      case CatchAll => false
    else Evaluate(arms[1..], role, permission)
  }

  /** What the annotations grant: the permission itself, or the keyword for all of them. */
  predicate Grants(v: Variant, permission: string) {
    Lists(v, permission) || Lists(v, "all")
  }

  ghost predicate DistinctNames(variants: seq<Variant>) {
    forall i, j :: 0 <= i < j < |variants| ==> variants[i].name != variants[j].name
  }

  /** The arms say of a role what the variants among the first n say of it. */
  ghost predicate ArmsMean(arms: seq<Arm>, variants: seq<Variant>) {
    forall role, permission ::
      Evaluate(arms, role, permission) <==>
      exists v :: v in variants && v.name == role && Grants(v, permission)
  }

  lemma {:induction false} EvaluateConcat(a: seq<Arm>, b: seq<Arm>, role: string, permission: string)
    ensures Evaluate(a + b, role, permission) ==
            if exists arm :: arm in a && Selects(arm, role) then Evaluate(a, role, permission)
            else Evaluate(b, role, permission)
  {
    if a == [] {
      assert a + b == b;
    } else {
      assert (a + b)[1..] == a[1..] + b;
      assert a == [a[0]] + a[1..];
      EvaluateConcat(a[1..], b, role, permission);
    }
  }

  /** Arms exist only for variants of the list. */
  ghost predicate ArmsOf(arms: seq<Arm>, variants: seq<Variant>) {
    forall arm :: arm in arms ==> !arm.CatchAll? && exists v :: v in variants && v.name == arm.variant
  }

  lemma {:induction false} EvaluateUnselected(arms: seq<Arm>, role: string, permission: string)
    requires forall arm :: arm in arms ==> !Selects(arm, role)
    ensures !Evaluate(arms, role, permission)
  {
    if arms != [] {
      EvaluateUnselected(arms[1..], role, permission);
    }
  }

  lemma ArmAppended(arms: seq<Arm>, variants: seq<Variant>, v: Variant, extra: seq<Arm>)
    requires ArmsMean(arms, variants) && ArmsOf(arms, variants)
    requires forall u :: u in variants ==> u.name != v.name
    requires forall arm :: arm in extra ==> !arm.CatchAll? && arm.variant == v.name
    requires forall permission :: Evaluate(extra, v.name, permission) <==> Grants(v, permission)
    ensures ArmsMean(arms + extra, variants + [v]) && ArmsOf(arms + extra, variants + [v])
  {
    forall role, permission
      ensures Evaluate(arms + extra, role, permission) <==>
              exists u :: u in variants + [v] && u.name == role && Grants(u, permission)
    {
      EvaluateConcat(arms, extra, role, permission);
      if role == v.name {
        assert v in variants + [v];
        assert forall u :: u in variants + [v] && u.name == role ==> u == v;
      } else {
        if forall arm :: arm in arms ==> !Selects(arm, role) {
          EvaluateUnselected(arms, role, permission);
        }
        EvaluateUnselected(extra, role, permission);
        assert forall u :: u in variants + [v] && u.name == role <==> u in variants && u.name == role;
      }
    }
  }

  /**
    The compiled match grants a role a permission exactly when the role's annotations list that
    permission or "all". Compilation fails exactly on a variant with fields or a malformed item.
   */
  method DeriveRbacRole(variants: seq<Variant>) returns (arms: Result<seq<Arm>>)
    requires DistinctNames(variants)
    ensures arms.Ok? <==> forall v :: v in variants ==> WellFormed(v)
    ensures arms.Ok? ==> ArmsMean(arms.value, variants)
  {
    var matchArms: seq<Arm> := [];
    for i := 0 to |variants|
      invariant forall v :: v in variants[..i] ==> WellFormed(v)
      invariant ArmsMean(matchArms, variants[..i]) && ArmsOf(matchArms, variants[..i])
    {
      var v := variants[i];
      assert v in variants;
      if !v.isUnit {
        return Err("RbacRole only supports unit variants (no fields)");
      }
      var permissions := ExtractPermissions(v);
      if permissions.Err? {
        return Err(permissions.error);
      }
      var extra: seq<Arm> := [];
      if permissions.value != [] {
        extra := [if "all" in permissions.value then Always(v.name) else OneOf(v.name, permissions.value)];
      }
      NewArmMeans(v, permissions.value, extra);
      ArmAppended(matchArms, variants[..i], v, extra);
      assert variants[..i + 1] == variants[..i] + [v];
      matchArms := matchArms + extra;
    }
    assert variants[..|variants|] == variants;
    CatchAllAppended(matchArms, variants);
    return Ok(matchArms + [CatchAll]);
  }

  lemma NewArmMeans(v: Variant, permissions: seq<string>, extra: seq<Arm>)
    requires forall p :: p in permissions <==> Lists(v, p)
    requires extra == if permissions == [] then []
                      else [if "all" in permissions then Always(v.name) else OneOf(v.name, permissions)]
    ensures forall permission :: Evaluate(extra, v.name, permission) <==> Grants(v, permission)
  {
    if permissions == [] {
      assert forall p :: p !in permissions;
    }
  }

  lemma CatchAllAppended(arms: seq<Arm>, variants: seq<Variant>)
    requires ArmsMean(arms, variants)
    ensures ArmsMean(arms + [CatchAll], variants)
  {
    forall role, permission
      ensures Evaluate(arms + [CatchAll], role, permission) == Evaluate(arms, role, permission)
    {
      EvaluateConcat(arms, [CatchAll], role, permission);
      if forall arm :: arm in arms ==> !Selects(arm, role) {
        EvaluateUnselected(arms, role, permission);
      }
    }
  }

  /** The order of the variants does not matter. */
  lemma VariantOrderIsIrrelevant(a: seq<Arm>, b: seq<Arm>, variants: seq<Variant>, reordered: seq<Variant>,
                                 role: string, permission: string)
    requires ArmsMean(a, variants) && ArmsMean(b, reordered)
    requires forall v :: v in variants <==> v in reordered
    ensures Evaluate(a, role, permission) == Evaluate(b, role, permission)
  {
    assert Evaluate(a, role, permission) <==>
           exists v :: v in variants && v.name == role && Grants(v, permission);
  }

  /** In the generated match a role has a permission exactly when its variant is annotated with it or "all". */
  lemma RoleHasIff(arms: seq<Arm>, variants: seq<Variant>, v: Variant, permission: string)
    requires ArmsMean(arms, variants) && DistinctNames(variants) && v in variants
    ensures Evaluate(arms, v.name, permission) <==>
            Annotated(v, Ident(permission)) || Annotated(v, Ident("all"))
  {
    ListsIff(v, permission);
    ListsIff(v, "all");
    assert forall u :: u in variants && u.name == v.name ==> u == v;
    assert Evaluate(arms, v.name, permission) <==> exists u :: u in variants && u.name == v.name && Grants(u, permission);
  }

  /** The first arm for the role, or the catch-all if it comes first, decides alone. */
  lemma {:induction false} FirstArmDecides(arms: seq<Arm>, k: nat, role: string, permission: string)
    requires k < |arms| && forall j :: 0 <= j < k ==> !arms[j].CatchAll? && arms[j].variant != role
    ensures arms[k] == Always(role) ==> Evaluate(arms, role, permission)
    ensures arms[k] == CatchAll ==> !Evaluate(arms, role, permission)
    ensures arms[k].OneOf? && arms[k].variant == role ==>
              (Evaluate(arms, role, permission) <==> permission in arms[k].permissions)
    decreases k
  {
    if k > 0 {
      FirstArmDecides(arms[1..], k - 1, role, permission);
    }
  }
}
