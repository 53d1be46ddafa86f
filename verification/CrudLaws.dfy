/**
  What the operations do to the stores, said key by key and without the functions that apply them: what
  a single operation changes, and where the content of a store after a whole history comes from.
 */
module CrudLaws {
  import opened Wrappers
  import opened Crud

  /** Every model's store but the k-th is as before. */
  ghost predicate OthersUnchanged(before: Stores, after: Stores, k: nat) {
    && |after| == |before|
    && forall j :: 0 <= j < |before| && j != k ==> after[j] == before[j]
  }

  /** Every key of the store but x is as before. */
  ghost predicate OnlyKey(before: Store, after: Store, x: string) {
    forall y :: y != x ==>
      && (y in after <==> y in before)
      && (y in before ==> after[y] == before[y])
  }

  /** After a create the item's own key holds the item. */
  lemma CreateStores(models: seq<Model>, stores: Stores, path: string, item: Item, k: nat)
    requires |stores| == |models| && FindModel(models, path) == Some(k)
    ensures var r := ApplyCrud(models, stores, Create(path, Parsed(item)));
            && r.Ok? && OthersUnchanged(stores, r.value, k)
            && item.key in r.value[k] && r.value[k][item.key] == item
            && OnlyKey(stores[k], r.value[k], item.key)
  {
  }

  /** After an update the given id holds the item if it was present, and else the item's own key does. */
  lemma UpdateStores(models: seq<Model>, stores: Stores, path: string, id: string, item: Item, k: nat)
    requires |stores| == |models| && FindModel(models, path) == Some(k)
    ensures var r := ApplyCrud(models, stores, Update(path, id, Parsed(item)));
            var x := if id in stores[k] then id else item.key;
            && r.Ok? && OthersUnchanged(stores, r.value, k)
            && x in r.value[k] && r.value[k][x] == item
            && OnlyKey(stores[k], r.value[k], x)
  {
  }

  /** After a delete the id is absent; deleting a missing id is no error and changes nothing. */
  lemma DeleteRemoves(models: seq<Model>, stores: Stores, path: string, id: string, k: nat)
    requires |stores| == |models| && FindModel(models, path) == Some(k)
    ensures var r := ApplyCrud(models, stores, Delete(path, id));
            && r.Ok? && OthersUnchanged(stores, r.value, k)
            && id !in r.value[k]
            && OnlyKey(stores[k], r.value[k], id)
            && (id !in stores[k] ==> r.value == stores)
  {
    if id !in stores[k] {
      assert stores[k] - {id} == stores[k];
    }
  }

  /** An operation fails exactly when no model takes its path, or its data does not parse. */
  lemma FailsIff(models: seq<Model>, stores: Stores, op: CrudOp)
    requires |stores| == |models|
    ensures ApplyCrud(models, stores, op).Err? <==>
            || (forall k :: 0 <= k < |models| ==> !(models[k].basePath <= op.modelPath))
            || (!op.Delete? && op.data.Malformed?)
  {
    forall k | 0 <= k < |models|
      ensures FindModel(models, op.modelPath) == Some(k) ==> models[k].basePath <= op.modelPath
    {
      DispatchIsFirstMatch(models, op.modelPath, k);
    }
    FoundIfAny(models, op.modelPath, 0);
  }

  lemma {:induction false} FoundIfAny(models: seq<Model>, path: string, i: nat)
    requires i <= |models|
    ensures FindModelFrom(models, path, i).None? <==>
            forall k :: i <= k < |models| ==> !(models[k].basePath <= path)
    decreases |models| - i
  {
    if i < |models| {
      FoundIfAny(models, path, i + 1);
    }
  }

  // ---------------------------------------------------------------- after a whole history

  /** The operation writes or removes key x of the store it finds. */
  predicate TouchesKey(found: Store, op: CrudOp, x: string) {
    match op
    case Create(_, Parsed(item)) => item.key == x
    case Update(_, id, Parsed(item)) => x == (if id in found then id else item.key)
    case Delete(_, id) => id == x
    case _ => false
  }

  /** Operation l of the history goes to model k and touches key x of the store it finds there. */
  ghost predicate TouchedAt(models: seq<Model>, ops: seq<CrudOp>, l: nat, k: nat, x: string)
    requires k < |models|
  {
    && l < |ops|
    && FindModel(models, ops[l].modelPath) == Some(k)
    && Replay(models, ops[..l]).Ok?
    && TouchesKey(Replay(models, ops[..l]).value[k], ops[l], x)
  }

  /** Of the first n operations, l is the last one that touches the key. */
  ghost predicate LastTouch(models: seq<Model>, ops: seq<CrudOp>, n: nat, l: nat, k: nat, x: string)
    requires k < |models|
  {
    && l < n && TouchedAt(models, ops, l, k, x)
    && forall m: nat :: l < m < n ==> !TouchedAt(models, ops, m, k, x)
  }

  /** What one operation does to one key of one model. */
  lemma OneOperation(models: seq<Model>, stores: Stores, op: CrudOp, k: nat, x: string)
    requires |stores| == |models| && k < |models| && ApplyCrud(models, stores, op).Ok?
    ensures var before, after := stores[k], ApplyCrud(models, stores, op).value[k];
            if FindModel(models, op.modelPath) == Some(k) && TouchesKey(before, op, x)
            then if op.Delete? then x !in after else op.data.Parsed? && x in after && after[x] == op.data.item
            else (x in after <==> x in before) && (x in after ==> after[x] == before[x])
  {
    match op
    case Create(path, Parsed(item)) => CreateStores(models, stores, path, item, FindModel(models, path).value);
    case Update(path, id, Parsed(item)) => UpdateStores(models, stores, path, id, item, FindModel(models, path).value);
    case Delete(path, id) => DeleteRemoves(models, stores, path, id, FindModel(models, path).value);
    case _ =>
  }

  /** The content of one key of one model after the first n operations. */
  ghost predicate KeyIs(models: seq<Model>, ops: seq<CrudOp>, n: nat, k: nat, x: string, item: Option<Item>)
    requires k < |models| && n <= |ops| && Replay(models, ops[..n]).Ok?
  {
    var store := Replay(models, ops[..n]).value[k];
    if item.Some? then x in store && store[x] == item.value else x !in store
  }

  /** What the operation leaves under the keys it touches. */
  function Left(op: CrudOp): Option<Item> {
    if !op.Delete? && op.data.Parsed? then Some(op.data.item) else None
  }

  /** A key that no operation touched is absent. */
  lemma {:induction false} UntouchedIsAbsent(models: seq<Model>, ops: seq<CrudOp>, n: nat, k: nat, x: string)
    requires k < |models| && n <= |ops| && Replay(models, ops[..n]).Ok?
    requires forall m: nat :: m < n ==> !TouchedAt(models, ops, m, k, x)
    ensures KeyIs(models, ops, n, k, x, None)
    decreases n
  {
    if n == 0 {
      assert ops[..0] == [];
    } else {
      PrefixOk(models, ops, n);
      assert !TouchedAt(models, ops, n - 1, k, x);
      UntouchedIsAbsent(models, ops, n - 1, k, x);
      OneOperation(models, Replay(models, ops[..n - 1]).value, ops[n - 1], k, x);
    }
  }

  lemma PrefixOk(models: seq<Model>, ops: seq<CrudOp>, n: nat)
    requires 0 < n <= |ops| && Replay(models, ops[..n]).Ok?
    ensures Replay(models, ops[..n - 1]).Ok?
    ensures Replay(models, ops[..n]) == ApplyCrud(models, Replay(models, ops[..n - 1]).value, ops[n - 1])
  {
    ReplayPrefixOk(models, ops[..n], n - 1);
    assert ops[..n][..n - 1] == ops[..n - 1];
    ReplayNext(models, ops, n - 1);
  }

  /**
    After the first n operations of any history, a key holds what the last operation that touched it
    left there: the item it put, or nothing after a delete.
   */
  lemma {:induction false} LastTouchDecides(models: seq<Model>, ops: seq<CrudOp>, n: nat, l: nat, k: nat, x: string)
    requires k < |models| && n <= |ops| && Replay(models, ops[..n]).Ok?
    requires LastTouch(models, ops, n, l, k, x)
    ensures KeyIs(models, ops, n, k, x, Left(ops[l]))
    decreases n
  {
    PrefixOk(models, ops, n);
    OneOperation(models, Replay(models, ops[..n - 1]).value, ops[n - 1], k, x);
    if l < n - 1 {
      assert !TouchedAt(models, ops, n - 1, k, x);
      LastTouchDecides(models, ops, n - 1, l, k, x);
    }
  }

  lemma {:induction false} LastTouchExists(models: seq<Model>, ops: seq<CrudOp>, n: nat, k: nat, x: string)
      returns (l: nat)
    requires k < |models| && n <= |ops|
    requires exists m: nat :: m < n && TouchedAt(models, ops, m, k, x)
    ensures LastTouch(models, ops, n, l, k, x)
    decreases n
  {
    if TouchedAt(models, ops, n - 1, k, x) {
      l := n - 1;
    } else {
      l := LastTouchExists(models, ops, n - 1, k, x);
    }
  }

  /**
    After a whole history a key is present exactly when some operation touched it and the last one that
    did put an item there.
   */
  lemma PresentIff(models: seq<Model>, ops: seq<CrudOp>, k: nat, x: string)
    requires k < |models| && Replay(models, ops).Ok?
    ensures x in Replay(models, ops).value[k] <==>
            exists l: nat :: LastTouch(models, ops, |ops|, l, k, x) && !ops[l].Delete?
  {
    assert ops[..|ops|] == ops;
    if m: nat :| m < |ops| && TouchedAt(models, ops, m, k, x) {
      var l := LastTouchExists(models, ops, |ops|, k, x);
      LastTouchDecides(models, ops, |ops|, l, k, x);
      assert forall m: nat :: LastTouch(models, ops, |ops|, m, k, x) ==> m == l;
    } else {
      UntouchedIsAbsent(models, ops, |ops|, k, x);
    }
  }
}
