/**
  The model registry, the CRUD operations that go through the consensus log, and the effect of
  an operation on the in-memory stores of the models.
 */
module Crud {
  import opened Wrappers

  /** A stored item; its key is the "id" of its JSON form, or else its primary key. */
  datatype Item = Item(key: string, body: string)

  /** The JSON of an operation, as the model's item type sees it. */
  datatype Payload = Malformed | Parsed(item: Item)

  datatype CrudOp =
    | Create(modelPath: string, data: Payload)
    | Update(modelPath: string, id: string, data: Payload)
    | Delete(modelPath: string, id: string)

  datatype Model = Model(name: string, basePath: string)

  type Store = map<string, Item>

  /** One store per registered model, in registration order. */
  type Stores = seq<Store>

  function EmptyStores(models: seq<Model>): Stores {
    seq(|models|, _ => map[])
  }

  /** First registered model whose base path starts the given path. */
  function FindModel(models: seq<Model>, path: string): Option<nat> {
    FindModelFrom(models, path, 0)
  }

  function FindModelFrom(models: seq<Model>, path: string, i: nat): (k: Option<nat>)
    requires i <= |models|
    ensures k.Some? ==> i <= k.value < |models|
    decreases |models| - i
  {
    if i == |models| then None
    else if models[i].basePath <= path then Some(i)
    else FindModelFrom(models, path, i + 1)
  }

  function PutItem(store: Store, item: Item): Store {
    store[item.key := item]
  }

  /** An update of a missing item is turned into a create under the item's own key. */
  function UpdateItem(store: Store, id: string, item: Item): Store {
    if id in store then store[id := item] else PutItem(store, item)
  }

  function ApplyToStore(store: Store, op: CrudOp): Result<Store> {
    match op
    case Create(_, Parsed(item)) => Ok(PutItem(store, item))
    case Update(_, id, Parsed(item)) => Ok(UpdateItem(store, id, item))
    case Delete(_, id) => Ok(store - {id})
    case _ => Err("Failed to deserialize")
  }

  /** Applies one operation to the model its path selects; any error leaves the stores alone. */
  function ApplyCrud(models: seq<Model>, stores: Stores, op: CrudOp): (r: Result<Stores>)
    requires |stores| == |models|
    ensures r.Ok? ==> |r.value| == |models|
  {
    match FindModel(models, op.modelPath)
    case None => Err("Model not found")
    case Some(k) =>
      match ApplyToStore(stores[k], op)
      case Ok(store) => Ok(stores[k := store])
      case Err(e) => Err(e)
  }

  /** Applies operations in order from empty stores, failing at the first error. */
  function Replay(models: seq<Model>, ops: seq<CrudOp>): (r: Result<Stores>)
    ensures r.Ok? ==> |r.value| == |models|
  {
    if ops == [] then Ok(EmptyStores(models))
    else
      match Replay(models, ops[..|ops| - 1])
      case Err(e) => Err(e)
      case Ok(stores) => ApplyCrud(models, stores, ops[|ops| - 1])
  }

  /** One more operation applied on top of a replayed prefix is a replay of the longer prefix. */
  lemma ReplayNext(models: seq<Model>, ops: seq<CrudOp>, k: nat)
    requires k < |ops|
    ensures Replay(models, ops[..k]).Ok? ==>
              Replay(models, ops[..k + 1]) == ApplyCrud(models, Replay(models, ops[..k]).value, ops[k])
  {
    assert ops[..k + 1][..k] == ops[..k];
  }

  /** Where a whole history applies, so does every prefix of it. */
  lemma {:induction false} ReplayPrefixOk(models: seq<Model>, ops: seq<CrudOp>, k: nat)
    requires Replay(models, ops).Ok? && k <= |ops|
    ensures Replay(models, ops[..k]).Ok?
    decreases |ops|
  {
    if k == |ops| {
      assert ops[..k] == ops;
    } else {
      assert ops[..|ops| - 1][..k] == ops[..k];
      ReplayPrefixOk(models, ops[..|ops| - 1], k);
    }
  }

  // ---------------------------------------------------------------- dispatch agreement

  lemma {:induction false} FindModelFromIsFirst(models: seq<Model>, path: string, i: nat, k: nat)
    requires i <= k < |models|
    ensures FindModelFrom(models, path, i) == Some(k) <==>
            models[k].basePath <= path &&
            forall j :: i <= j < k ==> !(models[j].basePath <= path)
    decreases |models| - i
  {
    if models[i].basePath <= path {
    } else if i < k {
      FindModelFromIsFirst(models, path, i + 1, k);
    }
  }

  /** A request is dispatched to model k exactly when k is the first prefix match. */
  lemma DispatchIsFirstMatch(models: seq<Model>, path: string, k: nat)
    requires k < |models|
    ensures FindModel(models, path) == Some(k) <==>
            models[k].basePath <= path &&
            forall j :: 0 <= j < k ==> !(models[j].basePath <= path)
  {
    FindModelFromIsFirst(models, path, 0, k);
  }

  /**
    The base path of the model a request was dispatched to selects that very model again, however
    the base paths prefix one another.
   */
  lemma DispatchAgreement(models: seq<Model>, path: string)
    requires FindModel(models, path).Some?
    ensures FindModel(models, models[FindModel(models, path).value].basePath) == FindModel(models, path)
  {
    var k := FindModel(models, path).value;
    DispatchIsFirstMatch(models, path, k);
    forall j | 0 <= j < k
      ensures !(models[j].basePath <= models[k].basePath)
    {
      PrefixTransitive(models[j].basePath, models[k].basePath, path);
    }
    DispatchIsFirstMatch(models, models[k].basePath, k);
  }

  lemma PrefixTransitive(a: string, b: string, c: string)
    requires b <= c
    ensures a <= b ==> a <= c
  {
  }

  /**
    An operation logged for a request changes, on any node with the same registry, only the store of
    the model the request was dispatched to, and there does what its kind says.
   */
  lemma LoggedOperationReachesDispatchedModel(
      models: seq<Model>, path: string, op: CrudOp, stores: Stores, k: nat)
    requires FindModel(models, path) == Some(k)
    requires op.modelPath == models[k].basePath
    requires |stores| == |models|
    ensures ApplyCrud(models, stores, op).Err? <==> !op.Delete? && op.data.Malformed?
    ensures ApplyCrud(models, stores, op).Ok? ==>
              var after := ApplyCrud(models, stores, op).value;
              && ApplyToStore(stores[k], op) == Ok(after[k])
              && forall j :: 0 <= j < |models| && j != k ==> after[j] == stores[j]
  {
    DispatchAgreement(models, path);
  }
}
