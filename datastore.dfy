/**
  The data store abstraction and its factory (internal/datastores/datastore.go).

  Every implementation offers Connect, Close, GetRisk, CreateRisk and ListRisks, and each
  of them may return an error. The one implementation, SyncMapDataStore, is chosen by a
  configuration string that must be exactly "syncmap".
*/
module DataStores {
  import opened Wrappers
  import opened Models
  import opened SyncMapStore

  /** The data store implementations the factory knows. */
  datatype StoreType = SyncMap

  /** The selector name of each implementation. */
  function SelectorName(t: StoreType): (name: string)
  {
    match t
    case SyncMap => "syncmap"
  }

  /** The factory's choice of implementation for a configured type, or its error. */
  function SelectStoreType(cfgType: string): (r: Result<StoreType, Error>)
    ensures r.Success? <==> cfgType == "syncmap"
    ensures r.Success? ==> SelectorName(r.value) == cfgType
    ensures r.Failure? ==> r.error.message == "unsupported data store type: " + cfgType
  {
    if cfgType == "syncmap" then Success(SyncMap)
    else Failure(Error("unsupported data store type: " + cfgType))
  }

  /** Every implementation's selector name selects it. */
  lemma SelectorNameSelects(t: StoreType)
    ensures SelectStoreType(SelectorName(t)) == Success(t)
  {
  }

  /** The selector is matched exactly: a different case or an empty string is refused. */
  lemma SelectorIsExact()
    ensures SelectStoreType("SyncMap").Failure? && SelectStoreType("SYNCMAP").Failure?
    ensures SelectStoreType("").Failure? && SelectStoreType("syncmap ").Failure?
  {
    assert "SyncMap" != "syncmap" && "SYNCMAP" != "syncmap" && "syncmap " != "syncmap";
  }

  /** NewDataStore: a new, empty in-memory store for "syncmap", no store and the error otherwise. */
  method NewDataStore(cfgType: string) returns (store: SyncMapDataStore?, err: Option<Error>)
    ensures cfgType == "syncmap" ==> store != null && fresh(store) && store.syncMap == map[] && err == None
    ensures cfgType != "syncmap" ==>
      store == null && err == Some(Error("unsupported data store type: " + cfgType))
  {
    match SelectStoreType(cfgType)
    case Success(SyncMap) =>
      store := new SyncMapDataStore();
      err := None;
    case Failure(e) =>
      store := null;
      err := Some(e);
  }
}
