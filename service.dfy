/**
  The risk service (internal/service/service.go): the only consumer of the data store,
  holding nothing but a reference to it, fixed at construction.
*/
module Service {
  import opened Wrappers
  import opened Models
  import opened SyncMapStore

  /**
    What RiskService.GetRisk makes of the (attributes, error) pair a data store's GetRisk
    returns, whatever the implementation: the error passes through unchanged, with a zero
    risk beside it; without an error the attributes are paired with the requested id.
  */
  function GetRiskResult(id: RiskId, attrs: RiskAttributes, err: Option<Error>): (r: (Risk, Option<Error>))
    ensures r.1 == err
    ensures err.Some? ==> r.0 == ZERO_RISK
    ensures err.None? ==> r.0.id == id && r.0.attributes == attrs
  {
    if err.Some? then (ZERO_RISK, err) else (Risk(id, attrs), None)
  }

  class RiskService {
    const dataStore: SyncMapDataStore

    /** NewRiskService. */
    constructor (dataStore: SyncMapDataStore)
      ensures this.dataStore == dataStore
    {
      this.dataStore := dataStore;
    }

    /** The stored risk `id`, or a zero risk and the store's not-found error. */
    method GetRisk(id: RiskId) returns (risk: Risk, err: Option<Error>)
      ensures id in dataStore.syncMap ==> risk == Risk(id, dataStore.syncMap[id]) && err == None
      ensures id !in dataStore.syncMap ==> risk == ZERO_RISK && err == Some(NotFoundError(id))
    {
      var attrs, storeErr := dataStore.GetRisk(id);
      var r := GetRiskResult(id, attrs, storeErr);
      risk, err := r.0, r.1;
    }

    /** Forwards to the store's CreateRisk: its put is the only effect, its result the result. */
    method CreateRisk(id: RiskId, attrs: RiskAttributes) returns (err: Option<Error>)
      modifies dataStore
      ensures dataStore.syncMap == old(dataStore.syncMap)[id := attrs]
      ensures err == None
    {
      err := dataStore.CreateRisk(id, attrs);
    }

    /** Forwards to the store's ListRisks, returning its records and error unchanged. */
    method ListRisks() returns (risks: seq<Risk>, err: Option<Error>)
      ensures IsListingOf(risks, dataStore.syncMap)
      ensures err == None
    {
      risks, err := dataStore.ListRisks();
    }
  }

  /** After creating a risk through the service, getting it returns exactly that pair. */
  method CreateThenGet(service: RiskService, id: RiskId, attrs: RiskAttributes)
    returns (risk: Risk, err: Option<Error>)
    modifies service.dataStore
    ensures risk == Risk(id, attrs) && err == None
  {
    var createErr := service.CreateRisk(id, attrs);
    risk, err := service.GetRisk(id);
  }

  /** A service over a new store finds no risk and lists none. */
  method QueryNewStore(id: RiskId) returns (risk: Risk, getErr: Option<Error>, risks: seq<Risk>)
    ensures risk == ZERO_RISK && getErr == Some(NotFoundError(id))
    ensures risks == []
  {
    var store := new SyncMapDataStore();
    var service := new RiskService(store);
    risk, getErr := service.GetRisk(id);
    var listErr;
    risks, listErr := service.ListRisks();
    EmptyListing(risks);
  }

  /** Two risks created under distinct ids are listed as exactly those two records, in either order. */
  method ListTwoCreated(id1: RiskId, id2: RiskId) returns (risks: seq<Risk>)
    requires id1 != id2
    ensures |risks| == 2
    ensures forall r :: r in risks <==>
      r == Risk(id1, RiskAttributes("open", "", "")) || r == Risk(id2, RiskAttributes("closed", "", ""))
  {
    var store := new SyncMapDataStore();
    var service := new RiskService(store);
    var err := service.CreateRisk(id1, RiskAttributes("open", "", ""));
    err := service.CreateRisk(id2, RiskAttributes("closed", "", ""));
    risks, err := service.ListRisks();
  }

  /**
    Creating each pair of `puts` in turn, as the service tests do through the store
    (RiskService.CreateRisk has exactly the store's effect), leaves the store map equal
    to storing them all in order.
  */
  method CreateEach(service: RiskService, puts: seq<(RiskId, RiskAttributes)>)
    modifies service.dataStore
    ensures service.dataStore.syncMap == StoreAll(old(service.dataStore.syncMap), puts)
  {
    var i := 0;
    while i < |puts|
      invariant 0 <= i <= |puts|
      invariant StoreAll(service.dataStore.syncMap, puts[i..]) == StoreAll(old(service.dataStore.syncMap), puts)
    {
      assert puts[i..][1..] == puts[i + 1..];
      var err := service.CreateRisk(puts[i].0, puts[i].1);
      i := i + 1;
    }
  }

  /**
    Risks created under distinct identifiers in a new store are each retrievable
    afterwards and listed as exactly that many records.
  */
  method CreateDistinctThenList(puts: seq<(RiskId, RiskAttributes)>) returns (risks: seq<Risk>)
    requires forall i, j :: 0 <= i < j < |puts| ==> puts[i].0 != puts[j].0
    ensures |risks| == |puts|
    ensures forall i :: 0 <= i < |puts| ==> Risk(puts[i].0, puts[i].1) in risks
  {
    var store := new SyncMapDataStore();
    var service := new RiskService(store);
    CreateEach(service, puts);
    StoreAllDistinct(map[], puts);
    var err;
    risks, err := service.ListRisks();
  }
}
