/**
  The in-memory data store (internal/datastores/syncmap_datastore.go): a mutable map
  from risk identifiers to risk attributes. Only its sequential behaviour is modelled.
*/
module SyncMapStore {
  import opened Wrappers
  import opened Models

  /** The error for an identifier that is not stored: "risk <id> was not found". */
  function NotFoundError(id: RiskId): (e: Error)
  {
    Error("risk " + RiskIdString(id) + " was not found")
  }

  /** The not-found message names the identifier's canonical text, so it tells identifiers apart. */
  lemma NotFoundErrorNamesId(id: RiskId)
    ensures |NotFoundError(id).message| == 55
    ensures NotFoundError(id).message[..5] == "risk "
    ensures NotFoundError(id).message[5..41] == RiskIdString(id)
    ensures NotFoundError(id).message[41..] == " was not found"
  {
  }

  lemma NotFoundErrorInjective(a: RiskId, b: RiskId)
    ensures NotFoundError(a) == NotFoundError(b) <==> a == b
  {
    if NotFoundError(a) == NotFoundError(b) {
      NotFoundErrorNamesId(a);
      NotFoundErrorNamesId(b);
      RiskIdStringInjective(a, b);
    }
  }

  /** The message for the all-zero identifier. */
  lemma NotFoundErrorOfZeroId()
    ensures NotFoundError(ZERO_ID).message == "risk 00000000-0000-0000-0000-000000000000 was not found"
  {
    var b := ZERO_ID.bytes;
    assert b[0..4] == [0, 0, 0, 0] && b[4..6] == [0, 0] && b[6..8] == [0, 0] && b[8..10] == [0, 0];
    assert b[10..16] == [0, 0, 0, 0, 0, 0];
    ZeroGroups();
    JoinZeroGroups(RiskIdString(ZERO_ID), EncodeHex(b[0..4]), EncodeHex(b[4..6]), EncodeHex(b[6..8]),
      EncodeHex(b[8..10]), EncodeHex(b[10..16]));
    QuoteZero(NotFoundError(ZERO_ID).message, RiskIdString(ZERO_ID));
  }

  lemma ZeroGroups()
    ensures EncodeHex([0, 0]) == "0000" && EncodeHex([0, 0, 0, 0]) == "00000000"
    ensures EncodeHex([0, 0, 0, 0, 0, 0]) == "000000000000"
  {
    assert [0, 0][1..] == [0];
    assert EncodeHex([0, 0]) == "0000";
    assert [0, 0, 0][1..] == [0, 0];
    assert EncodeHex([0, 0, 0]) == "000000";
    assert [0, 0, 0, 0][1..] == [0, 0, 0];
    assert EncodeHex([0, 0, 0, 0]) == "00000000";
    assert [0, 0, 0, 0, 0][1..] == [0, 0, 0, 0];
    assert EncodeHex([0, 0, 0, 0, 0]) == "0000000000";
    assert [0, 0, 0, 0, 0, 0][1..] == [0, 0, 0, 0, 0];
  }

  lemma JoinZeroGroups(s: string, g0: string, g1: string, g2: string, g3: string, g4: string)
    requires g0 == "00000000" && g1 == "0000" && g2 == "0000" && g3 == "0000" && g4 == "000000000000"
    requires s == g0 + "-" + g1 + "-" + g2 + "-" + g3 + "-" + g4
    ensures s == "00000000-0000-0000-0000-000000000000"
  {
  }

  lemma QuoteZero(message: string, s: string)
    requires s == "00000000-0000-0000-0000-000000000000"
    requires message == "risk " + s + " was not found"
    ensures message == "risk 00000000-0000-0000-0000-000000000000 was not found"
  {
    assert "risk " + s == "risk 00000000-0000-0000-0000-000000000000";
  }

  /**
    `risks` lists the pairs of `m`: one record per stored identifier, carrying the
    attributes stored under it, in some order.
  */
  ghost predicate IsListingOf(risks: seq<Risk>, m: map<RiskId, RiskAttributes>)
  {
    && |risks| == |m|
    && (forall r :: r in risks <==> r.id in m && m[r.id] == r.attributes)
    && (forall i, j :: 0 <= i < j < |risks| ==> risks[i].id != risks[j].id)
  }

  /** A record with distinct identifiers holds each record at most once. */
  lemma {:induction false} DistinctIdsCount(risks: seq<Risk>, x: Risk)
    requires forall i, j :: 0 <= i < j < |risks| ==> risks[i].id != risks[j].id
    ensures multiset(risks)[x] == if x in risks then 1 else 0
  {
    if risks != [] {
      var rest := risks[1..];
      assert forall i, j :: 0 <= i < j < |rest| ==> rest[i].id == risks[i + 1].id && rest[j].id == risks[j + 1].id;
      DistinctIdsCount(rest, x);
      assert risks == [risks[0]] + rest;
      assert multiset(risks) == multiset{risks[0]} + multiset(rest);
      if x == risks[0] {
        assert x !in rest by {
          forall k | 0 <= k < |rest|
            ensures rest[k] != x
          {
            assert risks[k + 1] == rest[k];
          }
        }
      }
    }
  }

  /** Two listings of the same map hold the same records: they differ at most in order. */
  lemma ListingsArePermutations(a: seq<Risk>, b: seq<Risk>, m: map<RiskId, RiskAttributes>)
    requires IsListingOf(a, m) && IsListingOf(b, m)
    ensures multiset(a) == multiset(b)
  {
    forall x
      ensures multiset(a)[x] == multiset(b)[x]
    {
      DistinctIdsCount(a, x);
      DistinctIdsCount(b, x);
    }
  }

  /** The only listing of an empty map is the empty sequence. */
  lemma EmptyListing(risks: seq<Risk>)
    ensures IsListingOf(risks, map[]) <==> risks == []
  {
  }

  /** The map after storing each (identifier, attributes) pair of `puts` in order. */
  function StoreAll(m: map<RiskId, RiskAttributes>, puts: seq<(RiskId, RiskAttributes)>): (m': map<RiskId, RiskAttributes>)
    decreases |puts|
  {
    if puts == [] then m else StoreAll(m[puts[0].0 := puts[0].1], puts[1..])
  }

  /**
    Storing pairs under identifiers that are distinct and new loses none of them:
    each is retrievable afterwards and the map grows by their number.
  */
  lemma {:induction false} StoreAllDistinct(m: map<RiskId, RiskAttributes>, puts: seq<(RiskId, RiskAttributes)>)
    requires forall i, j :: 0 <= i < j < |puts| ==> puts[i].0 != puts[j].0
    requires forall i :: 0 <= i < |puts| ==> puts[i].0 !in m
    ensures |StoreAll(m, puts)| == |m| + |puts|
    ensures forall k :: k in m ==> k in StoreAll(m, puts) && StoreAll(m, puts)[k] == m[k]
    ensures forall i :: 0 <= i < |puts| ==> puts[i].0 in StoreAll(m, puts) && StoreAll(m, puts)[puts[i].0] == puts[i].1
    decreases |puts|
  {
    if puts != [] {
      var m' := m[puts[0].0 := puts[0].1];
      var rest := puts[1..];
      assert forall i :: 0 <= i < |rest| ==> rest[i] == puts[i + 1];
      StoreAllDistinct(m', rest);
      assert |m'| == |m| + 1 by {
        assert m'.Keys == m.Keys + {puts[0].0};
      }
    }
  }

  /** Go's sync.Map-backed store: the map is the whole of its state. */
  class SyncMapDataStore {
    var syncMap: map<RiskId, RiskAttributes>

    /** NewSyncMapDataStore: a store with nothing in it. */
    constructor ()
      ensures syncMap == map[]
    {
      syncMap := map[];
    }

    /** Nothing to connect to; never fails and changes nothing. */
    method Connect() returns (err: Option<Error>)
      ensures err == None
    {
      err := None;
    }

    /** Nothing to release; never fails and changes nothing. */
    method Close() returns (err: Option<Error>)
      ensures err == None
    {
      err := None;
    }

    /** The attributes stored under `id`, or zero attributes and the not-found error. */
    method GetRisk(id: RiskId) returns (attrs: RiskAttributes, err: Option<Error>)
      ensures id in syncMap ==> attrs == syncMap[id] && err == None
      ensures id !in syncMap ==> attrs == ZERO_ATTRIBUTES && err == Some(NotFoundError(id))
    {
      if id in syncMap {
        attrs, err := syncMap[id], None;
      } else {
        attrs, err := ZERO_ATTRIBUTES, Some(NotFoundError(id));
      }
    }

    /** Stores `attrs` under `id`, replacing what was there; never fails. */
    method CreateRisk(id: RiskId, attrs: RiskAttributes) returns (err: Option<Error>)
      modifies this
      ensures syncMap == old(syncMap)[id := attrs]
      ensures err == None
    {
      syncMap := syncMap[id := attrs];
      err := None;
    }

    /** Every stored pair as a record, visiting the identifiers in no particular order. */
    method ListRisks() returns (risks: seq<Risk>, err: Option<Error>)
      ensures IsListingOf(risks, syncMap)
      ensures err == None
    {
      risks := [];
      var pending := syncMap.Keys;
      while pending != {}
        invariant pending <= syncMap.Keys
        invariant |risks| + |pending| == |syncMap.Keys|
        invariant forall r :: r in risks <==> r.id in syncMap && r.id !in pending && syncMap[r.id] == r.attributes
        invariant forall i, j :: 0 <= i < j < |risks| ==> risks[i].id != risks[j].id
        decreases |pending|
      {
        var id :| id in pending;
        risks := risks + [Risk(id, syncMap[id])];
        pending := pending - {id};
      }
      err := None;
    }
  }
}
