# Risk records: store, service and identifiers

A model of the core of a small backend for "risk" records. A risk is a 128-bit
identifier together with attributes: a state, a title and a description. Callers
create, fetch and list risks through a service. The service forwards every call
to a data store. The only data store is an in-memory map, chosen by the
configuration string `"syncmap"`. Identifiers have a canonical text: lowercase
hexadecimal in groups of 8-4-4-4-12, as in section 4 of RFC 9562. Their JSON form
is that text in double quotes.

Files and modules:

- `wrappers.dfy` (`Wrappers`): `Option` and `Result`. An `Option<Error>` stands for
  a Go `error` result, with `None` for `nil`.
- `models.dfy` (`Models`): the valid states, `RiskId` as 16 bytes, `RiskAttributes`,
  `Risk`, and `Error` (a Go error, known by its message). It also holds the canonical
  text (`RiskIdString`), its parser (`NewRiskIdFromString`) and the JSON form
  (`MarshalJson`), with round-trip lemmas both ways.
- `syncmap_datastore.dfy` (`SyncMapStore`): the class `SyncMapDataStore`. Its one field
  is `syncMap: map<RiskId, RiskAttributes>`. `CreateRisk` updates the field in place.
  `ListRisks` builds its result in a loop over the keys, taking them in no fixed
  order. `IsListingOf` says what a listing is. A lemma proves that any two listings
  of the same map are permutations of each other.
- `datastore.dfy` (`DataStores`): the factory. `SelectStoreType` is the switch on the
  configured type. `NewDataStore` allocates the store it selects.
- `service.dfy` (`Service`): the class `RiskService`. Its one field `dataStore` is a
  `const`, so only the constructor sets it. `GetRiskResult` is how the service treats
  whatever a store's `GetRisk` returns, for any store. The file ends with client
  methods taken from the service tests: create then get, an empty store, and N
  distinct creates then list.

Three points of the code's behaviour that the model keeps:

- Identifiers are generated in the HTTP handler (internal/handler/handler.go:61), not
  in the service. The service stores whatever pair it is given.
- Errors are plain messages (`fmt.Errorf`, the uuid library's texts), not typed
  not-found or malformed-identifier errors.
- The service passes store errors through unchanged. It does not translate them.

## Model

| member | source | states |
|---|---|---|
| Models.IsValidRiskState | internal/models/models.go:10 | a state is valid iff it is one of "open", "closed", "accepted", "investigating" (the membership test of internal/handler/handler.go:56) |
| Models.RiskEquality | internal/models/models.go:16-26 | two risks are equal iff their id bytes, state, title and description are all equal |
| Models.EncodeHex | internal/models/models.go:40-42 | the hex text of n bytes has 2n digits |
| Models.DecodeHex | internal/models/models.go:34-37 | a successful hex decode yields half as many bytes as the text has digits |
| Models.DecodeEncodeHex | internal/models/models.go:34-42 | decoding the hex text of any bytes gives those bytes back |
| Models.EncodeDecodeHex | internal/models/models.go:34-42 | re-encoding what any hex string decodes to gives that string back |
| Models.DecodeHexSucceeds | internal/models/models.go:34-37 | hex decoding succeeds iff the text has even length and only lowercase hex digits |
| Models.EncodeHexAt | internal/models/models.go:40-42 | byte k's high nibble is digit 2k and its low nibble digit 2k+1 |
| Models.RiskIdString | internal/models/models.go:40-42 | the text of any id has 36 characters |
| Models.RiskIdStringDigits | internal/models/models.go:40-42 | the 16 bytes appear in order, two lowercase digits each, high nibble first, skipping the hyphens at 8, 13, 18 and 23 |
| Models.RiskIdStringIsCanonical | internal/models/models.go:40-42 | every id's text is canonical: hyphens at 8, 13, 18, 23 and lowercase hex everywhere else |
| Models.RiskIdStringInjective | internal/models/models.go:40-42 | two ids have the same text iff they are equal |
| Models.RiskIdStringExample | internal/models/models_test.go:24-31 | bytes 01 23 45 67 89 ab cd ef fe dc ba 98 76 54 32 10 give "01234567-89ab-cdef-fedc-ba9876543210" |
| Models.NewRiskIdFromString | internal/models/models.go:34-37 | a 36-character string that fails to parse fails with "invalid UUID format" |
| Models.ParseRiskIdString | internal/models/models.go:34-42 | parsing the text of any id succeeds and yields that id |
| Models.RiskIdStringOfParsed | internal/models/models.go:34-42 | a string that parses is exactly the text of the id it parses to |
| Models.ParseSucceedsIffCanonical | internal/models/models.go:34-37 | parsing succeeds iff the string is in canonical form |
| Models.ExampleStringParses | internal/models/models_test.go:16-22 | "01234567-89ab-cdef-fedc-ba9876543210" parses, to the id with those bytes |
| Models.BadIdIsRefused | internal/handler/handler_test.go:25-37 | "bad-uuid-0000-0000-0000-000000000000" fails with "invalid UUID format" |
| Models.NewRiskId | internal/models/models.go:28-31 | a new id is the 16 bytes the random source supplies |
| Models.NewRiskIdParses | internal/models/models_test.go:9-14 | the text of a generated id parses back to that id, whatever the random bytes |
| Models.MarshalJson | internal/models/models.go:45-47 | the JSON form is 38 characters: a quote, the id's canonical text, a quote |
| Models.MarshalJsonNeedsNoEscapes | internal/models/models.go:45-47 | every character inside the quotes is a lowercase hex digit or a hyphen, none of which a JSON string encoder escapes, so quoting is the whole encoding |
| Models.MarshalJsonInjective | internal/models/models.go:45-47 | two ids have the same JSON form iff they are equal |
| Models.MarshalJsonExample | internal/models/models_test.go:24-31 | the example id's JSON form is "\"01234567-89ab-cdef-fedc-ba9876543210\"" |
| SyncMapStore.NotFoundErrorNamesId | internal/datastores/syncmap_datastore.go:34 | the not-found message is "risk ", the id's text, " was not found", 55 characters in all |
| SyncMapStore.NotFoundErrorInjective | internal/datastores/syncmap_datastore.go:34 | two ids give the same not-found error iff they are equal |
| SyncMapStore.NotFoundErrorOfZeroId | internal/handler/handler_test.go:62 | the message for the all-zero id is "risk 00000000-0000-0000-0000-000000000000 was not found" |
| SyncMapStore.SyncMapDataStore.constructor | internal/datastores/syncmap_datastore.go:16-18 | a new store's map is empty |
| SyncMapStore.SyncMapDataStore.Connect | internal/datastores/syncmap_datastore.go:21-23 | returns no error; it modifies nothing, so the map is unchanged |
| SyncMapStore.SyncMapDataStore.Close | internal/datastores/syncmap_datastore.go:26-28 | returns no error; it modifies nothing, so the map is unchanged |
| SyncMapStore.SyncMapDataStore.GetRisk | internal/datastores/syncmap_datastore.go:31-38 | a stored id gives exactly its stored attributes and no error; an absent id gives zero attributes and the not-found error for it; the map is unchanged |
| SyncMapStore.SyncMapDataStore.CreateRisk | internal/datastores/syncmap_datastore.go:41-44 | returns no error; the new map is the old one updated at id with attrs, so the last write wins and every other key is unchanged |
| SyncMapStore.SyncMapDataStore.ListRisks | internal/datastores/syncmap_datastore.go:47-54 | returns no error and a listing of the map: one record per key with its stored value, as many records as keys, no id twice, in any order; the map is unchanged |
| SyncMapStore.ListingsArePermutations | internal/datastores/syncmap_datastore.go:47-54 | any two listings of the same map hold the same records and differ at most in order |
| SyncMapStore.EmptyListing | internal/service/service_test.go:74-89 | the only listing of an empty map is the empty sequence |
| SyncMapStore.StoreAllDistinct | internal/service/service_test.go:96-120 | storing N pairs with distinct new ids keeps the old entries, makes every pair retrievable and adds exactly N keys |
| DataStores.SelectStoreType | internal/datastores/datastore.go:24-29 | selection succeeds iff the type is exactly "syncmap"; otherwise the error is "unsupported data store type: " followed by the type |
| DataStores.SelectorNameSelects | internal/datastores/datastore.go:24-26 | each implementation's selector name selects that implementation |
| DataStores.SelectorIsExact | internal/datastores/datastore.go:24-29 | "SyncMap", "SYNCMAP", "" and "syncmap " are all refused |
| DataStores.NewDataStore | internal/datastores/datastore.go:23-30 | "syncmap" gives a new, empty in-memory store and no error; any other type gives no store and the unsupported-type error |
| Service.GetRiskResult | internal/service/service.go:21-28 | for any store's result: the error passes through unchanged; with an error the risk is the zero risk; without one the risk has the requested id and the returned attributes |
| Service.RiskService.constructor | internal/service/service.go:14-18 | the service's store is the one given; the field is a const, so no method changes it |
| Service.RiskService.GetRisk | internal/service/service.go:21-28 | a stored id gives the risk (id, stored attributes) and no error; an absent id gives the zero risk and the store's not-found error |
| Service.RiskService.CreateRisk | internal/service/service.go:31-33 | the result is the store's result, and the store's put is the only effect |
| Service.RiskService.ListRisks | internal/service/service.go:36-38 | the store's listing and error, unchanged |
| Service.CreateThenGet | internal/service/service_test.go:51-72 | after creating (id, attrs) through the service, getting id returns exactly Risk(id, attrs) and no error |
| Service.QueryNewStore | internal/service/service_test.go:12-24 | a service over a new store gets the zero risk and the not-found error for any id, and lists nothing |
| Service.ListTwoCreated | internal/service/service.go:31-38 | a two-record case of creating then listing through the service: two creates under distinct ids list exactly those two records, in either order (the three-create test with its count check is Service.CreateDistinctThenList) |
| Service.CreateEach | internal/service/service_test.go:107-109 | creating each pair in turn leaves the map equal to storing them all in order |
| Service.CreateDistinctThenList | internal/service/service_test.go:91-120 | after N creates under distinct ids on a new store the listing has N records, one per create |

## Left out

- Concurrency. The Go store's `sync.Map` may be used from many goroutines at once. The
  model is sequential: it does not show thread safety, or what a listing sees while writes
  run beside it. Racing writes to one key appear only as sequential overwrites.
- The data store interface is not a polymorphic type in the model. Dafny traits are not
  used here. The service holds the one implementation, `SyncMapDataStore`, directly.
  "Any implementation may fail" is kept in two places. The operations return an
  `Option<Error>`. `Service.GetRiskResult` is proved for an arbitrary error.
- Service.RiskService.CreateRisk: stated for the in-memory store, whose put never fails.
  The general "returns whatever the store returns" is shown only by its body forwarding
  the store's result.
- Service.RiskService.ListRisks: stated for the in-memory store, like CreateRisk.
- Models.NewRiskIdFromString: covers only the canonical lowercase 36-character form. The
  uuid library also accepts uppercase digits, braces, a `urn:uuid:` prefix and the
  32-digit form without hyphens. The model refuses all of these: with "invalid UUID
  format" at length 36, and "invalid UUID length: N" at any other length. Lengths and
  positions are counted in characters, not in UTF-8 bytes as Go counts them. So on
  non-ASCII input the error text and its N can differ from Go's. Success and failure
  still agree, because canonical text is ASCII. The id `uuid.Parse` returns beside an
  error is not modelled.
- Models.NewRiskId: the random source is a parameter, and the model places no constraint
  on it. `uuid.New` always sets the version nibble of byte 6 to 4 and the variant bits of
  byte 8 to 10, so it never returns ids such as the all-zero id. Those fixed bits are not
  modelled, and there is no uniqueness claim.
- Models.MarshalJson: gives the JSON text as a string, not as bytes. The error result,
  which is always nil for a string, is left out.
- Go's empty but non-nil slice from `ListRisks` is just the empty sequence. Dafny
  sequences have no nil.
- The HTTP handler and router (internal/handler/handler.go, internal/router/router.go).
  These cover JSON binding, status codes and the generation of an id before creation.
  Only the state membership test is kept, as `Models.IsValidRiskState`.
- Configuration loading from the environment (internal/config/config.go). The factory
  takes the configured type string as its input.
- Process lifecycle (cmd/risk-api/main.go): the server, signal handling and the shutdown
  timeout.
- JSON encoding of whole records. Only the identifier's JSON form is modelled.
