# Phone-address directory

A model of a small HTTP service that keeps phone-number-to-address pairs in a
key-value store. It has four handlers under `/phones`:

- Get: `GET /phones/{phone}`.
- Create: `POST /phones`.
- Update: `PUT /phones/{phone}`.
- Delete: `DELETE /phones/{phone}`.

Each handler makes one store check. Create and Update test `exists` and then write. Get reads and then tests for absence. Delete removes and then tests the count it gets back.

The project has four modules:

- `Store` (`store.dfy`) is the in-memory fake store that the service's tests inject. It is the class `FakeRedis`, whose `map<string, string>` field the store's `Set` and `Delete` update in place. Its get/set/exists/delete are the whole store contract the handlers use.
- `Directory` (`directory.dfy`) is the specification:
  - the response pair `Record`;
  - the `Response` kinds: `Ok`, `Created`, `NoContent`, `NotFound`, `Conflict`;
  - the HTTP `Status` of each response;
  - `Handle`, the effect of one request on the table and its answer;
  - `Run`, a sequence of requests against one table;
  - lemmas about runs: key independence, the count of entries, "never created means never found", and the test scenarios stated for any table that lacks the phone.
- `Api` (`api.dfy`) holds the four handlers as methods. Like the source's handler functions, each takes the injected store object. Each is proved to return what `Handle` returns and to leave the store where `Handle` leaves the table. Each also states its two cases outright.
- `ApiTests` (`api_tests.dfy`) holds the service's test functions as client methods. Each starts from a fresh empty store and drives the handlers. Its `ensures` states what the test asserts: the status, the body, and that the detail contains "not found" or "already exists" after lower-casing.

The model keeps these facts about the code:

- The request schemas only require the fields to be present, not non-empty (app/schemas.py:5-10). So no handler has a `requires` on its strings.
- The store's `exists` answers 1 or 0 (tests/test_api.py:19). The handlers test that number the way the code does.
- Delete removes the key first and then tests the count removed (app/api.py:93-94). It answers "not found" only when nothing was removed.

## Model

| member | source | states |
|---|---|---|
| `Store.FakeRedis.constructor` | tests/test_api.py:8-9 | a new store holds no entries |
| `Store.FakeRedis.Get` | tests/test_api.py:11-12 | returns the stored value exactly when the key is present, absent otherwise |
| `Store.FakeRedis.Set` | tests/test_api.py:14-16 | afterwards the key maps to the value, overwriting any old one, every other key is unchanged, and it answers true |
| `Store.FakeRedis.Exists` | tests/test_api.py:18-19 | answers 1 exactly when the key is present and 0 exactly when absent; reads only |
| `Store.FakeRedis.Delete` | tests/test_api.py:21-22 | answers 1 and removes the key when present, answers 0 and leaves the store as it was when absent |
| `Directory.Status` | app/api.py:9-98 | success responses get a 2xx status and only they do; 404 exactly for not-found and 409 exactly for conflict |
| `Directory.Handle` | app/api.py:19-98 | one request touches no other phone's entry; it succeeds exactly when its guard holds (Create: phone absent; others: phone present); a failure changes nothing and is Conflict for Create, "Phone number not found" otherwise; a success has its route's status (200, 201, 200, 204); a returned pair is the pair now stored; Get leaves the table as it was; a successful Create or Update stores and returns the requested address; a successful Delete removes the phone with no body |
| `Directory.Run` | tests/test_api.py:25-35 | stands for the one store the fixture shares across a test's calls: a sequence of requests on that store, applied in order, yields one response per request |
| `Directory.HandleDependsOnOwnEntry` | app/api.py:19-98 | a request's answer and its effect on its own phone depend only on that phone's entry |
| `Directory.RunDependsOnlyOnOwnRequests` | app/api.py:19-98 | over any run, a phone's final entry and the answers to its requests are those of the run with only that phone's requests; phones are independent keys |
| `Directory.NeverCreatedNeverFound` | app/api.py:19-98 | a phone absent at the start and never created stays absent, and every Get, Update or Delete of it answers "not found"; so Update never creates an entry |
| `Directory.HandleSize` | app/api.py:40-98 | one request grows the table by one on Created, shrinks it by one on NoContent, and leaves its size otherwise |
| `Directory.SizeTracksCreatesAndDeletes` | app/api.py:40-98 | after any run the number of stored phones is the initial number plus the successful creates minus the successful deletes |
| `Directory.CreateTwiceConflicts` | tests/test_api.py:52-57 | from any table lacking the phone, a second Create of it is a conflict and the first address stays stored |
| `Directory.CreateThenGet` | tests/test_api.py:60-66 | from any table lacking the phone, Create then Get answers the created pair twice |
| `Directory.CreateThenUpdate` | tests/test_api.py:69-76 | from any table lacking the phone, Update after Create answers the new address, and a later Get reflects the new address, not the old |
| `Directory.CreateDeleteGet` | tests/test_api.py:86-92 | from any table lacking the phone, Create, Delete, Get answers Created, no content, not found, and the table is back to what it was |
| `Directory.LifecycleScenario` | tests/test_api.py:44-92 | chains the steps of the create, get, update and delete tests into one run from an empty store: create "+1234567890" at "123 Main St", read it, move it to "456 Oak Ave", delete it, read again: 201, 200, 200 with the new pair, 204, then not found, and the store ends empty |
| `Api.GetAddress` | app/api.py:19-26 | an absent phone answers "Phone number not found" (404); a present one answers the phone with its stored address (200); the store is not changed |
| `Api.CreatePhoneAddress` | app/api.py:40-52 | a present phone answers Conflict and leaves the store unchanged, so the first address is kept; an absent one is stored with the address, every other key untouched, and the input pair comes back with 201 |
| `Api.UpdateAddress` | app/api.py:66-79 | an absent phone answers "not found" and creates nothing; a present one has only its address replaced and answers the phone with the new address (200) |
| `Api.DeletePhoneAddress` | app/api.py:92-98 | a present phone is removed, alone, with no content (204); an absent one answers "not found" and the store is unchanged |
| `ApiTests.DetailsCarryTestedPhrases` | tests/test_api.py:38-57 | the lower-cased not-found detail contains "not found" and the lower-cased conflict detail contains "already exists" |
| `ApiTests.TestGetAddressNotFound` | tests/test_api.py:38-41 | on an empty store, Get answers 404 with a detail containing "not found" |
| `ApiTests.TestCreatePhoneAddressSuccess` | tests/test_api.py:44-49 | on an empty store, Create answers 201 with the given phone and address |
| `ApiTests.TestCreatePhoneAddressConflict` | tests/test_api.py:52-57 | a second Create of the same phone answers 409 with a detail containing "already exists" |
| `ApiTests.TestGetAddressSuccess` | tests/test_api.py:60-66 | Get after Create answers 200 with the created pair |
| `ApiTests.TestUpdateAddressSuccess` | tests/test_api.py:69-76 | Update after Create answers 200 with the phone and the new address |
| `ApiTests.TestUpdateAddressNotFound` | tests/test_api.py:79-83 | on an empty store, Update answers 404 with a detail containing "not found" |
| `ApiTests.TestDeletePhoneAddressSuccess` | tests/test_api.py:86-92 | Delete after Create answers 204 with no body, and a following Get answers 404 |
| `ApiTests.TestDeletePhoneAddressNotFound` | tests/test_api.py:95-98 | on an empty store, Delete answers 404 with a detail containing "not found" |

## Left out

- Concurrency: the handlers are asynchronous, and two concurrent Creates of one phone can both pass the existence check and both write. The model runs requests one at a time, so it does not show that race.
- HTTP transport, routing, JSON encoding and the exception mechanism are not modelled. A handler's outcome is a `Response` value, and `Status` gives its code.
- Request-schema validation is not modelled. Missing or non-string fields are rejected by the schema library before a handler runs, so the handlers take the two strings directly.
- Features of a real networked store are not modelled: expiry, counts above 1 from `exists` and `delete`, and connection failures with the server errors they cause. The store is the in-memory fake's map.
- FakeRedis.Delete: the fake answers 0 for a key whose stored value is `None`. Stored values here are strings, so that case cannot arise.
- `app/config.py`, `app/main.py` and `app/deps.py` are not part of this model. They hold the process-wide store client built from an environment variable, the application's startup and shutdown hooks, and the dependency wrapper.
- ApiTests.Lower: lower-cases ASCII letters only. Python's `lower` also covers the rest of Unicode, but the fixed detail messages are ASCII.
- The tests' client fixture and dependency override are not modelled as code. Each test method instead allocates its own fresh store, and `Directory.Run` stands for the fixture's one shared store across a test's calls.
