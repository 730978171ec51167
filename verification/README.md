# filas-backend store service, modelled in Dafny

filas-backend is a virtual-queue backend: stores register, consumers join a
store's line, and a consumer checks their place in line with an access key.
This project models the service layer that sits between the HTTP handlers and
the store repository, in both of its implementations, `StoreServiceImpl` and
`StoreMockServiceImpl`. Every operation validates its arguments, calls the
repository, and shapes the answer: it builds store access URLs and consumer
ticket URLs, draws the access key, and passes the repository's results and
errors back.

The repository is not modelled. It is an oracle (`Repository.Oracle`) that
holds the answer to every call the service can make. Each service operation
is a pure function of its arguments and of those answers. It returns an
`Outcome`: the Go `(value, error)` pair plus the list of repository calls it
made. So properties such as "no repository call" and "repository `Create` is
never called" can be stated directly.

Files:

- `text.dfy` (`Text`): ASCII lower-casing, and `Itoa` for naturals together
  with an independent decimal reader.
- `domain.dfy` (`Domain`): the `Store`, `Consumer` and `Placement` records,
  the `Error` kinds and the service's error messages.
- `repository.dfy` (`Repository`): the repository oracle, the `Call` log
  entries, and the error a call returns.
- `urls.dfy` (`Urls`): store access URLs, ticket URLs, and splitting a ticket
  URL back into its parts.
- `service.dfy` (`Service`): the ten operations, generic over the two
  implementations, plus `Serve`, which dispatches one request of the
  `StoreService` interface.
- `service_facts.dfy` (`ServiceFacts`): properties that hold across all
  operations, and how the two implementations relate.

Errors are a small datatype. `InvalidArgument(msg)` and `StoreExists` are
made by the service. `Repository(msg)` carries a repository error unchanged.
`Create` recognises "store not found" the way the code does: it compares the
error's text with the repository's `ErrorNotFoundStore`. That constant lives
in the repository package, so its text is the oracle field `notFoundStore`.

How the code treats errors and the two implementations:

- `Create` treats a name-lookup error whose text equals `ErrorNotFoundStore`
  as absence (service/store_service.go:56-60). It then goes on to the
  `StoreExists` check: if that lookup also returned a store, the result is
  `StoreExists`; otherwise the store is created. Every other repository error
  is returned unchanged (`ServiceFacts.NoRepositoryErrorSwallowed`).
- Errors are matched by message text, not by a typed kind.
- The mock's `ValidateConsumer` calls the repository's `GetConsumer` with the
  store name and access key, not `ValidateConsumer`
  (service/store_mock_service.go:198).
- Positions are passed on exactly as the repository reports them, with `-1`
  on every failure. The model does not choose between 0-based and 1-based
  positions.

## Model

| member | source | states |
|---|---|---|
| Text.ToLower | service/store_service.go:67 | Lower-casing keeps the length, lowers each ASCII capital in place, leaves every other character alone, and leaves no capital behind |
| Text.ToLowerIdempotent | service/store_service.go:67 | Lower-casing an already lower-cased name changes nothing |
| Text.ToLowerFixedIff | service/store_service.go:67 | A name is unchanged by lower-casing exactly when it holds no ASCII capital |
| Text.Itoa | service/store_service.go:150 | The access key rendering of any non-negative integer is a non-empty string of decimal digits with no leading zero, and starts with '0' only for zero |
| Text.ItoaRoundTrip | service/store_service.go:150 | Reading the rendered key back as a decimal number yields the random value it was drawn from |
| Text.ItoaInjective | service/store_service.go:150 | Two random values give the same key exactly when they are equal |
| Text.ItoaOfDecimalValue | service/store_service.go:150 | Every canonical decimal numeral is the rendering of the number it denotes, so rendering is onto canonical numerals |
| Text.AccessKeyLength | service/store_service.go:144-150 | A key drawn from `rand.Int`, which lies in [0, 2^63), has between 1 and 19 digits |
| Urls.StoreURL | service/store_service.go:66-67 | A store access URL is as long as base, slash and name together; it starts with the base and one slash, and each following character is the ASCII-lowered character of the name, so no capital follows the base |
| Urls.TicketURL | service/store_service.go:163 | A ticket URL starts with the store's access URL followed by one slash, is as long as both parts and the slash, and its last path segment is the access key whenever the key holds no slash |
| Service.BaseURL | service/store_service.go:66 | The base of the access URL is non-empty and does not end in a slash, so base and name are separated by exactly one slash |
| Service.NewStore | service/store_service.go:66-72 | The record handed to repository `Create` has an empty id, the given name, and an access URL made of the base, one slash and the lower-cased name |
| Service.NewConsumer | service/store_service.go:144-152 | The record handed to repository `AddConsumer` carries the given name, phone and status, and an access key that is a canonical decimal numeral reading back as the random draw |
| Urls.StoreURLShape | service/store_service.go:66-67 | A store access URL is the base, a slash and the lower-cased name, and holds no capital after the base |
| Urls.StoreURLLastSegment | service/store_service.go:66-67 | The last path segment of a store access URL is the lower-cased name whenever the name holds no slash |
| Urls.StoreURLCollisionIff | service/store_service.go:66-67 | Two store names get the same access URL exactly when they agree after lower-casing, so names that differ only in case share one URL |
| Urls.TicketURLSplit | service/store_service.go:163 | A ticket URL's last segment is the access key and its prefix is the store's access URL, whenever the key holds no slash |
| Service.Create | service/store_service.go:49-80 | An empty name is rejected with the add-store message and no repository call. Otherwise the name is looked up first. A lookup error other than not-found is returned unchanged. `StoreExists` is returned exactly when the lookup yields a store, and then repository `Create` is not called. Repository `Create` is called exactly when the lookup gives neither a blocking error nor a store; the calls are then exactly the lookup and one `Create` with a record of empty id, the given name and URL base + "/" + lower-cased name, and that `Create`'s answer is returned |
| Service.RemoveStore | service/store_service.go:83-95 | An empty id is rejected with the remove-store message and no call; otherwise exactly one repository `RemoveStore(id)` call is made and its error is returned unchanged |
| Service.GetAllStores | service/store_service.go:98-105 | Exactly one repository call is made; its list is returned when it succeeds, and its error with an empty list otherwise |
| Service.GetStore | service/store_service.go:108-120 | An empty name is rejected with the get-store message and no call; otherwise the repository's store or error is returned untouched, nil beside an error |
| Service.GetStoreByID | service/store_service.go:123-135 | An empty id is rejected with the get-store message (reused) and no call; otherwise the repository's store or error is returned untouched |
| Service.AddConsumer | service/store_service.go:138-166 | The request is rejected with no call exactly when id, name or phone is empty (an empty status is accepted). Otherwise the repository receives a consumer with the given name, phone and status, and an access key that is a canonical decimal numeral of the random draw. An `AddConsumer` error, or a following `GetStoreByID` error, is returned unchanged with "". On success the result is the store's access URL, "/" and the key |
| Service.RemoveConsumer | service/store_service.go:169-180 | An empty id or phone is rejected with the remove-consumer message and no call; otherwise the repository's error is returned unchanged |
| Service.GetConsumer | service/store_service.go:183-195 | An empty id or phone is rejected with no call. On any error the position is -1 and the consumer nil. Otherwise the repository's position and consumer are returned unchanged |
| Service.GetAllConsumers | service/store_service.go:198-210 | An empty id is rejected with the get-consumer message (reused) and an empty list; otherwise the repository's list or error is returned untouched |
| Service.ValidateConsumer | service/store_service.go:213-225 | An empty store name or key is rejected with the validate-consumer message and no call. Otherwise the repository's answer is returned unchanged: `ValidateConsumer` in `StoreServiceImpl`, `GetConsumer` in `StoreMockServiceImpl`. Any error gives position -1 and a nil consumer |
| Service.Serve | service/service.go:6-17 | Every operation of the interface makes at most two repository calls, and only `Create` and `AddConsumer` make two |
| ServiceFacts.ValidationShortCircuits | service/store_service.go:49-225 | Across all ten operations: no repository call is made exactly when a required argument is empty. In that case the result is the operation's zero value and its own argument error. An `InvalidArgument` error arises in no other case |
| ServiceFacts.ZeroValueOnError | service/store_service.go:49-225 | Whenever an operation returns an error, its value is nil, "", an empty list, or position -1 with a nil consumer |
| ServiceFacts.RepositoryErrorsPassThrough | service/store_service.go:49-225 | A repository error returned by the service is exactly the error of the last repository call made |
| ServiceFacts.NoRepositoryErrorSwallowed | service/store_service.go:49-225 | Any repository call that fails is the last call, and its error is returned unchanged. The only exception is `Create`'s lookup failing with the not-found text |
| ServiceFacts.MockMatchesLive | service/store_mock_service.go:62-189 | Apart from `Create` and `ValidateConsumer`, `StoreMockServiceImpl` gives the same result and makes the same calls as `StoreServiceImpl` for every request and repository |
| ServiceFacts.CreateImplsDiffer | service/store_mock_service.go:28-59 | The mock's `Create` takes the same decisions and makes the same number of calls as the real one. The record it hands to the repository differs only in URL: "http://app.filas.com/" + lower-cased name instead of "http://localhost:8080/mystore/" + lower-cased name |
| ServiceFacts.MockValidateIsGetConsumer | service/store_mock_service.go:192-204 | With both arguments present, the mock's `ValidateConsumer` is exactly the service's `GetConsumer(storeName, accessKey)`; with one missing, only the message differs |
| ServiceFacts.AddConsumerTicket | service/store_service.go:144-165 | A successful ticket URL splits back into the store's access URL and the consumer's key; the key is a canonical decimal numeral that reads back as the random draw |
| ServiceFacts.AccessKeysFollowDraws | service/store_service.go:147-152 | Two consumers added with different random draws receive different access keys, and equal draws give equal keys |

## Left out

- The repository package (queue order, position arithmetic, uniqueness of names and phones, effect of removal) is not part of this model. The repository is an oracle whose answers are arbitrary.
- One oracle answers for the whole of one operation. Each operation calls each repository method at most once, so a state change between two calls (after `AddConsumer`, before `GetStoreByID`) is covered by the oracle answering each method as it finds the state.
- web/web.go (HTTP routing, JSON binding, status codes) and infra/mongo.go (database connection, configuration, timeouts) are I/O plumbing and are not modelled.
- Seeding the random source from the clock (service/store_service.go:144-145) is left out. The value of `rand.Int()` is the parameter `rand`. The model accepts any natural number; `Text.AccessKeyLength` uses Go's bound of 2^63.
- Text.ToLower: covers only ASCII capitals. Go's `strings.ToLower` also lowers non-ASCII letters, and that Unicode behaviour is not modelled.
- Service.AddConsumer: requires the repository not to answer `GetStoreByID` with a nil store and a nil error once `AddConsumer` succeeded. The code reads `store.URLName` without a nil check there, so such an answer would crash rather than return.
- The repository receives pointers to the new store and consumer records. The model assumes it does not modify them, in particular that the access key in the ticket URL is the one the service generated.
- Go's nil slices and empty slices are both the empty sequence.
- The race between `Create`'s name lookup and its insert is a concurrency matter and is not modelled.
- The domain package is not part of this model. `Store` carries only the id, name and access URL that the service uses. `Consumer` carries name, phone, access key and status.
- service/store_service_test.go does not match the current interface: it calls `Create` with two arguments and `AddConsumer` with three, and uses constants that are not defined. No property is taken from it.
- service/service.go only declares the interface. It is modelled as the `Request` datatype and `Serve`.
