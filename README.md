# Pet store CRUD core, modelled in Dafny

The repository is a small REST service for pet records. A pet is a row `(id, name, status)` of one `pets` table. The service has five use cases: add, delete, get by id, update and list. Each use case validates its input, calls a repository and maps the repository's outcome onto exactly one typed response (success, 400, 404 or 500). The server of cmd/pet_api/main.go sits behind two middlewares: CORS, and Firebase bearer-token authentication. A `Chain` helper composes them. The `oas` server of the top-level main.go is served directly and has no middleware.

This project models that core:

- `pet_model.dfy` (`PetModel`): the row, the two repository error kinds (`ErrPetNotFound` and any other storage error) and the invariant that every stored name is non-empty.
- `repo.dfy` (`PetRepository`): the SQL repository of `internal/repo/pet.go`. It is a class whose `table: map<int, Pet>` is the `pets` table and whose `nextId` counter stands for the store's key assignment. `Add`, `Delete` and `Update` change the table in place. `GetByID` and `List` only read it. Whether the SQL statement fails inside the store is an input, `storeFails`.
- `schema.dfy` (`PetSchema`): the generated request and response shapes. The `api` and `oas` packages have the same shapes, so they are modelled once. Each response variant carries only its code. This file also holds the lemmas that relate a repository listing to the `ListPets` payload.
- `petsvc_service.dfy` (`PetSvc`) and `pets_service.dfy` (`OasPets`): the two copies of the service, `usecase/petsvc/service.go` and `pet.go`. Each is a class holding the injected repository. The methods that call `Add`, `Delete` or `Update` modify the repository. `ListPets` fills a preallocated array in an index loop, as the source fills its slice. The Go `error` result is the `err` out-parameter, and every contract states that it is `None`. `pets_service.dfy` also holds two client scenarios that chain the service calls.
- `middleware.dfy` (`PetApiMiddleware`): `Chain` is a loop, proved equal to a right fold (`Composed`). A handler is a datatype: the API server wrapped in middlewares. `Serve` says what a handler does with a request: which headers it writes, and whether it answers with its own status or hands a possibly rewritten request to the API server. Token verification is an opaque `Verifier` parameter, `token -> Option<uid>`.

Some behaviours of the code differ from what the API suggests, and the model follows the code:

- `AddPet` ignores the status in the request. The stored status is always `"available"`, not only when none is given.
- `UpdatePet` always writes the status. An unset status writes the zero value `""` instead of keeping the old status.
- A successful `UpdatePet` returns a nil response (`UpdatePetNil`), not an OK variant.
- The repository behind `usecase/petsvc/service.go` is in `infra/sqlite`, which is not part of this model. The SQL repository of `internal/repo/pet.go` stands for it. Both copies of the service therefore run against the same `PetRepo` class.

## Model

| member | source | states |
|---|---|---|
| `PetRepository.PetRepo.constructor` | internal/repo/pet.go:103-107 | Wraps a database whose table may already hold rows. Each row is under its own key, and every key in use is below the next one handed out. The repository's table is exactly those rows. |
| `PetRepository.PetRepo.Add` | internal/repo/pet.go:21-33 | On success, inserts exactly one row. The row has the given name, status "available" and a key not already in the table, and it is returned. On store failure, returns a storage error and leaves the table unchanged. The key invariant is kept. |
| `PetRepository.PetRepo.Delete` | internal/repo/pet.go:35-50 | Removes exactly the row with the id. If no row has that id, returns `ErrPetNotFound` and leaves the table unchanged. A store failure is a distinct storage error and also leaves the table unchanged. |
| `PetRepository.PetRepo.GetByID` | internal/repo/pet.go:52-63 | Succeeds exactly when the store works and the id is present, and returns that stored row. "No rows" is `ErrPetNotFound`, which is distinct from the storage error. Does not modify the table. |
| `PetRepository.PetRepo.Update` | internal/repo/pet.go:65-87 | Overwrites only the name and status of the row whose key matches. The key and every other row stay. Zero matching rows gives `ErrPetNotFound` and no change. A store failure gives a storage error and no change. |
| `PetRepository.PetRepo.List` | internal/repo/pet.go:89-101 | Returns every selected row exactly once, as stored. With no filter every row is selected; with status `s`, exactly the rows whose status is `s`. Store failure gives a storage error. Does not modify the table. |
| `PetRepository.ListingCount` | internal/repo/pet.go:89-101 | A listing has exactly as many rows as the filter selects. |
| `PetRepository.UnfilteredSelectsAll` | internal/repo/pet.go:90-93 | Without a status filter every key of the table is selected. |
| `PetRepository.FilteredIsSubset` | internal/repo/pet.go:91-93 | The rows listed for status `s` all have status `s`. They are among the unfiltered listing's rows, so there are no more of them. |
| `PetSchema.ToApiPet` | usecase/petsvc/service.go:52-56 | A stored row becomes the schema's Pet with id, name and status, and every optional field is set. `ToApiPetInjective` shows that the row can be read back from it. |
| `PetSchema.ToApiPetInjective` | usecase/petsvc/service.go:95-99 | Two rows with the same schema Pet are the same row: the response loses no field. |
| `PetSchema.ValueOrZero` | usecase/petsvc/service.go:115 | An unset optional status gives the zero value "". A set status gives its value. An unset status and one set to "" reach the repository alike. |
| `PetSchema.ListingRendersTable` | usecase/petsvc/service.go:144-151 | Mapping an unfiltered listing position by position gives one schema Pet per stored row, each with that row's id, name and status, and no id twice. |
| `PetSchema.RenderedRowsCover` | usecase/petsvc/service.go:144-153 | Every stored pet appears in the `ListPets` payload. |
| `PetSvc.PetService.constructor` | usecase/petsvc/service.go:157-161 | The service holds the repository it was given. |
| `PetSvc.PetService.AddPet` | usecase/petsvc/service.go:34-57 | Gives 400 exactly when the name is empty, and then the repository is untouched. Gives 500 exactly on store failure, with the table unchanged. Otherwise returns the stored row: the store-assigned fresh id, the name and "available". Keeps all names non-empty. The Go error is always nil. |
| `PetSvc.PetService.DeletePet` | usecase/petsvc/service.go:59-76 | The outcome is OK, 404 or 500, exactly when the row was present, absent, or the store failed. Only OK removes the row; otherwise the table is unchanged. The Go error is always nil. |
| `PetSvc.PetService.GetPetById` | usecase/petsvc/service.go:78-100 | Gives 404 exactly when the id is absent and 500 exactly on store failure. Otherwise returns the stored row's id, name and status. Reads only. The Go error is always nil. |
| `PetSvc.PetService.UpdatePet` | usecase/petsvc/service.go:102-132 | Gives 400 exactly when the name is unset or empty, and then the repository is untouched. Otherwise the id, the name and the status (or "" when unset) go to the repository. The outcome is 404 when the id is absent, 500 on store failure, and the nil response on success. Only success changes the table. Keeps all names non-empty. |
| `PetSvc.PetService.ListPets` | usecase/petsvc/service.go:134-155 | Gives 500 exactly on store failure. Otherwise the payload has one entry per stored row, each carrying that row's fields. The loop maps position `i` of the repository list to position `i` of the payload. |
| `OasPets.PetsService.constructor` | main.go:21-23 | The service holds the repository it was given. |
| `OasPets.PetsService.AddPet` | pet.go:34-57 | Same contract as the `usecase/petsvc` copy: empty name gives 400 with no repository change, store failure gives 500, success echoes the assigned id, the name and "available". Names stay non-empty. |
| `OasPets.PetsService.DeletePet` | pet.go:59-76 | `repo.ErrPetNotFound` gives 404, any other error 500, success `DeletePetOK`. Only success removes the row. |
| `OasPets.PetsService.GetPetById` | pet.go:78-100 | Not found gives 404, other errors 500, success the stored row's fields. Reads only. |
| `OasPets.PetsService.UpdatePet` | pet.go:102-132 | Requires the name to be set and non-empty, otherwise 400 and the store is unchanged. Then 404, 500 or nil, and only nil overwrites the row's name and status. |
| `OasPets.PetsService.ListPets` | pet.go:134-155 | Store failure gives 500. Otherwise the payload renders the whole table, and the order and length of the repository list are kept. |
| `OasPets.AddReadDelete` | pet.go:34-100 | A pet added with a non-empty name reads back with its id, the name and "available". After it is deleted it is not found, and the table is what it was before the add. |
| `OasPets.UpdateRead` | pet.go:78-132 | After a successful update the pet reads back with the same id and the new name and status. |
| `PetApiMiddleware.Wrap` | cmd/pet_api/main.go:22 | Applying a middleware adds exactly one outer layer around exactly the handler it is given. |
| `PetApiMiddleware.Composed` | cmd/pet_api/main.go:24-29 | The right fold `m1(m2(...mn(h)))`. It adds one layer per middleware, and the outermost layer is the first middleware's. |
| `PetApiMiddleware.Chain` | cmd/pet_api/main.go:24-29 | The loop from the last middleware to the first builds `m1(m2(...mn(h)))`. With no middlewares the result is `h`. |
| `PetApiMiddleware.ComposedAppend` | cmd/pet_api/main.go:24-29 | Chaining `ms1 + ms2` equals chaining `ms1` around the chain of `ms2`. |
| `PetApiMiddleware.FirstIsOutermost` | cmd/pet_api/main.go:24-29 | The first middleware listed is the outermost: it handles the request before the rest. |
| `PetApiMiddleware.TrimPrefix` | cmd/pet_api/main.go:56 | The result is `s` with one leading prefix removed when `s` starts with it, and `s` unchanged otherwise. |
| `PetApiMiddleware.Serve` | cmd/pet_api/main.go:31-67 | What `withCORS` and `withFirebaseAuth` do with a request. The middlewares answer only 200 or 401 themselves, and 200 only to `OPTIONS`. The request the API server receives keeps the method and Authorization header that were sent. The lemmas below state each middleware's decisions. |
| `PetApiMiddleware.TrimsOneBearer` | cmd/pet_api/main.go:56 | "Bearer t" gives `t`. "Bearer Bearer t" gives "Bearer t": only one prefix is stripped. |
| `PetApiMiddleware.HeadersAreFixed` | cmd/pet_api/main.go:33-61 | Every header a handler writes is a CORS header or an `http.Error` header, with its fixed value. |
| `PetApiMiddleware.CorsAlwaysSetsHeaders` | cmd/pet_api/main.go:34-36 | Every response of `withCORS` carries the three Access-Control headers with their values, whatever it wraps. |
| `PetApiMiddleware.CorsAnswersPreflight` | cmd/pet_api/main.go:38-41 | `OPTIONS` is answered 200 without running the wrapped handler: the outcome does not depend on it. |
| `PetApiMiddleware.CorsDelegates` | cmd/pet_api/main.go:42 | Any other method gets the wrapped handler's reply to the unchanged request. |
| `PetApiMiddleware.AuthRejects` | cmd/pet_api/main.go:50-61 | An empty Authorization header, or a token the provider rejects, is answered 401 with the `http.Error` headers. The wrapped handler is never run. |
| `PetApiMiddleware.AuthInjectsUid` | cmd/pet_api/main.go:57-64 | A verified token runs the wrapped handler on the request with the token's UID as the context's "userId". |
| `PetApiMiddleware.AuthVerifiesBearerToken` | cmd/pet_api/main.go:56-64 | For the header "Bearer t", the provider verifies `t`. A non-empty header without the prefix is verified whole. The provider's answer decides between 401 and running the wrapped handler. |
| `PetApiMiddleware.OnlyVerifiedRequestsDispatched` | cmd/pet_api/main.go:47-67 | Behind an auth layer, at any depth, a request reaches the API server only if it carried an Authorization header. It then carries the UID the provider returned for its token. |
| `PetApiMiddleware.ReachesServerUnchanged` | cmd/pet_api/main.go:42 | With no auth layer, a request that reaches the API server arrives as it was sent. |
| `PetApiMiddleware.ApiHandler` | cmd/pet_api/main.go:141-144 | `Chain(srv, withCORS(), withFirebaseAuth(c))` is CORS outermost, around authentication, around the API server. |
| `PetApiMiddleware.ApiHandlerDecisions` | cmd/pet_api/main.go:141-144 | In the composed API handler, CORS is outermost. A preflight succeeds with 200 even without an Authorization header. Any other request without the header gets 401. A request with the header is dispatched with the verified UID, or refused 401. |

## Left out

- SQL, go-jet query construction and the SQLite driver: the table is a map. The model does not capture a `RowsAffected` failure after a statement that already ran. Every store failure is one generic storage error that leaves the table unchanged.
- PetRepository.PetRepo.constructor: assumes every existing row has a non-NULL status and a key of 1 or more. The Go row type's `Status` is a `*string`, so the column can hold NULL, and SQLite accepts explicit keys of 0 or below. On a row whose status is NULL, both services' `GetPetById` and `ListPets` dereference a nil pointer and panic (usecase/petsvc/service.go:98,149 and pet.go:98,149). The model has no such row and does not model that panic.
- PetRepository.PetRepo.GetByID: assumes the store reports an empty result as `sql.ErrNoRows`, the value internal/repo/pet.go:57 compares with. If the query library reports "no rows" with its own error value, a missing id becomes the wrapped storage error, and the services answer 500 rather than 404. The model does not capture that case.
- PetRepository.PetRepo.Add: promises only a key not already in the table. SQLite's exact key choice is not modelled; the model's counter is one valid choice.
- PetRepository.PetRepo.List: the row order is the store's, so the contract leaves the order open and states only "each selected row exactly once".
- PetSvc.PetService.UpdatePet: the `int32(params.PetId)` narrowing is not modelled. Ids are unbounded integers, and the 64-to-32-bit conversions of ids are omitted throughout.
- OasPets.PetsService.UpdatePet: the same `int32(params.PetId)` narrowing in pet.go is not modelled either.
- Error message texts, `fmt.Errorf` wrapping and the bodies `http.Error` writes: only the error kind and the status code are modelled.
- The generated server's routing, JSON encoding and its check of the status enum, and what it sends for the nil `UpdatePet` response.
- Concurrency: requests are modelled one at a time, and each repository operation is one atomic step.
- `main()` wiring: opening the database, building the server, listening on port 8080.
- The Centrifuge pub/sub node, its websocket handler and `auth_centrifuge`. Firebase SDK initialisation.
- The internals of `VerifyIDToken`: verification is an opaque function parameter.
- The request context apart from its "userId" value, and all request and response parts the middlewares do not read or write.
