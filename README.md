# plugin-coto-grafana-mongodb: connection registry and query path

This project is a Dafny model of the back end of a Grafana data-source plugin for MongoDB. It also proves properties of that model. Two parts of the program are covered:

- **The connection manager of `app/database.js`.** It keeps one `MongoClient` per key `host:port:database:username`. Before it reuses a client it pings it, and a dead client is closed and replaced. It builds the connection URI and the driver options from a credentials descriptor. It hides the password when it logs the URI. It also closes one connection, all connections, or the connections idle for longer than a limit.
- **The request path.** `connectMongo` validates the request and fills in defaults. `executeFind` / `_find` and `executeAggregate` / `_aggregate` refuse an empty query and parse the query text with the custom reviver of `app/json-paser-reviver.js`. `_find` also assembles the `sort` / `limit` / `projection` options and hands everything to the driver.

The modules follow the program:

| file | module | what it holds |
|---|---|---|
| `wrappers.dfy` | `Wrappers` | `Option` and `Result` |
| `strings.dfy` | `Strings` | prefix and substring tests, first-occurrence search, decimal rendering of integers |
| `json.dfy` | `Json` | the values JSON.parse produces, plus the `Date` objects the reviver creates |
| `uri_component.dfy` | `UriComponent` | `encodeURIComponent` (UTF-8, percent-escaped) |
| `reviver.dfy` | `Reviver` | the reviver, its regular expression, and the post-order walk that JSON.parse drives it with (section 25.5.1.1 of ECMA-262, InternalizeJSONProperty) |
| `connection_string.dfy` | `ConnectionString` | JavaScript truthiness of request fields, the registry key, the driver options, the URI and its redaction |
| `driver.dfy` | `Driver` | the driver reduced to what it answers: ping succeeds or not; opening is rejected, fails to connect, fails to ping, or connects |
| `registry.dfy` | `Registry` | the registry state (`Pool`), one pure function per operation, and the class `ConnectionManager` whose methods are proved against those functions |
| `database.dfy` | `Database` | `connectMongo`, `executeFind` / `_find`, `executeAggregate` / `_aggregate` |

The registry object is mutable in the source. It is modelled as the class `Registry.ConnectionManager`:

- Its fields are the key-to-entry map, the next client number, and the set of clients already closed.
- Each method is proved to leave the object in the state that a pure function (`Close`, `CloseAll`, `Cleanup`, `Acquire`, `Create`) gives for the old state.
- The lemmas about those functions carry the properties.
- Each method keeps `PoolInvariant`: stored clients are open and numbered below the next number, closed ones are numbered below it too, and no client is stored under two keys.

The reviver's key set is kept as the source writes it. It holds `"lte"` where the other keys carry a `$`. So a date literal under `$lte` stays a string, and one under a plain member named `lte` becomes a Date. `Reviver.DollarLteNotConverted` and `Reviver.BareLteConverted` state both cases.

## Model

| member | source | states |
|---|---|---|
| Reviver.Revive | app/json-paser-reviver.js:5-27 | the value comes back unchanged unless it is a string that starts with "ISODate(", the key is one of the six gated keys, and the regex matches somewhere; in that case the result is a Date of the leftmost match's capture (an if-and-only-if) |
| Reviver.CaptureIsLeftmostMatch | app/json-paser-reviver.js:21 | the capture computed is that of the leftmost match of ISODate\('([^']+)'\), and none is found exactly when no match exists |
| Reviver.CaptureAtComplete | app/json-paser-reviver.js:21 | a match starting at a position is always found there, with the same capture (the first closing quote is forced) |
| Reviver.ReviveIdempotent | app/json-paser-reviver.js:8-23 | a converted value is left alone by a second application under any key |
| Reviver.DollarLteNotConverted | app/json-paser-reviver.js:14 | a date literal under "$lte" is not converted, because the key set holds "lte" |
| Reviver.BareLteConverted | app/json-paser-reviver.js:14 | a date literal under the plain key "lte" is converted |
| Reviver.LiteralConverted | app/json-paser-reviver.js:21-22 | under a gated key, ISODate('x') followed by any text becomes a Date of x |
| Reviver.TrailingTextIgnored | app/json-paser-reviver.js:21 | the regex is not anchored: text after the closing "')" is ignored |
| Reviver.QuoteFreeKept | app/json-paser-reviver.js:21-22 | a string without a single quote never matches and is returned unchanged |
| Reviver.DoubleQuotedLiteralKept | app/json-paser-reviver.js:10-22 | ISODate("...") passes the prefix test but not the regex, so it stays a string |
| Reviver.IndexKeyNotDateKey | app/database.js:373 | the keys of array elements ("0", "1", ...) are never gated keys |
| Reviver.InternalizeIdempotent | app/database.js:324 | parsing an already revived tree with the reviver again changes nothing |
| Reviver.NoDateKeyUnchanged | app/database.js:324 | a tree with no member named by a gated key comes back exactly as parsed |
| Reviver.DatesOnlyUnderDateKeys | app/database.js:324 | in a revived parse result, every Date sits directly under a member named by a gated key |
| Reviver.RootNeverConverted | app/database.js:373 | the root, revived under the key "", is never turned into a Date |
| Reviver.ArrayElementNeverConverted | app/database.js:373 | a string element of an array (a value in an `$in` list, say) is kept as it is |
| Reviver.GatedOperatorConverted | app/database.js:324 | {field: {op: "ISODate('ts')"}} with a gated op gets a Date at field.op and nothing else changes |
| Reviver.CreatedAtExample | app/database.js:324 | a typical range filter on createdAt gets its Date |
| Reviver.ObjectIdLiteralKept | app/json-paser-reviver.js:8-25 | ObjectId('...') literals are not interpreted |
| UriComponent.EncodeUriComponent | app/database.js:68-69 | the encoding is at least as long as the input, holds only unreserved characters and %-escapes (so no ':' and no '@'), and leaves an all-unreserved input unchanged |
| UriComponent.EncodeExample | app/database.js:68-69 | "a@b" encodes to "a%40b": the '@' delimiter is escaped as its UTF-8 byte in hexadecimal |
| ConnectionString.SameTargetSameKey | app/database.js:28 | password, collection and authentication settings do not enter the key |
| ConnectionString.UsernameSeparatesKeys | app/database.js:28 | two users of the same server and database get different keys |
| ConnectionString.KeyDeterminesTarget | app/database.js:28 | when host, port and database hold no ':', equal keys mean equal host, port, database and user name |
| ConnectionString.ColonInHostCollides | app/database.js:28 | with a ':' inside a part, two different targets share one key |
| ConnectionString.ConnectionOptions | app/database.js:11-61 | the driver options are the defaults, except that authSource and authMechanism are the descriptor's when truthy; both are always truthy |
| ConnectionString.AuthSourceQuery | app/database.js:73-77 | the URI gets "?authSource=" exactly when authSource is truthy |
| ConnectionString.ConnectionUri | app/database.js:74-76 | the URI starts with "mongodb://" |
| ConnectionString.UserInfoRoundTrip | app/database.js:68-77 | splitting the URI after the scheme at the first '@' and then the first ':' gives back the encoded user name, the encoded password and host:port/database[?authSource=...], whatever characters user name and password hold |
| ConnectionString.RedactMatchAt | app/database.js:81 | the '@' found ends a match of /:([^@]+)@/ starting at the position: a ':', a non-empty '@'-free run, then that '@'; none is found exactly when no match starts there |
| ConnectionString.RedactFromNoMatch | app/database.js:81 | when no match starts at or after a position, the replacement leaves the string unchanged |
| ConnectionString.RedactFromLeftmost | app/database.js:81 | the replacement happens at the leftmost match at or after the position, and only there |
| ConnectionString.RedactUriIsLeftmostReplace | app/database.js:81 | for every string, the logged text is the string itself when the pattern does not match, and otherwise the string with its leftmost match, and nothing else, replaced by ":***@" |
| ConnectionString.RedactFirstColon | app/database.js:81 | the first ':' followed by a non-empty '@'-free run is the one replaced |
| ConnectionString.RedactUriHidesUserName | app/database.js:81 | as written, the logged URI is "mongodb:***@host:port/database...": scheme slashes, user name and password are all replaced |
| ConnectionString.RedactPasswordHidesOnlyPassword | app/database.js:80-81 | the corrected redaction keeps "mongodb://" and the user name and replaces exactly a non-empty password |
| Registry.EmptyPoolInvariant | app/database.js:6-8 | the empty registry satisfies the invariant |
| Registry.ClientsOfAdd | app/database.js:164-166 | closing one more key adds exactly that key's client to the closed clients |
| Registry.CloseRemovesOnlyKey | app/database.js:142-158 | closeConnection removes only its key, closes only that key's client, and does nothing for an unknown key |
| Registry.CloseKeepsInvariant | app/database.js:142-158 | closeConnection keeps the invariant |
| Registry.CloseKeysStep | app/database.js:164-166 | closing one key after a set of keys is closing the set with that key added |
| Registry.CloseAllEmpties | app/database.js:161-171 | closeAllConnections leaves no entry, closes every stored client and no other client |
| Registry.CloseAllKeepsInvariant | app/database.js:161-171 | closeAllConnections keeps the invariant |
| Registry.RemoveSubsetCard | app/database.js:177-192 | removing a set of present keys shrinks the map by that set's size |
| Registry.CleanupRemovesExactlyIdle | app/database.js:174-193 | an entry is removed if and only if now - lastUsed > maxIdleTime; kept entries are unchanged; exactly the removed clients are closed; the count is the number of removed entries |
| Registry.CleanupKeepsEntryAtLimit | app/database.js:182 | an entry idle for exactly maxIdleTime survives, because the comparison is strict |
| Registry.CleanupWithoutIdleIsNoop | app/database.js:174-193 | without idle entries, cleanup changes nothing and returns 0 |
| Registry.CleanupIdempotent | app/database.js:174-193 | a second cleanup at the same time closes nothing |
| Registry.CloseKeysLookup | app/database.js:179-185 | an entry not yet visited by the cleanup loop is still in place |
| Registry.IdleStep | app/database.js:179-185 | visiting one more key extends the reaped keys by it exactly when it is idle |
| Registry.CleanupKeepsInvariant | app/database.js:174-193 | cleanup keeps the invariant |
| Registry.AcquireReusesLiveClient | app/database.js:31-45 | an entry whose client answers the ping is reused: same client, lastUsed set to now, nothing else changes, no new client |
| Registry.AcquireReplacesDeadClient | app/database.js:31-107 | a dead entry is closed and a new client is created in its place; the old client ends up closed, and the key never maps to it again |
| Registry.CreateOutcome | app/database.js:86-137 | a rejected constructor changes nothing; a failed connect or ping closes the fresh client and stores nothing; success stores a fresh client under the key with lastUsed = now and returns its collection |
| Registry.AcquireTouchesOnlyItsKey | app/database.js:24-139 | getConnection changes no entry but its own key's |
| Registry.AcquireFailureLeavesNoEntry | app/database.js:46-137 | after a failed getConnection, no entry exists under the key |
| Registry.AcquireSuccessStoresClient | app/database.js:41-107 | after a successful getConnection, the key maps to the returned client with lastUsed = now, and the collection is the requested database and collection |
| Registry.CreateKeepsInvariant | app/database.js:86-137 | creation keeps the invariant (the fresh client number is unused) |
| Registry.AcquireKeepsInvariant | app/database.js:24-139 | getConnection keeps the invariant |
| Registry.SameTargetSharesClient | app/database.js:28-45 | a second request for the same host, port, database and user, while the client is alive, gets the same client, even with another password or collection |
| Registry.OtherUserEntryUntouched | app/database.js:28 | acquiring for another user of the same database leaves the first user's entry as it was |
| Registry.ConnectionManager.constructor | app/database.js:6-8 | the registry starts empty and valid |
| Registry.ConnectionManager.CloseConnection | app/database.js:142-158 | the new state is Close of the old one; the invariant is kept |
| Registry.ConnectionManager.CloseAllConnections | app/database.js:161-171 | the loop over a snapshot of the keys leaves CloseAll of the old state; the invariant is kept |
| Registry.ConnectionManager.CleanupIdleConnections | app/database.js:174-193 | the loop leaves the state and count that Cleanup gives, with a limit of 300000 ms when none is given; the invariant is kept |
| Registry.ConnectionManager.GetConnection | app/database.js:24-54 | state and result are those of Acquire; the invariant is kept |
| Registry.ConnectionManager.CreateConnection | app/database.js:56-138 | state and result are those of Create; the invariant is kept |
| Database.ValidateRequestOutcome | app/database.js:215-240 | missing credentials fail first with "Credenciais inválidas."; a falsy database, host or collection fails with "Informações de conexão do mongo inválidas."; otherwise the descriptor carries the request's values, with port 27017, authSource "admin" and authMechanism "SCRAM-SHA-256" when those are falsy |
| Database.ValidatedUriNamesAuthSource | app/database.js:233-238 | a descriptor built by connectMongo always yields a URI with ?authSource= and driver options with its own authSource and authMechanism |
| Database.WrapConnectErrorCases | app/database.js:254-262 | an error is rewrapped with the "Erro de autenticação no MongoDB: " prefix if and only if its message contains "Authentication failed" or its code is the number 18; any other error is rethrown unchanged |
| Database.StringCodeNotWrapped | app/database.js:256 | the comparison with 18 is strict: a string code "18" is not treated as an authentication failure |
| Database.InvalidRequestUsesNoDriver | app/database.js:215-227 | an invalid request leaves the registry unchanged, and its outcome does not depend on the driver |
| Database.ValidRequestAcquires | app/database.js:250-263 | a valid request does to the registry exactly what getConnection does and passes its error through the wrapping |
| Database.ConnectMongo | app/database.js:215-264 | state and result are those of Connect; the registry invariant is kept |
| Database.FindOptionsFields | app/database.js:326-338 | sort, limit and projection are set exactly when their argument is truthy; sort and projection are parsed without the reviver; limit is passed as given; a bad sort is reported before a bad projection |
| Database.ZeroLimitIsNoLimit | app/database.js:332-334 | a limit of 0 sets no limit |
| Database.OptionsHoldNoDates | app/database.js:328-338 | sort and projection never contain a Date |
| Database.EmptyFindQueryRefused | app/database.js:266-321 | a falsy query fails with "A consulta não pode ser vazia." whatever the parser and the driver would do |
| Database.FindSendsRevivedFilter | app/database.js:324-348 | a query that parses reaches the driver as the revived tree (every Date under a gated key), with the options above; the driver's result or error comes back unchanged |
| Database.Find | app/database.js:313-360 | the result is FindResult: guard, filter parsed with the reviver, options assembled one field at a time, driver call |
| Database.ExecuteFind | app/database.js:266-287 | the result is FindResult, and a falsy query is refused before _find runs |
| Database.AggregateOutcome | app/database.js:289-392 | a falsy pipeline is refused; one that does not parse is a SyntaxError; otherwise the driver receives the revived pipeline (every Date under a gated key) and its answer is returned unchanged |

## Left out

- Network, driver and timers. The driver's network calls (`connect`, `ping`, `close`, `find`, `aggregate`, `toArray`) are not modelled: only their outcomes are, as parameters. An error thrown by `client.close` is swallowed in the source, so closing is modelled as always succeeding.
- `Date.now()` is the parameter `now`.
- Registry.Create and Registry.Acquire assume that `client.db(database).collection(collection)` (app/database.js:44-45 and :106-107) never throws. The driver can throw there when it rejects a name. In that case the source does two things. On the hit path, the catch closes the live entry and falls through to creation. On the creation path, the catch closes the new client and rethrows, but the entry stored at :100 stays in the table and still names that closed client. So `Registry.AcquireFailureLeavesNoEntry` and the "stored clients are open" part of `PoolInvariant` hold only for names the driver accepts.
- The dates the reviver creates keep the captured text. How `new Date` parses it, and what an invalid date becomes, is not modelled.
- The text parser of JSON.parse is a parameter (`Database.Parser`). Only the walk that applies the reviver is modelled. A parser that creates Dates from text alone is excluded by `Database.ParserSound`.
- JSON.parse's conversion of a non-string argument (a number, say) is modelled by the text the field renders to (`ConnectionString.Show`).
- ConnectionString.Field covers only undefined, integers and strings. A request field cannot be null, a boolean, a non-integer number, an object or an array. The outcomes would barely change: null and false behave as undefined, and the other values are truthy. An object passed as a query, sort or projection is converted to "[object Object]", which JSON.parse rejects with a SyntaxError, as for any text the parser refuses.
- Json.Value numbers are integers only. A `JObject` may repeat a member name, which a JavaScript object cannot. The reviver never reads a number, and it visits each member on its own, so neither changes where Dates appear.
- Object property order is not modelled: `closeAllConnections` and `cleanupIdleConnections` visit keys in any order, and the final state does not depend on it.
- The periodic cleanup (`setInterval`, app/database.js:196-200) and the SIGINT/SIGTERM handlers (app/database.js:202-213) are process wiring around `cleanupIdleConnections` and `closeAllConnections`. They are not modelled.
- `async` interleaving is not modelled: each operation runs to completion before the next.
- Logging and the `debug` flag are not modelled, except the redaction applied to the logged URI. The diagnostic messages of getConnection's catch block (app/database.js:119-135) are left out.
- basic-auth's parsing of the Authorization header is not modelled: the request carries its result.
- The mutation of `lastUsed` in place (app/database.js:41) is modelled as replacing the entry in the map.
- Clients are identified by a number the registry hands out. Two `MongoClient` objects are never confused, but pooling inside the driver is not modelled.
- A `message` property missing from a driver error, which would make `includes` throw, is not modelled: `Driver.DriverError` always has a message.
- app/index.js (the HTTP routes and executeQuery), scripts/test-mongo-connection.js and init-mock/init-mongo.js are not part of this model.

## Findings

| source | as written | input that shows it | evidently intended | confidence | as-written member | corrected member |
|---|---|---|---|---|---|---|
| app/database.js:81 | `mongoURI.replace(/:([^@]+)@/, ':***@')` matches first at the ':' of "mongodb:", so the "//", the user name and the password are all replaced | user "alice", password "secret", host "db", port 27017, database "app", authSource "admin": the log shows "mongodb:***@db:27017/app?authSource=admin" | hide only the password: "mongodb://alice:***@db:27017/app?authSource=admin" | not executed | ConnectionString.RedactUriHidesUserName | ConnectionString.RedactPasswordHidesOnlyPassword |
