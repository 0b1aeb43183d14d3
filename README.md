# Rule-based HTTP mock dispatcher — Dafny model

This project models `HttpMock`. It is a test helper that puts an ordered, mutable list of rules in front of an
in-process HTTP test server. Each rule has three parts: a three-valued check (`true`, `false` or `null`), a
response function that may decline by returning `null`, and an optional id. For each request, the server's
dispatcher returns the response of the first rule whose check is exactly `true` and whose function does not
decline. If no rule answers, the dispatcher throws. Builder methods append rules. `removeRule` and
`updateRule` find a rule by id. Every server the factories create is recorded in a process-wide list, and
`clearAllHttpMocks` shuts all of them down.

The model has these modules:

- `Wrappers` holds `Option`, `Result` and `Outcome`. They stand for Kotlin's nullable types and for thrown
  exceptions.
- `Text` holds the Kotlin string operations that the core uses: `endsWith` and `contains` (the path checks),
  and `toInt` (the `port: String` overload of `httpMockServer`), with `Int.toString` as its inverse.
- `MockRules` treats the rule list as a value. It defines requests, responses and rules; the lazy first-match
  scan (`Select`) and the dispatcher (`Dispatch`); and the by-id lookup, removal and update on `seq<Rule>`.
  It also proves their properties.
- `HttpMocks` holds the imperative part. Class `HttpMock` has the `mockRules` sequence and the `server` field.
  Class `MockServer` is a transport handle whose dispatcher reads the owner's live list. Class `Registry`
  stands for the companion's `httpMocks` list. The module also has the top-level factories.
- `Scenarios` replays the scenarios of the mock's own test suite. It has lemmas on the pure dispatcher and
  client methods that use only the class contracts.

Outside inputs become parameters:

- `bindOk` says whether the transport could start listening.
- `closeOk` says, per server, whether closing the socket succeeded.
- `bodyOk` says whether the test code passed to `executeRules` returned normally.
- `configured` is the rule list that a factory's configuration `block` leaves behind.

In these places the model follows the code exactly:

- `executeRulesAndClearMocks` has no `finally`. It clears the registry only when the test code returns
  normally (httpMock.kt:140-146). It does not clear after a throw.
- `HttpMock.start` and the `httpMockServer` factories do not catch start failures. A failed bind propagates
  and registers nothing. Only `executeRules`/`executeRulesAndClearMocks` swallow start failures, through
  `runCatching`.
- `executeRules` always calls `start` and does not check whether the server is already running. Without any
  server, `server!!` inside `runCatching` is swallowed, but the `server!!` before the test code is not: the
  result is `Fail(NullServer)`.
- Rule ids are not unique. Adding a rule never refuses an id that is already taken, and lookups take the first
  match.

## Model

| member | source | states |
|---|---|---|
| `MockRules.Dispatch` | src/main/kotlin/no/skatteetaten/aurora/mockwebserver/extensions/mockwebserver/httpMock.kt:40-62 | dispatch fails (with the request) exactly when no rule fires; on success the response is that of the first rule, in list order, whose check is `true` and whose function is non-null |
| `MockRules.Attempt` | src/main/kotlin/no/skatteetaten/aurora/mockwebserver/extensions/mockwebserver/httpMock.kt:48-52 | the `mapNotNull` step yields a response exactly when the rule fires (check exactly `true`, function non-null), and then it is `fn(request)` |
| `MockRules.Select` | src/main/kotlin/no/skatteetaten/aurora/mockwebserver/extensions/mockwebserver/httpMock.kt:45-53 | any response the lazy scan yields is `fn(request)` of some rule in the list that fires |
| `MockRules.PathEndsWithCheck` | src/main/kotlin/no/skatteetaten/aurora/mockwebserver/extensions/mockwebserver/httpMock.kt:65-69 | the `path?.endsWith(s)` check abstains on every request without a path and on no other |
| `MockRules.PathContainsCheck` | src/main/kotlin/no/skatteetaten/aurora/mockwebserver/extensions/mockwebserver/httpMock.kt:74-78 | the `path?.contains(s)` check abstains on every request without a path and on no other |
| `MockRules.PathRulesSkipPathlessRequest` | src/main/kotlin/no/skatteetaten/aurora/mockwebserver/extensions/mockwebserver/httpMock.kt:64-80 | a request with a null path is the no-match error for any list whose rules all carry a path check, since every such check abstains |
| `MockRules.SelectFirstFiring` | src/main/kotlin/no/skatteetaten/aurora/mockwebserver/extensions/mockwebserver/httpMock.kt:45-53 | the lazy scan returns `fn(request)` of the first firing rule |
| `MockRules.SelectHasFirstFiring` | src/main/kotlin/no/skatteetaten/aurora/mockwebserver/extensions/mockwebserver/httpMock.kt:45-53 | whenever the scan answers, there is a first firing rule and the answer is its response |
| `MockRules.SelectNoneIffNoneFires` | src/main/kotlin/no/skatteetaten/aurora/mockwebserver/extensions/mockwebserver/httpMock.kt:45-58 | the scan yields `null` (the no-match path) if and only if no rule fires |
| `MockRules.SelectConcat` | src/main/kotlin/no/skatteetaten/aurora/mockwebserver/extensions/mockwebserver/httpMock.kt:45-53 | scanning `a + b` consults `b` only when `a` gives no answer, so appending a rule never changes an answered request |
| `MockRules.SelectIgnoresLaterRules` | src/main/kotlin/no/skatteetaten/aurora/mockwebserver/extensions/mockwebserver/httpMock.kt:45-53 | rules after the first firing one are never evaluated: any tail gives the same answer |
| `MockRules.SelectSkipsNonFiring` | src/main/kotlin/no/skatteetaten/aurora/mockwebserver/extensions/mockwebserver/httpMock.kt:48-52 | a rule whose check is `false`/`null` or whose function is `null` can be deleted without changing any answer: it never blocks a later rule |
| `MockRules.PathEndsWithCheckMeaning` | src/main/kotlin/no/skatteetaten/aurora/mockwebserver/extensions/mockwebserver/httpMock.kt:64-71 | the `path?.endsWith(s)` check abstains exactly when the path is null and is `true` exactly when the path is some string followed by `s` |
| `MockRules.PathContainsCheckMeaning` | src/main/kotlin/no/skatteetaten/aurora/mockwebserver/extensions/mockwebserver/httpMock.kt:73-80 | the `path?.contains(s)` check abstains exactly when the path is null and is `true` exactly when `s` occurs at some position of the path |
| `MockRules.FirstIndexWithId` | src/main/kotlin/no/skatteetaten/aurora/mockwebserver/extensions/mockwebserver/httpMock.kt:148 | `find { it.id == id }` stops at the first rule carrying that id, and finds nothing exactly when no rule carries it (rules without id never match) |
| `MockRules.RemoveAt` | src/main/kotlin/no/skatteetaten/aurora/mockwebserver/extensions/mockwebserver/httpMock.kt:149 | removing one element shortens the list by one and keeps the others in order |
| `MockRules.RemoveAtReinsert` | src/main/kotlin/no/skatteetaten/aurora/mockwebserver/extensions/mockwebserver/httpMock.kt:148-151 | putting the removed element back at its index restores the list |
| `MockRules.RemoveById` | src/main/kotlin/no/skatteetaten/aurora/mockwebserver/extensions/mockwebserver/httpMock.kt:148-151 | `removeRule` returns `null` and keeps the list iff no rule has the id; otherwise it returns the first rule with the id and the list without exactly that rule, one shorter |
| `MockRules.RemoveByIdReinsert` | src/main/kotlin/no/skatteetaten/aurora/mockwebserver/extensions/mockwebserver/httpMock.kt:148-151 | the returned rule can be re-inserted into the remaining list to give back the original |
| `MockRules.RemoveByIdKeepsDispatch` | src/main/kotlin/no/skatteetaten/aurora/mockwebserver/extensions/mockwebserver/httpMock.kt:148-151 | removing a rule that does not fire for a request leaves that request's answer unchanged |
| `MockRules.UpdateById` | src/main/kotlin/no/skatteetaten/aurora/mockwebserver/extensions/mockwebserver/httpMock.kt:153-157 | `updateRule` fails iff no rule has the id; otherwise the length is kept and the list is the rest followed by the first rule with that id carrying the new function |
| `MockRules.UpdateByIdMovesToEnd` | src/main/kotlin/no/skatteetaten/aurora/mockwebserver/extensions/mockwebserver/httpMock.kt:153-157 | the updated rule keeps its check and id, has the new function, sits last, and the other rules keep their order |
| `MockRules.UpdateByIdDispatch` | src/main/kotlin/no/skatteetaten/aurora/mockwebserver/extensions/mockwebserver/httpMock.kt:153-157 | after an update a request is answered by the remaining rules if one fires, otherwise by the new function when the moved rule's check is `true` |
| `Text.EndsWith` | src/main/kotlin/no/skatteetaten/aurora/mockwebserver/extensions/mockwebserver/httpMock.kt:66-68 | when `endsWith(suffix)` holds, the suffix is no longer than the path and matches its last characters one by one |
| `Text.Contains` | src/main/kotlin/no/skatteetaten/aurora/mockwebserver/extensions/mockwebserver/httpMock.kt:75-77 | `contains(sub)` can hold only when `sub` is no longer than the path |
| `Text.EndsWithIffConcat` | src/main/kotlin/no/skatteetaten/aurora/mockwebserver/extensions/mockwebserver/httpMock.kt:66-68 | `endsWith(s)` holds exactly when the path is some string followed by `s` |
| `Text.ContainsIffOccurs` | src/main/kotlin/no/skatteetaten/aurora/mockwebserver/extensions/mockwebserver/httpMock.kt:75-77 | the left-to-right scan of `contains(s)` succeeds exactly when `s` occurs at some position |
| `Text.EndsWithImpliesContains` | src/main/kotlin/no/skatteetaten/aurora/mockwebserver/extensions/mockwebserver/httpMock.kt:64-80 | a path matched by `rulePathEndsWith(s)` is also matched by `rulePathContains(s)` |
| `Text.ToInt` | src/main/kotlin/no/skatteetaten/aurora/mockwebserver/extensions/mockwebserver/httpMock.kt:173-174 | `port.toInt()` yields only 32-bit values and only for strings that start with a sign or a digit |
| `Text.IntToStringRoundTrip` | src/main/kotlin/no/skatteetaten/aurora/mockwebserver/extensions/mockwebserver/httpMock.kt:173-174 | every 32-bit port number written as a string is read back by `toInt` as the same number |
| `HttpMocks.MockServer.Dispatch` | src/main/kotlin/no/skatteetaten/aurora/mockwebserver/extensions/mockwebserver/httpMock.kt:40-45 | a server's dispatcher reads its owner's current rule list; it fails exactly when none of those rules fires |
| `HttpMocks.MockServer.constructor` | src/main/kotlin/no/skatteetaten/aurora/mockwebserver/extensions/mockwebserver/httpMock.kt:34-38 | a new server is owned by its `HttpMock` and is neither started, bound nor shut down |
| `HttpMocks.MockServer.Start` | src/main/kotlin/no/skatteetaten/aurora/mockwebserver/extensions/mockwebserver/httpMock.kt:27-32 | a start is refused after shutdown and does nothing once the server was started; a first start marks it started and leaves it listening exactly when the bind succeeded, so a failed bind is not retried later |
| `HttpMocks.MockServer.Shutdown` | src/main/kotlin/no/skatteetaten/aurora/mockwebserver/extensions/mockwebserver/httpMock.kt:163-167 | a shutdown always leaves the server shut down; the close failure is only reported |
| `HttpMocks.HttpMock.constructor` | src/main/kotlin/no/skatteetaten/aurora/mockwebserver/extensions/mockwebserver/httpMock.kt:22-25 | a new mock has no rules and no server |
| `HttpMocks.HttpMock.Start` | src/main/kotlin/no/skatteetaten/aurora/mockwebserver/extensions/mockwebserver/httpMock.kt:27-32 | on a successful bind a fresh listening server owned by this mock becomes `server`; a failed bind propagates and leaves `server` as it was; rules untouched |
| `HttpMocks.HttpMock.Init` | src/main/kotlin/no/skatteetaten/aurora/mockwebserver/extensions/mockwebserver/httpMock.kt:34-38 | a fresh unstarted server owned by this mock becomes `server`; rules untouched |
| `HttpMocks.HttpMock.RulePathEndsWith` | src/main/kotlin/no/skatteetaten/aurora/mockwebserver/extensions/mockwebserver/httpMock.kt:64-71 | appends exactly one rule at the end, with the path-suffix check and the suffix as id; earlier rules unchanged |
| `HttpMocks.HttpMock.RulePathContains` | src/main/kotlin/no/skatteetaten/aurora/mockwebserver/extensions/mockwebserver/httpMock.kt:73-80 | appends exactly one rule at the end, with the path-substring check and the substring as id; earlier rules unchanged |
| `HttpMocks.HttpMock.AddRule` | src/main/kotlin/no/skatteetaten/aurora/mockwebserver/extensions/mockwebserver/httpMock.kt:82-85 | `rule(r)` appends the given rule unchanged |
| `HttpMocks.HttpMock.AddResponder` | src/main/kotlin/no/skatteetaten/aurora/mockwebserver/extensions/mockwebserver/httpMock.kt:90-98 | `rule(fn)` appends a rule whose check is always `true` and whose id is null |
| `HttpMocks.HttpMock.AddChecked` | src/main/kotlin/no/skatteetaten/aurora/mockwebserver/extensions/mockwebserver/httpMock.kt:105-113 | `rule(check, fn)` appends a rule with that check and a null id |
| `HttpMocks.HttpMock.AddCheckedWithId` | src/main/kotlin/no/skatteetaten/aurora/mockwebserver/extensions/mockwebserver/httpMock.kt:115-124 | `rule(check, id, fn)` appends a rule with that check and id, even if the id is already used |
| `HttpMocks.HttpMock.RemoveRule` | src/main/kotlin/no/skatteetaten/aurora/mockwebserver/extensions/mockwebserver/httpMock.kt:148-151 | the returned rule and the new list are those of `RemoveById` on the old list; `server` unchanged |
| `HttpMocks.HttpMock.UpdateRule` | src/main/kotlin/no/skatteetaten/aurora/mockwebserver/extensions/mockwebserver/httpMock.kt:153-157 | for an unknown id it fails with "No rule with id" and keeps the list; otherwise the new list is `UpdateById` of the old one |
| `HttpMocks.HttpMock.ExecuteRules` | src/main/kotlin/no/skatteetaten/aurora/mockwebserver/extensions/mockwebserver/httpMock.kt:130-135 | the start's failure is swallowed (unless the server was shut down first, it is started afterwards, and it is listening if this was its first start and the bind succeeded; a server shut down before its first start stays unstarted) and the test code's outcome is returned; rules and server field untouched; no server means a null-dereference failure |
| `HttpMocks.HttpMock.ExecuteRulesAndClearMocks` | src/main/kotlin/no/skatteetaten/aurora/mockwebserver/extensions/mockwebserver/httpMock.kt:140-146 | as `ExecuteRules`; when the test code returned normally the registry is emptied and every registered server shut down; when it threw, or there is no server, the registry and the shut-down state of every registered server are unchanged; other registered servers are never started |
| `HttpMocks.Registry.constructor` | src/main/kotlin/no/skatteetaten/aurora/mockwebserver/extensions/mockwebserver/httpMock.kt:160 | the registry starts empty |
| `HttpMocks.Registry.Add` | src/main/kotlin/no/skatteetaten/aurora/mockwebserver/extensions/mockwebserver/httpMock.kt:180 | registering appends exactly one server |
| `HttpMocks.Registry.ClearAllHttpMocks` | src/main/kotlin/no/skatteetaten/aurora/mockwebserver/extensions/mockwebserver/httpMock.kt:162-169 | every registered server is shut down whatever the close outcomes, and the registry ends empty |
| `HttpMocks.HttpMockServer` | src/main/kotlin/no/skatteetaten/aurora/mockwebserver/extensions/mockwebserver/httpMock.kt:176-190 | a fresh mock with the configured rules gets a fresh running server, which is appended to the registry; a failed bind registers nothing |
| `HttpMocks.HttpMockServerOnPort` | src/main/kotlin/no/skatteetaten/aurora/mockwebserver/extensions/mockwebserver/httpMock.kt:173-174 | a port string that is not a 32-bit Int fails before anything is created or registered; otherwise, as `HttpMockServer`, a fresh mock owning a fresh running server that is its `server` and is appended to the registry, or a failed bind that registers nothing |
| `HttpMocks.InitHttpMockServer` | src/main/kotlin/no/skatteetaten/aurora/mockwebserver/extensions/mockwebserver/httpMock.kt:192-198 | a fresh mock with the configured rules and a fresh unstarted server, which is appended to the registry |
| `Scenarios.TwoRulesDispatch` | src/test/kotlin/no/skatteetaten/aurora/mockwebserver/extensions/mockwebserver/HttpMockTest.kt:44-60 | with the test's id-less `endsWith("jedi")` rule followed by the `/sith` rule, "/jedi" gets Yoda, "/sith" gets Darth Vader, and every path ending in neither is the no-match error |

The client methods in `Scenarios` replay the scenarios of HttpMockTest.kt. `RemoveSpecificRule` covers lines
174-186. `UpdateRuleAnswersWithNewFunction` covers 188-205. `UpdateUnknownRuleFails` covers 207-221.
`AddRuleAfterServerCreated` covers 150-172. `ClearAllAfterTwoServers` covers the registry teardown in
`tearDown`. `FailingBodyKeepsRegistry` covers the missing `finally`. `FailedBindIsNotRetried` shows that a start that failed to bind is not retried. `ClearedBeforeStartStaysUnstarted` shows that a server shut down before its first start stays unstarted. Each is verified from the contracts above.

## Left out

- Sockets, port numbers and `url` are not modelled. `start(port)` and `start()` are the same model operation,
  and whether the bind succeeds is the `bindOk` parameter.
- The transport (`MockWebServer`) is not part of this model. `HttpMocks.MockServer.Start` and
  `HttpMocks.MockServer.Shutdown` assume its usual behaviour:
  - a start is refused after shutdown and is a no-op on a started server;
  - a start marks the server started before it binds the port, so after a failed bind the server is started but
    not listening, and later starts leave it so;
  - a shutdown sets the shut-down flag before it closes the socket.
- The configuration `block` of the factories is modelled as the rule list it leaves on the fresh mock. Other
  effects it might have are not modelled.
- The test code passed to `executeRules`/`executeRulesAndClearMocks` is modelled only by whether it returns
  normally (`bodyOk`). Its own effects on rules, servers or the registry are not modelled.
- Checks and response functions are total functions. A Kotlin lambda that throws, or that has side effects,
  is not modelled.
- A removed rule is found by position (the first index with that id). It is not found by the data-class
  equality of lambdas. The two agree, because any element equal to the found rule carries the same id.
- Exception messages are not modelled as text. The error values carry the data the messages print: the
  request for the no-match error, and the id for the unknown-id error.
- Responses keep only status, headers and body. Requests keep method, path, headers and body.
- `Text.ToInt` accepts only ASCII digits. The JVM's `Integer.parseInt` also accepts other Unicode decimal
  digits.
- Logging is not modelled.
- Concurrent dispatch from transport threads while test code mutates `mockRules` is not modelled. The source
  uses no synchronisation, and the model is sequential.
- mockWebServer.kt, ConnectionHeaderExtension.kt and `TestObjectMapperConfigurer` are not part of this model.
  They are JSON, assertion and header glue over external libraries and queue-draining I/O.
