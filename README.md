# coroweb request dispatch, modelled in Dafny

`www/coroweb.py` is a small layer over aiohttp. Application code writes plain
functions, tags them with `@get(path)` or `@post(path)`, and registers them with
`add_routes`. Each registered function gets a `RequestHandler`. The handler
classifies the function's parameters once. On every request it proceeds as follows:

- It builds a keyword-argument map only when the function takes keyword data (`**kw`,
  keyword-only or required keyword parameters). For a POST the map comes from the JSON or
  form body. For a GET it comes from the query string, and only when that string is non-empty.
- When no map was built, the map is `match_info` itself.
- Otherwise the map is first filtered to the declared keyword-only names, but only when the
  function has no `**kw` and does have keyword-only parameters. The path variables are then
  laid over it, with a warning for each one already present.
- The request object is injected under `request` only when such a parameter is declared.
- If a required name is missing, the handler answers Bad Request. Otherwise it calls the
  function, and an `APIError` raised by the function becomes a dict.

The project has six modules:

- `Wrappers` (`wrappers.dfy`): `Option` and `Result`.
- `Sequences` (`sequences.dfy`): order-preserving subsequences, their lemmas, and distinct elements.
- `Signature` (`signature.dfy`): the parameter classifier of lines 35-83. A signature is a
  `seq<Param>`, where each `Param` has a name, one of Python's five parameter kinds, and a
  default flag. The five helpers are functions over it. `Classify` bundles what
  `RequestHandler.__init__` caches.
- `Web` (`web.dfy`): the values a call sees.
  - The decoded `Request` has the method, the content type (`""` when missing), what
    `request.json()` and `request.post()` would return, the query string with its parsed
    pairs, and `match_info`.
  - `Args` is the argument map. `Outcome` is what the target function does. `Reply` is
    what `__call__` returns.
  - `Func` is a function's signature, its `__method__`/`__route__` tags and its behaviour.
- `Handler` (`handler.dfy`): `Dispatch` and its helper functions state what one call of
  `__call__` produces. `RequestHandler` is a class whose const fields are set once by its
  constructor. Its `Call` method runs the source's steps with the source's loops, in these
  helper methods: `CollapseQuery`, `KeepNamed`, `OverlayPath` and `FindMissing`. `Call` is
  proved to agree with `Dispatch`. Lemmas prove the dispatch rules about `Dispatch`.
- `Routes` (`routes.dfy`): the decorators, `add_route`'s tag check (`AddRoute`), the
  last-dot split of the module name, the attribute filter, and the registration loop
  of `add_routes` (`AddRoutes`).

Points where the code behaves differently from what its names and messages suggest; the model follows the code:

- Registration fails when *either* `__method__` or `__route__` is missing (line 168), not
  only when both are.
- After the `request` parameter, line 81 also accepts `*args` (VAR_POSITIONAL), not only
  keyword-only and `**kw` parameters.
- The ordering check's message at line 82 names an undefined `sig`. The source therefore
  raises a `NameError` rather than a `ValueError`. The model only records that
  classification fails (`RequestParamMisplaced`).
- The missing-argument message keeps the source's spelling, `Missing argumeny: `.

## Model

| member | source | states |
|---|---|---|
| `Signature.RequiredKwArgs` | www/coroweb.py:35-44 | `get_required_kw_args` on the parameter list; its meaning is proved in `RequiredKwArgsExactly` and `RequiredWithinNamed` |
| `Signature.NamedKwArgs` | www/coroweb.py:47-53 | `get_named_kw_args` on the parameter list; its meaning is proved in `NamedKwArgsExactly` and `HasNamedIffNamedNonEmpty` |
| `Signature.ScanRequest` | www/coroweb.py:74-83 | the loop of `has_request_arg` from a position on, with the `found` flag; `ScanRequestFails` and `ScanRequestValue` prove when it raises and what it returns |
| `Signature.HasRequestArg` | www/coroweb.py:72-83 | `has_request_arg`, the scan started with `found` false; `HasRequestArgSpec` states it as an if-and-only-if |
| `Signature.Classify` | www/coroweb.py:90-94 | the five results the handler caches, failing exactly when `has_request_arg` raises; `ClassifyConsistent` proves the relations between them |
| `Signature.RequiredKwArgsExactly` | www/coroweb.py:35-44 | a name is in `get_required_kw_args` iff some KEYWORD_ONLY parameter without a default has it; the names keep declaration order (a subsequence of all parameter names) |
| `Signature.NamedKwArgsExactly` | www/coroweb.py:47-53 | a name is in `get_named_kw_args` iff some KEYWORD_ONLY parameter has it; declaration order is kept |
| `Signature.RequiredWithinNamed` | www/coroweb.py:35-53 | the required names are a subsequence, hence a subset, of the named ones |
| `Signature.HasNamedKwArgs` | www/coroweb.py:56-61 | true iff some parameter is KEYWORD_ONLY |
| `Signature.HasVarKwArg` | www/coroweb.py:64-69 | true iff some parameter is VAR_KEYWORD |
| `Signature.HasNamedIffNamedNonEmpty` | www/coroweb.py:47-61 | `has_named_kw_args` holds iff `get_named_kw_args` is non-empty |
| `Signature.ScanRequestFails` | www/coroweb.py:74-82 | the scan loop raises iff some non-`request` parameter of a kind other than VAR_POSITIONAL, KEYWORD_ONLY or VAR_KEYWORD comes after a `request` parameter (or after one seen already) |
| `Signature.ScanRequestValue` | www/coroweb.py:74-83 | when the scan loop does not raise it returns whether a `request` parameter was seen |
| `Signature.HasRequestArgSpec` | www/coroweb.py:72-83 | `has_request_arg` fails iff a positional parameter follows `request`; otherwise it is true iff some parameter is named `request` |
| `Signature.RequestThenKeywordsAccepted` | www/coroweb.py:72-83 | a `request` parameter of any kind, with or without a default, followed only by `*args`, keyword-only or `**kw` parameters is accepted and reported |
| `Signature.RequestThenPositionalRejected` | www/coroweb.py:72-83 | a positional parameter anywhere after `request`, whatever the kind and default of `request`, makes classification fail |
| `Signature.ClassifyConsistent` | www/coroweb.py:87-94 | a cached classification has required within named, and its named flag agrees with the named list |
| `Handler.PostArgs` | www/coroweb.py:100-116 | the POST branch: the three Bad Request messages or the JSON or form map; `PostContentTypeDecides` states each case |
| `Handler.SelectSource` | www/coroweb.py:97-126 | where the keyword map comes from: nothing when the function takes no keyword data, the POST body, the collapsed query of a GET, or a Bad Request; `ReadArguments` is proved equal to it and `PostContentTypeDecides`, `GetQueryFirstValueWins` and `NoMapBuiltIff` state its cases |
| `Handler.FirstValues` | www/coroweb.py:121-126 | the first-value-wins collapse of the parsed query pairs; `FirstValuesSpec` states its keys and values and `CollapseQuery` is proved equal to it |
| `Handler.Bound` | www/coroweb.py:127-146 | the final keyword map: `match_info` alone without body data, otherwise the map, filtered when there is no `**kw` but there are keyword-only names, with the path variables over it; then `request` injected when declared; `NoDataMeansPathOnly`, `FilteredKeysAccounted`, `PathVariablesWin` and `RequestInjectedLast` state what it holds |
| `Handler.Duplicates` | www/coroweb.py:141-143 | the keys warned about: path variables already in the filtered map; `PathVariablesWin` and `OverlayPath` state them |
| `Handler.Normalize` | www/coroweb.py:153-157 | how the target's outcome becomes the reply; `NormalizeSpec` states the three cases |
| `Handler.Dispatch` | www/coroweb.py:96-157 | one call of `__call__` from the cached classification; `Call` is proved equal to it and `InvokedIffRequiredPresent` and `PostJsonExample` state when and how it calls the target |
| `Handler.FirstValuesKeys` | www/coroweb.py:121-126 | the collapsed query has exactly the parsed keys |
| `Handler.FirstValueAt` | www/coroweb.py:121-126 | the key of the first pair with that key is bound to that pair's value |
| `Handler.FirstMissing` | www/coroweb.py:148-151 | none is missing iff every required name is in the map; a reported name is required and absent |
| `Handler.FirstMissingIsFirst` | www/coroweb.py:148-151 | the reported name is the first absent one in declaration order |
| `Handler.CollapseQuery` | www/coroweb.py:121-126 | the query loop builds exactly the first-value-wins map of the parsed pairs |
| `Handler.FirstValuesSpec` | www/coroweb.py:121-126 | the collapsed query has exactly the parsed keys, each bound to the first value given for it |
| `Handler.RepeatedQueryKeyExample` | www/coroweb.py:125-126 | `k=1&k=2` binds `k` to `"1"` |
| `Handler.KeepNamed` | www/coroweb.py:134-139 | the filter loop keeps exactly the entries whose key is a declared keyword-only name |
| `Handler.OverlayPath` | www/coroweb.py:141-144 | the overlay loop gives the map with every path variable written over it; it warns once for each path variable already in the map, and for no other key |
| `Handler.FindMissing` | www/coroweb.py:148-151 | the required-name loop finds the first required name the map lacks |
| `Handler.RequestHandler.constructor` | www/coroweb.py:87-94 | the handler keeps the function and caches its five classification results |
| `Handler.RequestHandler.ReadArguments` | www/coroweb.py:97-126 | the body or query map, or the Bad Request message, is exactly what source selection prescribes |
| `Handler.RequestHandler.Call` | www/coroweb.py:96-157 | one call replies, warns, and calls the target (or not) exactly as `Dispatch` states; each warned key appears once |
| `Handler.PostContentTypeDecides` | www/coroweb.py:99-116 | for a POST needing keyword data: an empty content type, a JSON type with a non-object body, or any other type each give their Bad Request, warn nothing and never call the target; the JSON and form prefixes (matched after lower-casing) select those decoders |
| `Handler.GetQueryFirstValueWins` | www/coroweb.py:117-146 | for a GET with a query string, a query key that is kept by the filter and is neither a path variable nor the injected `request` ends up bound to its first value |
| `Handler.NoMapBuiltIff` | www/coroweb.py:99-126 | no map is built from body or query iff the function takes no keyword data, or the request is neither a POST nor a GET with a non-empty query string |
| `Handler.NoDataMeansPathOnly` | www/coroweb.py:99-146 | when the function takes no keyword data, or the request is neither a POST nor a GET with a non-empty query string, no map is built, the final map is exactly `match_info` plus `request` when declared, nothing is warned, and a call receives that map |
| `Handler.RequestInjectedLast` | www/coroweb.py:127-146 | when `request` is declared, the final map binds it to the request object over any body, query or path value of that name; every other key comes from the filtered map or `match_info` |
| `Handler.FilteredKeysAccounted` | www/coroweb.py:131-146 | without `**kw` but with named parameters, every final key is a declared keyword name, a path variable, or the injected `request` |
| `Handler.PathVariablesWin` | www/coroweb.py:141-146 | every path variable is bound to its value, except `request` when the request object is injected; duplicates are exactly the path variables already in the filtered map |
| `Handler.InvokedIffRequiredPresent` | www/coroweb.py:147-157 | the target is called iff source selection succeeds and every required name is bound, and then with the final map; otherwise the reply names the first missing name in order; the outcome is normalised |
| `Handler.NormalizeSpec` | www/coroweb.py:153-157 | a returned value passes through unchanged, an `APIError` becomes `{error, data, message}`, and any other exception propagates |
| `Handler.PathVariableSatisfiesRequired` | www/coroweb.py:141-151 | required names all given as path variables always pass the required-name check |
| `Handler.ExampleClassification` | www/coroweb.py:35-94 | `f(id, *, title, content=None)` has no `request` parameter and no `**kw`, does have keyword-only parameters, names `title` and `content`, and requires `title` |
| `Handler.PostJsonExample` | www/coroweb.py:96-157 | the signature `f(id, *, title, content=None)` classifies successfully, and given JSON `{"title": "T"}` and path `id=42` it is called with `id` bound to the path string `"42"` and `title` to the JSON string `"T"`; its result is passed through and nothing is warned |
| `Routes.Get` | www/coroweb.py:9-20 | `@get(path)`: the wrapper keeps the signature and behaviour and sets `__method__` and `__route__`; `DecoratedFunctionRegisters` states this |
| `Routes.Post` | www/coroweb.py:22-33 | `@post(path)`, likewise; `DecoratedFunctionRegisters` states this |
| `Routes.DecoratedFunctionRegisters` | www/coroweb.py:9-33 | `@get`/`@post` set the method tag and path and keep the signature and behaviour; stacked decorators give the outer decorator's method and path, whatever the inner path was |
| `Routes.AddRoute` | www/coroweb.py:165-175 | registration fails iff a tag is missing or a positional parameter follows `request`, reporting a missing tag first; otherwise the route has the tagged method and path and a handler caching the classification |
| `Routes.RFind` | www/coroweb.py:179 | the result is the last index of the character, or -1 iff it does not occur |
| `Routes.SplitModuleName` | www/coroweb.py:179-190 | a name without a dot is imported whole; otherwise package and attribute name rejoin to the module name and the attribute name has no dot |
| `Routes.SplitJoin` | www/coroweb.py:179-190 | splitting `package.name` (name without a dot) gives back `package` and `name` |
| `Routes.Candidates` | www/coroweb.py:191-203 | the functions handed on have a truthy method and a truthy path, and there are no more of them than attributes |
| `Routes.CandidatesExactly` | www/coroweb.py:191-203 | every public, callable attribute with a truthy method and path is handed on, and everything handed on is such an attribute's function |
| `Routes.CandidatesAppend` | www/coroweb.py:191-203 | the candidates of two attribute lists in a row are their candidates in a row, so attribute order is kept |
| `Routes.CandidatesSingle` | www/coroweb.py:193-202 | one attribute is handed on iff it is public, callable, and has a truthy method and path; with `CandidatesAppend` this fixes `Candidates` completely |
| `Routes.DecoratedCandidate` | www/coroweb.py:191-203 | a decorated function under a public name is handed on iff its path is non-empty |
| `Routes.AddRoutes` | www/coroweb.py:191-203 | the routes registered are the candidates, in order, with their tags, an accepted signature and a handler caching its classification; it stops at the first candidate whose signature is rejected, keeping the routes before it |

## Left out

- The aiohttp transport is not modelled: building `web.HTTPBadRequest`, the router's path
  matching, and `app.router.add_route` (line 175). `match_info` is an input. `AddRoute`
  returns the route it would insert.
- The model keeps only the message of each Bad Request. It leaves out that the source
  returns the exception object rather than raising it, and how aiohttp treats a positional
  constructor argument.
- The asynchronous body decoders `request.json()` and `request.post()` (lines 107, 113) are
  not modelled. Their results are inputs. JSON parse errors, repeated form fields and
  multipart file fields are left out, and JSON numbers are integers.
- aiohttp reports a missing header as `application/octet-stream`. The model takes an empty
  content type to mean missing, as line 101 reads.
- `urllib.parse.parse_qs` (line 125) is not modelled. The query string and its parsed
  (key, value) pairs are separate inputs, and only the first-value-wins collapse is modelled.
- `inspect.signature` is replaced by the explicit `Param` list (the model does not assume
  unique names). Whether the final map fits the signature (a `TypeError` at line 154) is
  left to the target's `call`, whose other exceptions appear as `Crashed`/`Propagated`.
- `asyncio.coroutine` wrapping and the coroutine checks (lines 172-173) are runtime
  plumbing and are left out.
- Logging is left out (lines 152, 162, 174), except the duplicate-key warning.
- `add_static` (lines 159-162) serves static files from the filesystem and is not modelled.
- The unused `_app` field (line 88) is not modelled.
- `__import__`, `getattr` and `dir` in `add_routes` (lines 183-196) are dynamic imports.
  `AddRoutes` takes the module's attributes as a list, and `SplitModuleName` models the
  name split on its own.
- The decorators are modelled only for string paths. A `None` or non-string path argument
  is not modelled.
- `has_named_kw_args` and `has_var_kw_arg` return `None` rather than `False`. The model
  uses `bool`, which matches their truth value.
- `Lower` models `str.lower()` only for ASCII letters.
- Handler.OverlayPath: the warned keys are listed in an arbitrary order, not in
  `match_info`'s iteration order, because a `map` has no order.
- Web.Value: a string from the JSON body (`JsonValue(JString(..))`) and a string from a form,
  the query or the path (`Text(..)`) are distinct values. Python hands the target the same
  `str` for both, so a model `call` can tell apart inputs that the source cannot. The model
  keeps the distinction to show where each entry of the map came from.
- Web.Outcome: the target's return value is narrowed to a `Value` (text, JSON or the request
  object), and `APIError.data` to a string. In the source either may be any Python value, which
  line 155 passes on unchanged. No property of the model depends on the narrowing.
