# angular-kinvey: query serialiser, credentials, reduce rewrite and aliases

A Dafny model of the behavioural core of `kinvey.js`, an AngularJS provider
(`$kinvey`) that binds a web front end to the Kinvey backend-as-a-service
REST API. Four pieces of it carry logic, and each is one module:

- `QueryJson` (`query_json.dfy`): the `mongoOperators` allow-list, the
  `toJsonReplacer` visitor and `toJson`. A key that starts with `$` survives
  serialisation only if it is one of the 25 distinct operator tokens of the list (26 entries; `$elemMatch` is listed twice). Under any
  other key, a window-like value becomes `"$WINDOW"`, the document becomes
  `"$DOCUMENT"` and a scope-like value becomes `"$SCOPE"`, tried in that
  order. JSON.stringify is modelled as the walk that section 25.5.2 of
  ECMA-262 prescribes (SerializeJSONProperty, SerializeJSONObject,
  SerializeJSONArray). The visitor runs on every key/value pair at every
  depth: on the root under the key `""` and on array elements under their
  decimal index. An object member whose visited value is `undefined` is
  omitted, and an array element that is `undefined` becomes `null`. The
  result is the JSON tree the text denotes (`Json`), with `None` standing
  for `undefined`.
- `Credentials` (`credentials.dfy`): the provider's `headers.user` and
  `headers.basic` header sets and the application key, as the class
  `Provider`; the `$cookieStore` service as the class `CookieStore` over a
  map. `Init` is `init`, `RestoreSession` is the token restore at the start of
  `$get`, and `OnLoginResponse`, `OnSignupResponse` and `OnLogoutResponse` are
  the `transformResponse` hooks of the `login`, `signup` and `logout` actions.
  `SessionLifecycle` composes `init`, the restore, a login and a logout, and proves that the user header ends exactly at the basic credential.
- `ReduceCanon` (`reduce_canon.dfy`): the `group` wrapper that `mongolise`
  installs. It replaces `a1.reduce` by its text, first without line feeds
  (`/\n/g`) and then without any character of the class `\s`.
- `AliasRegistry` (`alias_registry.dfy`): the service object `retVal` and
  `alias`. `alias` refuses the five built-in names with `verifyAlias`;
  otherwise it binds the name to a new Object resource.

`Wrappers` (`wrappers.dfy`) holds `Option` and `Outcome`. An operation that
throws in JavaScript returns `Fail(message)` here, and its state is then
left as the throw leaves it.

Modelling choices:
- The host-object tests are abstract tags on object values (`HostShape`).
  `isWindow` duck-types on `document`, `location`, `alert` and `setInterval`.
  `isScope` duck-types on `$evalAsync` and `$watch`. The document test is
  `document === value`. The tags are independent, so one object may pass
  several tests, and the lemmas show the order in which they are tried.
- The Base64 encoder of ngBase64 is the function parameter `encode` of
  `Init`.
- The `reduce` callback is represented by its source text. That text is what
  `Function.prototype.toString` returns; `None` stands for a missing or falsy
  `reduce`.
- A login or signup response is the parsed record `AuthResponse`. It holds
  whether `data.error` is truthy, and `data._kmd.authtoken`, which is `None`
  when `_kmd` is absent. Reading that token then throws a TypeError before
  anything changes, and the model keeps this error path.
- Before `init` the key variable is `undefined`. The cookie key is then
  `"undefined:authToken"` (`CookieKey(None)`).
- `init`'s error message names the option `appId`, while the code reads
  `appKey`. The model keeps the message as written.
- The "serialise, then parse back, and the non-operator keys are still there"
  property holds only for members whose value is defined. JSON.stringify
  leaves out a member whose value is `undefined`, whatever its key.
  `DefinedNotDropped` and `MembersKeepSurvivors` state the exact condition.

## Model

| member | source | states |
|---|---|---|
| `QueryJson.IsMongoOperator` | kinvey.js:52-57 | the `forEach` sets `isMongo` exactly when the key equals an entry of `mongoOperators` |
| `QueryJson.ToJsonReplacer` | kinvey.js:48-70 | the visitor's result is the decision `Replace`: a `$`-key not in the list yields undefined, a listed one keeps its value, and other keys get `$WINDOW`, `$DOCUMENT`, `$SCOPE` or the value itself |
| `QueryJson.IndexKey` | kinvey.js:74 | the key an array element is visited under is non-empty and starts with a digit, the only character `key.charAt(0)` reads |
| `QueryJson.SerializeElements` | kinvey.js:74 | an array serialises to exactly one output element per input element |
| `QueryJson.ElementAt` | kinvey.js:74 | output element i is input element i visited under its index key, with undefined written as null |
| `QueryJson.ElementFate` | kinvey.js:61-69 | array elements are never dropped: at the same position a window-like element becomes `"$WINDOW"`, else the document `"$DOCUMENT"`, else a scope-like one `"$SCOPE"`, an undefined one null, and any other is serialised as it is |
| `QueryJson.SerializeMembers` | kinvey.js:74 | an object's output has at most its input's members, and none with a `$`-key outside the allow-list |
| `QueryJson.ToJson` | kinvey.js:72-75 | `toJson` yields undefined exactly for undefined; otherwise its document is the root value visited under the key `""`, it has no disallowed `$`-key at any depth, and the indent is two spaces exactly when `pretty` is set |
| `QueryJson.OperatorKeyDecision` | kinvey.js:51-60 | a `$`-key is kept iff it is an operator; a kept key's value is serialised as it is, with no sentinel substitution; any other `$`-key gives undefined whatever its value |
| `QueryJson.PlainKeyDecision` | kinvey.js:61-69 | under a key without `$`, a window-like value becomes `"$WINDOW"`, else the document `"$DOCUMENT"`, else a scope-like value `"$SCOPE"`, else the value passes through |
| `QueryJson.IndexKeyPlain` | kinvey.js:51 | array index keys never start with `$`, so array elements are never dropped |
| `QueryJson.DefinedNotDropped` | kinvey.js:51-69 | one pair serialises to something iff its key is allowed and its value is defined, so the key filter never drops the root key `""` or a key without `$`; such a pair is left out only when its value is undefined |
| `QueryJson.SerializedIsClean` | kinvey.js:72-75 | the filter works at every depth: a serialised document contains no disallowed `$`-key anywhere |
| `QueryJson.PropertyClean` | kinvey.js:74 | the same for one visited key/value pair |
| `QueryJson.ElementsClean` | kinvey.js:74 | the same for every element of a serialised array |
| `QueryJson.MembersClean` | kinvey.js:74 | the same for every member value of a serialised object |
| `QueryJson.MembersKeepSurvivors` | kinvey.js:58-60 | the output object's keys are exactly the input keys whose member survives, in input order, so a dropped member is absent, not null |
| `QueryJson.MemberFate` | kinvey.js:51-60 | each surviving member is in the output with its serialised value (an operator's value without substitution), and no output member carries a dropped key |
| `QueryJson.PrettyOnlyIndents` | kinvey.js:74 | `pretty` changes the indentation only: the document is the same either way |
| `Credentials.SessionIsNotBasic` | kinvey.js:115-121 | the `Kinvey <token>` credential never equals a `Basic ...` credential |
| `Credentials.CookieStore.Put` | kinvey.js:119 | storing sets exactly that key |
| `Credentials.CookieStore.Remove` | kinvey.js:139 | removing deletes exactly that key |
| `Credentials.Provider.constructor` | kinvey.js:17-28 | both header sets start with API version 3 and an empty `Authorization`, and there is no key yet |
| `Credentials.Provider.Init` | kinvey.js:79-86 | fails with the fixed message, changing nothing, iff options are missing or the key or secret is missing or empty; otherwise both headers become `'Basic ' + encode(appKey + ':' + appSecret)` and the key is kept |
| `Credentials.Provider.RestoreSession` | kinvey.js:89-92 | a stored, non-empty value under `<appKey>:authToken` becomes the user header; otherwise it is unchanged; the basic header is untouched |
| `Credentials.Provider.AcceptSession` | kinvey.js:116-120 | with no error, the user header and the cookie become `'Kinvey ' + token`; with an error nothing changes; a missing `_kmd` throws and changes nothing; the basic header is untouched |
| `Credentials.Provider.OnLoginResponse` | kinvey.js:115-122 | with no error, the user header and the cookie become `'Kinvey ' + token`; with an error nothing changes; a missing `_kmd` throws the TypeError and changes nothing; the basic header is untouched |
| `Credentials.Provider.OnSignupResponse` | kinvey.js:146-154 | the same as the login hook: with no error, header and cookie become `'Kinvey ' + token`; with an error nothing changes; a missing `_kmd` throws and changes nothing; the basic header is untouched |
| `Credentials.Provider.OnLogoutResponse` | kinvey.js:137-140 | the user header becomes exactly the basic header, the cookie key is removed, and the basic header is untouched |
| `Credentials.SessionLifecycle` | kinvey.js:79-140 | after init and a successful login, the user header is `Kinvey <token>`, which differs from basic; after logout it is exactly the basic credential and the store is empty again |
| `ReduceCanon.RemoveNewlines` | kinvey.js:300 | the first replacement leaves no line feed and never lengthens the text |
| `ReduceCanon.RemoveWhitespace` | kinvey.js:301 | the second replacement leaves no character of `\s` and never lengthens the text |
| `ReduceCanon.RewriteReduce` | kinvey.js:297-304 | a present `reduce` is replaced in place by its canonical text; an absent one stays absent |
| `ReduceCanon.RemoveWhitespaceAppend` | kinvey.js:301 | the filter distributes over concatenation, so the characters it keeps stay in their original order |
| `ReduceCanon.NewlinePassSubsumed` | kinvey.js:300-301 | removing line feeds first does not change the final result, because line feeds are whitespace too |
| `ReduceCanon.RemoveWhitespaceFixed` | kinvey.js:301 | the filter leaves a text unchanged iff the text has no whitespace |
| `ReduceCanon.CanonicalizeIsFilter` | kinvey.js:298-302 | the rewrite equals the input with its whitespace deleted, and its output has no whitespace |
| `ReduceCanon.CanonicalizeCounts` | kinvey.js:298-302 | each non-whitespace character occurs as often in the output as in the input; whitespace does not occur |
| `ReduceCanon.WhitespaceCounts` | kinvey.js:301 | the same character counts for the single whitespace pass |
| `ReduceCanon.CanonicalizeIdempotent` | kinvey.js:298-302 | rewriting twice gives the same text as rewriting once |
| `AliasRegistry.CheckAlias` | kinvey.js:313-324 | the five checks fail iff the alias is one of `handshake`, `User`, `Group`, `Object`, `alias`, and the message names it |
| `AliasRegistry.Registry.constructor` | kinvey.js:329-335 | the service object starts with exactly the five built-in entries |
| `AliasRegistry.Registry.Alias` | kinvey.js:319-327 | a protected name fails and leaves the registry unchanged; any other name sets exactly that entry to a new Object resource and leaves every other entry as it was; the built-in entries are preserved |

## Left out

- The `$resource` endpoint tables for User, Group and Object (kinvey.js:109-198, 220-283) are static configuration. With them goes the choice of header set per action: `signup`, `verifyEmail`, `resetPassword` and `checkUsernameExists` use the basic set, every other action the user set.
- `handshake`, `verifyEmail`, `resetPassword`, `checkUsernameExists` and `expand` perform or attach network calls through `$http` and `$q`; promises and HTTP are not modelled.
- The `query`/`delete` wrapper of `mongolise` (kinvey.js:285-295) hands `a1.query` to a plain JSON.stringify, without the visitor.
- The original `group` call after the rewrite (it is passed only `a1`, so callbacks given as `a2`-`a4` are dropped), and `new User(data)` in the login and signup hooks, are resource construction and network I/O.
- Base64 itself (ngBase64 is not part of this model): `encode` is a parameter.
- `Function.prototype.toString` of the reduce callback: the model starts from the callback's text.
- The JSON text layout (spacing, escaping, number formatting) and the `angular.toJson = toJson` reassignment in `init`; `toJson`'s `pretty` flag only selects the indent string.
- The truthiness and duck typing inside `isWindow` and `isScope`, and host identity for `document`: they are abstract tags, so the false positives of duck typing are not modelled.
- Cyclic values, functions, symbols and `toJSON` methods inside a query: the value datatype is finite and acyclic, and numbers are integers (no floating point, NaN or Infinity).
- `angular.fromJson` parsing of a response body, and non-string option values in `init`: responses and options are already-parsed records.
- Cookie persistence: the cookie store is a map; `$cookieStore`'s JSON encoding of values is not modelled.
- `alias` with names that are special on JavaScript objects (such as `__proto__`): the service object is a map.
- Concurrency of in-flight requests: the model is sequential.
- Strings are sequences of Unicode scalar values, not UTF-16 code units: every `\s` character is in the Basic Multilingual Plane, so the filter is the same, but `CanonicalizeCounts` counts code points and a lone surrogate cannot be represented.
- A `group` call without an argument object: reading `a1.reduce` then throws a TypeError; `RewriteReduce` always receives an argument object.
- Object property order and uniqueness: an object value's `members` are read as the object's own enumerable properties in the order JSON.stringify walks them (integer-like keys ascending, then insertion order), each key once; the model does not impose that order or rule out repeated keys, so "in input order" in `MembersKeepSurvivors` means the order of `members`.
- `Credentials.MissingKmdError`: the source fixes only that a TypeError is thrown when `_kmd` is absent; the exact message text differs between JavaScript engines, and the model uses one fixed text.
- A response whose `_kmd` is present but has no `authtoken` stores `"Kinvey undefined"` in the source; `AuthResponse` has no separate case for it (a token string only).
