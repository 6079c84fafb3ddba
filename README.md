# Subscription verification service: a Dafny model of POST /verify

The service keeps a small in-memory table of subscriptions keyed by
subscription ID. `POST /verify` takes a `subscription_id` from the JSON body
and runs three stages in order:

1. the rate limiter (at most 3 requests per minute per client address and user agent);
2. the input validator, which asks for a present, non-empty ID matching `^[A-Z0-9]{10,20}$`;
3. the handler, which looks the ID up.

On a hit the handler sets the record's `last_accessed` to the request time
and raises its `access_count` by one. It then answers 200 with a fresh
session token, the server time, a verification ID and the updated record. On
a miss it answers 401 `INVALID_SUBSCRIPTION` with an eight-character support
reference. The validator answers 400 `MISSING_SUBSCRIPTION_ID` or 400
`INVALID_FORMAT`. The limiter answers 429.

Modules, one per component:

- `Wrappers` (`wrappers.dfy`): `Option` and `Result`.
- `SubscriptionId` (`subscription_id.dfy`): the validator. `MatchBounded`
  reads the pattern the way a regular-expression engine runs it, one
  character at a time against the `{10,20}` bounds. `ValidFormat` states the
  same language declaratively, and `MatchBoundedIff` proves the two agree.
- `Encoding` (`encoding.dfy`): `randomBytes(32).toString("hex")` as `Hex`,
  with its inverse `Unhex`, and `randomUUID().substring(0, 8).toUpperCase()`
  as `SupportReference`.
- `Subscriptions` (`subscriptions.dfy`): the `Record` type, the table
  invariant, the access update `RecordAccess`, and a placeholder start-up table.
- `VerifyEndpoint` (`verify_endpoint.dfy`): the `Response` type, with status,
  `error_code` and message per outcome. `Handle` is the pure reference
  definition of one request over the table. Class `VerifyService` holds the
  table as a `map` field, and its `Verify` method changes that field in place
  and is proved to agree with `Handle`.

The environment enters `Verify` as parameters:

- the limiter's verdict (`limiterAllows`);
- the clock reading (`now`, the ISO timestamp);
- the 32 random bytes behind the session token (`tokenBytes`);
- the output of `randomUUID()` (`uuid`).

`Verify` uses the same `uuid` as `verification_id` on a hit and as the
source of `support_reference` on a miss. Only one of the two is ever drawn
per request.

The table lookup `subscriptions[id]` on a plain JavaScript object would also
find the names every object inherits (`constructor`, `toString`, ...).
`InheritedNamesRejected` proves none of them passes the validator. A map
lookup is therefore a faithful model of the source's lookup.

In the success body, the record is spread after `success`, `session_token`,
`server_time` and `verification_id`, so a record field with one of those
names would override the body's own value. A record field named `message`,
`error_code` or `support_reference` would put an error body's field into a
200 body. None of the hard-coded records in index.js:81-158 has a field of
any of these names. The model makes this part of the table invariant.
Display-field names are distinct from each other, and differ from the
structured fields' names, from those four, and from the three error-body
names. Under that invariant `Verified` can keep the four values and the
record side by side, with no error code and no message.

Three things the code does not enforce, and what the model does about each:

- `access_count || 0` does not enforce a non-negative count. The model keeps
  non-negativity as a table invariant that every request preserves.
- The code does not guarantee that `last_accessed` never moves backwards.
  The model only says it becomes the supplied `now`.
- A support reference is eight upper-case hexadecimal digits only when the
  UUID has the standard textual form. `SupportReferenceOfUuid` proves it
  under that hypothesis.

## Model

| member | source | states |
|---|---|---|
| `SubscriptionId.Validate` | index.js:57-78 | absent or empty gives MISSING_SUBSCRIPTION_ID; otherwise a value outside the pattern's language gives INVALID_FORMAT; success exactly for present well-formed values, and the value passed on is the input unchanged |
| `SubscriptionId.MatchBounded` | index.js:68-69 | `validPattern.test` read as an anchored engine run of `[A-Z0-9]{lo,hi}`: it accepts only strings whose length lies within the bounds (the full characterisation is `MatchBoundedIff`) |
| `SubscriptionId.MatchBoundedIff` | index.js:68-69 | the engine-style anchored match of `[A-Z0-9]{lo,hi}` accepts exactly the strings of length lo..hi made only of `A`-`Z` and `0`-`9` |
| `SubscriptionId.PatternIsValidFormat` | index.js:68-69 | `validPattern.test(s)` holds iff `ValidFormat(s)` (length 10..20, every character in the class) |
| `SubscriptionId.ForeignCharRejected` | index.js:68-75 | one character outside `[A-Z0-9]` anywhere makes the ID ill-formed and the validator refuse it |
| `SubscriptionId.InheritedNamesRejected` | index.js:176 | no property name inherited from Object.prototype passes the validator, so the lookup only ever sees the table's own keys |
| `Encoding.Hex` | index.js:187 | the session token has two lower-case hexadecimal digits per random byte |
| `Encoding.UnhexHex` | index.js:187 | decoding the token gives back exactly the random bytes it was made from |
| `Encoding.HexInjective` | index.js:187 | distinct random byte strings give distinct session tokens |
| `Encoding.Prefix` | index.js:204 | `substring(0, n)` is the first n characters, or the whole string when shorter |
| `Encoding.ToUpperAscii` | index.js:204 | upper-casing keeps the length, leaves no lower-case ASCII letter, keeps every other character, and turns each lower-case letter into its upper-case partner |
| `Encoding.ToUpperAsciiIdempotent` | index.js:204 | upper-casing an upper-cased string changes nothing |
| `Encoding.SupportReference` | index.js:204 | the reference has at most 8 characters and exactly 8 for a UUID of 8 or more; each is the upper-cased UUID character at the same position |
| `Encoding.SupportReferenceOfUuid` | index.js:204 | from a UUID in standard textual form the reference is exactly 8 upper-case hexadecimal digits |
| `Subscriptions.PriorCount` | index.js:181 | `access_count \|\| 0`: an absent or zero count reads as 0, any other count as itself |
| `Subscriptions.RecordAccess` | index.js:180-181 | the access update sets `last_accessed` to the request time and `access_count` to the prior count plus one, and leaves every other field unchanged |
| `Subscriptions.RecordAccessCounts` | index.js:181 | after an access the count is non-negative and strictly above the prior count |
| `Subscriptions.FreshRecord` | index.js:82-87 | a start-up record carries its own ID, has never been accessed and has count 0 |
| `Subscriptions.SeedTableValid` | index.js:81-158 | the start-up table has four records, keyed by their own well-formed IDs, with well-named display fields; every record starts with `last_accessed` null and `access_count` 0 |
| `VerifyEndpoint.Handle` | index.js:169-206 | one request, limiter verdict then validator then lookup. The status is always one of 200, 400, 401 or 429. `error_code` is always one of MISSING_SUBSCRIPTION_ID, INVALID_FORMAT or INVALID_SUBSCRIPTION. `success` is true exactly on 200. The key set never changes, and only a 200 changes the table. The status codes and the literal message and `error_code` strings of index.js:54, 61-65, 70-74 and 200-203 are carried by `Response.Status`/`ErrorCode`/`Message` and `Rejection.Code`/`Message` |
| `VerifyEndpoint.LimiterFirst` | index.js:169 | a limiter rejection answers 429 with the table unchanged, whatever the body holds |
| `VerifyEndpoint.MissingIdRejected` | index.js:60-66 | an absent or empty ID answers 400 MISSING_SUBSCRIPTION_ID with the table unchanged |
| `VerifyEndpoint.FormatDecides` | index.js:68-77 | a present ID answers 400 INVALID_FORMAT, with the table unchanged, iff it is outside the pattern's language; otherwise it reaches the lookup |
| `VerifyEndpoint.UnknownIdRejected` | index.js:196-205 | a well-formed ID that is not a key answers 401 INVALID_SUBSCRIPTION with the table unchanged and the support reference cut from the UUID, 8 upper-case hex digits for a standard UUID |
| `VerifyEndpoint.KnownIdVerified` | index.js:176-195 | a key answers 200; only that entry changes, only in `last_accessed` (now the request time) and `access_count` (prior + 1); the keys stay the same; the body holds the updated record, `server_time` equal to the new `last_accessed`, the UUID as `verification_id`, and a token that decodes to the random bytes |
| `VerifyEndpoint.HandleFrame` | index.js:176-181 | every request keeps the key set, the table invariant and every record's profile fields; no count decreases; only a 200 changes the table |
| `VerifyEndpoint.SuccessBodyKeepsOwnFields` | index.js:189-195 | under the table invariant a 200 body's record has no display field named `success`, `session_token`, `server_time`, `verification_id`, `message`, `error_code` or `support_reference`. So the spread overrides none of the body's own fields and adds no error field: `success` stays true, with no `error_code` and no `message` |
| `VerifyEndpoint.VerifiedIffKey` | index.js:176-178 | past the limiter, a request answers 200 exactly when its ID is a key of the table, so every stored record is reachable through the validator |
| `VerifyEndpoint.RepeatedVerification` | index.js:178-181 | two successful requests for one ID raise its count by one each and leave the later time in `last_accessed` |
| `VerifyEndpoint.VerifyService.constructor` | index.js:81-158 | the service starts from an injected table that satisfies the invariant |
| `VerifyEndpoint.VerifyService.Seeded` | index.js:81-158 | a service over the start-up table, with the invariant established |
| `VerifyEndpoint.VerifyService.Verify` | index.js:169-206 | the in-place handler agrees with `Handle`; keeps the invariant and the key set; answers 200 iff the limiter allows and the ID is a key; otherwise leaves the table unchanged; on 200 changes only the hit entry's two tracking fields and returns the updated record with the request time |

## Left out

- Security headers, CORS, request logging, JSON body parsing, static files and `/`, and the listener: I/O and library configuration with no computed behaviour.
- The rate limiter's window algorithm (60 000 ms window, limit 3, key = client address followed by user agent): it lives in a library that is not part of this model. Its verdict is an input.
- The audit log lines on success and on failure: console output only. The client address and user agent they print are not inputs of the model.
- `/health` and `/api/status`: constant bodies plus clock and uptime readings.
- The generic error handler and the 404 handler: they depend on the web framework's dispatch.
- The handler's `catch` branch (500 `SYSTEM_ERROR`). The `try` at index.js:175-206 also covers `crypto.randomBytes`, `crypto.randomUUID` and `res.json`, and `randomBytes` runs after the update at index.js:180-181. A throw there would answer 500 with the record already changed. The model drops this throw-after-update path, so its "only a 200 changes the table" does not cover it.
- Uniqueness of `session_token` and `verification_id` across responses: these are random values. The model proves only that distinct bytes give distinct tokens.
- Monotonicity of `last_accessed`: the clock is an input, so the model cannot order two readings.
- The contents of the hard-coded records: replaced by placeholder records. Their display fields are an opaque pass-through list.
- UTF-16 code units: Dafny strings here are sequences of Unicode scalar values, while JavaScript strings, `length` and `substring(0, n)` count UTF-16 code units, and `substring` can split a surrogate pair. This changes nothing in the modelled path. The validator rejects every non-ASCII character under both readings, and `randomUUID` output is ASCII, so `Encoding.Prefix` agrees with `substring` on it.
- JavaScript coercion of a non-string `subscription_id` (a number, say) by `RegExp.test`: the field is modelled as an optional string.
- `Encoding.ToUpperAscii`: upper-cases ASCII letters only, not the full Unicode mapping of `toUpperCase`. The two agree on the hexadecimal digits and hyphens of a UUID.
- `Subscriptions.Record`: `access_count` other than an integer or absent (NaN, a string) is not modelled. Counts are unbounded integers, while JavaScript numbers are exact only up to 2^53 − 1. `RecordAccess`, `RecordAccessCounts`, `KnownIdVerified` and `RepeatedVerification` promise +1, which the source delivers only below that bound.
- eslint.config.js: linter configuration with no runtime behaviour.
