# Quick-link service: the shortening core

This project models the core of a URL-shortening service. The service takes a long URL and checks it. It then stores the URL under a freshly generated six-character short code, and later resolves that code back to the URL. The model covers four parts:

- **Validation** (`validation.dfy`, module `Validation`). `IsValidUrl` and `IsBlockedDomain` are predicates over the result of the URL parser. `GenerateShortCode` appends five characters from a 62-character alphabet in a loop, then appends the length of what it built, which is always `5`.
- **Database** (`database.dfy`, module `Database`). The `urls` table is a class `UrlTable` whose rows are a map from short code to long URL. The map's single value per key is the `UNIQUE` constraint on `short_code`. `Insert` returns a typed result: `Ok`, `Duplicate` (a `UNIQUE` violation) or `Other` (any other failure). A ghost `insertLog` records the code of every insert issued, so the number of inserts per request can be stated.
- **Service** (`url_service.dfy`, module `Services`). The class `UrlService` holds a reference to the table. It has three methods:
  - `CreateShortUrl` runs the two guards.
  - `InsertWithRetry` is the source's bounded `while` loop. `CreateShortUrl` calls it, and it is split out only so that the guards and the loop are proved separately.
  - `GetLongUrl` is a read-only lookup.

  The two creating methods are proved against the pure functions `CreateShortUrlSpec` and `RetryLoop`. The lemmas about the service are stated on those functions.
- **Wrappers** (`wrappers.dfy`). The `Option` type.

Some inputs of the source are outside the program, so they become parameters:

- The WHATWG URL parser (`new URL(s)`) is a function parameter `parse: string -> Option<ParsedUrl>`. `None` stands for the exception it throws. The parser normalises the hostname (lower-casing it, for one), and the blocklist is matched against that normalised hostname.
- Inside one request, the generator is an oracle `codes: nat -> string`. `codes(k)` is the result of the k-th `generateShortCode` call, and `codes(0)` is the call made before the loop.
- Database faults other than `UNIQUE` violations are an oracle `faults: nat -> bool`, one entry per insert.
- `Math.random()` is an arbitrary real in `[0, 1)`, chosen nondeterministically.

Two details of the code shape the model:

- The blocklist is compared with the hostname after `new URL` has normalised it, not with the raw string (`BlockedDependsOnlyOnHostname`).
- After the tenth collision the code calls `generateShortCode` an eleventh time (backend/src/services/urlService.ts:25) and never uses the result. The model evaluates `codes(10)` the same way, and never inserts it.

## Model

| member | source | states |
|---|---|---|
| `Validation.IsValidUrl` | backend/src/utils/validation.ts:1-8 | false whenever parsing fails (the exception is caught); otherwise true exactly when the parsed protocol is `http:` or `https:` |
| `Validation.IsBlockedDomain` | backend/src/utils/validation.ts:10-17 | false whenever parsing fails (fails open); otherwise true exactly when the parsed hostname is `blocked.com` or `www.blocked.com` |
| `Validation.BlockedDependsOnlyOnHostname` | backend/src/utils/validation.ts:12-13 | two URLs that parse to the same hostname, or that both fail to parse, get the same blocklist verdict, whatever their raw spelling |
| `Validation.RandomIndex` | backend/src/utils/validation.ts:24 | `floor(r * characters.length)` for `r` in `[0, 1)` is a valid index into the 62-character alphabet |
| `Validation.NumberToString` | backend/src/utils/validation.ts:27 | the string that `code + code.length` appends is a non-empty run of decimal digits denoting the number, one digit when the number is below ten |
| `Validation.GenerateShortCode` | backend/src/utils/validation.ts:19-30 | the code has length 6; its first five characters are in the alphabet; its last character is `'5'` |
| `Database.InsertOutcome` | backend/src/db/database.ts:11 | an insert succeeds exactly when the write does not fault and the code is new; it is a duplicate exactly when it does not fault and the code is already stored |
| `Database.UrlTable.Open` | backend/src/db/database.ts:8-15 | `CREATE TABLE IF NOT EXISTS` keeps the rows already stored |
| `Database.UrlTable.Insert` | backend/src/db/database.ts:11 | the result follows `InsertOutcome`; only `Ok` adds the row; no stored row is replaced or removed; the insert is logged |
| `Database.UrlTable.SelectLongUrl` | backend/src/services/urlService.ts:38 | at most one matching row, present exactly when the code is stored, and it carries the stored long URL |
| `Services.GeneratedAt` | backend/src/services/urlService.ts:15-25 | entry k of the generated prefix is the code of the k-th generator call, so a request's inserts use the codes in the order they were generated |
| `Services.RetryLoop` | backend/src/services/urlService.ts:14-33 | at most `10 - attempts` inserts; on success the last inserted code was new and now maps to the long URL, and other rows are untouched; otherwise the table is unchanged; giving up uses all remaining attempts; the only failure the loop returns, rather than throws, is "Failed to generate unique short code" |
| `Services.CreateShortUrlSpec` | backend/src/services/urlService.ts:5-12 | an invalid URL gets `{shortCode: "", error: "Invalid URL format"}` before the blocklist is consulted; a valid blocked URL gets the blocked-domain error; neither touches the table or issues an insert |
| `Services.ExhaustedIffAllCollide` | backend/src/services/urlService.ts:19-33 | the request ends with "Failed to generate unique short code" if and only if every one of the ten inserts hits the `UNIQUE` constraint |
| `Services.FirstNonCollisionDecides` | backend/src/services/urlService.ts:19-31 | the first insert that does not collide ends the loop: if it faulted the error is rethrown and nothing is stored, otherwise its code is returned and stored; the number of inserts is exactly its position plus one |
| `Services.StoredUnderFirstFreshCode` | backend/src/services/urlService.ts:15-26 | with no faults, a valid unblocked URL is stored under the first generated code not yet in the table, after inserting exactly the codes generated up to that one |
| `Services.AllCollisionsExhaust` | backend/src/services/urlService.ts:19-33 | if all ten generated codes are taken, the request fails after exactly ten inserts and stores nothing |
| `Services.AttemptsBoundedAndFailuresStoreNothing` | backend/src/services/urlService.ts:17-19 | no request issues more than ten inserts; a request that does not succeed leaves the table unchanged |
| `Services.RoundTrip` | backend/src/services/urlService.ts:21-22 | after a successful request with code `c`: `c` was not stored before; it now maps to the submitted long URL verbatim; earlier rows are untouched; the URL parsed with an allowed protocol and an unblocked hostname |
| `Services.StoredCodeHasGeneratedShape` | backend/src/services/urlService.ts:15-25 | if the generator only produces codes of the generated shape, every stored code has that shape |
| `Services.UrlService.CreateShortUrl` | backend/src/services/urlService.ts:5-34 | the method's result and the new table are exactly those of `CreateShortUrlSpec` on the table it started from; the inserts it issued are the first `inserts` generated codes, in order |
| `Services.UrlService.InsertWithRetry` | backend/src/services/urlService.ts:14-33 | the loop's result and the new table are exactly those of `RetryLoop` from zero attempts; the inserts it issued are the first `inserts` generated codes, in order |
| `Services.UrlService.GetLongUrl` | backend/src/services/urlService.ts:36-45 | returns the stored long URL when the code is an exact key and null otherwise; it changes nothing |
| `Services.ShortenThenResolve` | backend/src/services/urlService.ts:21-22 | resolving the code a successful request returned yields the submitted URL |

## Left out

- The WHATWG URL parser's internals are not modelled. It is a parameter, so no property depends on how it parses or normalises.
- `Math.random` floating-point arithmetic is not modelled. The random number is an exact real in `[0, 1)`, so floating-point rounding of `r * 62` is not covered.
- Which codes the generator produces, and how they are distributed, is not modelled. In the service, the generator is an oracle, and only `StoredCodeHasGeneratedShape` links the oracle to the generated shape.
- The message test `error.message.includes("UNIQUE")` is not modelled. It becomes the typed `Duplicate` result, so a non-`UNIQUE` error whose message happens to contain "UNIQUE" is not covered.
- The thrown error carries no payload (`Threw`), because the service only rethrows it.
- The `id` and `created_at` columns, the database file, `getDatabase`'s lazy opening and `closeDatabase` are left out. They are I/O, and the service never reads them.
- Concurrent requests and the atomicity of concurrent inserts are left out. Every request is modelled as running alone.
- The HTTP controllers, routes, the header-gate middleware, server startup and the browser front end are left out. They are framework and UI plumbing around the two service operations.
- `GetLongUrl` and `SelectLongUrl` do not model a failing lookup. In the source, opening the database or the `SELECT` can throw, and the controller answers that with a 500. The model's lookup always reads the table.
- Strings are sequences of Unicode scalar values, not of JavaScript's UTF-16 code units. A long URL holding a lone surrogate cannot be represented, so `RoundTrip` covers only well-formed strings. How SQLite's text encoding stores such a string is not modelled.
