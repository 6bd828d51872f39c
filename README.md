# URL-shortener stores in Dafny

This project models the two in-memory URL-shortener stores of the repository
and proves what they promise.

- **Project-ktor** (`object UrlShortener`) keeps a table from six-character short
  codes to entries holding a long URL and a click counter. `shortenUrl`
  deduplicates by long URL. Otherwise it draws codes until one is not yet a key,
  inserts a zero-click entry and returns `http://localhost:8080/` followed by the
  code. `getLongUrlAndIncrementClicks` resolves a code and counts one click.
  `getStats` only reads. The POST route accepts only URLs starting with `http`.
- **Project2** keeps `UrlMapping` objects in a `UrlRepository` (`getByShortCode`,
  `save`, `clear`). `UrlService.getRedirectInfo` increments the stored object's
  click count, saves it back and returns that same object. The POST handler mints
  a code, builds a zero-click mapping and saves it, with no dedupe and no
  collision check.

Files:

- `codes.dfy` (module `Codes`) holds the 62-symbol alphabet `a-z A-Z 0-9` and
  what a valid code is. It also holds `Pick`, the reference for turning random
  draws into characters, and its inverse `DrawsFor`.
- `url_shortener.dfy` (module `ProjectKtorRouting`) holds the Project-ktor store.
  The functions `Shorten`, `Resolve` and `Stats` describe each operation on the
  table value. Lemmas prove dedupe, freshness, the insert effect, the store
  invariant, idempotence, click accounting and the round trip. The class
  `UrlShortener` holds the table in a field, and its methods are proved to
  follow those functions.
- `url_repository.dfy` (module `Project2Routing`) holds the Project2 store.
  `UrlMapping`, `UrlRepository` and `UrlService` are classes over heap objects, so
  the model keeps the aliasing the source relies on. The functions `Saved`,
  `Redirect` and `Create` describe the operations on table values.
- `variants.dfy` (module `Variants`) compares the two stores. They use the same
  generator, but they behave differently when a URL is submitted again and when
  a code collides.

Randomness is a parameter. A "draw" is one result of `chars.random()`, that is,
an index below 62. The Project-ktor retry loop receives a finite list of
candidate draws.

Points of the code worth stating plainly, since the model follows them:

- The retry loop in `shortenUrl` is unbounded. The model tries a finite list of
  candidates and returns `None` when every one collides, which the code never
  does.
- Project2 saves without a collision check, so a repeated code overwrites the
  earlier mapping (`CreateEffect`, `Variants.CollisionProject2Overwrites`).
- Project-ktor's `shortenUrl` returns the base URL followed by the code, not the
  bare code.
- Dedupe is fixed per project: Project-ktor always deduplicates by long URL and
  Project2 never does.

## Model

| member | source | states |
|---|---|---|
| `Codes.IndexOf` | Project-ktor/src/main/kotlin/Routing.kt:56 | every alphanumeric character sits at some position below 62 of the alphabet |
| `Codes.AlphabetAt` | Project2/src/main/kotlin/Routing.kt:77 | every alphabet position holds an alphanumeric character, and `IndexOf` gives that position back, so the 62 symbols are distinct |
| `Codes.AlphabetSize` | Project2/src/main/kotlin/Routing.kt:77 | the alphabet `('a'..'z') + ('A'..'Z') + ('0'..'9')` has 62 symbols |
| `Codes.Pick` | Project2/src/main/kotlin/Routing.kt:78 | each draw picks one alphanumeric character, and that character's position is the draw |
| `Codes.DrawsFor` | Project2/src/main/kotlin/Routing.kt:78 | every alphanumeric string has valid draws, one per character, that index its characters |
| `Codes.PickDrawsFor` | Project2/src/main/kotlin/Routing.kt:78 | round trip: picking with the draws of an alphanumeric string gives back that string |
| `Codes.DrawsForPick` | Project2/src/main/kotlin/Routing.kt:78 | round trip: the draws recovered from a picked string are the draws used, so distinct draws give distinct codes |
| `Codes.StartsWith` | Project-ktor/src/main/kotlin/Routing.kt:76 | `startsWith` holds exactly when the prefix is no longer than the string and equals its first characters |
| `ProjectKtorRouting.CharsIsAlphabet` | Project-ktor/src/main/kotlin/Routing.kt:56 | the literal `chars` string is the alphabet a-z, A-Z, 0-9 in that order |
| `ProjectKtorRouting.GenerateShortCode` | Project-ktor/src/main/kotlin/Routing.kt:55-57 | the code has one character per draw (`length`), and every character is alphanumeric |
| `ProjectKtorRouting.GenerateShortCodeIsPick` | Project-ktor/src/main/kotlin/Routing.kt:55-57 | the generator agrees with the reference `Pick` on every valid list of draws |
| `ProjectKtorRouting.GenerateShortCodeReachesEveryCode` | Project-ktor/src/main/kotlin/Routing.kt:55-57 | every valid six-character code is a possible output |
| `ProjectKtorRouting.FirstFree` | Project-ktor/src/main/kotlin/Routing.kt:35-38 | the retry loop stops at the first candidate whose code is not a key; every earlier candidate collided; with no such candidate, all of them collided |
| `ProjectKtorRouting.IsAcceptedUrl` | Project-ktor/src/main/kotlin/Routing.kt:76 | a URL is accepted exactly when its first four characters are `http` |
| `ProjectKtorRouting.AcceptedUrlExamples` | Project-ktor/src/test/kotlin/UrlShortenerRoutingTest.kt:65-73 | `https://www.example.com/test-page` is accepted and `ftp://invalid-url.com` is rejected |
| `ProjectKtorRouting.CodeOf` | Project-ktor/src/test/kotlin/UrlShortenerRoutingTest.kt:36 | removing the base-URL prefix: for a URL starting with `http://localhost:8080/`, the base URL followed by the result is the URL; any other URL is returned as is |
| `ProjectKtorRouting.Shorten` | Project-ktor/src/main/kotlin/Routing.kt:31-42 | `shortenUrl` on table values: every existing entry is kept; a returned short URL starts with the base URL; there is no result exactly when no entry has the long URL and every candidate collides |
| `ProjectKtorRouting.Resolve` | Project-ktor/src/main/kotlin/Routing.kt:44-48 | `getLongUrlAndIncrementClicks` on table values: the keys stay the same; the result is null exactly for an absent code; otherwise it is the stored long URL and that code's click count grows by one |
| `ProjectKtorRouting.Stats` | Project-ktor/src/main/kotlin/Routing.kt:50-53 | `getStats` on table values: null exactly for an absent code, otherwise the stored long URL and click count |
| `ProjectKtorRouting.CodeOfShortUrl` | Project-ktor/src/test/kotlin/UrlShortenerRoutingTest.kt:36 | removing the base-URL prefix from `baseUrl + code` gives back `code` |
| `ProjectKtorRouting.ShortenDedupe` | Project-ktor/src/main/kotlin/Routing.kt:32-33 | when a stored entry already has the long URL, the result is the base URL plus that entry's code, and the table is unchanged |
| `ProjectKtorRouting.ShortenFresh` | Project-ktor/src/main/kotlin/Routing.kt:35-41 | with no matching entry, the returned code is valid and was not a key before; the table gains exactly that key with entry (longUrl, 0) and keeps every other entry; when every candidate collides, the table is unchanged |
| `ProjectKtorRouting.ShortenWellFormed` | Project-ktor/src/main/kotlin/Routing.kt:31-41 | `shortenUrl` keeps the invariant: no two keys share a long URL, and every key is a valid code; the result is `http://localhost:8080/` plus a valid code that now maps to the long URL |
| `ProjectKtorRouting.ShortenIdempotent` | Project-ktor/src/main/kotlin/Routing.kt:32-33 | submitting the same long URL again returns the same short URL and leaves the table as it is |
| `ProjectKtorRouting.ShortenDistinctUrls` | Project-ktor/src/main/kotlin/Routing.kt:32-40 | two different long URLs shortened in sequence get different codes |
| `ProjectKtorRouting.ResolveEffect` | Project-ktor/src/main/kotlin/Routing.kt:44-48 | an absent code gives null and no change; a present code gives its long URL, adds exactly one click to it, and leaves the keys and all other entries unchanged |
| `ProjectKtorRouting.ResolveWellFormed` | Project-ktor/src/main/kotlin/Routing.kt:44-48 | counting a click keeps the store invariant |
| `ProjectKtorRouting.StatsAfterResolve` | Project-ktor/src/main/kotlin/Routing.kt:44-53 | read after write: after one redirect through a present code, its stats report its long URL and one more click than before; an absent code still has no stats |
| `ProjectKtorRouting.ResolveTimesCounts` | Project-ktor/src/main/kotlin/Routing.kt:44-48 | k redirects through a present code add exactly k clicks to it and change nothing else |
| `ProjectKtorRouting.ShortenResolveStats` | Project-ktor/src/test/kotlin/UrlShortenerRoutingTest.kt:36-56 | shorten a URL, then redirect once, and the redirect yields that URL; for a URL not stored before, stats then read (URL, 1) |
| `ProjectKtorRouting.UrlShortener.constructor` | Project-ktor/src/main/kotlin/Routing.kt:28 | the store starts empty and satisfies its invariant |
| `ProjectKtorRouting.UrlShortener.FirstEntryWithUrl` | Project-ktor/src/main/kotlin/Routing.kt:32 | the scan returns a code whose entry has the long URL, and returns none exactly when no entry has it |
| `ProjectKtorRouting.UrlShortener.ShortenUrl` | Project-ktor/src/main/kotlin/Routing.kt:31-42 | the new table and the result are those of `Shorten`; a newly minted code was not a key before, and only its entry (longUrl, 0) is added; the invariant is kept |
| `ProjectKtorRouting.UrlShortener.GetLongUrlAndIncrementClicks` | Project-ktor/src/main/kotlin/Routing.kt:44-48 | the new table and the result are those of `Resolve`; the invariant is kept |
| `ProjectKtorRouting.UrlShortener.GetStats` | Project-ktor/src/main/kotlin/Routing.kt:50-53 | null exactly for an absent code, otherwise the stored long URL and click count; the store is not modified |
| `Project2Routing.UrlMapping.constructor` | Project2/src/main/kotlin/Routing.kt:14-18 | a mapping holds the code, original URL and click count it is built with |
| `Project2Routing.GenerateShortCode` | Project2/src/main/kotlin/Routing.kt:76-79 | the result has length 6 and every character is in a-z, A-Z or 0-9 |
| `Project2Routing.GenerateShortCodeIsPick` | Project2/src/main/kotlin/Routing.kt:76-79 | the generator agrees with the reference `Pick` |
| `Project2Routing.GenerateShortCodeReachesEveryCode` | Project2/src/main/kotlin/Routing.kt:76-79 | every valid six-character code is a possible output |
| `Project2Routing.Saved` | Project2/src/main/kotlin/Routing.kt:30 | `save` on table values: the keys become the old keys plus the mapping's code, which now holds the mapping; other codes keep their mappings; each mapping stays under its own code |
| `Project2Routing.Lookup` | Project2/src/main/kotlin/Routing.kt:29 | `getByShortCode` on table values: none exactly for an absent code; in a keyed table the result is the stored mapping and carries the code asked for |
| `Project2Routing.Redirect` | Project2/src/main/kotlin/Routing.kt:36-43 | `getRedirectInfo` on table values: none exactly for an absent code; otherwise the returned mapping has one more click than the stored one; in a keyed table the keys stay the same and the code now holds the returned mapping |
| `Project2Routing.Create` | Project2/src/main/kotlin/Routing.kt:53-56 | the create path on table values: the code is valid; the keys become the old keys plus that code, which holds `Mapping(code, originalUrl, 0)`; every other code keeps its mapping |
| `Project2Routing.SaveEffect` | Project2/src/main/kotlin/Routing.kt:30 | `save` stores the mapping under its own code, replacing any earlier one; every other code is unchanged; each mapping stays under its own code |
| `Project2Routing.RedirectEffect` | Project2/src/main/kotlin/Routing.kt:36-43 | a missing code gives null and no change; a present code gains exactly one click, keeps its code and original URL, is returned updated, and nothing else changes |
| `Project2Routing.RedirectTimesCounts` | Project2/src/main/kotlin/Routing.kt:36-43 | k redirects through a present code add exactly k clicks to it and change nothing else |
| `Project2Routing.CreateEffect` | Project2/src/main/kotlin/Routing.kt:54-56 | the create path saves `Mapping(code, originalUrl, 0)` under a valid code; there is no collision check, so the key set becomes the old keys plus that code and an earlier mapping under the code is replaced |
| `Project2Routing.CreateThenRedirect` | Project2/src/test/kotlin/ProjectTest.kt:83-101 | after creating a mapping, k redirects leave it with k clicks and its original URL |
| `Project2Routing.UrlRepository.constructor` | Project2/src/main/kotlin/Routing.kt:26-27 | a new repository is empty |
| `Project2Routing.UrlRepository.GetByShortCode` | Project2/src/main/kotlin/Routing.kt:29 | returns null exactly for absent codes, otherwise the stored object, whose short code is the one asked for; nothing changes |
| `Project2Routing.UrlRepository.Save` | Project2/src/main/kotlin/Routing.kt:30 | the object is stored under its short code, and the repository's value is `Saved` of the old value |
| `Project2Routing.UrlRepository.Clear` | Project2/src/main/kotlin/Routing.kt:31 | afterwards no code is stored, so every lookup returns null |
| `Project2Routing.UrlService.GetRedirectInfo` | Project2/src/main/kotlin/Routing.kt:36-43 | the repository's new value and the returned mapping are those of `Redirect`; the returned object is the stored one; the code-to-object map itself is unchanged |
| `Project2Routing.CreateShortUrl` | Project2/src/main/kotlin/Routing.kt:53-56 | the repository's new value and the code are those of `Create`; the code maps to a newly allocated mapping, and every other code keeps the object it held before |
| `Project2Routing.RedirectTwiceSharesObject` | Project2/src/test/kotlin/UrlServiceTest.kt:16-28 | the object returned by the first redirect shows both clicks after a second redirect, because it is the stored object |
| `Variants.GeneratorsAgree` | Project2/src/main/kotlin/Routing.kt:76-79 | given the same six draws, both projects generate the same code |
| `Variants.ResubmissionKtorDedupes` | Project-ktor/src/main/kotlin/Routing.kt:32-33 | in Project-ktor, submitting a URL twice gives the same short URL, leaves the table unchanged, and keeps one entry for the URL |
| `Variants.ResubmissionProject2Duplicates` | Project2/src/main/kotlin/Routing.kt:54-56 | in Project2, submitting a URL twice with different generated codes leaves two mappings for it |
| `Variants.CollisionProject2Overwrites` | Project2/src/main/kotlin/Routing.kt:54-56 | in Project2, a repeated code replaces the earlier mapping and the key set does not grow |
| `Variants.CollisionKtorSkips` | Project-ktor/src/main/kotlin/Routing.kt:36-38 | in Project-ktor, a second URL never receives the first URL's code, and the first entry is kept |

## Left out

- `ProjectKtorRouting.UrlShortener.ShortenUrl`: the unbounded `do ... while (containsKey)` retry is modelled by a finite list of candidate draws. When all of them collide, the method returns `None` and leaves the table unchanged. The source instead keeps drawing.
- `ProjectKtorRouting.UrlShortener.FirstEntryWithUrl`: the iteration order of `ConcurrentHashMap` is not modelled, so the scan may return any matching entry. Under the store invariant there is at most one.
- `ProjectKtorRouting.UrlEntry`: click counts are unbounded `nat`. The same holds for `Project2Routing.UrlMapping`'s `int` count. Neither models the wrap-around of Kotlin's 32-bit `Int`.
- Randomness: `chars.random()` is a call into the standard library. Its results are the `draws` parameters, each an index below 62, so the model makes no claim about uniformity.
- Concurrency: the model is sequential. It does not capture `ConcurrentHashMap` semantics, the lost-update race of `entry.clicks++`, or the non-atomic check-then-insert of `shortenUrl`.
- HTTP plumbing: routing, request decoding, JSON, status codes, `println` logging and the `try/catch` of both route files are transport concerns. The only part of them modelled is the `startsWith("http")` check (`IsAcceptedUrl`).
- `Project2Routing.CreateShortUrl`: returns the bare code. The absolute URL built from the request's host and port is runtime request data.
- The DTOs `ShortenRequest`, `ShortenResponse` and `UrlRequest`, and `RepositoryKey`, exist only for the transport layer.
- `Application.kt` (server startup) and `build.gradle.kts` (build configuration) contain no store logic.
