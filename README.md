# Ketchapp users service: bearer-token filter and user-data rules

This project models two parts of the Ketchapp backend in Dafny and proves properties of them.

**The JWT authentication filter** (`JwtAuthentication`, in `jwt_authentication_filter.dfy`):
- It takes the credential from an `Authorization: Bearer <token>` header. This is the bearer-header form of section 2.1 of RFC 6750, with a case-sensitive prefix.
- It accepts only verified tokens whose header declares `RS256`. That is RSASSA-PKCS1-v1_5 with SHA-256, section 3.3 of RFC 7518.
- `validateToken` maps the outcome of the JWT library to a boolean.
- `doFilterInternal` attaches the identity `(subject, no credentials, [ROLE_USER])`, then always hands the request to the next stage of the chain.
- The public key is read from PEM text. The two encapsulation boundaries of section 13 of RFC 7468 are removed, then every `\s` character.

The JWT library is an oracle, `Parser`, that either returns the token's `alg` and `sub` or throws one of five exception kinds. Expiry is checked against the clock, so the oracle takes an `Instant`. The filter consults the library twice per request, once in `validateToken` and once in `getUsernameFromToken`, so the model carries the two clock readings separately. Base64 and X.509 decoding of the key is an oracle `decodeKey`.

**The users controller** (`UsersControllers`, in `users_controllers.dfy`):
- the three `getUserTomatoes` overloads: all tomatoes, those created on or after a date, and those in an inclusive date range;
- `getUserActivities`;
- `getUserStatistics`: a day-by-day enumeration of an inclusive range, then one entry per day and per subject;
- `getUserAchievements`: two threshold rules, each followed by an update-or-insert into the achievements table;
- `createUser`, `getUser`, `getEmailByUsername` and `getUserUUIDByFirebaseUID`, with their argument checks;
- the two user conversions.

Dates are epoch-day numbers bounded like `java.time.LocalDate` (`LocalDates`). Java `null` is `Option`, and a thrown exception is the `Failure` side of `Result`. Read-only repository queries whose results come from SQL are parameters. The two tables the service writes are fields of the class `UsersControllers.UsersControllers`:
- the users table, a `seq<UserEntity>`;
- the achievements table, its rows plus the next generated id.

`Sequences` holds the stream operations both files use (`filter`, `map`, `filter(..).findFirst()`) with their laws.

## Where the code departs from the documented design

The code is followed in every case below.
- The design says verified claims always carry a subject. In the code a verified RS256 token without `sub` still yields an authentication, whose principal is null. `UserAuthentication` and `AuthenticationFor` keep the subject as an `Option`.
- The design says no verification exception leaves the verifier. In the code, `validateToken` catches only four kinds. Any other exception, for example a signature that does not verify, escapes it and is absorbed by the catch in `doFilterInternal`. Both lead to "no identity" (`ValidateToken`, `AuthenticationFor`).
- The design describes one verification per request. The code parses the token twice. A token that expires between the two parses is validated but gives no identity (`AuthenticationFor` takes `validateAt` and `extractAt`).

## Model

| member | source | states |
|---|---|---|
| `JwtAuthentication.GetJwtFromRequest` | src/main/java/com/alessandra_alessandro/ketchapp/jwt/JwtAuthenticationFilter.java:63-69 | A token is extracted exactly when the header is present and starts with `"Bearer "`. The header is then that prefix followed by the token. Otherwise there is no token and no error. |
| `JwtAuthentication.ExtractAfterPrefix` | src/main/java/com/alessandra_alessandro/ketchapp/jwt/JwtAuthenticationFilter.java:65-66 | Extracting from `"Bearer " + t` gives back `t` for every `t`, including the empty string. |
| `JwtAuthentication.UserAuthentication` | src/main/java/com/alessandra_alessandro/ketchapp/jwt/JwtAuthenticationFilter.java:49-51 | The authentication has the username as principal, null credentials and exactly the authority `ROLE_USER`. |
| `JwtAuthentication.JwtAuthenticationFilter.ValidateToken` | src/main/java/com/alessandra_alessandro/ketchapp/jwt/JwtAuthenticationFilter.java:84-107 | True exactly when the library verifies the token and `alg` is `RS256`. A verified token with another algorithm gives false. Malformed, expired, unsupported and empty-claims tokens give false. Exactly the remaining library failures escape as exceptions. |
| `JwtAuthentication.JwtAuthenticationFilter.GetUsernameFromToken` | src/main/java/com/alessandra_alessandro/ketchapp/jwt/JwtAuthenticationFilter.java:71-82 | Returns exactly for verified RS256 tokens, and then gives the payload subject. A verified token with another algorithm throws UnsupportedJwtException. A library exception propagates unchanged. |
| `JwtAuthentication.JwtAuthenticationFilter.AuthenticationFor` | src/main/java/com/alessandra_alessandro/ketchapp/jwt/JwtAuthenticationFilter.java:43-58 | An identity is produced exactly when the header carries a bearer token and both library calls verify it as RS256. It is then `(subject of the second parse, null, [ROLE_USER])`. |
| `JwtAuthentication.JwtAuthenticationFilter.DoFilterInternal` | src/main/java/com/alessandra_alessandro/ketchapp/jwt/JwtAuthenticationFilter.java:39-61 | The context's authentication becomes `AuthenticationFor`'s identity when there is one and is otherwise unchanged. The request is passed to the chain exactly once on every path, with the identity then in the context. |
| `JwtAuthentication.FilterChain.DoFilter` | src/main/java/com/alessandra_alessandro/ketchapp/jwt/JwtAuthenticationFilter.java:60 | The next stage receives the request together with the identity the context holds at that moment. |
| `JwtAuthentication.ServeTwoRequests` | src/main/java/com/alessandra_alessandro/ketchapp/jwt/JwtAuthenticationFilter.java:39-61 | Two requests through one filter, each with its own request-scoped context: each later stage sees exactly the identity derived from its own header. |
| `JwtAuthentication.RemoveAll` | src/main/java/com/alessandra_alessandro/ketchapp/jwt/JwtAuthenticationFilter.java:114-115 | `String.replace(marker, "")` never lengthens the text. Its exact effect is given by the lemmas below. |
| `JwtAuthentication.RemoveAllNoMatch` | src/main/java/com/alessandra_alessandro/ketchapp/jwt/JwtAuthenticationFilter.java:114-115 | Text without an occurrence of the marker is left unchanged. |
| `JwtAuthentication.RemoveAllSkips` | src/main/java/com/alessandra_alessandro/ketchapp/jwt/JwtAuthenticationFilter.java:114-115 | A prefix that does not contain the marker's first character passes through the removal untouched. |
| `JwtAuthentication.BeginMarkerRemoved` | src/main/java/com/alessandra_alessandro/ketchapp/jwt/JwtAuthenticationFilter.java:114 | Removing the BEGIN marker from armoured text leaves the text before and after it, including the END marker. |
| `JwtAuthentication.EndMarkerRemoved` | src/main/java/com/alessandra_alessandro/ketchapp/jwt/JwtAuthenticationFilter.java:115 | Removing the END marker then leaves the text before and after it. |
| `JwtAuthentication.StripWhitespace` | src/main/java/com/alessandra_alessandro/ketchapp/jwt/JwtAuthenticationFilter.java:116 | `replaceAll("\\s", "")` leaves no `\s` character. A character survives exactly when it was present and is not whitespace. |
| `JwtAuthentication.CleanPem` | src/main/java/com/alessandra_alessandro/ketchapp/jwt/JwtAuthenticationFilter.java:113-116 | After clean-up the key text contains neither marker and no whitespace, for every input. |
| `JwtAuthentication.PemArmourRemoved` | src/main/java/com/alessandra_alessandro/ketchapp/jwt/JwtAuthenticationFilter.java:113-116 | Suppose a PEM text's body and surroundings contain no `-`, as base64 and line breaks do not. Then clean-up gives exactly the text outside the markers with its whitespace removed. |
| `JwtAuthentication.LoadPublicKey` | src/main/java/com/alessandra_alessandro/ketchapp/jwt/JwtAuthenticationFilter.java:109-124 | A key is loaded exactly when the resource exists and the cleaned text decodes, and the key is that decoding. A missing resource is exactly the ResourceMissing case. |
| `JwtAuthentication.CreateFilter` | src/main/java/com/alessandra_alessandro/ketchapp/jwt/JwtAuthenticationFilter.java:33-37 | The filter is created exactly when the key loads, and it keeps that key for good. Otherwise construction fails with the loader's error. |
| `JwtAuthentication.JwtAuthenticationFilter.constructor` | src/main/java/com/alessandra_alessandro/ketchapp/jwt/JwtAuthenticationFilter.java:33-36 | The public key field is set once to the loaded key. |
| `Sequences.Filter` | src/main/java/com/alessandra_alessandro/ketchapp/controllers/UsersControllers.java:114-115 | `stream().filter`: each element passes the test. An element is kept exactly when it passes. A kept element keeps its multiplicity, and a rejected one disappears. |
| `Sequences.FilterConcat` | src/main/java/com/alessandra_alessandro/ketchapp/controllers/UsersControllers.java:136-141 | Filtering preserves order: filtering `a + b` is filtering `a` followed by filtering `b`. |
| `Sequences.FilterRejectsAll` | src/main/java/com/alessandra_alessandro/ketchapp/controllers/UsersControllers.java:137-140 | A test no value passes keeps nothing. |
| `Sequences.Map` | src/main/java/com/alessandra_alessandro/ketchapp/controllers/UsersControllers.java:96-106 | `stream().map`: one image per element, in the same order. |
| `Sequences.FindFirst` | src/main/java/com/alessandra_alessandro/ketchapp/controllers/UsersControllers.java:181-182 | `filter(p).findFirst()` finds an element satisfying `p` with none before it, and finds nothing exactly when no element satisfies `p`. |
| `Sequences.FindFirstIs` | src/main/java/com/alessandra_alessandro/ketchapp/controllers/UsersControllers.java:181-182 | The position of an element satisfying `p`, with none before it, is what `findFirst` finds. |
| `Sequences.FindFirstAfterFilter` | src/main/java/com/alessandra_alessandro/ketchapp/controllers/UsersControllers.java:181-182 | Finding the first `q` among the elements passing `p` finds the first element passing both. |
| `LocalDates.PlusDays` | src/main/java/com/alessandra_alessandro/ketchapp/controllers/UsersControllers.java:238 | `plusDays(n)` moves exactly `n` days. It throws exactly when the result would fall outside LocalDate.MIN to LocalDate.MAX. |
| `UsersControllers.ConvertEntityToDto` | src/main/java/com/alessandra_alessandro/ketchapp/controllers/UsersControllers.java:32-40 | Null maps to null. Otherwise the DTO has the entity's uuid and username. |
| `UsersControllers.ConvertDtoToEntity` | src/main/java/com/alessandra_alessandro/ketchapp/controllers/UsersControllers.java:42-50 | Null maps to null. Otherwise the entity has no email and no Firebase UID. Converting back gives the original DTO, uuid and username included. |
| `UsersControllers.TomatoToDtoSame` | src/main/java/com/alessandra_alessandro/ketchapp/controllers/UsersControllers.java:97-106 | The tomato DTO carries each of the eight entity fields unchanged. |
| `UsersControllers.TomatoDtos` | src/main/java/com/alessandra_alessandro/ketchapp/controllers/UsersControllers.java:96-106 | There is one DTO per tomato, in the same order, each with all fields of its tomato. |
| `UsersControllers.TomatoDtosConcat` | src/main/java/com/alessandra_alessandro/ketchapp/controllers/UsersControllers.java:142-151 | Converting `a + b` gives the DTOs of `a` followed by those of `b`. |
| `UsersControllers.GetUserTomatoes` | src/main/java/com/alessandra_alessandro/ketchapp/controllers/UsersControllers.java:91-107 | A null uuid, and only a null uuid, throws `UUID cannot be null`. Otherwise there is one DTO per stored tomato, in the same order, with the same field values. |
| `UsersControllers.GetUserTomatoesSince` | src/main/java/com/alessandra_alessandro/ketchapp/controllers/UsersControllers.java:109-126 | A null uuid throws. A null date gives the unfiltered list. With a date, a null `createdAt` raises a NullPointerException. Otherwise every DTO was created on or after the date, and every such stored tomato is in the result. |
| `UsersControllers.TomatoesSinceKeepOrder` | src/main/java/com/alessandra_alessandro/ketchapp/controllers/UsersControllers.java:114-115 | The date filter preserves order: the result for `a + b` is the result for `a` followed by the result for `b`. |
| `UsersControllers.TomatoSinceDecision` | src/main/java/com/alessandra_alessandro/ketchapp/controllers/UsersControllers.java:115 | A single tomato is kept exactly when its created day is not before the date. One whose `createdAt` is null throws. |
| `UsersControllers.GetUserTomatoesBetween` | src/main/java/com/alessandra_alessandro/ketchapp/controllers/UsersControllers.java:128-152 | A null uuid throws, and so does a null start or end, each with its own message. Success happens exactly when all three are given and no `createdAt` is null. Every DTO lies in the inclusive range, and every stored tomato in the range is included. An end before the start gives an empty list. |
| `UsersControllers.TomatoesBetweenKeepOrder` | src/main/java/com/alessandra_alessandro/ketchapp/controllers/UsersControllers.java:136-141 | The range filter preserves order over concatenation. |
| `UsersControllers.TomatoBetweenDecision` | src/main/java/com/alessandra_alessandro/ketchapp/controllers/UsersControllers.java:137-141 | A single tomato is kept exactly when `start <= created day <= end`. One whose `createdAt` is null throws. |
| `UsersControllers.GetUserActivities` | src/main/java/com/alessandra_alessandro/ketchapp/controllers/UsersControllers.java:154-168 | Exactly a null uuid throws. Otherwise there is one DTO per stored activity, in order, with the same six field values. |
| `UsersControllers.SubjectStatistics` | src/main/java/com/alessandra_alessandro/ketchapp/controllers/UsersControllers.java:242-247 | There is one entry per subject of the day, with the same subjects in the repository's order. Each hours value is the day's total for that subject, or 0 when the total is null. |
| `UsersControllers.CollectStatistics` | src/main/java/com/alessandra_alessandro/ketchapp/controllers/UsersControllers.java:240-252 | The nested loops give one entry per enumerated day, in order. Each entry is that day's subject list and its hour sum. |
| `UsersControllers.EnumerateDates` | src/main/java/com/alessandra_alessandro/ketchapp/controllers/UsersControllers.java:234-239 | The loop as written yields `start, start+1, ..., end`, with `end - start + 1` days. It throws DateTimeException exactly when `start <= end` and `end` is LocalDate.MAX. |
| `UsersControllers.EnumerateDatesCorrected` | src/main/java/com/alessandra_alessandro/ketchapp/controllers/UsersControllers.java:234-239 | The intended enumeration: `start, ..., end` for every range, LocalDate.MAX included. |
| `UsersControllers.GetUserStatistics` | src/main/java/com/alessandra_alessandro/ketchapp/controllers/UsersControllers.java:224-256 | A null uuid, a null date, and an end before the start each throw with the source's message. For a valid range the statistics are returned exactly when the end is not LocalDate.MAX. They then hold `end - start + 1` entries: the first is `start`, the last is `end`, entry `k` is `start + k`, and each entry is its day's statistics. |
| `UsersControllers.GetUserStatisticsCorrected` | src/main/java/com/alessandra_alessandro/ketchapp/controllers/UsersControllers.java:224-256 | The same checks. The statistics are returned exactly when the arguments are valid, LocalDate.MAX included, with the same per-day structure. |
| `UsersControllers.StatisticsAtMaxDate` | src/main/java/com/alessandra_alessandro/ketchapp/controllers/UsersControllers.java:236-238 | For the range from LocalDate.MAX to LocalDate.MAX, the code as written throws DateTimeException. The intended result has the single entry for that day. |
| `UsersControllers.AchievementsOf` | src/main/java/com/alessandra_alessandro/ketchapp/controllers/UsersControllers.java:199 | `findAchievementsByUuid` returns exactly the rows owned by the user. |
| `UsersControllers.SaveExisting` | src/main/java/com/alessandra_alessandro/ketchapp/controllers/UsersControllers.java:185-187 | Saving a loaded achievement overwrites its own row in place and keeps the table well formed: ids present, distinct and below the next id. |
| `UsersControllers.SaveFresh` | src/main/java/com/alessandra_alessandro/ketchapp/controllers/UsersControllers.java:184-187 | Saving a new achievement appends one row under a fresh id and keeps the table well formed. |
| `UsersControllers.UpsertedEntityIsFirst` | src/main/java/com/alessandra_alessandro/ketchapp/controllers/UsersControllers.java:181-186 | The entity saved is the table's first row of that user with that description, with the new flag and icon. If there is no such row it is a new entity. |
| `UsersControllers.UpsertInPlace` | src/main/java/com/alessandra_alessandro/ketchapp/controllers/UsersControllers.java:181-187 | An existing achievement is updated in place rather than duplicated, and every other row is unchanged. Otherwise exactly one row is appended. The table stays well formed. |
| `UsersControllers.UpsertMarks` | src/main/java/com/alessandra_alessandro/ketchapp/controllers/UsersControllers.java:183-187 | After the save, the user's first achievement with the description exists and has the new completed flag and icon. |
| `UsersControllers.UpsertKeepsOthers` | src/main/java/com/alessandra_alessandro/ketchapp/controllers/UsersControllers.java:191-197 | Saving "Completed 10 Tomatoes" leaves the user's "Studied for 5 hours" row and its position as they were. |
| `UsersControllers.RefreshedThresholds` | src/main/java/com/alessandra_alessandro/ketchapp/controllers/UsersControllers.java:178-197 | After both saves, "Studied for 5 hours" is completed exactly when total hours are at least 5, with null counting as 0. "Completed 10 Tomatoes" is completed exactly when the count is at least 10. The table stays well formed. |
| `UsersControllers.SaveUser` | src/main/java/com/alessandra_alessandro/ketchapp/controllers/UsersControllers.java:63 | The saved user is in the table, and every user with another uuid is still there. The table either keeps its length, when a row is overwritten, or gains exactly the new user. |
| `UsersControllers.UsersControllers.constructor` | src/main/java/com/alessandra_alessandro/ketchapp/controllers/UsersControllers.java:26-30 | The service starts over the given tables, and the achievements table is well formed. |
| `UsersControllers.UsersControllers.CreateUser` | src/main/java/com/alessandra_alessandro/ketchapp/controllers/UsersControllers.java:52-65 | Null throws `UserDto cannot be null` and an existing username raises CONFLICT `User already exists`, both leaving the table unchanged. Otherwise the converted entity is saved and the user is returned. Achievements are never touched. |
| `UsersControllers.UsersControllers.GetUser` | src/main/java/com/alessandra_alessandro/ketchapp/controllers/UsersControllers.java:67-77 | A null id throws. A user is returned exactly when one has that uuid, converted from a row with that uuid. Otherwise it throws the not-found message containing the id. |
| `UsersControllers.UsersControllers.GetEmailByUsername` | src/main/java/com/alessandra_alessandro/ketchapp/controllers/UsersControllers.java:79-89 | A null or empty username throws. The call succeeds exactly when a user has that username, and returns the email of the first such user. Otherwise it throws the not-found message. |
| `UsersControllers.UsersControllers.GetUserUuidByFirebaseUid` | src/main/java/com/alessandra_alessandro/ketchapp/controllers/UsersControllers.java:212-222 | A null or empty UID throws. The call succeeds exactly when a user has that Firebase UID, and returns the uuid of the first such user. Otherwise it throws the not-found message. |
| `UsersControllers.UsersControllers.GetUserAchievements` | src/main/java/com/alessandra_alessandro/ketchapp/controllers/UsersControllers.java:170-210 | A null uuid throws. An unknown user gets an empty list and nothing is saved. Otherwise the studied achievement is saved first. A tomato count outside the int range then throws, with only that first save done. If not, the tomato achievement is saved too and the user's achievements are returned as DTOs, in table order. The table stays well formed. |

## Left out

- JWT parsing, signature verification and expiry checks are an oracle. So are base64 and X.509 decoding and the RSA `KeyFactory`. These are foreign cryptographic library calls.
- Reading `public.pem` is a parameter: `Some(text)`, or `None` when the resource is absent. The charset of `new String(bytes)` is not modelled. The `assert is != null` line is not modelled: with Java assertions disabled, a missing resource fails on the read, and it still ends in the constructor's RuntimeException (`ResourceMissing`).
- The thread-local `SecurityContextHolder` becomes an explicit per-request `SecurityContext` object, and the next filter stage becomes a `FilterChain` that records what it receives. The `WebAuthenticationDetailsSource` details are not modelled. Neither is the re-entry guard of `OncePerRequestFilter`, which is framework plumbing.
- `System.out` logging and exception messages of the JWT library are left out, because they are diagnostics only.
- Repository queries become parameters whose answers come from SQL that is not part of this model: tomatoes, activities, total hours, tomato count, subjects of a day and hours per subject. `findById`, `findByUsername` and `findByFirebaseUid` return the first matching row of the users table. The `date.toString()` passed to the statistics queries is not modelled; the queries take the day itself.
- `UsersControllers.TotalHours`: hours are exact reals. The `Double` sum, its rounding and NaN are floating-point behaviour and are not modelled.
- `UsersControllers.UsersControllers.CreateUser`: the DTO is returned as given. Any uuid the persistence layer might generate on save is not covered, because `UserEntity` and its id generation are not part of this model.
- `UsersControllers.UsersControllers.GetUserAchievements`: the `achievements == null` check is not modelled, since the query returns a list. A new achievement's `createdAt` is left null, because any database default for it is not part of this model.
- `GeminiApi.java` is not part of this model: it is an HTTP client. `UsersRoutes.java` is not part of this model either: it maps exceptions to HTTP status codes. `PlanBuilderRequestSubjectsDto.java` is a data holder with no behaviour.

## Findings

| source | as written | input that shows it | evidently intended | confidence | as-written member | corrected member |
|---|---|---|---|---|---|---|
| src/main/java/com/alessandra_alessandro/ketchapp/controllers/UsersControllers.java:236-238 | The loop appends `current` and then always calls `current.plusDays(1)`. Once `current` is `endDate`, that call still runs. When `endDate` is LocalDate.MAX it throws DateTimeException. | A non-null uuid with `startDate = endDate = LocalDate.MAX` (+999999999-12-31). | Statistics with one entry for that day, as for any other valid range. | medium; not executed | `UsersControllers.GetUserStatistics` | `UsersControllers.GetUserStatisticsCorrected` |
