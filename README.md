# Identity and access gate of wr506d, in Dafny

wr506d is a Symfony / API Platform backend for movies, actors, directors and
reviews. Around that CRUD it has a small identity and access gate, and this
project models it:

- **Rate limiting** (`ApiRateLimitSubscriber`):
  - which requests are gated;
  - which token bucket a request draws from, and at what per-minute limit;
  - how the limiter's answer becomes the `_rate_limit` request attribute, the
    `X-RateLimit-*` headers and, on rejection, a 429 response (section 4 of
    RFC 6585).
- **API keys**:
  - issuance by the `app:generate-api-key` command: `bin2hex` of 32 random
    bytes, with the SHA-256 digest and a 16-character prefix stored on the
    account;
  - verification by `ApiKeyAuthenticator`: the checks for a missing,
    unknown and disabled key, in that order, then the last-used stamp.
- **Two-factor enrollment**:
  - `TwoFactorService`: label, issuer, QR data URI, and the no-secret guard of
    `verifyCode`;
  - the `setup` and `enable` endpoints of `TwoFactorController`, as a state
    machine over the account's secret, enabled flag and stored backup-code
    hashes.
- **The Doctrine entities** `User`, `Movie`, `Actor`, `Director` and `Review`:
  - the roles a user presents and the user identifier;
  - default values and single-field updates;
  - the two-sided association methods (an add is idempotent; a remove clears
    the owning side only while it still points back);
  - the `createdAt` lifecycle hooks;
  - an actor's full name and age;
  - the validation constraints of a review.

Stateful code is modelled as classes whose methods update fields in place:
the entities, the request and its event, the response, and the endpoints
that change an account. Pure code is modelled as functions with lemmas.
Foreign code is passed in as function parameters:

- the token bucket's `consume()`;
- SHA-256;
- TOTP verification (RFC 6238) and the provisioning-URI format;
- PNG rendering and base64;
- random bytes, and the clock (as `now`).

PHP's own semantics are written out:

- `trim`'s character set;
- `array_unique`, which keeps first occurrences;
- the `(string)` cast of an integer, with its round trip;
- `bin2hex`, with its inverse;
- truthiness and `empty()`, where `''` and `'0'` are false;
- Symfony's `NotBlank`;
- `HeaderBag`'s case-insensitive names, where `get` returns the first value.

Modules:

| file | module | contents |
|---|---|---|
| `wrappers.dfy` | `Wrappers` | `Option`, `Result` |
| `collections.dfy` | `Collections` | Doctrine `ArrayCollection` `add`-if-absent and `removeElement`, `array_unique` |
| `text.dfy` | `Text` | prefixes, `trim`, truthiness, decimal integers |
| `hex.dfy` | `Hex` | bytes, `bin2hex` and its inverse |
| `entity_rules.dfy` | `EntityRules` | the value-level rules of the entities |
| `entities.dfy` | `Entities` | the entity classes |
| `http.dfy` | `Http` | header bags, JSON values, responses |
| `security.dfy` | `Security` | the security token's user |
| `rate_limit.dfy` | `RateLimit` | `ApiRateLimitSubscriber` |
| `api_key.dfy` | `ApiKey` | `ApiKeyAuthenticator`, `GenerateApiKeyCommand` |
| `two_factor.dfy` | `TwoFactor` | `TwoFactorService`, `TwoFactorController` |

Behaviour of the code worth knowing, each stated by the lemmas named:

- **The stored `limiter` field is never read.** `getRoles()` always
  contains `ROLE_USER` (src/Entity/User.php:133-140), so the `default` arm
  at src/EventSubscriber/ApiRateLimitSubscriber.php:105 is unreachable. The
  limit is 10000 for an administrator and 100 for everyone else
  (`RateLimit.AccountLimit`, `RateLimit.StoredLimiterIgnored`).
- **`Retry-After` is an absolute time.** `Retry-After`, `X-RateLimit-Reset`
  and the body's `retry_after` all carry the limiter's retry time as an
  epoch second, not a delay in seconds (`RateLimit.RejectionAgrees`).
- **The 429's `X-RateLimit-Remaining` is overwritten.** The rejection
  response sets it to `'0'`, but `onKernelResponse` later overwrites it with
  the limiter's count (`RateLimit.RejectedResponseHeaders`).
- **TOTP verification uses the library's defaults.** `verifyCode` calls
  `verify($code)` with no timestamp and no leeway; which time steps are
  accepted is up to the verification parameter.
- **`enable` answers each failed guard with its own message**, 400 in every
  case, checked in a fixed order (`TwoFactor.EnableStep`).
- **The account lookup takes the first match.** Nothing in the code keeps
  API-key digests unique across accounts. `findOneBy` without an `orderBy`
  guarantees no particular match when digests repeat; the model picks the
  first match in sequence order, and the lemmas that need uniqueness take it
  as a hypothesis (`ApiKey.DigestsUnique`).
- **`enable` cannot succeed as written.** See "## Findings".

## Model

| member | source | states |
|---|---|---|
| RateLimit.GatingExamples | src/EventSubscriber/ApiRateLimitSubscriber.php:45-52 | `/api/movies` and `/api/graphql` are gated; `/api`, `/apis/…`, `/admin`, `/api/docs…` and the GraphiQL console are not |
| RateLimit.IsRateLimited | src/EventSubscriber/ApiRateLimitSubscriber.php:45-52 | the gate: a path is limited only when it starts with `/api/`, and never when it starts with `/api/docs` or `/api/graphql/graphiql` |
| RateLimit.ExemptionCoversSubpaths | src/EventSubscriber/ApiRateLimitSubscriber.php:45-52 | every path under `/api/docs` or `/api/graphql/graphiql` is exempt, and every gated path starts with `/api/` |
| RateLimit.OnKernelRequest | src/EventSubscriber/ApiRateLimitSubscriber.php:41-71 | an ungated request keeps its attribute and response; a gated one records the limiter's limit, remaining tokens and retry time; an accepted one keeps the event response; a rejected one gets a fresh 429 with the rejection headers and body |
| RateLimit.HandleRateLimitExceeded | src/EventSubscriber/ApiRateLimitSubscriber.php:119-136 | the event's response becomes a fresh 429 whose body and four headers are those of the limiter's answer |
| RateLimit.RejectionAgrees | src/EventSubscriber/ApiRateLimitSubscriber.php:119-136 | `Retry-After`, `X-RateLimit-Reset` and `retry_after` all decode to the same retry epoch second; `X-RateLimit-Remaining` decodes to 0 and `X-RateLimit-Limit` to the limit |
| RateLimit.RejectedResponseHeaders | src/EventSubscriber/ApiRateLimitSubscriber.php:83-85 | after the response listener, a 429's `Retry-After` still equals its reset, and its remaining count becomes the limiter's |
| RateLimit.OnKernelResponse | src/EventSubscriber/ApiRateLimitSubscriber.php:73-86 | without the attribute the headers are unchanged; with it, exactly the three `X-RateLimit-*` headers are set to the attribute's values |
| RateLimit.LimiterFor | src/EventSubscriber/ApiRateLimitSubscriber.php:54-58 | the anonymous bucket, keyed by the client, is chosen exactly when the token's user is not an `App\Entity\User`; for an account it is that account's `user_` bucket at its tier limit |
| RateLimit.AnonymousKey | src/EventSubscriber/ApiRateLimitSubscriber.php:94-95 | the key is the client IP, or `'unknown'` without one |
| RateLimit.AccountLimit | src/EventSubscriber/ApiRateLimitSubscriber.php:102-106 | the limit is 10000 if `ROLE_ADMIN` is stored and 100 otherwise, whatever the stored `limiter` |
| RateLimit.TierLimit | src/EventSubscriber/ApiRateLimitSubscriber.php:102-106 | the `match (true)` over the roles: 10000 when `ROLE_ADMIN` is listed, else 100 when `ROLE_USER` is, else the account's `limiter` |
| RateLimit.StoredLimiterIgnored | src/EventSubscriber/ApiRateLimitSubscriber.php:102-106 | the stored `limiter` never changes the limit, which is always 100 or 10000 |
| RateLimit.AccountLimiter | src/EventSubscriber/ApiRateLimitSubscriber.php:98-117 | an account's bucket is `'user_'` plus its identifier, with burst equal to the per-minute refill and a 60-second interval |
| RateLimit.Request.constructor | src/EventSubscriber/ApiRateLimitSubscriber.php:62 | a request starts without the `_rate_limit` attribute |
| RateLimit.RequestEvent.constructor | src/EventSubscriber/ApiRateLimitSubscriber.php:136 | an event starts without a response |
| RateLimit.RequestEvent.SetResponse | src/EventSubscriber/ApiRateLimitSubscriber.php:136 | the event's response becomes the given one |
| Http.Response.constructor | src/EventSubscriber/ApiRateLimitSubscriber.php:122-129 | a JSON response has the given status and body and no headers yet |
| Http.Response.SetHeader | src/EventSubscriber/ApiRateLimitSubscriber.php:131-134 | setting a header replaces its value and leaves the others |
| Http.NormalizeName | src/Security/ApiKeyAuthenticator.php:29 | header-name normalisation keeps the length, maps each upper-case ASCII letter to its lower-case form (code + 32) and `_` to `-`, and leaves every other character as it is |
| Http.HeaderBag.Get | src/Security/ApiKeyAuthenticator.php:34 | a value is returned exactly when the header is present with at least one value, and it is the first value |
| Http.NormalizeIdempotent | src/Security/ApiKeyAuthenticator.php:29 | normalising a normalised name changes nothing |
| ApiKey.HeaderNameSpellings | src/Security/ApiKeyAuthenticator.php:26-30 | `supports` holds exactly when the header is sent, whether spelled `x-api-key` or `X_API_KEY` |
| ApiKey.Supports | src/Security/ApiKeyAuthenticator.php:26-30 | `supports` holds exactly when the bag has the normalised key `x-api-key`, whatever its value |
| ApiKey.AuthenticateRequest | src/Security/ApiKeyAuthenticator.php:34 | a request without the header is rejected as 'No API key provided'; a request that authenticates carries a first header value whose digest an enabled account holds |
| ApiKey.EmptyHeaderRejected | src/Security/ApiKeyAuthenticator.php:26-38 | a present but empty header is supported, then rejected as 'No API key provided' |
| ApiKey.FindByDigest | src/Security/ApiKeyAuthenticator.php:44 | the account found is listed and has that digest; none is found exactly when no account has it |
| ApiKey.Authenticate | src/Security/ApiKeyAuthenticator.php:34-56 | 'No API key provided' exactly for a null or empty key; 'Invalid API key' exactly when no account has the key's digest; success only for an enabled account with that digest, badged with its identifier |
| ApiKey.MissingKeyNotHashed | src/Security/ApiKeyAuthenticator.php:36-41 | a missing key is rejected whatever the digest function |
| ApiKey.OnlyDigestMatters | src/Security/ApiKeyAuthenticator.php:41-44 | keys with the same digest authenticate alike |
| ApiKey.KeyOfAccount | src/Security/ApiKeyAuthenticator.php:44-56 | with unique digests, an enabled account's key authenticates as it and a disabled account's key is reported disabled |
| ApiKey.FoundIsUnique | src/Security/ApiKeyAuthenticator.php:44 | with unique digests, the lookup finds the one account holding the digest |
| ApiKey.OnAuthenticationSuccess | src/Security/ApiKeyAuthenticator.php:59-70 | an `App\Entity\User` gets the last-used stamp, no other field changes, and no response is returned |
| ApiKey.OnAuthenticationFailure | src/Security/ApiKeyAuthenticator.php:72-77 | a fresh 401 whose body message is the exception's message |
| ApiKey.GenerateApiKey | src/Command/GenerateApiKeyCommand.php:80-86 | the key has 64 lowercase hex characters and decodes back to the 32 random bytes |
| ApiKey.KeyPrefix | src/Command/GenerateApiKeyCommand.php:47 | the prefix has 16 characters and begins the key |
| ApiKey.FindByEmail | src/Command/GenerateApiKeyCommand.php:39 | the account found is listed and has that email; none is found exactly when no account has it |
| ApiKey.Execute | src/Command/GenerateApiKeyCommand.php:34-78 | an unknown email fails and changes no account; otherwise it succeeds, shows the new key, and the account stores exactly its digest, its prefix, enabled and the creation time, with every other account untouched |
| ApiKey.IssuedKeyAuthenticates | src/Command/GenerateApiKeyCommand.php:46-53 | a freshly issued key authenticates as its account, whose digest and prefix meet the 64 and 16 length constraints |
| ApiKey.PreviousKeyInvalidated | src/Command/GenerateApiKeyCommand.php:46-53 | in the state `execute()` leaves, where the account holds the new key's digest, its previous key is rejected as 'Invalid API key' when that key's digest differs from the new one and no other account holds it |
| Hex.Bin2Hex | src/Command/GenerateApiKeyCommand.php:83 | the hex form is twice as long as the bytes, in lowercase hex digits |
| Hex.Bin2HexRoundTrip | src/Command/GenerateApiKeyCommand.php:83 | decoding the hex form gives the bytes back |
| Hex.Bin2HexInjective | src/Command/GenerateApiKeyCommand.php:83 | distinct byte strings give distinct keys |
| Hex.NibbleChar | src/Command/GenerateApiKeyCommand.php:83 | a nibble's digit is a lowercase hex digit |
| Hex.CharNibble | src/Command/GenerateApiKeyCommand.php:83 | a digit decodes exactly when it is a lowercase hex digit, to a value below 16 |
| Hex.NibbleRoundTrip | src/Command/GenerateApiKeyCommand.php:83 | each nibble's digit decodes back to the nibble |
| Text.IntToStringRoundTrip | src/EventSubscriber/ApiRateLimitSubscriber.php:83-85 | the `(string)` cast of an integer decodes back to it |
| Text.IntToStringInjective | src/EventSubscriber/ApiRateLimitSubscriber.php:131-134 | distinct integers give distinct header values |
| Text.IntToString | src/EventSubscriber/ApiRateLimitSubscriber.php:83-85 | the `(string)` cast of an integer: a non-empty string that starts with `-` exactly for a negative number, the rest being decimal digits |
| Text.NatToString | src/EventSubscriber/ApiRateLimitSubscriber.php:83-85 | the decimal form is a non-empty digit string with no leading zero |
| Text.NatToStringValue | src/EventSubscriber/ApiRateLimitSubscriber.php:83-85 | the decimal form's value is the number |
| Text.DigitChar | src/EventSubscriber/ApiRateLimitSubscriber.php:83-85 | a digit's character is in `0`..`9`, and is `0` only for 0 |
| Text.StartsWithLonger | src/EventSubscriber/ApiRateLimitSubscriber.php:45-52 | a path starting with a longer prefix starts with its beginning |
| Text.StartsWithExtended | src/EventSubscriber/ApiRateLimitSubscriber.php:49-52 | extending a path keeps its prefixes |
| TwoFactor.NewTwoFactorService | src/Service/TwoFactorService.php:14-17 | the issuer is the application name, `'MyApp'` by default |
| TwoFactor.GetTotp | src/Service/TwoFactorService.php:31-43 | fails with 'User does not have a 2FA secret' exactly for a null secret; otherwise the TOTP has the user's secret, the email (or `'user'`) as label, and the service's issuer |
| TwoFactor.ProvisioningUri | src/Service/TwoFactorService.php:48-51 | fails exactly when the secret is null; otherwise the URI of the TOTP with the user's secret, the email (or `'user'`) as label, and the service's issuer |
| TwoFactor.QrCode | src/Service/TwoFactorService.php:56-66 | fails exactly when the secret is null; otherwise starts with `data:image/png;base64,` |
| TwoFactor.VerifyCode | src/Service/TwoFactorService.php:71-78 | false for a null, `''` or `'0'` secret; otherwise the TOTP verdict for that secret, label and issuer |
| TwoFactor.SetupStep | src/Controller/TwoFactorController.php:32-34 | setup installs the new secret, turns 2FA off and keeps the stored backup codes |
| TwoFactor.EnableStep | src/Controller/TwoFactorController.php:57-90 | the first failing guard (falsy secret, already enabled, empty code, rejected code) decides the error; success exactly when all pass, and then 2FA is on with the new hashes and the same secret |
| TwoFactor.EnableAsWritten | src/Controller/TwoFactorController.php:57-91 | as written, a failed guard gives 400, passing every guard gives 500 from the undefined backup-code call, and the state never changes |
| TwoFactor.EnableAsWrittenCounterexample | src/Controller/TwoFactorController.php:85 | with a truthy secret, 2FA off and a verified code, the intended step enables 2FA but the code as written answers 500 and leaves it off |
| TwoFactor.StepsKeepConsistent | src/Controller/TwoFactorController.php:32-34 | both steps keep "enabled implies a truthy secret and stored backup codes" |
| TwoFactor.EnableTwiceRefused | src/Controller/TwoFactorController.php:65-69 | enabling right after a successful enable is refused as already enabled |
| TwoFactor.SetupThenEnable | src/Controller/TwoFactorController.php:32-90 | a setup with a truthy secret and then a verified non-empty code enable 2FA with the new hashes; a later setup turns it off again |
| TwoFactor.EnabledOnlyByConfirmation | src/Controller/TwoFactorController.php:25-98 | after any sequence of setup and enable requests, 2FA is on only if it already was (and no setup came), or some enable after the last setup had a verified non-empty code |
| TwoFactor.SetupEndpoint | src/Controller/TwoFactorController.php:25-46 | a non-`User` caller gets 401 'User not found'; otherwise the state is the setup step's, and the 200 body has the secret, a QR data URI and the provisioning URI of the new secret |
| TwoFactor.EnableEndpoint | src/Controller/TwoFactorController.php:50-98 | a non-`User` caller gets 401; a failed guard gives 400 with its message and no change; success stores the hashes of exactly the backup codes the 200 body returns |
| Entities.User.constructor | src/Entity/User.php:62-101 | a new user has limit 100, both features off, null credential fields and no reviews |
| Entities.User.Roles | src/Entity/User.php:133-140 | the roles include `ROLE_USER` and every stored role |
| EntityRules.EffectiveRoles | src/Entity/User.php:133-140 | `getRoles()` on the stored roles: at most one role more than stored, and nothing but stored roles and `ROLE_USER` |
| Collections.Dedupe | src/Entity/User.php:139 | `array_unique`: no longer than its input, and holds only values of its input |
| EntityRules.EffectiveRolesSpec | src/Entity/User.php:133-140 | the roles are exactly the stored ones plus `ROLE_USER`, with no duplicates |
| EntityRules.EffectiveRolesOfDistinct | src/Entity/User.php:135-139 | distinct stored roles without `ROLE_USER` come back in order with `ROLE_USER` last |
| Collections.DedupeSpec | src/Entity/User.php:139 | `array_unique` keeps exactly the same elements and leaves no duplicates |
| Collections.DedupeOfNoDuplicates | src/Entity/User.php:139 | `array_unique` of a list without duplicates is that list |
| EntityRules.UserIdentifier | src/Entity/User.php:125-128 | the identifier is the email, or `''` when it is null |
| Entities.User.Identifier | src/Entity/User.php:125-128 | a user's identifier is its email, or the empty string when the email is null |
| Entities.User.SetApiKeyHash | src/Entity/User.php:212-217 | only the digest changes, to the given value |
| Entities.User.SetApiKeyPrefix | src/Entity/User.php:224-229 | only the prefix changes, to the given value |
| Entities.User.SetApiKeyEnabled | src/Entity/User.php:236-241 | only the enabled flag changes, to the given value |
| Entities.User.SetApiKeyCreatedAt | src/Entity/User.php:248-253 | only the creation stamp changes, to the given value |
| Entities.User.UpdateApiKeyLastUsedAt | src/Entity/User.php:267-270 | only the last-used stamp changes, to the current time |
| Entities.User.SetTwoFactorSecret | src/Entity/User.php:277-282 | only the secret changes, to the given value |
| Entities.User.SetTwoFactorEnabled | src/Entity/User.php:289-294 | only the 2FA flag changes, to the given value |
| Entities.User.SetTwoFactorBackupCodes | src/Entity/User.php:301-306 | only the stored backup codes change, to the given value |
| Entities.User.EraseCredentials | src/Entity/User.php:190-193 | only the plain password changes, to null |
| Entities.User.AddReview | src/Entity/User.php:316-324 | a new review is appended and points to this user; a listed one changes nothing; the two-sided link invariant is kept |
| Entities.User.RemoveReview | src/Entity/User.php:326-335 | the review is removed; its user is cleared only if it was listed and pointed here; the invariant is kept and the review is no longer listed |
| Entities.Review.constructor | src/Entity/Review.php:47-81 | a new review has every field null |
| EntityRules.ReviewViolations | src/Entity/Review.php:49-68 | there are no violations exactly when the comment is not blank, the rating is set and in 0..5, and the movie is set |
| Entities.Review.Violations | src/Entity/Review.php:49-68 | a review raises no violation exactly when its comment is not blank, its rating is set and within 0..5, and it has a movie |
| Entities.Review.SetComment | src/Entity/Review.php:93-98 | only the comment changes, to the given text |
| Entities.Review.SetRating | src/Entity/Review.php:105-110 | only the rating changes, to the given value |
| Entities.Review.SetMovie | src/Entity/Review.php:117-122 | the movie becomes exactly the given one, null included |
| Entities.Review.SetUser | src/Entity/Review.php:129-134 | the user becomes exactly the given one, null included |
| Entities.Review.SetCreatedAt | src/Entity/Review.php:141-145 | the creation stamp is always overwritten with the current time |
| Entities.Review.SetUpdatedAt | src/Entity/Review.php:152-156 | the update stamp becomes the current time and the creation stamp is unchanged |
| Entities.Movie.constructor | src/Entity/Movie.php:129-134 | a new movie has empty collections, no director and no creation stamp |
| Entities.Movie.SetCreatedAt | src/Entity/Movie.php:207-213 | the creation stamp is set only when null, and once set is kept |
| Entities.Movie.EnsureCreatedAtNotNull | src/Entity/Movie.php:215-221 | the creation stamp is set only when null, and once set is kept |
| EntityRules.StampOnce | src/Entity/Movie.php:207-221 | one run of a `createdAt` hook: the stamp is always set afterwards, to the earlier value when there was one and to the clock reading otherwise |
| EntityRules.StampAll | src/Entity/Movie.php:207-221 | running the hooks over a clock: with no run the stamp is as it was, and after at least one run (or with a stamp already set) it is set |
| EntityRules.StampAllKeepsFirst | src/Entity/Movie.php:207-221 | after any number of hook runs the stamp is the one it had, or else the first run's time |
| Entities.Movie.SetDirector | src/Entity/Movie.php:294-299 | the director becomes exactly the given one |
| Entities.Movie.AddCategory | src/Entity/Movie.php:231-239 | a new category is appended and registers this movie; a listed one changes nothing; the link invariant is kept |
| Entities.Movie.RemoveCategory | src/Entity/Movie.php:241-248 | the category is removed and unregisters this movie only if it was listed; the invariant is kept |
| Entities.Movie.AddActor | src/Entity/Movie.php:258-266 | no duplicate; afterwards the actor is listed, and a new one lists this movie; the link invariant is kept |
| Entities.Movie.RemoveActor | src/Entity/Movie.php:268-275 | the actor is removed and unregisters this movie only if it was listed; the invariant is kept |
| Entities.Movie.AddReview | src/Entity/Movie.php:332-340 | a new review is appended and points to this movie; a listed one changes nothing; the link invariant is kept |
| Entities.Movie.RemoveReview | src/Entity/Movie.php:342-351 | the review is removed; its movie is cleared only if it was listed and pointed here; the invariant is kept |
| Entities.Movie.AverageRating | src/Entity/Movie.php:353-364 | null exactly without reviews; otherwise the ratings' total (null counting 0) and the review count |
| Entities.RatingTotalBounds | src/Entity/Movie.php:359-364 | valid ratings total between 0 and 5 per review, so the average lies in 0..5 |
| Entities.RatingTotal | src/Entity/Movie.php:359-362 | the `foreach` sum of the ratings, a null rating adding 0: never negative when no rating is |
| Collections.Added | src/Entity/Movie.php:260-261 | add-if-absent leaves a listed element's collection alone and otherwise appends it at the end |
| Collections.AddedIdempotent | src/Entity/Movie.php:258-266 | adding twice is adding once |
| Collections.AddedKeepsNoDuplicates | src/Entity/Movie.php:258-266 | add-if-absent never creates a duplicate |
| Collections.AddedElements | src/Entity/Movie.php:258-266 | the elements after an add are the old ones plus the added one |
| Collections.IndexOf | src/Entity/Movie.php:270 | the index found holds the element, and no earlier index does |
| Collections.IndexOfIsFirst | src/Entity/Movie.php:270 | the index found is the first occurrence |
| Collections.RemovedMultiset | src/Entity/Movie.php:270 | `removeElement` takes out exactly one occurrence of a listed element |
| Collections.RemovedFromNoDuplicates | src/Entity/Movie.php:268-275 | removing from a list without duplicates keeps it so, and the element is gone |
| Collections.RemovedAt | src/Entity/Movie.php:270 | removing at an index keeps every other element, in order |
| Collections.RemovedUndoesAdded | src/Entity/Movie.php:258-275 | removing a freshly added element restores the collection |
| Collections.RemovedAbsent | src/Entity/Actor.php:203-208 | removing an absent element changes nothing |
| Collections.Removed | src/Entity/Movie.php:270 | `removeElement`: one element shorter when the element was present, and the collection unchanged when it was absent |
| Entities.Actor.constructor | src/Entity/Actor.php:117-120 | a new actor has no movies and null fields |
| Entities.Actor.AddMovie | src/Entity/Actor.php:194-201 | idempotent add-if-absent of the movie, with no back-link |
| Entities.Actor.RemoveMovie | src/Entity/Actor.php:203-208 | the movie's first occurrence is removed; absent, nothing changes |
| Entities.Actor.SetCreatedAt | src/Entity/Actor.php:215-221 | the creation stamp is set only when null, and once set is kept |
| Entities.Actor.EnsureCreatedAtNotNull | src/Entity/Actor.php:223-229 | the creation stamp is set only when null, and once set is kept |
| EntityRules.FullNameWithoutFirstname | src/Entity/Actor.php:96-99 | with a null first name the full name is the trimmed last name |
| EntityRules.FullNameOfCleanParts | src/Entity/Actor.php:96-99 | two clean non-empty names are joined by exactly one space |
| EntityRules.FullName | src/Entity/Actor.php:96-99 | `trim($lastname . ' ' . $firstname)`: no longer than the two parts and the separator, and neither starting nor ending with a stripped character |
| Entities.Actor.FullName | src/Entity/Actor.php:96-99 | an actor's full name neither starts nor ends with a stripped character |
| Text.TrimStart | src/Entity/Actor.php:98 | leading trim drops only stripped characters and leaves none at the front |
| Text.TrimEnd | src/Entity/Actor.php:98 | trailing trim drops only stripped characters and leaves none at the end |
| Text.TrimSpec | src/Entity/Actor.php:98 | `trim` returns a slice of the input with every dropped character a stripped one and neither end strippable |
| Text.TrimIgnoresTrailing | src/Entity/Actor.php:98 | appending stripped characters does not change the trailing trim |
| Text.TrimOfTrimmed | src/Entity/Actor.php:98 | a string without strippable ends is its own `trim` |
| Text.Trim | src/Entity/Actor.php:98 | `trim` is no longer than its input and neither starts nor ends with a stripped character |
| EntityRules.Age | src/Entity/Actor.php:106-115 | the age is null exactly when the date of birth is, and is never negative |
| Entities.Actor.Age | src/Entity/Actor.php:106-115 | an actor's age is null exactly without a date of birth, and otherwise not negative |
| EntityRules.AgeFixedByDeath | src/Entity/Actor.php:112-114 | with a date of death the age does not depend on today |
| EntityRules.AgeMonotonic | src/Entity/Actor.php:112-114 | a living actor's age never decreases as time moves forward |
| Entities.Category.constructor | src/Entity/Movie.php:231-248 | a new category lists no movies |
| Entities.Category.AddMovie | src/Entity/Movie.php:235 | idempotent add-if-absent of the movie |
| Entities.Category.RemoveMovie | src/Entity/Movie.php:244 | the movie's first occurrence is removed; absent, nothing changes |
| Entities.Director.constructor | src/Entity/Director.php:71-74 | a new director lists no movies |
| Entities.Director.AddMovie | src/Entity/Director.php:135-143 | a new movie is appended and names this director; a listed one changes nothing, not even its director; the link invariant is kept |
| Entities.Director.RemoveMovie | src/Entity/Director.php:145-155 | the movie is removed; its director is cleared only if it was listed and still names this one; an absent movie changes nothing |

## Left out

- The token bucket is not modelled. This covers refill, consumption, storage, the anonymous limiter's configuration and per-key atomicity under concurrent requests. `consume()` is a function parameter that answers for the bucket a `LimiterSpec` names.
- TOTP (RFC 6238) generation and verification, `generateSecret`, the provisioning-URI format, QR PNG rendering and base64 are foreign libraries, passed in as function parameters.
- `generateBackupCodes` and `hashBackupCodes` are called by `enable` but defined nowhere: `TwoFactorService` has neither. `TwoFactor.EnableEndpoint` and `TwoFactor.EnableStep` model the evidently intended behaviour, assuming the two methods exist; they are parameters there, the plaintext codes and a function from codes to hashes. The code as written is `TwoFactor.EnableAsWritten` (see "## Findings").
- SHA-256, `random_bytes` and the `crc32c` hash of `User::__serialize` are left out or passed in. The digest is assumed only to return 64 lowercase hex characters.
- Doctrine persistence is left out: `flush`, repositories and the database. An account lookup is a search of a sequence of accounts that picks the first match in sequence order; the database guarantees no particular match when several accounts hold the same digest.
- JSON decoding of the enable request is left out. The `code` field arrives as a string, or as null when absent. A non-string JSON value in that field is not modelled.
- Console output formatting is left out. The `execute` table, warnings and styles are reduced to the exit code and the key shown.
- Entities.Movie.AverageRating: the floating-point division and `round($x, 2)` are not modelled. The method returns the ratings' total and the review count, and `Entities.RatingTotalBounds` bounds the quotient.
- EntityRules.Age: the time-of-day part of `DateTime` is not modelled. Ages are computed on calendar dates, with today passed as a parameter.
- Timestamps are epoch seconds passed in as `now`. The clock itself is not modelled.
- Scalar getters and setters not named above are not modelled: names, descriptions, durations, images, URLs, budgets, photos and passwords. They only store a value.
- `Category.php` is not part of this model. `Entities.Category` follows the generated pattern of `Actor`'s owning side, which is what `Movie::addCategory` and `Movie::removeCategory` call.
- Header names set on responses are kept as written. The header bag's case-insensitive lookup is modelled for request headers only.
- Security's firewall plumbing is left out. The `Passport` and `UserBadge` objects are reduced to the identifier. The `IsGranted('ROLE_USER')` attribute is the caller's concern, and the controller's own `instanceof User` check is what the model states.
- Headers the framework adds to every response are not modelled: `JsonResponse`'s `Content-Type`, and the `Cache-Control` and `Date` of its header bag. The header maps and key sets stated are those the subscriber and the authenticator set themselves.
- Concurrency between requests is not modelled.

## Findings

| source | as written | input that shows it | evidently intended | confidence | as-written member | corrected member |
|---|---|---|---|---|---|---|
| src/Controller/TwoFactorController.php:85-86 | `enable` calls `generateBackupCodes()` and `hashBackupCodes()`, which `TwoFactorService` (src/Service/TwoFactorService.php:10-79) does not define; the call raises an `Error` before `setTwoFactorEnabled(true)`, so a request that passes every guard gets a 500 and 2FA is never enabled | a user with secret `JBSWY3DPEHPK3PXP`, 2FA off, sending a code that verifies | generate backup codes, store their hashes, enable 2FA and return the plaintext codes | high, not executed | TwoFactor.EnableAsWritten, TwoFactor.EnableAsWrittenCounterexample | TwoFactor.EnableStep, TwoFactor.EnableEndpoint |
