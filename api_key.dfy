/** API keys: issuance by the `app:generate-api-key` console command and
    verification by `ApiKeyAuthenticator`. A key is 32 random bytes in
    lowercase hexadecimal; accounts store only its SHA-256 digest (FIPS
    180-4) and its first 16 characters. The digest function is a
    parameter, assumed only to return 64 lowercase hexadecimal characters. */
module ApiKey {
  import opened Wrappers
  import opened Text
  import opened Hex
  import opened Http
  import opened Security
  import opened EntityRules
  import Entities

  /** What the code relies on of `hash('sha256', ...)`. */
  ghost predicate IsDigestFunction(sha256: string -> string) {
    forall s :: |sha256(s)| == 64 && IsLowerHex(sha256(s))
  }

  const ApiKeyHeader: string := "X-API-KEY"

  /** `supports()`: the authenticator runs whenever the header is present,
      whatever its value, empty included. */
  predicate Supports(headers: HeaderBag)
    ensures Supports(headers) <==> "x-api-key" in headers.values
  {
    assert NormalizeName(ApiKeyHeader) == "x-api-key";
    headers.Has(ApiKeyHeader)
  }

  /** The header name matches in any letter case and with `_` for `-`. */
  lemma HeaderNameSpellings(headers: HeaderBag)
    ensures Supports(headers) <==> headers.Has("x-api-key")
    ensures Supports(headers) <==> headers.Has("X_API_KEY")
  {
    assert NormalizeName(ApiKeyHeader) == NormalizeName("x-api-key") == NormalizeName("X_API_KEY");
  }

  /** The passport's user badge, or the message of the authentication
      exception. */
  datatype AuthResult = Authenticated(identifier: string) | Rejected(message: string)

  const NoKeyMessage: string := "No API key provided"
  const InvalidKeyMessage: string := "Invalid API key"
  const DisabledKeyMessage: string := "API key is disabled"

  /** `findOneBy(['apiKeyHash' => $digest])`, taking the first match in
      sequence order (the database promises no particular one). */
  function FindByDigest(users: seq<Entities.User>, digest: string): (found: Option<Entities.User>)
    reads set u | u in users
    ensures found.Some? ==> found.value in users && found.value.apiKeyHash == Some(digest)
    ensures found.None? <==> forall u :: u in users ==> u.apiKeyHash != Some(digest)
  {
    if users == [] then None
    else if users[0].apiKeyHash == Some(digest) then Some(users[0])
    else FindByDigest(users[1..], digest)
  }

  /** `authenticate()`: the checks in order, missing key, unknown digest,
      disabled key, and otherwise a passport for the account's identifier. */
  function Authenticate(apiKey: Option<string>, users: seq<Entities.User>, sha256: string -> string): (r: AuthResult)
    reads set u | u in users
    ensures r == Rejected(NoKeyMessage) <==> apiKey.None? || apiKey.value == ""
    ensures r == Rejected(InvalidKeyMessage) <==>
      apiKey.Some? && apiKey.value != "" && forall u :: u in users ==> u.apiKeyHash != Some(sha256(apiKey.value))
    ensures r.Authenticated? ==>
      apiKey.Some? && exists u :: u in users && u.apiKeyHash == Some(sha256(apiKey.value))
                                  && u.apiKeyEnabled && r.identifier == UserIdentifier(u.email)
  {
    if apiKey.None? || apiKey.value == "" then Rejected(NoKeyMessage)
    else
      match FindByDigest(users, sha256(apiKey.value))
      case None => Rejected(InvalidKeyMessage)
      case Some(u) => if !u.apiKeyEnabled then Rejected(DisabledKeyMessage) else Authenticated(u.Identifier())
  }

  /** The request-level entry point: the key is the header's first value. */
  function AuthenticateRequest(headers: HeaderBag, users: seq<Entities.User>, sha256: string -> string): (r: AuthResult)
    reads set u | u in users
    ensures !Supports(headers) ==> r == Rejected(NoKeyMessage)
    ensures r.Authenticated? ==>
      Supports(headers) && headers.Get(ApiKeyHeader).Some?
      && exists u :: u in users && u.apiKeyEnabled
           && u.apiKeyHash == Some(sha256(headers.Get(ApiKeyHeader).value))
  {
    Authenticate(headers.Get(ApiKeyHeader), users, sha256)
  }

  /** A present but empty header is supported, then rejected as missing. */
  lemma EmptyHeaderRejected(headers: HeaderBag, users: seq<Entities.User>, sha256: string -> string)
    requires Supports(headers)
    requires headers.Get(ApiKeyHeader).None? || headers.Get(ApiKeyHeader) == Some("")
    ensures AuthenticateRequest(headers, users, sha256) == Rejected(NoKeyMessage)
  {
  }

  /** A missing key is rejected before any hashing: the digest function
      does not matter. */
  lemma MissingKeyNotHashed(apiKey: Option<string>, users: seq<Entities.User>, h1: string -> string, h2: string -> string)
    requires apiKey.None? || apiKey.value == ""
    ensures Authenticate(apiKey, users, h1) == Authenticate(apiKey, users, h2) == Rejected(NoKeyMessage)
  {
  }

  /** The lookup sees the key only through its digest: two keys with the
      same digest authenticate alike. */
  lemma {:induction false} OnlyDigestMatters(k1: string, k2: string, users: seq<Entities.User>, sha256: string -> string)
    requires k1 != "" && k2 != "" && sha256(k1) == sha256(k2)
    ensures Authenticate(Some(k1), users, sha256) == Authenticate(Some(k2), users, sha256)
  {
  }

  /** No two accounts share a digest. */
  ghost predicate DigestsUnique(users: seq<Entities.User>)
    reads set u | u in users
  {
    forall i, j :: 0 <= i < j < |users| && users[i].apiKeyHash.Some? ==> users[i].apiKeyHash != users[j].apiKeyHash
  }

  /** With unique digests, the key of an enabled account authenticates
      as that account, and the key of a disabled one is reported disabled. */
  lemma {:induction false} KeyOfAccount(users: seq<Entities.User>, i: nat, key: string, sha256: string -> string)
    requires DigestsUnique(users)
    requires i < |users| && key != "" && users[i].apiKeyHash == Some(sha256(key))
    ensures users[i].apiKeyEnabled ==> Authenticate(Some(key), users, sha256) == Authenticated(UserIdentifier(users[i].email))
    ensures !users[i].apiKeyEnabled ==> Authenticate(Some(key), users, sha256) == Rejected(DisabledKeyMessage)
  {
    FoundIsUnique(users, i, sha256(key));
  }

  lemma {:induction false} FoundIsUnique(users: seq<Entities.User>, i: nat, digest: string)
    requires DigestsUnique(users)
    requires i < |users| && users[i].apiKeyHash == Some(digest)
    ensures FindByDigest(users, digest) == Some(users[i])
  {
    if i > 0 {
      assert users[0].apiKeyHash != Some(digest);
      assert DigestsUnique(users[1..]) by {
        forall a, b | 0 <= a < b < |users[1..]| && users[1..][a].apiKeyHash.Some?
          ensures users[1..][a].apiKeyHash != users[1..][b].apiKeyHash
        {
          assert users[1..][a] == users[a + 1] && users[1..][b] == users[b + 1];
        }
      }
      FoundIsUnique(users[1..], i - 1, digest);
    }
  }

  /** `onAuthenticationSuccess()`: an `App\Entity\User` gets its last-used
      stamp, nothing else changes, and the request goes on (no response). */
  method OnAuthenticationSuccess(principal: Principal, now: int) returns (response: Option<Response>)
    modifies if principal.AppUser? then {principal.user} else {}
    ensures response.None?
    ensures principal.AppUser? ==> principal.user.apiKeyLastUsedAt == Some(now)
    ensures principal.AppUser? ==> unchanged(principal.user`email, principal.user`roles, principal.user`apiKeyHash,
      principal.user`apiKeyPrefix, principal.user`apiKeyEnabled, principal.user`apiKeyCreatedAt,
      principal.user`twoFactorSecret, principal.user`twoFactorEnabled, principal.user`twoFactorBackupCodes,
      principal.user`reviews, principal.user`limiter, principal.user`plainPassword)
  {
    if principal.AppUser? {
      principal.user.UpdateApiKeyLastUsedAt(now);
    }
    return None;
  }

  /** `onAuthenticationFailure()`: a 401 whose body carries the
      exception's message. */
  method OnAuthenticationFailure(message: string) returns (response: Response)
    ensures fresh(response)
    ensures response.status == 401 && response.body == map["message" := JString(message)]
  {
    response := new Response(401, map["message" := JString(message)]);
  }

  const Success: int := 0
  const Failure: int := 1

  /** `generateApiKey()`: `bin2hex(random_bytes(32))`, the bytes given. */
  function GenerateApiKey(randomBytes: seq<byte>): (key: string)
    requires |randomBytes| == 32
    ensures |key| == 64 && IsLowerHex(key)
    ensures Hex2Bin(key) == Some(randomBytes)
  {
    Bin2HexRoundTrip(randomBytes);
    Bin2Hex(randomBytes)
  }

  /** The displayed prefix: `substr($apiKey, 0, 16)`. */
  function KeyPrefix(key: string): (prefix: string)
    requires |key| >= 16
    ensures |prefix| == 16 && StartsWith(key, prefix)
  {
    key[..16]
  }

  /** `findOneBy(['email' => $email])`, taking the first match. */
  function FindByEmail(users: seq<Entities.User>, email: string): (found: Option<Entities.User>)
    reads set u | u in users
    ensures found.Some? ==> found.value in users && found.value.email == Some(email)
    ensures found.None? <==> forall u :: u in users ==> u.email != Some(email)
  {
    if users == [] then None
    else if users[0].email == Some(email) then Some(users[0])
    else FindByEmail(users[1..], email)
  }

  /** `execute()`: for a known email, issues a fresh key (returned, as the
      console shows it once) and overwrites the account's digest, prefix,
      enabled flag and creation stamp; an unknown email fails and changes
      nothing. */
  method Execute(email: string, users: seq<Entities.User>, randomBytes: seq<byte>, sha256: string -> string, now: int)
    returns (exitCode: int, shownKey: Option<string>)
    requires |randomBytes| == 32
    modifies (set u | u in users)`apiKeyHash, (set u | u in users)`apiKeyPrefix,
             (set u | u in users)`apiKeyEnabled, (set u | u in users)`apiKeyCreatedAt
    ensures old(FindByEmail(users, email)).None? ==>
      && exitCode == Failure && shownKey.None?
      && forall u :: u in users ==>
           u.apiKeyHash == old(u.apiKeyHash) && u.apiKeyPrefix == old(u.apiKeyPrefix)
           && u.apiKeyEnabled == old(u.apiKeyEnabled) && u.apiKeyCreatedAt == old(u.apiKeyCreatedAt)
    ensures old(FindByEmail(users, email)).Some? ==>
      var user := old(FindByEmail(users, email)).value;
      var key := GenerateApiKey(randomBytes);
      && exitCode == Success && shownKey == Some(key)
      && user.apiKeyHash == Some(sha256(key))
      && user.apiKeyPrefix == Some(KeyPrefix(key))
      && user.apiKeyEnabled && user.apiKeyCreatedAt == Some(now)
      && forall u :: u in users && u != user ==>
           u.apiKeyHash == old(u.apiKeyHash) && u.apiKeyPrefix == old(u.apiKeyPrefix)
           && u.apiKeyEnabled == old(u.apiKeyEnabled) && u.apiKeyCreatedAt == old(u.apiKeyCreatedAt)
  {
    var found := FindByEmail(users, email);
    if found.None? {
      return Failure, None;
    }
    var user := found.value;
    var apiKey := GenerateApiKey(randomBytes);
    var prefix := KeyPrefix(apiKey);
    var hash := sha256(apiKey);
    user.SetApiKeyHash(Some(hash));
    user.SetApiKeyPrefix(Some(prefix));
    user.SetApiKeyEnabled(true);
    user.SetApiKeyCreatedAt(Some(now));
    return Success, Some(apiKey);
  }

  /** The freshly issued key authenticates as its account (digests being
      unique), and the account then meets the length constraints on its
      stored digest and prefix. */
  lemma IssuedKeyAuthenticates(users: seq<Entities.User>, i: nat, randomBytes: seq<byte>, sha256: string -> string)
    requires IsDigestFunction(sha256) && |randomBytes| == 32
    requires DigestsUnique(users) && i < |users|
    requires users[i].apiKeyHash == Some(sha256(GenerateApiKey(randomBytes)))
    requires users[i].apiKeyPrefix == Some(KeyPrefix(GenerateApiKey(randomBytes)))
    requires users[i].apiKeyEnabled
    ensures Authenticate(Some(GenerateApiKey(randomBytes)), users, sha256) == Authenticated(UserIdentifier(users[i].email))
    ensures users[i].ApiKeyFieldsValid()
  {
    var key := GenerateApiKey(randomBytes);
    assert |sha256(key)| == 64;
    KeyOfAccount(users, i, key, sha256);
  }

  /** In the state `Execute` leaves, where account `i` holds the digest of
      the new key, the account's previous key is invalid, provided its
      digest differs from the new one and no other account holds it. */
  lemma PreviousKeyInvalidated(users: seq<Entities.User>, i: nat, oldKey: string, randomBytes: seq<byte>, sha256: string -> string)
    requires oldKey != "" && i < |users| && |randomBytes| == 32
    requires users[i].apiKeyHash == Some(sha256(GenerateApiKey(randomBytes)))
    requires sha256(oldKey) != sha256(GenerateApiKey(randomBytes))
    requires forall j :: 0 <= j < |users| && j != i ==> users[j].apiKeyHash != Some(sha256(oldKey))
    ensures Authenticate(Some(oldKey), users, sha256) == Rejected(InvalidKeyMessage)
  {
    forall u | u in users
      ensures u.apiKeyHash != Some(sha256(oldKey))
    {
      var j :| 0 <= j < |users| && users[j] == u;
    }
  }
}
