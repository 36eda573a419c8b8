/** The Integration model: one set of third-party OAuth credentials per user
    and provider, with both tokens encrypted at rest.

    Crypt::encryptString and Crypt::decryptString are given as a `Crypter`
    value; what the model relies on from them is stated by `Sound`. */
module Integrations {
  import opened Common

  /** The provider enum column. */
  datatype Provider = GitHub | Spotify | LinkedIn | Google

  function ProviderName(p: Provider): string {
    match p
    case GitHub => "github"
    case Spotify => "spotify"
    case LinkedIn => "linkedin"
    case Google => "google"
  }

  /** The enum column's check: only the four names are accepted. */
  function ParseProvider(s: string): (r: Option<Provider>)
    ensures r.Some? ==> ProviderName(r.value) == s
    ensures r.None? ==> forall p: Provider :: ProviderName(p) != s
  {
    if s == "github" then Some(GitHub)
    else if s == "spotify" then Some(Spotify)
    else if s == "linkedin" then Some(LinkedIn)
    else if s == "google" then Some(Google)
    else None
  }

  lemma ProviderRoundTrip(p: Provider)
    ensures ParseProvider(ProviderName(p)) == Some(p)
  {
  }

  // ---------------------------------------------------------------------
  // Tokens at rest
  // ---------------------------------------------------------------------

  datatype Crypter = Crypter(encrypt: string -> string, decrypt: string -> string)

  /** Decryption undoes encryption, and a ciphertext is never a string PHP
      reads as false (Laravel's payloads are non-empty base64). */
  ghost predicate Sound(c: Crypter) {
    && (forall s :: c.decrypt(c.encrypt(s)) == s)
    && (forall s :: PhpTruthy(Some(c.encrypt(s))))
  }

  /** setAccessTokenAttribute: the token is encrypted whatever it is. */
  function StoredAccessToken(c: Crypter, value: string): string {
    c.encrypt(value)
  }

  /** getAccessTokenAttribute: the stored value is decrypted. */
  function ReadAccessToken(c: Crypter, stored: string): string {
    c.decrypt(stored)
  }

  /** setRefreshTokenAttribute: a truthy token is encrypted, anything PHP
      reads as false (null, "", "0") is stored as null. */
  function StoredRefreshToken(c: Crypter, value: Option<string>): (r: Option<string>)
    ensures PhpTruthy(value) <==> r.Some?
    ensures r.Some? ==> r.value == c.encrypt(value.value)
  {
    if PhpTruthy(value) then Some(c.encrypt(value.value)) else None
  }

  /** getRefreshTokenAttribute: a truthy stored value is decrypted, anything
      else reads as null. */
  function ReadRefreshToken(c: Crypter, stored: Option<string>): (r: Option<string>)
    ensures !PhpTruthy(stored) ==> r.None?
    ensures PhpTruthy(stored) ==> r == Some(c.decrypt(stored.value))
  {
    if PhpTruthy(stored) then Some(c.decrypt(stored.value)) else None
  }

  /** The access token reads back as it was set. */
  lemma AccessTokenRoundTrip(c: Crypter, v: string)
    requires Sound(c)
    ensures ReadAccessToken(c, StoredAccessToken(c, v)) == v
  {
  }

  /** The refresh token reads back as it was set when it is truthy, and as
      null when it is null, "" or "0". */
  lemma RefreshTokenRoundTrip(c: Crypter, v: Option<string>)
    requires Sound(c)
    ensures ReadRefreshToken(c, StoredRefreshToken(c, v)) == if PhpTruthy(v) then v else None
  {
    if PhpTruthy(v) {
      assert PhpTruthy(Some(c.encrypt(v.value)));
    }
  }

  /** isTokenExpired: no expiry means the token never expires; otherwise it
      is expired when the expiry is strictly before now (Carbon's isPast). */
  function TokenExpired(expiresAt: Option<int>, now: int): (r: bool)
    ensures expiresAt.None? ==> !r
    ensures expiresAt.Some? ==> (r <==> expiresAt.value < now)
  {
    if expiresAt.None? then false else expiresAt.value < now
  }

  /** RefreshTokenRoundTrip for every token at once; it only serves the
      contract of Integration.RefreshToken. */
  lemma RefreshTokenReadsBack(c: Crypter)
    ensures Sound(c) ==> forall v :: ReadRefreshToken(c, StoredRefreshToken(c, v)) == if PhpTruthy(v) then v else None
  {
    if Sound(c) {
      forall v ensures ReadRefreshToken(c, StoredRefreshToken(c, v)) == if PhpTruthy(v) then v else None {
        RefreshTokenRoundTrip(c, v);
      }
    }
  }

  /** Once expired, a token stays expired. */
  lemma ExpiryIsPermanent(expiresAt: Option<int>, now: int, later: int)
    requires now <= later && TokenExpired(expiresAt, now)
    ensures TokenExpired(expiresAt, later)
  {
  }

  // ---------------------------------------------------------------------
  // Serialisation
  // ---------------------------------------------------------------------

  /** The `$hidden` list. */
  const Hidden: set<string> := {"access_token", "refresh_token"}

  /** toArray()/toJson(): the model's attributes without the hidden ones. */
  function Serialized(attributes: map<string, string>): (r: map<string, string>)
    ensures "access_token" !in r && "refresh_token" !in r
    ensures forall k :: k in r ==> k in attributes && r[k] == attributes[k]
    ensures forall k :: k in attributes && k !in Hidden ==> k in r
  {
    attributes - Hidden
  }

  // ---------------------------------------------------------------------
  // One model instance
  // ---------------------------------------------------------------------

  class Integration {
    var userId: string
    var provider: Provider
    /** The access token as stored: its ciphertext. */
    var accessToken: string
    /** The refresh token as stored: its ciphertext, or null. */
    var refreshToken: Option<string>
    var tokenExpiresAt: Option<int>

    /** A new instance filled through the mutators, as `create([...])` does. */
    constructor (userId: string, provider: Provider, access: string, refresh: Option<string>,
                 expiresAt: Option<int>, c: Crypter)
      ensures this.userId == userId && this.provider == provider
      ensures accessToken == StoredAccessToken(c, access)
      ensures refreshToken == StoredRefreshToken(c, refresh)
      ensures tokenExpiresAt == expiresAt
    {
      this.userId := userId;
      this.provider := provider;
      accessToken := StoredAccessToken(c, access);
      refreshToken := StoredRefreshToken(c, refresh);
      tokenExpiresAt := expiresAt;
    }

    /** setAccessTokenAttribute. */
    method SetAccessToken(value: string, c: Crypter)
      modifies this`accessToken
      ensures accessToken == StoredAccessToken(c, value)
    {
      accessToken := StoredAccessToken(c, value);
    }

    /** getAccessTokenAttribute: with a sound crypter it gives back whatever
        token was stored. */
    function AccessToken(c: Crypter): (r: string)
      reads this
      ensures Sound(c) ==> forall v :: accessToken == StoredAccessToken(c, v) ==> r == v
    {
      ReadAccessToken(c, accessToken)
    }

    /** setRefreshTokenAttribute. */
    method SetRefreshToken(value: Option<string>, c: Crypter)
      modifies this`refreshToken
      ensures refreshToken == StoredRefreshToken(c, value)
    {
      refreshToken := StoredRefreshToken(c, value);
    }

    /** getRefreshTokenAttribute: null when nothing is stored; with a sound
        crypter, the token that was set when it was truthy and null when it
        was not. */
    function RefreshToken(c: Crypter): (r: Option<string>)
      reads this
      ensures refreshToken.None? ==> r.None?
      ensures Sound(c) ==> forall v :: refreshToken == StoredRefreshToken(c, v) ==>
                                         r == if PhpTruthy(v) then v else None
    {
      RefreshTokenReadsBack(c);
      ReadRefreshToken(c, refreshToken)
    }

    /** isTokenExpired: never without an expiry, otherwise once the expiry
        is strictly past. */
    function IsTokenExpired(now: int): (r: bool)
      reads this
      ensures tokenExpiresAt.None? ==> !r
      ensures tokenExpiresAt.Some? ==> (r <==> tokenExpiresAt.value < now)
    {
      TokenExpired(tokenExpiresAt, now)
    }
  }

  /** Setting then reading both tokens gives back what was set (a falsy
      refresh token reads as null), and no other instance field moves. */
  method TokenScenario(i: Integration, c: Crypter, access: string, refresh: Option<string>)
    requires Sound(c)
    modifies i
  {
    var user, provider, expiry := i.userId, i.provider, i.tokenExpiresAt;
    i.SetAccessToken(access, c);
    i.SetRefreshToken(refresh, c);
    assert i.AccessToken(c) == access;
    RefreshTokenRoundTrip(c, refresh);
    assert i.RefreshToken(c) == if PhpTruthy(refresh) then refresh else None;
    assert i.userId == user && i.provider == provider && i.tokenExpiresAt == expiry;
  }

  // ---------------------------------------------------------------------
  // The integrations table
  // ---------------------------------------------------------------------

  datatype IntegrationRow = IntegrationRow(userId: string, provider: Provider, providerUserId: string)

  function RowKey(r: IntegrationRow): (string, Provider) { (r.userId, r.provider) }

  /** unique(['user_id', 'provider']): one credential set per user and provider. */
  ghost predicate OnePerProvider(rows: seq<IntegrationRow>) {
    UniqueBy(rows, RowKey)
  }

  /** An INSERT: rejected when the user already holds credentials for that
      provider, appended otherwise; the table keeps its unique index. */
  function InsertIntegration(rows: seq<IntegrationRow>, row: IntegrationRow): (r: Option<seq<IntegrationRow>>)
    ensures r.None? <==> exists i :: 0 <= i < |rows| && rows[i].userId == row.userId && rows[i].provider == row.provider
    ensures r.Some? ==> r.value == rows + [row]
    ensures OnePerProvider(rows) && r.Some? ==> OnePerProvider(r.value)
  {
    InsertUnique(rows, RowKey, row)
  }
}
