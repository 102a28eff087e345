/**
 * The credential bookkeeping of kinvey.js: the provider's two header sets
 * (`headers.user`, `headers.basic`), the application key captured by `init`,
 * and the session token kept in the cookie store under `<appKey>:authToken`.
 * `init`, the restore at service start-up (`$get`) and the login, signup and
 * logout response hooks all update this state in place.
 */
module Credentials {
  import opened Wrappers

  const ApiVersion := 3

  /** One header set: `X-Kinvey-API-Version` and `Authorization`. */
  datatype HeaderSet = HeaderSet(apiVersion: int, authorization: string)

  /** The options given to `init`; a property is None when it is absent. */
  datatype InitOptions = InitOptions(appKey: Option<string>, appSecret: Option<string>)

  /**
   * The parsed body of a login or signup response: whether `data.error` is
   * truthy, and `data._kmd.authtoken` (None when `_kmd` is absent).
   */
  datatype AuthResponse = AuthResponse(error: bool, authToken: Option<string>)

  const InitError := "$kinveyProvider.init requires an options object: {'appId':'YOUR APP ID','appSecret':'YOUR APP SECRET'}"

  /** Reading `authtoken` of a missing `_kmd` throws a TypeError. */
  const MissingKmdError := "TypeError: data._kmd is undefined"

  /** Truthiness of an optional string property. */
  predicate Truthy(p: Option<string>) { p.Some? && p.value != "" }

  predicate InitAccepts(options: Option<InitOptions>) {
    options.Some? && Truthy(options.value.appKey) && Truthy(options.value.appSecret)
  }

  /** The basic credential; `encode` is the Base64 encoder of ngBase64. */
  function BasicAuthorization(appKey: string, appSecret: string, encode: string -> string): string {
    "Basic " + encode(appKey + ":" + appSecret)
  }

  /** The session credential built from a token. */
  function SessionAuthorization(token: string): string {
    "Kinvey " + token
  }

  /** The cookie key; before `init` the key variable is undefined and concatenates as "undefined". */
  function CookieKey(appKey: Option<string>): string {
    (if appKey.Some? then appKey.value else "undefined") + ":authToken"
  }

  /** After a login the user header can be told apart from the basic one. */
  lemma SessionIsNotBasic(token: string, appKey: string, appSecret: string, encode: string -> string)
    ensures SessionAuthorization(token) != BasicAuthorization(appKey, appSecret, encode)
  {
    assert SessionAuthorization(token)[0] == 'K';
    assert BasicAuthorization(appKey, appSecret, encode)[0] == 'B';
  }

  /** The `$cookieStore` service, as a key/value map. */
  class CookieStore {
    var entries: map<string, string>

    constructor (initial: map<string, string>)
      ensures entries == initial
    {
      entries := initial;
    }

    /** `$cookieStore.get(key)`: undefined when nothing is stored. */
    function Get(key: string): (r: Option<string>)
      reads this
    {
      if key in entries then Some(entries[key]) else None
    }

    /** `$cookieStore.put(key, value)`. */
    method Put(key: string, value: string)
      modifies this
      ensures entries == old(entries)[key := value]
    {
      entries := entries[key := value];
    }

    /** `$cookieStore.remove(key)`. */
    method Remove(key: string)
      modifies this
      ensures entries == old(entries) - {key}
    {
      entries := entries - {key};
    }
  }

  /** The `$kinvey` provider's credential state. */
  class Provider {
    var user: HeaderSet
    var basic: HeaderSet
    var appKey: Option<string>

    /** Both header sets always carry the fixed API version. */
    ghost predicate Valid()
      reads this
    {
      user.apiVersion == ApiVersion && basic.apiVersion == ApiVersion
    }

    /** The provider before `init`: empty credentials, no key. */
    constructor ()
      ensures Valid()
      ensures user.authorization == "" && basic.authorization == "" && appKey == None
    {
      user := HeaderSet(ApiVersion, "");
      basic := HeaderSet(ApiVersion, "");
      appKey := None;
    }

    /** `init(options)`: refuses missing or falsy key/secret, else sets both headers to the basic credential. */
    method Init(options: Option<InitOptions>, encode: string -> string) returns (r: Outcome<string>)
      requires Valid()
      modifies this
      ensures Valid()
      ensures r.Fail? <==> !InitAccepts(options)
      ensures r.Fail? ==> r.error == InitError && user == old(user) && basic == old(basic) && appKey == old(appKey)
      ensures r.Pass? ==>
                && appKey == options.value.appKey
                && user.authorization == basic.authorization
                && basic.authorization == BasicAuthorization(options.value.appKey.value, options.value.appSecret.value, encode)
    {
      if !InitAccepts(options) {
        return Fail(InitError);
      }
      var opts := options.value;
      appKey := opts.appKey;
      var auth := BasicAuthorization(opts.appKey.value, opts.appSecret.value, encode);
      basic := basic.(authorization := auth);
      user := user.(authorization := auth);
      r := Pass;
    }

    /** The start of `$get`: a stored, truthy token becomes the user header. */
    method RestoreSession(cookies: CookieStore)
      requires Valid()
      modifies this
      ensures Valid() && basic == old(basic) && appKey == old(appKey)
      ensures var saved := cookies.Get(CookieKey(appKey));
              user.authorization == if Truthy(saved) then saved.value else old(user.authorization)
    {
      var oldToken := cookies.Get(CookieKey(appKey));
      if Truthy(oldToken) {
        user := user.(authorization := oldToken.value);
      }
    }

    /** The body shared by the login and signup `transformResponse` hooks. */
    method AcceptSession(data: AuthResponse, cookies: CookieStore) returns (r: Outcome<string>)
      requires Valid()
      modifies this, cookies
      ensures Valid() && basic == old(basic) && appKey == old(appKey)
      ensures r.Fail? <==> !data.error && data.authToken.None?
      ensures r.Fail? ==> r.error == MissingKmdError
      ensures data.error || r.Fail? ==> user == old(user) && cookies.entries == old(cookies.entries)
      ensures !data.error && r.Pass? ==>
                && user.authorization == SessionAuthorization(data.authToken.value)
                && cookies.entries == old(cookies.entries)[CookieKey(appKey) := SessionAuthorization(data.authToken.value)]
    {
      r := Pass;
      if !data.error {
        if data.authToken.None? {
          return Fail(MissingKmdError);
        }
        user := user.(authorization := SessionAuthorization(data.authToken.value));
        cookies.Put(CookieKey(appKey), SessionAuthorization(data.authToken.value));
      }
    }

    /** The `login` action's `transformResponse`. */
    method OnLoginResponse(data: AuthResponse, cookies: CookieStore) returns (r: Outcome<string>)
      requires Valid()
      modifies this, cookies
      ensures Valid() && basic == old(basic) && appKey == old(appKey)
      ensures r.Fail? <==> !data.error && data.authToken.None?
      ensures r.Fail? ==> r.error == MissingKmdError
      ensures data.error || r.Fail? ==> user == old(user) && cookies.entries == old(cookies.entries)
      ensures !data.error && r.Pass? ==>
                && user.authorization == SessionAuthorization(data.authToken.value)
                && cookies.entries == old(cookies.entries)[CookieKey(appKey) := SessionAuthorization(data.authToken.value)]
    {
      r := AcceptSession(data, cookies);
    }

    /** The `signup` action's `transformResponse`; the same body as login's. */
    method OnSignupResponse(data: AuthResponse, cookies: CookieStore) returns (r: Outcome<string>)
      requires Valid()
      modifies this, cookies
      ensures Valid() && basic == old(basic) && appKey == old(appKey)
      ensures r.Fail? <==> !data.error && data.authToken.None?
      ensures r.Fail? ==> r.error == MissingKmdError
      ensures data.error || r.Fail? ==> user == old(user) && cookies.entries == old(cookies.entries)
      ensures !data.error && r.Pass? ==>
                && user.authorization == SessionAuthorization(data.authToken.value)
                && cookies.entries == old(cookies.entries)[CookieKey(appKey) := SessionAuthorization(data.authToken.value)]
    {
      r := AcceptSession(data, cookies);
    }

    /** The `logout` action's `transformResponse`: back to the basic credential, token forgotten. */
    method OnLogoutResponse(cookies: CookieStore)
      requires Valid()
      modifies this, cookies
      ensures Valid() && basic == old(basic) && appKey == old(appKey)
      ensures user == basic
      ensures cookies.entries == old(cookies.entries) - {CookieKey(appKey)}
    {
      user := user.(authorization := basic.authorization);
      cookies.Remove(CookieKey(appKey));
    }
  }

  /**
   * A whole session with an empty cookie store: init, start-up, a successful
   * login, logout. The user header holds the session credential after the
   * login and exactly the basic credential after the logout.
   */
  method SessionLifecycle(key: string, secret: string, token: string, encode: string -> string)
    returns (afterLogin: string, afterLogout: string, basicHeader: string, stored: map<string, string>)
    requires key != "" && secret != ""
    ensures basicHeader == BasicAuthorization(key, secret, encode)
    ensures afterLogin == SessionAuthorization(token) && afterLogin != basicHeader
    ensures afterLogout == basicHeader
    ensures stored == map[]
  {
    var provider := new Provider();
    var cookies := new CookieStore(map[]);
    var init := provider.Init(Some(InitOptions(Some(key), Some(secret))), encode);
    provider.RestoreSession(cookies);
    var login := provider.OnLoginResponse(AuthResponse(false, Some(token)), cookies);
    afterLogin := provider.user.authorization;
    provider.OnLogoutResponse(cookies);
    afterLogout := provider.user.authorization;
    basicHeader := provider.basic.authorization;
    stored := cookies.entries;
    SessionIsNotBasic(token, key, secret, encode);
  }
}
