/** The orchestrator's authentication (orchestrator/main.py: handle_login, verify_token,
    get_user_from_token) over the user table of config.py. A token is the SHA-256 hex digest of
    the user name followed by the secret key; the digest is the parameter `digest`. */
module Auth {
  import opened Models

  const SECRET_KEY: string := "sua-chave-super-secreta"

  /** config.py USERS: the names in the dict's order, and the name-to-password table. */
  const USER_NAMES: seq<string> := ["user1", "user2"]
  const USERS: map<string, string> := map["user1" := "pass1", "user2" := "pass2"]

  /** What get_user_from_token answers for a token no user owns. */
  const UNKNOWN_USER: string := "unknown"

  lemma UserNamesAreTheKeys()
    ensures forall u :: u in USER_NAMES <==> u in USERS
    ensures UNKNOWN_USER !in USERS
  {
  }

  /** The token issued to, and expected from, user `name`. */
  function TokenFor(digest: string -> string, name: string): string {
    digest(name + SECRET_KEY)
  }

  /** `token` is the token of some user in the table. */
  ghost predicate IsValidToken(digest: string -> string, token: Value) {
    exists u :: u in USERS && token == Str(TokenFor(digest, u))
  }

  /** The hash never maps two different strings to one digest. */
  ghost predicate Injective(digest: string -> string) {
    forall a, b :: digest(a) == digest(b) ==> a == b
  }

  /** The first of `names` whose token is `token`, or UNKNOWN_USER. */
  function FirstOwner(digest: string -> string, token: Value, names: seq<string>): string {
    if names == [] then UNKNOWN_USER
    else if token == Str(TokenFor(digest, names[0])) then names[0]
    else FirstOwner(digest, token, names[1..])
  }

  lemma {:induction false} FirstOwnerFinds(digest: string -> string, token: Value, names: seq<string>)
    requires UNKNOWN_USER !in names
    ensures FirstOwner(digest, token, names) in names <==>
            exists i :: 0 <= i < |names| && token == Str(TokenFor(digest, names[i]))
    ensures FirstOwner(digest, token, names) in names ==>
            token == Str(TokenFor(digest, FirstOwner(digest, token, names)))
    ensures FirstOwner(digest, token, names) !in names ==> FirstOwner(digest, token, names) == UNKNOWN_USER
  {
    if names != [] && token != Str(TokenFor(digest, names[0])) {
      FirstOwnerFinds(digest, token, names[1..]);
      if exists i :: 0 <= i < |names| && token == Str(TokenFor(digest, names[i])) {
        var i :| 0 <= i < |names| && token == Str(TokenFor(digest, names[i]));
        assert names[1..][i - 1] == names[i];
      }
    }
  }

  /** get_user_from_token names a real user exactly when verify_token accepts the token. */
  lemma OwnerIsUserIffValid(digest: string -> string, token: Value)
    ensures FirstOwner(digest, token, USER_NAMES) in USERS <==> IsValidToken(digest, token)
    ensures FirstOwner(digest, token, USER_NAMES) in USERS ==>
            token == Str(TokenFor(digest, FirstOwner(digest, token, USER_NAMES)))
    ensures FirstOwner(digest, token, USER_NAMES) !in USERS ==>
            FirstOwner(digest, token, USER_NAMES) == UNKNOWN_USER
  {
    FirstOwnerFinds(digest, token, USER_NAMES);
    if IsValidToken(digest, token) {
      var u :| u in USERS && token == Str(TokenFor(digest, u));
      assert u == USER_NAMES[0] || u == USER_NAMES[1];
    }
  }

  /** verify_token: compare the token with each user's in turn. */
  method VerifyToken(digest: string -> string, token: Value) returns (ok: bool)
    ensures ok <==> IsValidToken(digest, token)
  {
    UserNamesAreTheKeys();
    var i := 0;
    while i < |USER_NAMES|
      invariant 0 <= i <= |USER_NAMES|
      invariant forall j :: 0 <= j < i ==> token != Str(TokenFor(digest, USER_NAMES[j]))
    {
      if token == Str(TokenFor(digest, USER_NAMES[i])) {
        assert USER_NAMES[i] in USERS;
        return true;
      }
      i := i + 1;
    }
    return false;
  }

  /** get_user_from_token: the first user whose token it is, or "unknown". */
  method GetUserFromToken(digest: string -> string, token: Value) returns (user: string)
    ensures user == FirstOwner(digest, token, USER_NAMES)
    ensures user in USERS <==> IsValidToken(digest, token)
    ensures user in USERS ==> token == Str(TokenFor(digest, user))
    ensures user !in USERS ==> user == UNKNOWN_USER
  {
    OwnerIsUserIffValid(digest, token);
    var i := 0;
    while i < |USER_NAMES|
      invariant 0 <= i <= |USER_NAMES|
      invariant FirstOwner(digest, token, USER_NAMES) == FirstOwner(digest, token, USER_NAMES[i..])
    {
      if token == Str(TokenFor(digest, USER_NAMES[i])) {
        return USER_NAMES[i];
      }
      assert USER_NAMES[i..][1..] == USER_NAMES[i + 1..];
      i := i + 1;
    }
    return UNKNOWN_USER;
  }

  /** A value a dict lookup accepts as a key (lists and dicts are unhashable in Python). */
  predicate Hashable(v: Value) {
    !v.Arr? && !v.Obj?
  }

  /** `USERS.get(v)`: the password of a known name, Null (None) for anything else. */
  function UsersGet(v: Value): (r: Value)
    ensures r != Null <==> v.Str? && v.s in USERS
    ensures r != Null ==> r == Str(USERS[v.s])
  {
    if v.Str? && v.s in USERS then Str(USERS[v.s]) else Null
  }

  function DigitChar(d: nat): char
    requires d < 10
  {
    "0123456789"[d]
  }

  /** `str(n)` for a natural number: decimal digits, most significant first. */
  function DecimalString(n: nat): (r: string)
    ensures r != [] && '0' <= r[0] <= '9'
    decreases n
  {
    if n < 10 then [DigitChar(n)] else DecimalString(n / 10) + [DigitChar(n % 10)]
  }

  /** How an f-string renders a hashable JSON value: a string as itself; None, a boolean or
      an integer in its Python spelling, which is never empty and starts with N, T, F, '-'
      or a digit; an integer starts with '-' exactly when it is negative. */
  function PyStr(v: Value): (r: string)
    requires Hashable(v)
    ensures v.Str? ==> r == v.s
    ensures !v.Str? ==> r != [] && r[0] in "NTF-0123456789"
    ensures v.Int? ==> (r[0] == '-' <==> v.i < 0)
  {
    match v
    case Null => "None"
    case Bool(b) => if b then "True" else "False"
    case Int(i) => if i < 0 then "-" + DecimalString(-i) else DecimalString(i)
    case Str(s) => s
  }

  /** None, a boolean or an integer never renders as a user name. */
  lemma NonStrNeverRendersAsUser(v: Value)
    requires Hashable(v) && !v.Str?
    ensures PyStr(v) !in USERS
  {
    var r := PyStr(v);
    assert r[0] in "NTF-0123456789";
    assert "user1"[0] == 'u' && "user2"[0] == 'u';
  }

  datatype LoginOutcome =
    | TokenIssued(token: string)
    | BadCredentials
    | Unhashable   // USERS.get raises TypeError; the handler thread dies without replying

  /** handle_login's decision: a token iff `USERS.get(username) == password`. */
  function Login(digest: string -> string, username: Value, password: Value): (r: LoginOutcome)
    ensures r.Unhashable? <==> !Hashable(username)
    ensures r.TokenIssued? <==> Hashable(username) && UsersGet(username) == password
    ensures r.TokenIssued? ==> r.token == digest(PyStr(username) + SECRET_KEY)
  {
    if !Hashable(username) then Unhashable
    else if UsersGet(username) == password then TokenIssued(digest(PyStr(username) + SECRET_KEY))
    else BadCredentials
  }

  /** A user with the right password gets a token that verify_token accepts. */
  lemma LoginGrantsValidToken(digest: string -> string, u: string)
    requires u in USERS
    ensures Login(digest, Str(u), Str(USERS[u])) == TokenIssued(TokenFor(digest, u))
    ensures IsValidToken(digest, Str(TokenFor(digest, u)))
  {
  }

  /** Every token issued to a name in the table verifies. */
  lemma IssuedTokenVerifies(digest: string -> string, username: Value, password: Value)
    requires Login(digest, username, password).TokenIssued?
    requires username.Str? && username.s in USERS
    ensures IsValidToken(digest, Str(Login(digest, username, password).token))
  {
    assert Login(digest, username, password).token == TokenFor(digest, username.s);
  }

  /** Two strings with the same suffix and equal concatenations are equal. */
  lemma SuffixCancels(a: string, b: string, k: string)
    requires a + k == b + k
    ensures a == b
  {
    assert |a| == |b|;
    assert a == (a + k)[..|a|];
    assert b == (b + k)[..|b|];
  }

  /** With no password, any name outside the table, None included, is issued a token;
      for an injective digest, verify_token rejects that token. */
  lemma NoPasswordLoginForNonUser(digest: string -> string, username: Value)
    requires Injective(digest)
    requires Hashable(username) && !(username.Str? && username.s in USERS)
    ensures Login(digest, username, Null).TokenIssued?
    ensures !IsValidToken(digest, Str(Login(digest, username, Null).token))
  {
    var name := PyStr(username);
    if !username.Str? {
      NonStrNeverRendersAsUser(username);
    }
    if IsValidToken(digest, Str(Login(digest, username, Null).token)) {
      var u :| u in USERS && Str(Login(digest, username, Null).token) == Str(TokenFor(digest, u));
      assert digest(name + SECRET_KEY) == digest(u + SECRET_KEY);
      SuffixCancels(name, u, SECRET_KEY);
      assert false;
    }
  }

  /** The login request with neither username nor password gets the token of the name "None". */
  lemma AnonymousLogin(digest: string -> string)
    requires Injective(digest)
    ensures Login(digest, Null, Null) == TokenIssued(digest("None" + SECRET_KEY))
    ensures !IsValidToken(digest, Str(digest("None" + SECRET_KEY)))
  {
    NoPasswordLoginForNonUser(digest, Null);
  }

  /** For an injective digest a valid token belongs to exactly one user. */
  lemma TokenHasOneOwner(digest: string -> string, token: Value, u: string, v: string)
    requires Injective(digest)
    requires u in USERS && v in USERS
    requires token == Str(TokenFor(digest, u)) && token == Str(TokenFor(digest, v))
    ensures u == v
  {
    SuffixCancels(u, v, SECRET_KEY);
  }
}
