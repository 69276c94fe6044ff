/** Accounts of backend/src/modules/auth/auth.service.ts: registration with a
    unique e-mail and a hashed password, login that answers unknown users and
    wrong passwords alike, and the token and public view handed back. Password
    hashing, hash comparison and token signing are parameters. */
module AuthService {
  import opened Wrappers
  import opened Text

  const EmailTaken: string := "El email ya está registrado"
  const BadCredentials: string := "Credenciales inválidas"

  /** A row of the `users` table. */
  datatype UserRow = UserRow(
    id: nat,
    email: string,
    password: string,
    name: Option<string>,
    avatar: Option<string>,
    isActive: bool,
    createdAt: int,
    updatedAt: int)

  /** A user without the password column (`sanitizeUser`). */
  datatype PublicUser = PublicUser(
    id: nat,
    email: string,
    name: Option<string>,
    avatar: Option<string>,
    isActive: bool,
    createdAt: int,
    updatedAt: int)

  /** A token is valid for 24 hours (`expiresIn: '24h'`), in seconds. */
  const TokenLifetime: int := 24 * 60 * 60

  /** The claims of a signed token: the payload `generateToken` passes
      (`sub`, `email`) and the two times the signer adds, in seconds. */
  datatype TokenPayload = TokenPayload(sub: nat, email: string, iat: int, exp: int)

  /** The body of a successful register or login. */
  datatype Session = Session(user: PublicUser, token: string)

  /** `sanitizeUser`: every column but the password. */
  function Sanitize(u: UserRow): PublicUser {
    PublicUser(u.id, u.email, u.name, u.avatar, u.isActive, u.createdAt, u.updatedAt)
  }

  /** A public user with a password put back. */
  function WithPassword(p: PublicUser, password: string): UserRow {
    UserRow(p.id, p.email, password, p.name, p.avatar, p.isActive, p.createdAt, p.updatedAt)
  }

  /** Sanitising drops exactly the password: putting it back gives the row
      again, and two rows have the same public view iff they differ at most in
      their password. */
  lemma SanitizeDropsOnlyPassword(u: UserRow, v: UserRow)
    ensures WithPassword(Sanitize(u), u.password) == u
    ensures Sanitize(u) == Sanitize(v) <==> u == v.(password := u.password)
  {
  }

  /** The claims signed at millisecond instant `now`: the user's id and
      e-mail, issued at the current second, expiring 24 hours later. */
  function Claims(u: UserRow, now: int): (c: TokenPayload)
    ensures c.sub == u.id && c.email == u.email
    ensures c.iat * 1000 <= now < c.iat * 1000 + 1000
    ensures c.exp == c.iat + TokenLifetime
  {
    TokenPayload(u.id, u.email, now / 1000, now / 1000 + TokenLifetime)
  }

  /** `generateToken`: the signature of the user's claims at `now`. */
  function Token(u: UserRow, sign: TokenPayload -> string, now: int): string {
    sign(Claims(u, now))
  }

  /** The default display name: the e-mail up to its first `@`. */
  function DisplayName(name: Option<string>, email: string): (r: string)
    ensures Truthy(name) ==> r == name.value
    ensures !Truthy(name) ==> r <= email && '@' !in r
    ensures !Truthy(name) && '@' in email ==> email[|r|] == '@'
  {
    if Truthy(name) then name.value else BeforeFirst(email, '@')
  }

  /** The default name of a "local@domain" address is its local part. */
  lemma DisplayNameOfAddress(local: string, domain: string)
    requires '@' !in local
    ensures DisplayName(None, local + "@" + domain) == local
  {
    assert local + "@" + domain == local + ['@'] + domain;
    BeforeFirstOfJoin(local, '@', domain);
  }

  /** The `users` table as a value. */
  datatype UserStore = UserStore(rows: seq<UserRow>, nextId: nat)

  ghost predicate UniqueEmails(rows: seq<UserRow>) {
    forall i, j :: 0 <= i < j < |rows| ==> rows[i].email != rows[j].email
  }

  /** `findOne({ where: { email } })`. */
  function IndexOfEmail(rows: seq<UserRow>, email: string): (k: Option<nat>)
    ensures k.Some? ==> k.value < |rows| && rows[k.value].email == email
    ensures k.None? <==> forall j :: 0 <= j < |rows| ==> rows[j].email != email
  {
    if rows == [] then None
    else if rows[0].email == email then Some(0)
    else match IndexOfEmail(rows[1..], email)
      case None => None
      case Some(k) => Some(k + 1)
  }

  /** `register`: the table after the call and the answer. */
  function RegisterSpec(st: UserStore, email: string, password: string, name: Option<string>,
                        hash: string -> string, sign: TokenPayload -> string, now: int)
    : (UserStore, Result<Session>)
  {
    if IndexOfEmail(st.rows, email).Some? then (st, Err(Conflict(EmailTaken)))
    else
      var user := UserRow(st.nextId, email, hash(password), Some(DisplayName(name, email)), None, true, now, now);
      (UserStore(st.rows + [user], st.nextId + 1), Ok(Session(Sanitize(user), Token(user, sign, now))))
  }

  /** A taken e-mail is refused and the table is unchanged; otherwise exactly
      one user is added, holding the hash of the password and the default name
      when none is given, and e-mails stay unique. */
  lemma RegisterEffect(st: UserStore, email: string, password: string, name: Option<string>,
                       hash: string -> string, sign: TokenPayload -> string, now: int)
    requires UniqueEmails(st.rows)
    ensures var (st2, r) := RegisterSpec(st, email, password, name, hash, sign, now);
      && UniqueEmails(st2.rows)
      && ((exists j :: 0 <= j < |st.rows| && st.rows[j].email == email) <==> r == Err(Conflict(EmailTaken)))
      && (r.Err? ==> st2 == st)
      && (r.Ok? ==>
            && |st2.rows| == |st.rows| + 1
            && st2.rows[..|st.rows|] == st.rows
            && var u := st2.rows[|st.rows|];
               && u.email == email
               && u.password == hash(password)
               && u.name == Some(DisplayName(name, email))
               && r.value.user == Sanitize(u)
               && r.value.token == sign(TokenPayload(u.id, email, now / 1000, now / 1000 + TokenLifetime)))
  {
    var (st2, r) := RegisterSpec(st, email, password, name, hash, sign, now);
    if r.Ok? {
      assert st2.rows[..|st.rows|] == st.rows;
    }
  }

  /** `login` at instant `now`: the same error for an unknown e-mail and a
      wrong password; otherwise the user's public view and a fresh token. */
  function Login(rows: seq<UserRow>, email: string, password: string,
                 matches: (string, string) -> bool, sign: TokenPayload -> string, now: int): (r: Result<Session>)
    ensures r.Err? ==> r.error == Unauthorized(BadCredentials)
    ensures r.Err? <==> IndexOfEmail(rows, email).None? ||
                        !matches(password, rows[IndexOfEmail(rows, email).value].password)
    ensures r.Ok? ==> var u := rows[IndexOfEmail(rows, email).value];
      && u.email == email
      && r.value == Session(Sanitize(u), sign(TokenPayload(u.id, email, now / 1000, now / 1000 + TokenLifetime)))
  {
    match IndexOfEmail(rows, email)
    case None => Err(Unauthorized(BadCredentials))
    case Some(k) =>
      if !matches(password, rows[k].password) then Err(Unauthorized(BadCredentials))
      else Ok(Session(Sanitize(rows[k]), Token(rows[k], sign, now)))
  }

  /** A caller cannot tell an unknown e-mail from a wrong password. */
  lemma LoginFailuresAlike(rows: seq<UserRow>, unknown: string, known: string, wrong: string,
                           matches: (string, string) -> bool, sign: TokenPayload -> string, now: int)
    requires IndexOfEmail(rows, unknown).None?
    requires IndexOfEmail(rows, known).Some? && !matches(wrong, rows[IndexOfEmail(rows, known).value].password)
    ensures Login(rows, unknown, wrong, matches, sign, now) == Login(rows, known, wrong, matches, sign, now)
  {
  }

  /** Logging in after registering, with a hash check that accepts the
      password against its own hash, gives back the same user, and a token
      for the same user id and e-mail issued at the login's second. The two
      tokens are the same only when both fall in the same second. */
  lemma RegisterThenLogin(st: UserStore, email: string, password: string, name: Option<string>,
                          hash: string -> string, matches: (string, string) -> bool,
                          sign: TokenPayload -> string, now: int, later: int)
    requires IndexOfEmail(st.rows, email).None?
    requires matches(password, hash(password))
    ensures var (st2, r) := RegisterSpec(st, email, password, name, hash, sign, now);
      var l := Login(st2.rows, email, password, matches, sign, later);
      && l.Ok? && r.Ok?
      && l.value.user == r.value.user
      && l.value.token == sign(TokenPayload(r.value.user.id, email, later / 1000, later / 1000 + TokenLifetime))
      && (now / 1000 == later / 1000 ==> l == r)
  {
    var (st2, r) := RegisterSpec(st, email, password, name, hash, sign, now);
    assert IndexOfEmail(st2.rows, email) == Some(|st.rows|) by {
      LastEmailFound(st.rows, st2.rows[|st.rows|]);
    }
  }

  lemma {:induction false} LastEmailFound(rows: seq<UserRow>, u: UserRow)
    requires IndexOfEmail(rows, u.email).None?
    ensures IndexOfEmail(rows + [u], u.email) == Some(|rows|)
  {
    if rows != [] {
      assert (rows + [u])[1..] == rows[1..] + [u];
      LastEmailFound(rows[1..], u);
    }
  }

  /** The `users` repository. */
  class UserRepository {
    var rows: seq<UserRow>
    var nextId: nat

    ghost predicate Valid()
      reads this
    {
      && UniqueEmails(rows)
      && forall i :: 0 <= i < |rows| ==> rows[i].id < nextId
    }

    constructor ()
      ensures Valid() && rows == [] && nextId == 0
    {
      rows := [];
      nextId := 0;
    }

    /** Scans the table for the e-mail. */
    method FindByEmail(email: string) returns (k: Option<nat>)
      ensures k.Some? ==> k.value < |rows| && rows[k.value].email == email
      ensures k.None? <==> IndexOfEmail(rows, email).None?
    {
      var i := 0;
      while i < |rows|
        invariant 0 <= i <= |rows|
        invariant forall j :: 0 <= j < i ==> rows[j].email != email
      {
        if rows[i].email == email {
          return Some(i);
        }
        i := i + 1;
      }
      return None;
    }

    /** `register`. */
    method Register(email: string, password: string, name: Option<string>,
                    hash: string -> string, sign: TokenPayload -> string, now: int)
      returns (r: Result<Session>)
      requires Valid()
      modifies this
      ensures Valid()
      ensures (UserStore(rows, nextId), r)
           == RegisterSpec(old(UserStore(rows, nextId)), email, password, name, hash, sign, now)
    {
      var existing := FindByEmail(email);
      if existing.Some? {
        return Err(Conflict(EmailTaken));
      }
      var user := UserRow(nextId, email, hash(password), Some(DisplayName(name, email)), None, true, now, now);
      RegisterEffect(UserStore(rows, nextId), email, password, name, hash, sign, now);
      rows := rows + [user];
      nextId := nextId + 1;
      r := Ok(Session(Sanitize(user), Token(user, sign, now)));
    }
  }
}
