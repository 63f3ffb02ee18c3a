/** The request guards of backend/app/core/dependencies.py: the bearer-token check that
    finds the current user, the identity "active user" step and the role checker. The
    token decoder is outside the model: its result (the claims, or `None` when the token
    does not decode) is an input. */
module Dependencies {
  import opened Wrappers
  import opened Json
  import opened Strings
  import opened Domain
  import Database

  predicate AllDigits(s: string) {
    forall i :: 0 <= i < |s| ==> IsDigit(s[i])
  }

  /** What `int()` reads once the whitespace is stripped: one or more digits, with at most
      one sign in front. */
  predicate IsDecimal(t: string) {
    (t != [] && AllDigits(t)) || (|t| >= 2 && (t[0] == '+' || t[0] == '-') && AllDigits(t[1..]))
  }

  /** Python `int(s)` for a string: surrounding whitespace, an optional sign and at least
      one ASCII digit; anything else raises `ValueError` (`None` here). */
  function ParseInt(s: string): (r: Option<int>)
    ensures r.Some? <==> IsDecimal(PyStrip(s))
    ensures r.Some? && AllDigits(PyStrip(s)) ==> r.value == DigitsValue(PyStrip(s))
    ensures r.Some? && PyStrip(s)[0] == '+' ==> r.value == DigitsValue(PyStrip(s)[1..])
    ensures r.Some? && PyStrip(s)[0] == '-' ==> r.value == -(DigitsValue(PyStrip(s)[1..]) as int)
  {
    var t := PyStrip(s);
    if t != [] && (t[0] == '-' || t[0] == '+') then
      var d := t[1..];
      if d != [] && AllDigits(d) then
        var v: int := DigitsValue(d);
        Some(if t[0] == '-' then -v else v)
      else None
    else if t != [] && AllDigits(t) then Some(DigitsValue(t))
    else None
  }

  /** `int(str(n)) == n`: the subject claim written as a decimal reads back as the id. */
  lemma ParseRendered(n: int)
    ensures ParseInt(IntToString(n)) == Some(n)
  {
    var s := IntToString(n);
    if n < 0 {
      var digits := NatToString(-n);
      NatToStringRoundTrip(-n);
      assert s == "-" + digits;
      assert s[|s| - 1] == digits[|digits| - 1];
      StripUnpadded(s);
      assert s[1..] == digits;
    } else {
      NatToStringRoundTrip(n);
      StripUnpadded(s);
    }
  }

  /** `int(x)` on a claim value: integers stay, booleans become 0 or 1, strings are parsed;
      other values raise `TypeError`. */
  function IntOf(j: Json): Option<int> {
    match j
    case JInt(i) => Some(i)
    case JBool(b) => Some(if b then 1 else 0)
    case JStr(s) => ParseInt(s)
    case _ => None
  }

  /** `payload.get(key)`, with a JSON `null` read as `None` as well. */
  function Claim(payload: map<string, Json>, key: string): Option<Json> {
    if key in payload && payload[key] != JNull then Some(payload[key]) else None
  }

  predicate IsAccessToken(payload: map<string, Json>) {
    Claim(payload, "type") == Some(JStr("access"))
  }

  /** `get_current_user`: every failure is a 401, in the order of the checks, except that
      a subject `int()` cannot read raises, which FastAPI answers with 500. */
  function GetCurrentUser(payload: Option<map<string, Json>>, users: seq<User>): (r: Outcome<User>)
    ensures payload.None? ==> r == Fail(Unauthorized, "Could not validate credentials")
    ensures payload.Some? && !IsAccessToken(payload.value) ==> r == Fail(Unauthorized, "Invalid token type")
    ensures payload.Some? && IsAccessToken(payload.value) && Claim(payload.value, "sub").None?
      ==> r == Fail(Unauthorized, "Could not validate credentials")
    ensures r.Ok? <==> (payload.Some? && IsAccessToken(payload.value) && Claim(payload.value, "sub").Some?
                        && IntOf(Claim(payload.value, "sub").value).Some?
                        && exists u :: u in users && u.id == IntOf(Claim(payload.value, "sub").value).value)
    ensures r.Ok? ==> r.value in users && Some(r.value.id) == IntOf(Claim(payload.value, "sub").value)
    ensures payload.Some? && IsAccessToken(payload.value) && Claim(payload.value, "sub").Some? ==>
      var id := IntOf(Claim(payload.value, "sub").value);
      (id.None? ==> r == Fail(ServerError, "Internal Server Error"))
      && (id.Some? && (forall u :: u in users ==> u.id != id.value) ==> r == Fail(Unauthorized, "User not found"))
    ensures r.Fail? ==> r.status == Unauthorized || r.status == ServerError
  {
    if payload.None? then Fail(Unauthorized, "Could not validate credentials")
    else if Claim(payload.value, "type") != Some(JStr("access")) then Fail(Unauthorized, "Invalid token type")
    else match Claim(payload.value, "sub")
      case None => Fail(Unauthorized, "Could not validate credentials")
      case Some(sub) =>
        match IntOf(sub)
        case None => Fail(ServerError, "Internal Server Error")
        case Some(id) =>
          match Database.FindUser(users, id)
          case None => Fail(Unauthorized, "User not found")
          case Some(u) => Ok(u)
  }

  /** An access token whose subject is a user's id, written as a decimal, authenticates
      exactly that user (ids are unique). */
  lemma TokenForUser(payload: map<string, Json>, users: seq<User>, u: User)
    requires u in users && forall v :: v in users && v.id == u.id ==> v == u
    requires IsAccessToken(payload) && Claim(payload, "sub") == Some(JStr(IntToString(u.id)))
    ensures GetCurrentUser(Some(payload), users) == Ok(u)
  {
    ParseRendered(u.id);
  }

  /** `get_current_active_user` passes the user through unchanged. */
  function GetCurrentActiveUser(current: User): (r: User)
    ensures r == current
  {
    current
  }

  /** An entry of the list `RoleChecker` is built with: an enum member or a plain string. */
  datatype RoleArg = EnumRole(role: Role) | RoleString(s: string)

  function EnumRoles(roles: seq<Role>): (r: seq<RoleArg>)
    ensures |r| == |roles| && forall i :: 0 <= i < |r| ==> r[i] == EnumRole(roles[i])
  {
    if roles == [] then [] else [EnumRole(roles[0])] + EnumRoles(roles[1..])
  }

  /** `str(member)` of a `str`-mixin enum member: the class name, a dot, the member name. */
  function PyStrOfRole(r: Role): string {
    "UserRole." + RoleValue(r)
  }

  /** The list `RoleChecker.__init__` stores, as written: enum members through `str()`. */
  function AllowedRolesAsWritten(allowed: seq<RoleArg>): (r: seq<string>)
    ensures |r| == |allowed|
    ensures forall i :: 0 <= i < |r| ==>
      r[i] == (match allowed[i] case EnumRole(x) => PyStrOfRole(x) case RoleString(s) => s)
  {
    if allowed == [] then []
    else
      var head := match allowed[0] case EnumRole(x) => PyStrOfRole(x) case RoleString(s) => s;
      [head] + AllowedRolesAsWritten(allowed[1..])
  }

  /** The same list normalised with `.value`, as the user's side of the comparison is. */
  function AllowedRoles(allowed: seq<RoleArg>): (r: seq<string>)
    ensures |r| == |allowed|
    ensures forall i :: 0 <= i < |r| ==>
      r[i] == (match allowed[i] case EnumRole(x) => RoleValue(x) case RoleString(s) => s)
  {
    if allowed == [] then []
    else
      var head := match allowed[0] case EnumRole(x) => RoleValue(x) case RoleString(s) => s;
      [head] + AllowedRoles(allowed[1..])
  }

  /** A string as Python's `repr` writes it inside a list: between single quotes. */
  function Quoted(s: string): string {
    "'" + s + "'"
  }

  /** `str()` of a list of strings: the quoted items, separated by ", ", in brackets. */
  function PyListStr(items: seq<string>): string {
    "[" + Join(seq(|items|, i requires 0 <= i < |items| => Quoted(items[i])), ", ") + "]"
  }

  /** The 403 detail of `RoleChecker.__call__`: the stored list and the user's role string. */
  function RoleDenied(stored: seq<string>, roleStr: string): string {
    "Insufficient permissions. Required roles: " + PyListStr(stored) + ", user has: " + roleStr
  }

  /** `RoleChecker.__call__`: the user's `role.value` must be in the stored list. */
  function CheckRole(stored: seq<string>, u: User): (r: Outcome<User>)
    ensures r.Ok? <==> RoleValue(u.role) in stored
    ensures r.Ok? ==> r.value == u
    ensures r.Fail? ==> r == Fail(Forbidden, RoleDenied(stored, RoleValue(u.role)))
  {
    if RoleValue(u.role) !in stored then Fail(Forbidden, RoleDenied(stored, RoleValue(u.role))) else Ok(u)
  }

  /** `RoleChecker([...])(user)` as written. */
  function RoleCheckerAsWritten(roles: seq<Role>, u: User): Outcome<User> {
    CheckRole(AllowedRolesAsWritten(EnumRoles(roles)), u)
  }

  /** As written, no user passes a checker built from enum members: `str()` gives
      "UserRole.ADMIN" where the user side has "ADMIN". */
  lemma AsWrittenRejectsEveryone(roles: seq<Role>, u: User)
    ensures RoleCheckerAsWritten(roles, u)
      == Fail(Forbidden, RoleDenied(AllowedRolesAsWritten(EnumRoles(roles)), RoleValue(u.role)))
  {
    var stored := AllowedRolesAsWritten(EnumRoles(roles));
    forall i | 0 <= i < |stored| ensures stored[i] != RoleValue(u.role) {
      assert stored[i] == PyStrOfRole(roles[i]);
      StrNeverValue(roles[i], u.role);
    }
  }

  /** "UserRole." + a member name never equals a member's value. */
  lemma StrNeverValue(x: Role, y: Role)
    ensures PyStrOfRole(x) != RoleValue(y)
  {
    assert PyStrOfRole(x)[0] == 'U';
  }

  /** The detail the intended checker built from `roles` gives the user it refuses. */
  function Denied(roles: seq<Role>, u: User): string {
    RoleDenied(AllowedRoles(EnumRoles(roles)), RoleValue(u.role))
  }

  /** The role checker the endpoints are meant to have: members compared by value. */
  function RoleChecker(roles: seq<Role>, u: User): (r: Outcome<User>)
    ensures r.Ok? <==> u.role in roles
    ensures r.Ok? ==> r.value == u
    ensures r.Fail? ==> r == Fail(Forbidden, Denied(roles, u))
  {
    var stored := AllowedRoles(EnumRoles(roles));
    assert forall x :: RoleValue(x) == RoleValue(u.role) ==> x == u.role;
    assert u.role in roles ==> RoleValue(u.role) in stored by {
      if u.role in roles {
        var i :| 0 <= i < |roles| && roles[i] == u.role;
        assert stored[i] == RoleValue(u.role);
      }
    }
    CheckRole(stored, u)
  }

  /** A two-item list as `str()` writes it. */
  lemma RoleListStr(a: string, b: string)
    ensures PyListStr([a, b]) == "['" + a + "', '" + b + "']"
  {
    var q := seq(2, i requires 0 <= i < 2 => Quoted([a, b][i]));
    assert q == [Quoted(a), Quoted(b)];
    assert Join(q, ", ") == Quoted(a) + ", " + Quoted(b);
  }

  /** An inventor calling an endpoint for lawyers and admins is told both lists: the
      intended checker names the role values. */
  lemma DeniedDetail(u: User)
    requires u.role == Inventor
    ensures RoleChecker([Lawyer, Admin], u) == Fail(Forbidden, RoleDenied(["LAWYER", "ADMIN"], "INVENTOR"))
    ensures PyListStr(["LAWYER", "ADMIN"]) == "['LAWYER', 'ADMIN']"
  {
    var stored := AllowedRoles(EnumRoles([Lawyer, Admin]));
    assert EnumRoles([Lawyer, Admin]) == [EnumRole(Lawyer), EnumRole(Admin)];
    assert stored[0] == "LAWYER" && stored[1] == "ADMIN";
    assert stored == ["LAWYER", "ADMIN"];
    RoleListStr("LAWYER", "ADMIN");
  }

  /** The list a checker for lawyers and admins stores as written. */
  lemma LawyerOrAdminAsWritten()
    ensures AllowedRolesAsWritten(EnumRoles([Lawyer, Admin])) == ["UserRole.LAWYER", "UserRole.ADMIN"]
  {
    var stored := AllowedRolesAsWritten(EnumRoles([Lawyer, Admin]));
    assert EnumRoles([Lawyer, Admin]) == [EnumRole(Lawyer), EnumRole(Admin)];
    assert stored[0] == "UserRole.LAWYER" && stored[1] == "UserRole.ADMIN";
  }

  /** The same refusal as written: the stored list holds the `str()` of the members. */
  lemma DeniedDetailAsWritten(u: User)
    requires u.role == Inventor
    ensures RoleCheckerAsWritten([Lawyer, Admin], u)
      == Fail(Forbidden, RoleDenied(["UserRole.LAWYER", "UserRole.ADMIN"], "INVENTOR"))
  {
    AsWrittenRejectsEveryone([Lawyer, Admin], u);
    LawyerOrAdminAsWritten();
  }

  /** How the stored list of the as-written checker is shown in its detail. */
  lemma AsWrittenListShown()
    ensures PyListStr(["UserRole.LAWYER", "UserRole.ADMIN"]) == "['UserRole.LAWYER', 'UserRole.ADMIN']"
  {
    RoleListStr("UserRole.LAWYER", "UserRole.ADMIN");
  }
}
