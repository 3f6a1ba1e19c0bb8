/**
 The role resolver and the small rules of the application shell: the current
 user derived from the authentication session, the navigation it gets, and the
 validation of the password-change form.
 */
module Roles {
  import opened Types

  /** The identity an authentication session carries. The email is optional;
      a missing session and a session without a user are both `None` where an
      `Option<AuthUser>` is expected. */
  datatype AuthUser = AuthUser(id: string, email: Option<string>)

  const SUPPORT_EMAIL: string := "suporte@maprinter.com.br"
  const ADMIN_MARK: string := "admin"
  const FALLBACK_NAME: string := "User"

  /** `needle` occurs in `hay` starting at position `i`. */
  ghost predicate OccursAt(hay: string, needle: string, i: int)
  {
    0 <= i && i + |needle| <= |hay| && hay[i..i + |needle|] == needle
  }

  /** Case-sensitive substring search (`String.prototype.includes`). */
  function Contains(hay: string, needle: string): bool
    decreases |hay|
  {
    if |needle| > |hay| then false
    else if hay[..|needle|] == needle then true
    else Contains(hay[1..], needle)
  }

  /** The search answers true exactly when the needle occurs somewhere. */
  lemma {:induction false} ContainsSpec(hay: string, needle: string)
    ensures Contains(hay, needle) <==> exists i :: OccursAt(hay, needle, i)
    decreases |hay|
  {
    if |needle| > |hay| {
    } else if hay[..|needle|] == needle {
      assert OccursAt(hay, needle, 0);
    } else {
      ContainsSpec(hay[1..], needle);
      if Contains(hay[1..], needle) {
        var i :| OccursAt(hay[1..], needle, i);
        assert hay[1..][i..i + |needle|] == hay[i + 1..i + 1 + |needle|];
        assert OccursAt(hay, needle, i + 1);
      } else {
        forall i | OccursAt(hay, needle, i)
          ensures false
        {
          if i > 0 {
            assert hay[1..][i - 1..i - 1 + |needle|] == hay[i..i + |needle|];
            assert OccursAt(hay[1..], needle, i - 1);
          }
        }
      }
    }
  }

  /** The admin rule shared by the shell and the order board: the email
      contains "admin" or is the support address; a missing email is never
      admin. */
  function IsAdminEmail(email: Option<string>): (r: bool)
    ensures r <==> email.Some?
                   && ((exists i :: OccursAt(email.value, ADMIN_MARK, i)) || email.value == SUPPORT_EMAIL)
  {
    if email.None? then false
    else
      ContainsSpec(email.value, ADMIN_MARK);
      Contains(email.value, ADMIN_MARK) || email.value == SUPPORT_EMAIL
  }

  function RoleOf(email: Option<string>): (r: Role)
    ensures r == Admin <==> IsAdminEmail(email)
    ensures email.None? ==> r == Technician
  {
    if IsAdminEmail(email) then Admin else Technician
  }

  /** The part of `s` before its first '@' (the whole string if none):
      `s.split('@')[0]`. */
  function BeforeAt(s: string): (r: string)
    ensures r <= s
    ensures '@' !in r
    ensures |r| < |s| ==> s[|r|] == '@'
  {
    if |s| == 0 || s[0] == '@' then ""
    else [s[0]] + BeforeAt(s[1..])
  }

  /** The display name: the local part of the email, or "User" when that is
      empty or the email is missing. */
  function DisplayName(email: Option<string>): (r: string)
    ensures r != ""
    ensures email.None? ==> r == FALLBACK_NAME
    ensures email.Some? && (email.value == "" || email.value[0] == '@') ==> r == FALLBACK_NAME
    ensures email.Some? && email.value != "" && email.value[0] != '@' ==>
              r <= email.value && '@' !in r && (|r| < |email.value| ==> email.value[|r|] == '@')
  {
    if email.None? || BeforeAt(email.value) == "" then FALLBACK_NAME else BeforeAt(email.value)
  }

  /** For an address `local@domain` with a non-empty, '@'-free local part the
      display name is exactly the local part. */
  lemma DisplayNameOfAddress(local: string, domain: string)
    requires local != "" && '@' !in local
    ensures DisplayName(Some(local + "@" + domain)) == local
  {
    var s := local + "@" + domain;
    var r := BeforeAt(s);
    assert s[|local|] == '@';
    assert r == s[..|r|] == local;
  }

  /** The profile the shell shows for the logged-in identity. */
  datatype Profile = Profile(name: string, email: Option<string>, role: Role)

  /** The shell's current user: none (and nothing rendered) without a session,
      otherwise a profile whose name and role are derived from the email. */
  function CurrentUser(session: Option<AuthUser>): (r: Option<Profile>)
    ensures r.None? <==> session.None?
    ensures r.Some? ==> r.value.email == session.value.email
                        && r.value.name == DisplayName(session.value.email)
                        && (r.value.role == Admin <==> IsAdminEmail(session.value.email))
  {
    match session
    case None => None
    case Some(u) => Some(Profile(DisplayName(u.email), u.email, RoleOf(u.email)))
  }

  const MISMATCH_ERROR: string := "As senhas não coincidem"
  const TOO_SHORT_ERROR: string := "A senha deve ter pelo menos 6 caracteres"
  const MIN_PASSWORD_LENGTH: nat := 6

  /** The outcome of the password form's validation: an error message, or the
      password that is handed to the account update. */
  datatype PasswordCheck = Rejected(message: string) | Accepted(password: string)

  /** The mismatch test runs first, then the length test. */
  function CheckPasswordChange(newPassword: string, confirmPassword: string): (r: PasswordCheck)
    ensures r.Accepted? <==> newPassword == confirmPassword && |newPassword| >= 6
    ensures r.Accepted? ==> r.password == newPassword
    ensures newPassword != confirmPassword ==> r == Rejected(MISMATCH_ERROR)
    ensures newPassword == confirmPassword && |newPassword| < 6 ==> r == Rejected(TOO_SHORT_ERROR)
  {
    if newPassword != confirmPassword then Rejected(MISMATCH_ERROR)
    else if |newPassword| < MIN_PASSWORD_LENGTH then Rejected(TOO_SHORT_ERROR)
    else Accepted(newPassword)
  }

  /** The sidebar destinations. */
  datatype Route = Dashboard | Orders | MyTasks | Calendar | Map

  /** The address a sidebar link points to: an absolute path. */
  function Path(route: Route): (p: string)
    ensures |p| > 1 && p[0] == '/'
    ensures route == Dashboard ==> p == "/dashboard"
    ensures route == Orders ==> p == "/orders"
    ensures route == MyTasks ==> p == "/my-tasks"
    ensures route == Calendar ==> p == "/calendar"
    ensures route == Map ==> p == "/map"
  {
    match route
    case Dashboard => "/dashboard"
    case Orders => "/orders"
    case MyTasks => "/my-tasks"
    case Calendar => "/calendar"
    case Map => "/map"
  }

  /** The sidebar links for a role: the management section for admins, the
      personal task list otherwise, and the calendar and map for everyone. */
  function NavLinks(role: Role): (r: seq<Route>)
    ensures Calendar in r && Map in r
    ensures Dashboard in r <==> role == Admin
    ensures Orders in r <==> role == Admin
    ensures MyTasks in r <==> role.Technician?
  {
    if role == Admin then [Dashboard, Orders, Calendar, Map]
    else [MyTasks, Calendar, Map]
  }

  /** Distinct destinations have distinct paths, so a link identifies its
      page. */
  lemma PathsDistinct(a: Route, b: Route)
    ensures Path(a) == Path(b) <==> a == b
  {
  }

  /** The resolver on the sample identities. */
  lemma SampleRoles()
    ensures RoleOf(Some("admin@tech.com")) == Admin
    ensures RoleOf(Some(SUPPORT_EMAIL)) == Admin
    ensures RoleOf(Some("john@tech.com")) == Technician
    ensures RoleOf(None) == Technician
  {
    assert OccursAt("admin@tech.com", ADMIN_MARK, 0);
    var john := "john@tech.com";
    assert 'a' !in john;
    forall i | 0 <= i && i + |ADMIN_MARK| <= |john|
      ensures !OccursAt(john, ADMIN_MARK, i)
    {
      assert john[i] in john;
      assert john[i..i + |ADMIN_MARK|][0] != ADMIN_MARK[0];
    }
  }
}
