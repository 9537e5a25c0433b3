/** The redirect chosen right after sign-in: administrators by e-mail, everyone else by record. */
module PostAuth {
  import opened Wrappers
  import opened Text
  import opened UserModel
  import opened UserRoutes

  /** The one account routed to the administrator dashboard. */
  const ADMIN_EMAIL: string := "paurasmore22@gmail.com"

  datatype Redirect = Login | AdminDashboard | UserDashboard

  function Path(r: Redirect): string
  {
    match r
    case Login => "/login"
    case AdminDashboard => "/admin/dashboard"
    case UserDashboard => "/user/dashboard"
  }

  /** `email?.trim().toLowerCase() === ADMIN_EMAIL.trim().toLowerCase()`; an absent e-mail never matches. */
  predicate IsAdminEmail(email: Option<string>)
  {
    email.Some? && Lower(Trim(email.value)) == Lower(Trim(ADMIN_EMAIL))
  }

  /** Lower-case letters, digits and the punctuation of an e-mail address. */
  predicate PlainChar(c: char)
  {
    'a' <= c <= 'z' || '0' <= c <= '9' || c == '@' || c == '.'
  }

  /** The administrator address is already in normal form. */
  lemma AdminEmailIsNormal()
    ensures Lower(Trim(ADMIN_EMAIL)) == ADMIN_EMAIL
  {
    assert forall i :: 0 <= i < |ADMIN_EMAIL| ==> PlainChar(ADMIN_EMAIL[i]);
    TrimOfNoSpaceIsIdentity(ADMIN_EMAIL);
    LowerOfLowerIsIdentity(ADMIN_EMAIL);
  }

  /**
   * The page's decision: no session or no stored user sends the visitor to
   * the login page; otherwise the e-mail decides between the two dashboards.
   */
  function Decide(userId: Option<string>, users: seq<User>): (r: Redirect)
    ensures !Truthy(userId) ==> r == Login
    ensures Truthy(userId) && FindUser(users, userId.value) < 0 ==> r == Login
    ensures Truthy(userId) && FindUser(users, userId.value) >= 0 ==>
      var email := users[FindUser(users, userId.value)].email;
      && r != Login
      && (r == AdminDashboard <==> email.Some? && Lower(Trim(email.value)) == ADMIN_EMAIL)
  {
    AdminEmailIsNormal();
    if !Truthy(userId) then Login
    else
      var k := FindUser(users, userId.value);
      if k < 0 then Login
      else if IsAdminEmail(users[k].email) then AdminDashboard
      else UserDashboard
  }

  /** A stored user without an e-mail always lands on the user dashboard. */
  lemma NoEmailMeansUserDashboard(userId: string, users: seq<User>)
    requires userId != ""
    requires FindUser(users, userId) >= 0 && users[FindUser(users, userId)].email.None?
    ensures Decide(Some(userId), users) == UserDashboard
  {
  }

  /**
   * The admin match ignores letter case and surrounding white space: any
   * spelling of the administrator address, padded with white space, matches.
   */
  lemma {:induction false} AdminMatchIgnoresCaseAndPadding(pre: string, e: string, post: string)
    requires AllSpace(pre) && AllSpace(post)
    requires Lower(e) == ADMIN_EMAIL
    ensures IsAdminEmail(Some(pre + e + post))
  {
    assert LowerChar(e[0]) == 'p';
    assert LowerChar(e[|e| - 1]) == 'm';
    TrimStripsPadding(pre, e, post);
    AdminEmailIsNormal();
  }
}
