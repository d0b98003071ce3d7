/** The session state of the frontend (frontend/src/context/AuthContext.jsx):
    the signed-in user, the stored token, and the role checks the pages use
    to decide what to show. Requests to the backend are not part of this model. */
module Auth {
  import opened JsValues

  const ADMIN := "admin"
  const ANALYST := "analyst"

  /** The user object the backend returns; only its role is consulted here. */
  datatype AuthUser = AuthUser(role: string)

  /** `isAuthenticated`: a user is signed in. */
  predicate IsAuthenticated(user: Option<AuthUser>) {
    user.Some?
  }

  /** `isAdmin`: `user?.role === 'admin'`. */
  predicate IsAdmin(user: Option<AuthUser>) {
    user.Some? && user.value.role == ADMIN
  }

  /** `isAnalyst`: the role is analyst or admin. */
  predicate IsAnalyst(user: Option<AuthUser>) {
    user.Some? && (user.value.role == ANALYST || user.value.role == ADMIN)
  }

  /** `hasRole(role)`: nobody without a user; `admin` only for admins;
      `analyst` for analysts and admins; any other role for every user. */
  function HasRole(user: Option<AuthUser>, role: string): (r: bool)
    ensures r ==> IsAuthenticated(user)
  {
    if user.None? then false
    else if role == ADMIN then user.value.role == ADMIN
    else if role == ANALYST then user.value.role in [ADMIN, ANALYST]
    else true
  }

  /** The three derived flags are `hasRole` for the matching role. */
  lemma DerivationsAgreeWithHasRole(user: Option<AuthUser>, other: string)
    requires other != ADMIN && other != ANALYST
    ensures IsAdmin(user) <==> HasRole(user, ADMIN)
    ensures IsAnalyst(user) <==> HasRole(user, ANALYST)
    ensures IsAuthenticated(user) <==> HasRole(user, other)
  {
  }

  /** Roles are ordered: an admin has every role, an analyst every role but
      admin, and any user every role other than admin and analyst. */
  lemma RoleHierarchy(user: Option<AuthUser>, role: string)
    ensures HasRole(user, ADMIN) ==> HasRole(user, role)
    ensures HasRole(user, ANALYST) && role != ADMIN ==> HasRole(user, role)
    ensures IsAuthenticated(user) && role != ADMIN && role != ANALYST ==> HasRole(user, role)
    ensures HasRole(user, role) ==> HasRole(user, "")
  {
  }

  /** A user whose role is neither admin nor analyst holds exactly the
      other roles. */
  lemma PlainUserRoles(user: Option<AuthUser>, role: string)
    requires user.Some? && user.value.role != ADMIN && user.value.role != ANALYST
    ensures HasRole(user, role) <==> role != ADMIN && role != ANALYST
  {
  }

  /** The provider's state: the user held by React and the token kept in
      local storage. */
  class AuthState {
    var user: Option<AuthUser>
    var token: Option<string>

    /** `useState(null)`; the token is whatever local storage held. */
    constructor (storedToken: Option<string>)
      ensures user == None && token == storedToken
    {
      user := None;
      token := storedToken;
    }

    /** A successful sign-in (`login` or `register` answered with
        `success`): the token stored and the user set. */
    method SignedIn(newToken: string, u: AuthUser)
      modifies this
      ensures user == Some(u) && token == Some(newToken)
      ensures IsAuthenticated(user)
    {
      token := Some(newToken);
      user := Some(u);
    }

    /** `logout`: the token removed and the user cleared, so that no role
        check passes afterwards. */
    method Logout()
      modifies this
      ensures user == None && token == None
      ensures forall role :: !HasRole(user, role)
      ensures !IsAuthenticated(user) && !IsAdmin(user) && !IsAnalyst(user)
    {
      token := None;
      user := None;
    }
  }

  /** After a logout every role check fails, whatever was signed in before. */
  lemma NoRoleWithoutUser(role: string)
    ensures !HasRole(None, role)
  {
  }
}
