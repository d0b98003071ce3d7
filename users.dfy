/** The users controller (backend/controllers/users.js): listing, reading,
    creating, updating and deleting the users of the caller's organisation
    over a user table keyed by id. */
module Users {
  import opened JsValues
  import opened ErrorHandler

  type UserId = string
  type OrgId = string

  /** A stored user: its organisation and its other paths. The User schema
      itself is not part of this model, so those paths are kept as values. */
  datatype User = User(organization: OrgId, fields: map<string, Value>)

  /** A request body: an optional `organization` and the other paths it sets. */
  datatype UserBody = UserBody(organization: Option<OrgId>, fields: map<string, Value>)

  function NotFound(id: UserId): ErrorResponse {
    ErrorResponse(404, false, "User not found with id of " + id)
  }

  /** The 403 answer; `action` is `access`, `update` or `delete`. */
  function Forbidden(action: string): ErrorResponse {
    ErrorResponse(403, false, "Not authorized to " + action + " this user")
  }

  /** A hexadecimal digit, either case. */
  predicate IsHexChar(c: char) {
    '0' <= c <= '9' || 'a' <= c <= 'f' || 'A' <= c <= 'F'
  }

  /** A string `findById` can cast to an ObjectId: 24 hexadecimal digits. */
  predicate IsObjectIdString(id: UserId) {
    |id| == 24 && forall i :: 0 <= i < |id| ==> IsHexChar(id[i])
  }

  /** The error handler's answer to the CastError of a malformed id. */
  const CAST_ERROR_RESPONSE := ErrorResponse(404, false, "Resource not found")

  /** A malformed id makes `findById` throw a CastError, which `next(err)`
      hands to the error handler. */
  method MalformedIdAnswer() returns (response: ErrorResponse)
    ensures response == CAST_ERROR_RESPONSE
  {
    response := HandleError(CastError());
  }

  /** The checks the single-user routes run before acting: a malformed id
      fails the lookup with a CastError, then a missing id is 404 before a
      foreign organisation is 403. */
  function Guard(users: map<UserId, User>, id: UserId, callerOrg: OrgId, action: string): (r: Option<ErrorResponse>)
    ensures r.None? <==> IsObjectIdString(id) && id in users && users[id].organization == callerOrg
    ensures !IsObjectIdString(id) ==> r == Some(CAST_ERROR_RESPONSE)
    ensures IsObjectIdString(id) && id !in users ==> r == Some(NotFound(id))
    ensures IsObjectIdString(id) && id in users && users[id].organization != callerOrg ==> r == Some(Forbidden(action))
  {
    if !IsObjectIdString(id) then Some(CAST_ERROR_RESPONSE)
    else if id !in users then Some(NotFound(id))
    else if users[id].organization != callerOrg then Some(Forbidden(action))
    else None
  }

  /** `getUsers`: the users of one organisation. */
  function OfOrganization(users: map<UserId, User>, org: OrgId): (r: map<UserId, User>)
    ensures forall id :: id in r <==> id in users && users[id].organization == org
    ensures forall id :: id in r ==> r[id] == users[id]
  {
    map id | id in users && users[id].organization == org :: users[id]
  }

  /** `findByIdAndUpdate` with the body as given: every path it sets,
      `organization` included, overwrites the stored one. */
  function ApplyPatch(u: User, body: UserBody): (r: User)
    ensures r.organization == body.organization.GetOr(u.organization)
    ensures forall k :: k in r.fields <==> k in u.fields || k in body.fields
    ensures forall k :: k in r.fields ==> r.fields[k] == (if k in body.fields then body.fields[k] else u.fields[k])
  {
    User(body.organization.GetOr(u.organization), u.fields + body.fields)
  }

  /** The table after `updateUser`: patched when the guard passes, untouched otherwise. */
  function Updated(users: map<UserId, User>, id: UserId, callerOrg: OrgId, body: UserBody): map<UserId, User> {
    if Guard(users, id, callerOrg, "update").None? then users[id := ApplyPatch(users[id], body)] else users
  }

  /** The table after `deleteUser`: the target removed when the guard passes. */
  function Deleted(users: map<UserId, User>, id: UserId, callerOrg: OrgId): map<UserId, User> {
    if Guard(users, id, callerOrg, "delete").None? then users - {id} else users
  }

  /** A delete removes the target only, and only when it is the caller's and
      its id is well formed. */
  lemma DeleteRemovesOnlyTarget(users: map<UserId, User>, id: UserId, callerOrg: OrgId)
    ensures var after := Deleted(users, id, callerOrg);
      && (id in after <==> id in users && (users[id].organization != callerOrg || !IsObjectIdString(id)))
      && (forall other :: other != id ==> (other in after <==> other in users))
      && (forall other :: other in after ==> after[other] == users[other])
  {
  }

  /** A request against another organisation's user changes nothing. */
  lemma CrossTenantUnchanged(users: map<UserId, User>, id: UserId, callerOrg: OrgId, body: UserBody)
    requires id in users && users[id].organization != callerOrg
    ensures Updated(users, id, callerOrg, body) == users
    ensures Deleted(users, id, callerOrg) == users
  {
  }

  /** A malformed id is answered 404 "Resource not found" by every
      single-user route, and changes nothing. */
  lemma MalformedIdChangesNothing(users: map<UserId, User>, id: UserId, callerOrg: OrgId, body: UserBody, action: string)
    requires !IsObjectIdString(id)
    ensures Guard(users, id, callerOrg, action) == Some(CAST_ERROR_RESPONSE)
    ensures Updated(users, id, callerOrg, body) == users
    ensures Deleted(users, id, callerOrg) == users
  {
  }

  /** No operation of one organisation touches another organisation's users. */
  lemma OtherTenantsPreserved(users: map<UserId, User>, id: UserId, callerOrg: OrgId, body: UserBody, other: UserId)
    requires other in users && users[other].organization != callerOrg
    ensures other in Updated(users, id, callerOrg, body) && Updated(users, id, callerOrg, body)[other] == users[other]
    ensures other in Deleted(users, id, callerOrg) && Deleted(users, id, callerOrg)[other] == users[other]
  {
  }

  /** The body's `organization` is not stripped: an update that names another
      organisation moves the user there, out of the caller's list. */
  lemma UpdateCanMoveUser(users: map<UserId, User>, id: UserId, callerOrg: OrgId, body: UserBody, target: OrgId)
    requires IsObjectIdString(id) && id in users && users[id].organization == callerOrg
    requires body.organization == Some(target) && target != callerOrg
    ensures var after := Updated(users, id, callerOrg, body);
      && id in after && after[id].organization == target
      && id !in OfOrganization(after, callerOrg)
      && Guard(after, id, callerOrg, "access") == Some(Forbidden("access"))
  {
  }

  class UserStore {
    var users: map<UserId, User>

    constructor (initial: map<UserId, User>)
      ensures users == initial
    {
      users := initial;
    }

    /** `getUsers`: exactly the caller's organisation's users. */
    function GetUsers(callerOrg: OrgId): (reply: Reply<map<UserId, User>>)
      reads this
      ensures reply.Success? && reply.status == 200
      ensures forall id :: id in reply.data <==> id in users && users[id].organization == callerOrg
      ensures forall id :: id in reply.data ==> reply.data[id] == users[id]
    {
      Success(200, OfOrganization(users, callerOrg))
    }

    /** `getUser`: 404 "Resource not found" for a malformed id, 404 for a
        missing one, 403 for another organisation's user, otherwise the user. */
    function GetUser(id: UserId, callerOrg: OrgId): (reply: Reply<User>)
      reads this
      ensures !IsObjectIdString(id) ==> reply == Failure(CAST_ERROR_RESPONSE)
      ensures IsObjectIdString(id) && id !in users ==> reply == Failure(NotFound(id))
      ensures IsObjectIdString(id) && id in users && users[id].organization != callerOrg ==> reply == Failure(Forbidden("access"))
      ensures reply.Success? <==> IsObjectIdString(id) && id in users && users[id].organization == callerOrg
      ensures reply.Success? ==> reply == Success(200, users[id])
    {
      match Guard(users, id, callerOrg, "access")
      case Some(error) => Failure(error)
      case None => Success(200, users[id])
    }

    /** `createUser`: the body stored under a fresh id, its organisation
        forced to the caller's. */
    method CreateUser(callerOrg: OrgId, body: UserBody, freshId: UserId) returns (reply: Reply<User>)
      requires freshId !in users
      modifies this
      ensures reply == Success(201, User(callerOrg, body.fields))
      ensures users == old(users)[freshId := User(callerOrg, body.fields)]
    {
      var stamped := body.(organization := Some(callerOrg));
      var user := User(stamped.organization.value, stamped.fields);
      users := users[freshId := user];
      reply := Success(201, user);
    }

    /** `updateUser`: after the guard, the body applied as given. */
    method UpdateUser(id: UserId, callerOrg: OrgId, body: UserBody) returns (reply: Reply<User>)
      modifies this
      ensures users == Updated(old(users), id, callerOrg, body)
      ensures match Guard(old(users), id, callerOrg, "update")
        case Some(error) => reply == Failure(error)
        case None => reply == Success(200, users[id])
    {
      var denied := Guard(users, id, callerOrg, "update");
      if denied.Some? {
        reply := Failure(denied.value);
        return;
      }
      users := users[id := ApplyPatch(users[id], body)];
      reply := Success(200, users[id]);
    }

    /** `deleteUser`: after the guard, the user removed. */
    method DeleteUser(id: UserId, callerOrg: OrgId) returns (reply: Reply<()>)
      modifies this
      ensures users == Deleted(old(users), id, callerOrg)
      ensures match Guard(old(users), id, callerOrg, "delete")
        case Some(error) => reply == Failure(error)
        case None => reply == Success(200, ())
    {
      var denied := Guard(users, id, callerOrg, "delete");
      if denied.Some? {
        reply := Failure(denied.value);
        return;
      }
      users := users - {id};
      reply := Success(200, ());
    }
  }
}
