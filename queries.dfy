/**
 * The read-only routes: `/api/login`, `/api/users` and `/api/users/:id`.
 * Each one is a `find` or a `map` over the store's two lists and changes
 * nothing, so each is a function of those lists.
 */
module Queries {
  import opened Find
  import opened Records

  /**
   * Who a successful login names. An admin login answers with the admin's
   * id and name only (and the role tag `admin`, which the constructor
   * carries); a candidate login answers with the candidate's view.
   */
  datatype Principal<Blob> =
    | AdminPrincipal(id: string, name: string)
    | CandidatePrincipal(user: UserView<Blob>)

  /**
   * `/api/login`. With role `admin`, the first admin whose id and password
   * both match; with any other role, the first candidate whose application
   * number or id equals `id` and whose password matches. A miss in either
   * list is `Unauthorized`, with the list's own message.
   */
  function Login<Blob>(admins: seq<Admin>, users: seq<User<Blob>>, id: string, password: string, role: string)
    : (r: Result<Principal<Blob>>)
    ensures role == AdminRole ==> match r
      case Ok(p) =>
        exists k :: IsFirst(admins, AdminCredentials(id, password), k)
          && p == AdminPrincipal(admins[k].id, admins[k].name)
      case Err(f) =>
        NoneMatch(admins, AdminCredentials(id, password))
          && f == Unauthorized(InvalidAdminCredentials)
    ensures role != AdminRole ==> match r
      case Ok(p) =>
        exists k :: IsFirst(users, CandidateCredentials(id, password), k)
          && p == CandidatePrincipal(Hide(users[k]))
      case Err(f) =>
        NoneMatch(users, CandidateCredentials(id, password))
          && f == Unauthorized(InvalidCandidateCredentials)
  {
    if role == AdminRole then
      match FindFirst(admins, AdminCredentials(id, password))
      case Some(k) => Ok(AdminPrincipal(admins[k].id, admins[k].name))
      case None => Err(Unauthorized(InvalidAdminCredentials))
    else
      match FindFirst(users, CandidateCredentials(id, password))
      case Some(k) => Ok(CandidatePrincipal(Hide(users[k])))
      case None => Err(Unauthorized(InvalidCandidateCredentials))
  }

  /** `/api/users`: every candidate, in list order, without its password. */
  function ListUsers<Blob>(users: seq<User<Blob>>): (views: seq<UserView<Blob>>)
    ensures |views| == |users|
    ensures forall i :: 0 <= i < |users| ==> views[i] == Hide(users[i])
  {
    if users == [] then [] else [Hide(users[0])] + ListUsers(users[1..])
  }

  /**
   * `/api/users/:id`: the first candidate whose internal id (never the
   * application number) is `id`, without its password; `NotFound` when no
   * candidate has that id.
   */
  function GetUser<Blob>(users: seq<User<Blob>>, id: string): (r: Result<UserView<Blob>>)
    ensures match r
      case Ok(v) => exists k :: IsFirst(users, UserHasId(id), k) && v == Hide(users[k])
      case Err(f) => !UserIdInUse(users, id) && f == NotFound(UserNotFound)
  {
    match FindFirst(users, UserHasId(id))
    case Some(k) => Ok(Hide(users[k]))
    case None => Err(NotFound(UserNotFound))
  }
}
