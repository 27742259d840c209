/**
 * The records of the academy's store: admin accounts, candidate accounts,
 * the password-free view of a candidate that every read route answers
 * with, the lookup conditions the routes pass to `find`, and the outcomes
 * of a request.
 */
module Records {
  import opened Find

  /** The only `role` string that selects the admin branch of a route. */
  const AdminRole := "admin"

  datatype Admin = Admin(id: string, password: string, name: string)

  /** The admin seeded into a fresh store. */
  const SeedAdmin := Admin("admin", "admin", "Administrator")

  /**
   * A candidate account. `Blob` stands for the client-owned JSON records
   * of completed techniques and customer sessions, which the store never
   * inspects.
   */
  datatype User<Blob> = User(
    id: string,
    applicationNumber: string,
    password: string,
    name: string,
    joinedAt: nat,
    completedTechniques: seq<Blob>,
    customerSessions: seq<Blob>)

  /** A candidate account as the read routes return it: every field but `password`. */
  datatype UserView<Blob> = UserView(
    id: string,
    applicationNumber: string,
    name: string,
    joinedAt: nat,
    completedTechniques: seq<Blob>,
    customerSessions: seq<Blob>)

  /** Puts a password back into a view. */
  function WithPassword<Blob>(v: UserView<Blob>, password: string): User<Blob> {
    User(v.id, v.applicationNumber, password, v.name, v.joinedAt,
         v.completedTechniques, v.customerSessions)
  }

  /**
   * The `{ password, ...rest }` destructuring: the view keeps everything
   * about the account except its password, so the account is recovered
   * exactly from the view plus the password.
   */
  function Hide<Blob>(u: User<Blob>): (v: UserView<Blob>)
    ensures WithPassword(v, u.password) == u
  {
    UserView(u.id, u.applicationNumber, u.name, u.joinedAt,
             u.completedTechniques, u.customerSessions)
  }

  // The callbacks the routes hand to `find`.

  function AdminHasId(id: string): Admin -> bool {
    (a: Admin) => a.id == id
  }

  function AdminCredentials(id: string, password: string): Admin -> bool {
    (a: Admin) => a.id == id && a.password == password
  }

  function UserHasId<Blob>(id: string): User<Blob> -> bool {
    (u: User<Blob>) => u.id == id
  }

  function UserHasApplicationNumber<Blob>(applicationNumber: string): User<Blob> -> bool {
    (u: User<Blob>) => u.applicationNumber == applicationNumber
  }

  /** A candidate is looked up by application number or by internal id. */
  function CandidateKey<Blob>(key: string): User<Blob> -> bool {
    (u: User<Blob>) => u.applicationNumber == key || u.id == key
  }

  function CandidateCredentials<Blob>(key: string, password: string): User<Blob> -> bool {
    (u: User<Blob>) => CandidateKey(key)(u) && u.password == password
  }

  // Keys in use, and the uniqueness the registration checks maintain.

  ghost predicate AdminIdInUse(admins: seq<Admin>, id: string) {
    !NoneMatch(admins, AdminHasId(id))
  }

  ghost predicate ApplicationNumberInUse<Blob>(users: seq<User<Blob>>, applicationNumber: string) {
    !NoneMatch(users, UserHasApplicationNumber(applicationNumber))
  }

  ghost predicate UserIdInUse<Blob>(users: seq<User<Blob>>, id: string) {
    !NoneMatch(users, UserHasId(id))
  }

  ghost predicate CandidateKeyInUse<Blob>(users: seq<User<Blob>>, key: string) {
    !NoneMatch(users, CandidateKey(key))
  }

  ghost predicate UniqueAdminIds(admins: seq<Admin>) {
    forall i, j :: 0 <= i < j < |admins| ==> admins[i].id != admins[j].id
  }

  ghost predicate UniqueApplicationNumbers<Blob>(users: seq<User<Blob>>) {
    forall i, j :: 0 <= i < j < |users| ==> users[i].applicationNumber != users[j].applicationNumber
  }

  /**
   * `after` keeps every admin of `before`, in place and under the same id:
   * no route deletes, reorders or renames an admin.
   */
  ghost predicate AdminsKept(before: seq<Admin>, after: seq<Admin>) {
    |before| <= |after| && forall i :: 0 <= i < |before| ==> after[i].id == before[i].id
  }

  /**
   * `after` keeps every candidate of `before`, in place, with the same id,
   * application number and join time: a candidate's keys never change.
   */
  ghost predicate UsersKept<Blob>(before: seq<User<Blob>>, after: seq<User<Blob>>) {
    && |before| <= |after|
    && forall i :: 0 <= i < |before| ==>
         && after[i].id == before[i].id
         && after[i].applicationNumber == before[i].applicationNumber
         && after[i].joinedAt == before[i].joinedAt
  }

  // Outcomes of a request, in place of HTTP statuses and JSON envelopes.

  datatype Failure =
    | Unauthorized(message: string)
    | Duplicate(message: string)
    | NotFound(message: string)

  datatype Result<T> = Ok(value: T) | Err(failure: Failure)

  const InvalidAdminCredentials := "Invalid Admin credentials"
  const InvalidCandidateCredentials := "Invalid Candidate credentials"
  const AdminIdExists := "Admin ID already exists"
  const ApplicationNumberTaken := "Application number already registered"
  const AdminIdNotFound := "Admin ID not found"
  const CandidateNotFound := "Candidate not found"
  const UserNotFound := "User not found"
}
