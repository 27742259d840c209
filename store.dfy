/**
 * The global `db` object and the routes that change it in place:
 * `/api/register`, `/api/reset-password`, `/api/training/complete` and
 * `/api/session/complete`. The JSON file the store is written to after
 * every successful change is kept as a ghost copy of the two lists.
 */
module RecordStore {
  import opened Find
  import opened Records
  import Decimal

  /**
   * The id of a candidate registered when the clock read `clock`
   * milliseconds: `u_` followed by the clock's decimal digits. Distinct
   * clock readings give distinct ids; equal readings collide.
   */
  function NewUserId(clock: nat): (id: string)
    ensures |id| > 2 && id[..2] == "u_" && Decimal.IsDigits(id[2..])
    ensures Decimal.Parse(id[2..]) == clock
  {
    Decimal.ParseShow(clock);
    "u_" + Decimal.Show(clock)
  }

  /** Two candidates registered at different milliseconds get different ids. */
  lemma NewUserIdInjective(c1: nat, c2: nat)
    requires NewUserId(c1) == NewUserId(c2)
    ensures c1 == c2
  {
  }

  /** What `/api/register` reports on success: a candidate also gets its new id. */
  datatype Registered = AdminRegistered | CandidateRegistered(userId: string)

  class Store<Blob> {
    var admins: seq<Admin>
    var users: seq<User<Blob>>

    /** The contents of the database file, as last written. */
    ghost var savedAdmins: seq<Admin>
    ghost var savedUsers: seq<User<Blob>>

    /** The file holds exactly the in-memory store. */
    ghost predicate Saved()
      reads this
    {
      savedAdmins == admins && savedUsers == users
    }

    /** The keys the registration route checks are unique. */
    ghost predicate KeysUnique()
      reads this
    {
      UniqueAdminIds(admins) && UniqueApplicationNumbers(users)
    }

    /**
     * A fresh store, as created when no database file exists yet: the
     * seeded admin, no candidates, and the file written with that state.
     */
    constructor ()
      ensures admins == [SeedAdmin] && users == []
      ensures Saved() && KeysUnique()
    {
      admins := [SeedAdmin];
      users := [];
      savedAdmins := [SeedAdmin];
      savedUsers := [];
    }

    /** `saveData`: rewrite the whole file from the in-memory store. */
    method SaveData()
      modifies this
      ensures admins == old(admins) && users == old(users) && Saved()
    {
      savedAdmins, savedUsers := admins, users;
    }

    /**
     * `/api/register`. With role `admin`, `applicationNumber` becomes the
     * new admin's id and must not be an admin id already. With any other
     * role, the application number must not be registered yet; the new
     * candidate's id comes from the clock reading `idClock` and its join
     * time from the second clock reading `joinedClock`.
     */
    method Register(applicationNumber: string, password: string, role: string, idClock: nat, joinedClock: nat)
      returns (r: Result<Registered>)
      modifies this
      ensures role == AdminRole && AdminIdInUse(old(admins), applicationNumber) ==>
        r == Err(Duplicate(AdminIdExists)) && unchanged(this)
      ensures role == AdminRole && !AdminIdInUse(old(admins), applicationNumber) ==>
        && r == Ok(AdminRegistered)
        && admins == old(admins) + [Admin(applicationNumber, password, "Admin " + applicationNumber)]
        && users == old(users)
        && Saved()
      ensures role != AdminRole && ApplicationNumberInUse(old(users), applicationNumber) ==>
        r == Err(Duplicate(ApplicationNumberTaken)) && unchanged(this)
      ensures role != AdminRole && !ApplicationNumberInUse(old(users), applicationNumber) ==>
        && r == Ok(CandidateRegistered(NewUserId(idClock)))
        && admins == old(admins)
        && users == old(users) + [User(NewUserId(idClock), applicationNumber, password,
                                       "Candidate " + applicationNumber, joinedClock, [], [])]
        && Saved()
      ensures AdminsKept(old(admins), admins) && UsersKept(old(users), users)
      ensures old(KeysUnique()) ==> KeysUnique()
    {
      if role == AdminRole {
        var found := FindFirst(admins, AdminHasId(applicationNumber));
        if found.Some? {
          assert admins[found.value].id == applicationNumber;
          return Err(Duplicate(AdminIdExists));
        }
        admins := admins + [Admin(applicationNumber, password, "Admin " + applicationNumber)];
        SaveData();
        r := Ok(AdminRegistered);
      } else {
        var found := FindFirst(users, UserHasApplicationNumber(applicationNumber));
        if found.Some? {
          assert users[found.value].applicationNumber == applicationNumber;
          return Err(Duplicate(ApplicationNumberTaken));
        }
        var id := NewUserId(idClock);
        users := users + [User(id, applicationNumber, password,
                               "Candidate " + applicationNumber, joinedClock, [], [])];
        SaveData();
        r := Ok(CandidateRegistered(id));
      }
    }

    /**
     * `/api/reset-password`. With role `admin`, the first admin with id
     * `id`; with any other role, the first candidate whose application
     * number or id is `id`. That one record's password becomes
     * `newPassword`; a miss is `NotFound` and changes nothing.
     */
    method ResetPassword(id: string, newPassword: string, role: string) returns (r: Result<()>)
      modifies this
      ensures role == AdminRole ==> (r.Ok? <==> AdminIdInUse(old(admins), id))
      ensures role != AdminRole ==> (r.Ok? <==> CandidateKeyInUse(old(users), id))
      ensures r.Err? ==>
        && r.failure == NotFound(if role == AdminRole then AdminIdNotFound else CandidateNotFound)
        && unchanged(this)
      ensures r.Ok? && role == AdminRole ==>
        && (exists k :: IsFirst(old(admins), AdminHasId(id), k)
              && admins == old(admins)[k := old(admins)[k].(password := newPassword)])
        && users == old(users)
        && Saved()
      ensures r.Ok? && role != AdminRole ==>
        && (exists k :: IsFirst(old(users), CandidateKey(id), k)
              && users == old(users)[k := old(users)[k].(password := newPassword)])
        && admins == old(admins)
        && Saved()
      ensures AdminsKept(old(admins), admins) && UsersKept(old(users), users)
      ensures old(KeysUnique()) ==> KeysUnique()
    {
      if role == AdminRole {
        var found := FindFirst(admins, AdminHasId(id));
        if found.None? {
          return Err(NotFound(AdminIdNotFound));
        }
        var k := found.value;
        assert admins[k].id == id;
        admins := admins[k := admins[k].(password := newPassword)];
        SaveData();
        r := Ok(());
      } else {
        var found := FindFirst(users, CandidateKey(id));
        if found.None? {
          return Err(NotFound(CandidateNotFound));
        }
        var k := found.value;
        assert CandidateKey(id)(users[k]);
        users := users[k := users[k].(password := newPassword)];
        SaveData();
        r := Ok(());
      }
    }

    /**
     * `/api/training/complete`: append `technique` to the completed
     * techniques of the first candidate with id `userId`. An unknown id is
     * `NotFound` and changes nothing.
     */
    method CompleteTraining(userId: string, technique: Blob) returns (r: Result<()>)
      modifies this
      ensures r.Ok? <==> UserIdInUse(old(users), userId)
      ensures r.Err? ==> r.failure == NotFound(UserNotFound) && unchanged(this)
      ensures r.Ok? ==>
        && (exists k :: IsFirst(old(users), UserHasId(userId), k)
              && users == old(users)[k := old(users)[k].(
                   completedTechniques := old(users)[k].completedTechniques + [technique])])
        && admins == old(admins)
        && Saved()
      ensures AdminsKept(old(admins), admins) && UsersKept(old(users), users)
      ensures old(KeysUnique()) ==> KeysUnique()
    {
      var found := FindFirst(users, UserHasId(userId));
      if found.None? {
        return Err(NotFound(UserNotFound));
      }
      var k := found.value;
      assert users[k].id == userId;
      users := users[k := users[k].(completedTechniques := users[k].completedTechniques + [technique])];
      SaveData();
      r := Ok(());
    }

    /**
     * `/api/session/complete`: append `session` to the customer sessions
     * of the first candidate with id `userId`. An unknown id is `NotFound`
     * and changes nothing.
     */
    method CompleteSession(userId: string, session: Blob) returns (r: Result<()>)
      modifies this
      ensures r.Ok? <==> UserIdInUse(old(users), userId)
      ensures r.Err? ==> r.failure == NotFound(UserNotFound) && unchanged(this)
      ensures r.Ok? ==>
        && (exists k :: IsFirst(old(users), UserHasId(userId), k)
              && users == old(users)[k := old(users)[k].(
                   customerSessions := old(users)[k].customerSessions + [session])])
        && admins == old(admins)
        && Saved()
      ensures AdminsKept(old(admins), admins) && UsersKept(old(users), users)
      ensures old(KeysUnique()) ==> KeysUnique()
    {
      var found := FindFirst(users, UserHasId(userId));
      if found.None? {
        return Err(NotFound(UserNotFound));
      }
      var k := found.value;
      assert users[k].id == userId;
      users := users[k := users[k].(customerSessions := users[k].customerSessions + [session])];
      SaveData();
      r := Ok(());
    }
  }
}
