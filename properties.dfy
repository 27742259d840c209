/**
 * How the routes fit together: what a login sees after a registration or
 * a password reset, what a lookup sees after a technique or session is
 * logged, and that no read route depends on any password it does not
 * check. The states are the store's lists before and after the mutating
 * route, as `RecordStore.Store`'s postconditions give them.
 */
module Properties {
  import opened Find
  import opened Records
  import opened Queries
  import opened RecordStore

  /** A registered admin can log in at once, and is told its id and generated name. */
  lemma RegisterAdminThenLogin<Blob>(admins: seq<Admin>, users: seq<User<Blob>>, id: string, password: string)
    requires !AdminIdInUse(admins, id)
    ensures Login(admins + [Admin(id, password, "Admin " + id)], users, id, password, AdminRole)
         == Ok(AdminPrincipal(id, "Admin " + id))
  {
    var after := admins + [Admin(id, password, "Admin " + id)];
    forall j | 0 <= j < |admins|
      ensures !AdminCredentials(id, password)(after[j])
    {
      assert after[j] == admins[j];
    }
    FindFirstIs(after, AdminCredentials(id, password), |admins|);
  }

  /**
   * A registered candidate can log in at once with its application number
   * and password. The answer is the new candidate's own view exactly when
   * no older account accepts those credentials; otherwise it is that older
   * account's view (one whose internal id equals the new application
   * number, since application numbers themselves are unique).
   */
  lemma RegisterCandidateThenLogin<Blob>(admins: seq<Admin>, users: seq<User<Blob>>,
                                         applicationNumber: string, password: string, role: string,
                                         idClock: nat, joinedClock: nat)
    requires role != AdminRole
    requires !ApplicationNumberInUse(users, applicationNumber)
    ensures
      var u := User(NewUserId(idClock), applicationNumber, password,
                    "Candidate " + applicationNumber, joinedClock, [], []);
      && Login(admins, users + [u], applicationNumber, password, role).Ok?
      && (Login(admins, users + [u], applicationNumber, password, role) == Ok(CandidatePrincipal(Hide(u)))
          <==> NoneMatch(users, CandidateCredentials(applicationNumber, password)))
  {
    var u := User(NewUserId(idClock), applicationNumber, password,
                  "Candidate " + applicationNumber, joinedClock, [], []);
    var after := users + [u];
    var p := CandidateCredentials(applicationNumber, password);
    assert after[|users|] == u && CandidateKey(applicationNumber)(u);
    assert p(after[|users|]);
    if NoneMatch(users, p) {
      forall j | 0 <= j < |users|
        ensures !p(after[j])
      {
        assert after[j] == users[j];
      }
      FindFirstIs(after, p, |users|);
    } else {
      var i :| 0 <= i < |users| && p(users[i]);
      var r := Login(admins, after, applicationNumber, password, role);
      var k :| IsFirst(after, p, k) && r.value == CandidatePrincipal(Hide(after[k]));
      assert after[i] == users[i];
      assert k <= i;
      assert after[k] == users[k];
      assert Hide(after[k]).applicationNumber != applicationNumber by {
        assert !UserHasApplicationNumber(applicationNumber)(users[k]);
      }
    }
  }

  /** After an admin's password is reset, that admin logs in with the new password. */
  lemma ResetAdminThenLogin<Blob>(admins: seq<Admin>, users: seq<User<Blob>>, id: string, newPassword: string, k: int)
    requires IsFirst(admins, AdminHasId(id), k)
    ensures Login(admins[k := admins[k].(password := newPassword)], users, id, newPassword, AdminRole)
         == Ok(AdminPrincipal(id, admins[k].name))
  {
    var after := admins[k := admins[k].(password := newPassword)];
    forall j | 0 <= j < k
      ensures !AdminCredentials(id, newPassword)(after[j])
    {
      assert !AdminHasId(id)(admins[j]);
    }
    FindFirstIs(after, AdminCredentials(id, newPassword), k);
  }

  /**
   * After an admin's password is reset, every other password for that id
   * is refused, as long as admin ids are unique (which registration keeps).
   */
  lemma ResetAdminThenOtherPasswordFails<Blob>(admins: seq<Admin>, users: seq<User<Blob>>,
                                               id: string, newPassword: string, password: string, k: int)
    requires UniqueAdminIds(admins)
    requires IsFirst(admins, AdminHasId(id), k)
    requires password != newPassword
    ensures Login(admins[k := admins[k].(password := newPassword)], users, id, password, AdminRole)
         == Err(Unauthorized(InvalidAdminCredentials))
  {
  }

  /** After a candidate's password is reset, that candidate logs in with the new password. */
  lemma ResetCandidateThenLogin<Blob>(admins: seq<Admin>, users: seq<User<Blob>>, id: string, newPassword: string,
                                      role: string, k: int)
    requires role != AdminRole
    requires IsFirst(users, CandidateKey(id), k)
    ensures
      var after := users[k := users[k].(password := newPassword)];
      Login(admins, after, id, newPassword, role) == Ok(CandidatePrincipal(Hide(after[k])))
  {
  }

  /**
   * After a candidate's password is reset, every other password for that
   * key is refused, as long as the key names that candidate alone. (The
   * key is matched against both application numbers and ids, so another
   * account can answer to it even when application numbers are unique.)
   */
  lemma ResetCandidateThenOtherPasswordFails<Blob>(admins: seq<Admin>, users: seq<User<Blob>>, id: string,
                                                   newPassword: string, password: string, role: string, k: int)
    requires role != AdminRole
    requires IsFirst(users, CandidateKey(id), k)
    requires forall j :: 0 <= j < |users| && j != k ==> !CandidateKey(id)(users[j])
    requires password != newPassword
    ensures Login(admins, users[k := users[k].(password := newPassword)], id, password, role)
         == Err(Unauthorized(InvalidCandidateCredentials))
  {
  }

  /**
   * After a technique is logged for a candidate, looking the candidate up
   * shows it at the end of its completed techniques, with nothing else
   * in the view changed.
   */
  lemma CompleteTrainingThenGetUser<Blob>(users: seq<User<Blob>>, userId: string, technique: Blob, k: int)
    requires IsFirst(users, UserHasId(userId), k)
    ensures
      var after := users[k := users[k].(completedTechniques := users[k].completedTechniques + [technique])];
      GetUser(after, userId)
        == Ok(Hide(users[k]).(completedTechniques := users[k].completedTechniques + [technique]))
  {
    var after := users[k := users[k].(completedTechniques := users[k].completedTechniques + [technique])];
    forall j | 0 <= j < k
      ensures !UserHasId(userId)(after[j])
    {
      assert !UserHasId(userId)(users[j]);
    }
    FindFirstIs(after, UserHasId(userId), k);
  }

  /**
   * After a session is logged for a candidate, looking the candidate up
   * shows it at the end of its customer sessions, with nothing else in the
   * view changed.
   */
  lemma CompleteSessionThenGetUser<Blob>(users: seq<User<Blob>>, userId: string, session: Blob, k: int)
    requires IsFirst(users, UserHasId(userId), k)
    ensures
      var after := users[k := users[k].(customerSessions := users[k].customerSessions + [session])];
      GetUser(after, userId)
        == Ok(Hide(users[k]).(customerSessions := users[k].customerSessions + [session]))
  {
    var after := users[k := users[k].(customerSessions := users[k].customerSessions + [session])];
    forall j | 0 <= j < k
      ensures !UserHasId(userId)(after[j])
    {
      assert !UserHasId(userId)(users[j]);
    }
    FindFirstIs(after, UserHasId(userId), k);
  }

  /** The single-candidate route answers with an element of the list route. */
  lemma GetUserIsListed<Blob>(users: seq<User<Blob>>, id: string)
    requires GetUser(users, id).Ok?
    ensures GetUser(users, id).value in ListUsers(users)
  {
  }

  /**
   * The list route reveals nothing about passwords: resetting any
   * candidate's password leaves the whole list unchanged.
   */
  lemma ListUsersIgnoresPasswords<Blob>(users: seq<User<Blob>>, k: int, password: string)
    requires 0 <= k < |users|
    ensures ListUsers(users[k := users[k].(password := password)]) == ListUsers(users)
  {
  }

  /**
   * The single-candidate route reveals nothing about passwords: resetting
   * any candidate's password leaves every lookup's answer unchanged.
   */
  lemma GetUserIgnoresPasswords<Blob>(users: seq<User<Blob>>, k: int, password: string, id: string)
    requires 0 <= k < |users|
    ensures GetUser(users[k := users[k].(password := password)], id) == GetUser(users, id)
  {
    var after := users[k := users[k].(password := password)];
    var r := GetUser(users, id);
    if r.Ok? {
      var i :| IsFirst(users, UserHasId(id), i) && r.value == Hide(users[i]);
      forall j | 0 <= j < i
        ensures !UserHasId(id)(after[j])
      {
        assert !UserHasId(id)(users[j]);
      }
      FindFirstIs(after, UserHasId(id), i);
    } else {
      assert after[k].id == users[k].id;
    }
  }

  /**
   * The scenario of a first candidate: register `A100`, log in with its
   * credentials, fail to register `A100` a second time, and fail an admin
   * login with a wrong password.
   */
  method FirstCandidateScenario(clock: nat)
  {
    var store := new Store<string>();
    var registered := store.Register("A100", "p1", "candidate", clock, clock);
    assert registered == Ok(CandidateRegistered(NewUserId(clock)));

    RegisterCandidateThenLogin<string>([SeedAdmin], [], "A100", "p1", "candidate", clock, clock);
    var login := Login(store.admins, store.users, "A100", "p1", "candidate");
    assert login.Ok? && login.value.user.applicationNumber == "A100";
    assert login.value.user.name == "Candidate A100";

    assert store.users[0].applicationNumber == "A100";
    var again := store.Register("A100", "p2", "candidate", clock + 1, clock + 1);
    assert again == Err(Duplicate(ApplicationNumberTaken));

    var wrong := Login(store.admins, store.users, "admin", "wrong", AdminRole);
    assert wrong == Err(Unauthorized(InvalidAdminCredentials));
  }
}
