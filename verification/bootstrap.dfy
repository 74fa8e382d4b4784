/**
 * Start-up seeding: `seed_admin_user` makes sure an administrator account
 * exists, and creates it only when its email is not yet registered.
 */
module Bootstrap {
  import opened Wrappers
  import opened Seqs
  import opened Models
  import opened Auth

  const AdminEmail: string := "admin@example.com"
  const AdminPassword: string := "Passw0rd!"
  const AdminName: string := "Admin User"

  /** The administrator row: role `admin`, the password through `set_password`. */
  function AdminUser(users: seq<User>, salt: nat, hasher: Hasher, now: int): User {
    SetPassword(NewUser(NextId(users, UserKey), AdminName, AdminEmail, Some(Admin), now), AdminPassword, salt, hasher)
  }

  /** `seed_admin_user` on the store. */
  function SeedAdminStep(t: Tables, salt: nat, hasher: Hasher, now: int): (r: Tables)
    ensures AdminEmail in Emails(t.users) ==> r == t
    ensures AdminEmail !in Emails(t.users) ==>
              && |r.users| == |t.users| + 1
              && r.users[..|t.users|] == t.users
              && r.slots == t.slots && r.bookings == t.bookings
              && var u := r.users[|t.users|];
                 && u.id !in UserIds(t.users)
                 && u.email == AdminEmail && u.name == AdminName && u.role == Admin
                 && CheckPassword(u, AdminPassword, hasher)
    ensures AdminEmail in Emails(r.users)
  {
    if FindUserByEmail(t.users, AdminEmail).Some? then t
    else
      var u := AdminUser(t.users, salt, hasher, now);
      assert u in t.users + [u];
      t.(users := t.users + [u])
  }

  /** Seeding keeps ids and emails unique and the admin's password hashed, never stored as given. */
  lemma SeedAdminKeepsWellFormed(t: Tables, salt: nat, hasher: Hasher, now: int)
    requires WellFormed(t)
    ensures WellFormed(SeedAdminStep(t, salt, hasher, now))
  {
    if AdminEmail !in Emails(t.users) {
      var u := AdminUser(t.users, salt, hasher, now);
      DistinctAppend(t.users, u, UserKey);
      DistinctAppend(t.users, u, EmailKey);
      assert UserIds(t.users) <= UserIds(t.users + [u]);
    }
  }

  /** Seeding twice leaves the store as seeding once, whatever the second salt and time. */
  lemma SeedAdminIdempotent(t: Tables, salt1: nat, salt2: nat, hasher: Hasher, now1: int, now2: int)
    ensures var once := SeedAdminStep(t, salt1, hasher, now1);
            SeedAdminStep(once, salt2, hasher, now2) == once
  {
  }

  /** After seeding a store without the admin, the admin can log in with the seeded password and is an admin. */
  lemma SeededAdminCanLogIn(t: Tables, salt: nat, hasher: Hasher, now: int, issuedAt: int)
    requires WellFormed(t)
    requires AdminEmail !in Emails(t.users)
    ensures var r := Login(SeedAdminStep(t, salt, hasher, now).users, LoginRequest(Some(AdminEmail), Some(AdminPassword)), hasher, issuedAt);
            r.Success? && r.value.role == Admin
  {
    var after := SeedAdminStep(t, salt, hasher, now);
    SeedAdminKeepsWellFormed(t, salt, hasher, now);
    var u := after.users[|t.users|];
    assert u in after.users;
    LoginSucceedsIff(after.users, LoginRequest(Some(AdminEmail), Some(AdminPassword)), hasher, issuedAt);
    var found := FindUserByEmail(after.users, AdminEmail);
    LookupUnique(after.users, EmailKey, found.value, u);
  }

  /** `seed_admin_user`, step by step against the session. */
  method SeedAdminUser(db: Database, salt: nat, hasher: Hasher, now: int)
    requires db.Valid()
    modifies db
    ensures db.Valid()
    ensures db.Snapshot() == SeedAdminStep(old(db.Snapshot()), salt, hasher, now)
  {
    SeedAdminKeepsWellFormed(db.Snapshot(), salt, hasher, now);
    var existing := FindUserByEmail(db.users, AdminEmail);
    if existing.None? {
      var admin := NewUser(NextId(db.users, UserKey), AdminName, AdminEmail, Some(Admin), now);
      admin := SetPassword(admin, AdminPassword, salt, hasher);
      db.users := db.users + [admin];
    }
  }
}
