/** Admin accounts (backend/.../service/AdminService.java): password sign-in for active
    accounts, and creating an account under a username nobody has taken. */
module AdminService {
  import opened Wrappers

  /** An admin account as stored. The entity class is not part of this model: `active` is
      taken to be a plain flag and the stored password a plain string. */
  datatype AdminRecord = AdminRecord(id: Option<int>, username: string, password: string, fullName: string,
                                     email: string, role: string, active: bool)

  /** Why `createAdmin` raises. */
  datatype AdminError = UsernameTaken

  /** `authenticate`: the account under `username`, if there is one, it is active, and its
      stored password equals `password`; nothing otherwise. */
  function Authenticated(accounts: map<string, AdminRecord>, username: string, password: string): (r: Option<AdminRecord>)
    ensures r.Some? <==> username in accounts && accounts[username].active && accounts[username].password == password
    ensures r.Some? ==> r.value == accounts[username]
  {
    if username in accounts && accounts[username].active && accounts[username].password == password
    then Some(accounts[username])
    else None
  }

  /** A switched-off account never signs in, even with its own password. */
  lemma InactiveNeverAuthenticates(accounts: map<string, AdminRecord>, username: string, password: string)
    requires username in accounts && !accounts[username].active
    ensures Authenticated(accounts, username, password).None?
  {
  }

  /** The account `createAdmin` builds: the given details, role ADMIN, active. */
  function NewAdmin(id: int, username: string, password: string, fullName: string, email: string): (a: AdminRecord)
    ensures a.active && a.role == "ADMIN" && a.username == username && a.password == password
  {
    AdminRecord(Some(id), username, password, fullName, email, "ADMIN", true)
  }

  /** A newly created account signs in with the password it was created with, and with no
      other; the other accounts sign in as before. */
  lemma CreateThenAuthenticate(accounts: map<string, AdminRecord>, id: int, username: string, password: string,
                               fullName: string, email: string, other: string, tried: string)
    ensures var after := accounts[username := NewAdmin(id, username, password, fullName, email)];
            && Authenticated(after, username, password) == Some(NewAdmin(id, username, password, fullName, email))
            && (tried != password ==> Authenticated(after, username, tried).None?)
            && (other != username ==> Authenticated(after, other, tried) == Authenticated(accounts, other, tried))
  {
  }

  /** The admin table, looked up by username (`findByUsername`, `existsByUsername`). */
  class AdminRepository {
    var accounts: map<string, AdminRecord>
    var nextId: int

    /** Each account is filed under its own username and has an id already handed out. */
    predicate Valid()
      reads this
    {
      forall u :: u in accounts ==> accounts[u].username == u && accounts[u].id.Some? && accounts[u].id.value < nextId
    }

    constructor ()
      ensures Valid() && accounts == map[]
    {
      accounts := map[];
      nextId := 1;
    }

    method FindByUsername(username: string) returns (r: Option<AdminRecord>)
      ensures r.Some? <==> username in accounts
      ensures r.Some? ==> r.value == accounts[username]
    {
      r := if username in accounts then Some(accounts[username]) else None;
    }

    method ExistsByUsername(username: string) returns (b: bool)
      ensures b <==> username in accounts
    {
      b := username in accounts;
    }

    /** `save` of a new account: it gets the next id. */
    method Insert(a: AdminRecord) returns (saved: AdminRecord)
      requires Valid() && a.username !in accounts
      modifies this
      ensures Valid()
      ensures saved == a.(id := Some(old(nextId)))
      ensures accounts == old(accounts)[a.username := saved] && nextId == old(nextId) + 1
    {
      saved := a.(id := Some(nextId));
      accounts := accounts[a.username := saved];
      nextId := nextId + 1;
    }
  }

  class AdminService {
    const repo: AdminRepository

    constructor (repo: AdminRepository)
      ensures this.repo == repo
    {
      this.repo := repo;
    }

    /** `authenticate`; it reads the table and changes nothing. */
    method Authenticate(username: string, password: string) returns (r: Option<AdminRecord>)
      ensures r == Authenticated(repo.accounts, username, password)
    {
      var admin := repo.FindByUsername(username);
      if admin.Some? && admin.value.active {
        if admin.value.password == password {
          return admin;
        }
      }
      r := None;
    }

    /** `createAdmin`: a taken username raises and stores nothing; otherwise the new account
        is stored under the next id, and it can sign in with its password straight away. */
    method CreateAdmin(username: string, password: string, fullName: string, email: string)
      returns (r: Result<AdminRecord, AdminError>)
      requires repo.Valid()
      modifies repo
      ensures repo.Valid()
      ensures username in old(repo.accounts) ==>
                r == Failure(UsernameTaken) && repo.accounts == old(repo.accounts) && repo.nextId == old(repo.nextId)
      ensures username !in old(repo.accounts) ==>
                && r == Success(NewAdmin(old(repo.nextId), username, password, fullName, email))
                && repo.accounts == old(repo.accounts)[username := r.value]
                && Authenticated(repo.accounts, username, password) == Some(r.value)
    {
      var taken := repo.ExistsByUsername(username);
      if taken {
        return Failure(UsernameTaken);
      }
      var admin := AdminRecord(None, username, password, fullName, email, "ADMIN", true);
      var saved := repo.Insert(admin);
      r := Success(saved);
    }
  }
}
