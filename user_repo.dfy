/**
 * UserRepository: account creation, password authentication and account
 * status over the users table. The Argon2 hasher is a parameter; its
 * random salt is an argument of the operations that hash.
 */
module UserRepo {
  import opened Common
  import opened Bytes
  import opened Exceptions
  import opened Models
  import opened Tables

  /** Argon2's `hash(password)` (with the salt it draws) and `verify(hash, password)`. */
  datatype Hasher = Hasher(hash: (string, seq<Byte>) -> string, verify: (string, string) -> bool)

  /** A stored hash verifies exactly the password it was made from. */
  ghost predicate Sound(h: Hasher) {
    forall password, salt, attempt :: h.verify(h.hash(password, salt), attempt) <==> attempt == password
  }

  /** The row `authenticate` accepts: a known, active user whose stored hash verifies the password. */
  function Accepted(users: seq<User>, h: Hasher, username: string, password: string): (r: Option<nat>)
    ensures r.Some? ==>
      r.value < |users| && users[r.value].username == username &&
      users[r.value].isActive && h.verify(users[r.value].passwordHash, password)
  {
    match UserNamed(users, username)
    case None => None
    case Some(i) => if users[i].isActive && h.verify(users[i].passwordHash, password) then Some(i) else None
  }

  /** A freshly created user is accepted with the password it was created with, and with no other. */
  lemma CreatedUserAuthenticates(users: seq<User>, h: Hasher, u: User, password: string, salt: seq<Byte>, attempt: string)
    requires Sound(h)
    requires UserNamed(users, u.username).None?
    requires u.isActive && u.passwordHash == h.hash(password, salt)
    ensures Accepted(users + [u], h, u.username, attempt).Some? <==> attempt == password
  {
    var s := users + [u];
    assert s[|users|] == u;
    assert forall j | 0 <= j < |users| :: s[j] == users[j];
    assert UserNamed(s, u.username) == Some(|users|);
  }

  /** After a password change only the new password is accepted. */
  lemma ChangedPasswordAuthenticates(users: seq<User>, h: Hasher, i: nat, password: string, salt: seq<Byte>, attempt: string)
    requires Sound(h) && Unique(users, Username) && i < |users| && users[i].isActive
    ensures var s := users[i := users[i].(passwordHash := h.hash(password, salt))];
      Accepted(s, h, users[i].username, attempt).Some? <==> attempt == password
  {
    var s := users[i := users[i].(passwordHash := h.hash(password, salt))];
    UniqueUpdate(users, i, s[i], Username);
    UniqueFirst(s, Username, i, HasUsername(users[i].username));
  }

  /** A disabled user is refused whatever the password. */
  lemma DisabledUserRefused(users: seq<User>, h: Hasher, i: nat, attempt: string)
    requires Unique(users, Username) && i < |users|
    ensures Accepted(users[i := users[i].(isActive := false)], h, users[i].username, attempt).None?
  {
    var s := users[i := users[i].(isActive := false)];
    UniqueUpdate(users, i, s[i], Username);
    UniqueFirst(s, Username, i, HasUsername(users[i].username));
  }

  class UserRepository {
    const db: Database
    const hasher: Hasher

    constructor (db: Database, hasher: Hasher)
      ensures this.db == db && this.hasher == hasher
    {
      this.db := db;
      this.hasher := hasher;
    }

    /** get_by_id */
    function GetById(userId: int): (r: Option<User>)
      reads db
      ensures r.Some? ==> r.value in db.users && r.value.id == userId
      ensures r.None? ==> forall u | u in db.users :: u.id != userId
    {
      match UserWithId(db.users, userId)
      case None => None
      case Some(i) => Some(db.users[i])
    }

    /** get_by_username */
    function GetByUsername(username: string): (r: Option<User>)
      reads db
      ensures r.Some? ==> r.value in db.users && r.value.username == username
      ensures r.None? ==> forall u | u in db.users :: u.username != username
    {
      match UserNamed(db.users, username)
      case None => None
      case Some(i) => Some(db.users[i])
    }

    /**
     * create_user: a taken username raises ValueError and nothing is
     * inserted; otherwise an active row with the next id and the hashed
     * password is appended.
     */
    method CreateUser(username: string, password: string, salt: seq<Byte>, now: int,
                      email: Option<string> := None, isAdmin: bool := false, maxSessions: int := 3)
      returns (r: Result<User, Error>)
      requires db.Valid()
      modifies db
      ensures db.Valid()
      ensures db.sessions == old(db.sessions) && db.logs == old(db.logs)
      ensures db.nextSessionId == old(db.nextSessionId) && db.nextLogId == old(db.nextLogId)
      ensures UserNamed(old(db.users), username).Some? ==>
        r == Failure(ValueError("Username '" + username + "' already exists")) &&
        db.users == old(db.users) && db.nextUserId == old(db.nextUserId)
      ensures UserNamed(old(db.users), username).None? ==>
        r == Success(NewUser(old(db.nextUserId), username, hasher.hash(password, salt), now,
                             email, true, isAdmin, maxSessions)) &&
        db.users == old(db.users) + [r.value] && db.nextUserId == old(db.nextUserId) + 1
    {
      if UserNamed(db.users, username).Some? {
        return Failure(ValueError("Username '" + username + "' already exists"));
      }
      var user := NewUser(db.nextUserId, username, hasher.hash(password, salt), now, email, true, isAdmin, maxSessions);
      UniqueAppend(db.users, user, UserId);
      UniqueAppend(db.users, user, Username);
      db.users := db.users + [user];
      db.nextUserId := db.nextUserId + 1;
      r := Success(user);
    }

    /**
     * authenticate: the accepted user is returned with last_login set to
     * now; an unknown, disabled or wrong-password login returns None and
     * changes nothing.
     */
    method Authenticate(username: string, password: string, now: int) returns (r: Option<User>)
      requires db.Valid()
      modifies db
      ensures db.Valid()
      ensures db.sessions == old(db.sessions) && db.logs == old(db.logs)
      ensures db.nextUserId == old(db.nextUserId) && db.nextSessionId == old(db.nextSessionId)
      ensures db.nextLogId == old(db.nextLogId)
      ensures var i := Accepted(old(db.users), hasher, username, password);
        if i.None? then r.None? && db.users == old(db.users)
        else r == Some(old(db.users)[i.value].(lastLogin := Some(now))) &&
             db.users == old(db.users)[i.value := r.value]
    {
      var i := Accepted(db.users, hasher, username, password);
      if i.None? {
        return None;
      }
      var user := db.users[i.value].(lastLogin := Some(now));
      UniqueUpdate(db.users, i.value, user, UserId);
      UniqueUpdate(db.users, i.value, user, Username);
      db.users := db.users[i.value := user];
      r := Some(user);
    }

    /** update_password: the user's stored hash is replaced by the new password's. */
    method UpdatePassword(userId: int, newPassword: string, salt: seq<Byte>) returns (updated: bool)
      requires db.Valid()
      modifies db
      ensures db.Valid()
      ensures db.sessions == old(db.sessions) && db.logs == old(db.logs)
      ensures db.nextUserId == old(db.nextUserId) && db.nextSessionId == old(db.nextSessionId)
      ensures db.nextLogId == old(db.nextLogId)
      ensures updated <==> UserWithId(old(db.users), userId).Some?
      ensures var i := UserWithId(old(db.users), userId);
        if i.None? then db.users == old(db.users)
        else db.users == old(db.users)[i.value := old(db.users)[i.value].(passwordHash := hasher.hash(newPassword, salt))]
    {
      var i := UserWithId(db.users, userId);
      if i.None? {
        return false;
      }
      var user := db.users[i.value].(passwordHash := hasher.hash(newPassword, salt));
      UniqueUpdate(db.users, i.value, user, UserId);
      UniqueUpdate(db.users, i.value, user, Username);
      db.users := db.users[i.value := user];
      updated := true;
    }

    /** disable_user */
    method DisableUser(userId: int) returns (found: bool)
      requires db.Valid()
      modifies db
      ensures db.Valid()
      ensures db.sessions == old(db.sessions) && db.logs == old(db.logs)
      ensures db.nextUserId == old(db.nextUserId) && db.nextSessionId == old(db.nextSessionId)
      ensures db.nextLogId == old(db.nextLogId)
      ensures found <==> UserWithId(old(db.users), userId).Some?
      ensures db.users == WithActive(old(db.users), userId, false)
    {
      found := SetActive(userId, false);
    }

    /** enable_user */
    method EnableUser(userId: int) returns (found: bool)
      requires db.Valid()
      modifies db
      ensures db.Valid()
      ensures db.sessions == old(db.sessions) && db.logs == old(db.logs)
      ensures db.nextUserId == old(db.nextUserId) && db.nextSessionId == old(db.nextSessionId)
      ensures db.nextLogId == old(db.nextLogId)
      ensures found <==> UserWithId(old(db.users), userId).Some?
      ensures db.users == WithActive(old(db.users), userId, true)
    {
      found := SetActive(userId, true);
    }

    method SetActive(userId: int, active: bool) returns (found: bool)
      requires db.Valid()
      modifies db
      ensures db.Valid()
      ensures db.sessions == old(db.sessions) && db.logs == old(db.logs)
      ensures db.nextUserId == old(db.nextUserId) && db.nextSessionId == old(db.nextSessionId)
      ensures db.nextLogId == old(db.nextLogId)
      ensures found <==> UserWithId(old(db.users), userId).Some?
      ensures db.users == WithActive(old(db.users), userId, active)
    {
      var i := UserWithId(db.users, userId);
      if i.None? {
        return false;
      }
      var user := db.users[i.value].(isActive := active);
      UniqueUpdate(db.users, i.value, user, UserId);
      UniqueUpdate(db.users, i.value, user, Username);
      db.users := db.users[i.value := user];
      found := true;
    }

    /** Dropping row k, the one with id userId, leaves every other user and keeps both keys unique. */
    static lemma RemoveUserRow(users: seq<User>, k: nat, userId: int)
      requires k < |users| && users[k].id == userId
      requires Unique(users, UserId) && Unique(users, Username)
      ensures Unique(users[..k] + users[k + 1..], UserId) && Unique(users[..k] + users[k + 1..], Username)
      ensures forall u | u in users[..k] + users[k + 1..] :: u.id != userId && u in users
      ensures forall u | u in users && u.id != userId :: u in users[..k] + users[k + 1..]
    {
      UniqueRemove(users, k, UserId);
      UniqueRemove(users, k, Username);
      var rest := users[..k] + users[k + 1..];
      forall u | u in rest
        ensures u.id != userId && u in users
      {
        var j :| 0 <= j < |rest| && rest[j] == u;
        var j' := if j < k then j else j + 1;
        assert users[j'] == u;
      }
      forall u | u in users && u.id != userId
        ensures u in rest
      {
        var j :| 0 <= j < |users| && users[j] == u;
        if j < k {
          assert rest[j] == u;
        } else {
          assert rest[j - 1] == u;
        }
      }
    }

    /**
     * delete_user: the user's row goes, and the ORM cascade removes the
     * user's sessions and connection logs with it.
     */
    method DeleteUser(userId: int) returns (deleted: bool)
      requires db.Valid()
      modifies db
      ensures db.Valid()
      ensures db.nextUserId == old(db.nextUserId) && db.nextSessionId == old(db.nextSessionId)
      ensures db.nextLogId == old(db.nextLogId)
      ensures deleted <==> UserWithId(old(db.users), userId).Some?
      ensures !deleted ==> db.users == old(db.users) && db.sessions == old(db.sessions) && db.logs == old(db.logs)
      ensures deleted ==>
        (forall u | u in db.users :: u.id != userId) &&
        (forall u | u in old(db.users) && u.id != userId :: u in db.users) &&
        (forall u | u in db.users :: u in old(db.users)) &&
        (forall s :: s in db.sessions <==> s in old(db.sessions) && s.userId != userId) &&
        (forall l :: l in db.logs <==> l in old(db.logs) && l.userId != userId)
    {
      var i := UserWithId(db.users, userId);
      if i.None? {
        return false;
      }
      var k := i.value;
      var users := db.users;
      RemoveUserRow(users, k, userId);
      db.users := users[..k] + users[k + 1..];
      UniqueFilter(db.sessions, NotOwnedSession(userId), SessionId);
      UniqueFilter(db.sessions, NotOwnedSession(userId), Token);
      db.sessions := Filter(db.sessions, NotOwnedSession(userId));
      db.logs := Filter(db.logs, NotOwnedLog(userId));
      deleted := true;
    }

    /** list_users: every user, or only the active ones. */
    function ListUsers(activeOnly: bool := false): (r: seq<User>)
      reads db
      ensures forall u :: u in r <==> u in db.users && (activeOnly ==> u.isActive)
    {
      if activeOnly then Filter(db.users, (u: User) => u.isActive) else db.users
    }

    /** get_active_session_count */
    function GetActiveSessionCount(userId: int): (r: nat)
      reads db
      ensures r <= |db.sessions|
      ensures r == 0 <==> forall s | s in db.sessions :: !(s.userId == userId && s.isActive)
    {
      var active := ActiveSessionsOf(db.sessions, userId);
      assert active == [] <==> forall s | s in db.sessions :: !(s.userId == userId && s.isActive) by {
        if active != [] {
          assert active[0] in active;
        }
      }
      |active|
    }

    /**
     * can_create_session: only a known, active user below its session
     * limit may open another session.
     */
    function CanCreateSession(userId: int): (r: bool)
      reads db
      ensures r ==> exists u | u in db.users :: u.id == userId && u.isActive
      ensures r <==> (GetById(userId).Some? && GetById(userId).value.isActive &&
                      GetActiveSessionCount(userId) < GetById(userId).value.maxSessions)
    {
      match GetById(userId)
      case None => false
      case Some(user) => user.isActive && GetActiveSessionCount(userId) < user.maxSessions
    }
  }

  /** The users table after setting is_active on the first row with this id, if any. */
  function WithActive(users: seq<User>, userId: int, active: bool): seq<User> {
    match UserWithId(users, userId)
    case None => users
    case Some(i) => users[i := users[i].(isActive := active)]
  }

  function NotOwnedSession(userId: int): SessionRecord -> bool {
    (s: SessionRecord) => s.userId != userId
  }

  function NotOwnedLog(userId: int): ConnectionLog -> bool {
    (l: ConnectionLog) => l.userId != userId
  }
}
