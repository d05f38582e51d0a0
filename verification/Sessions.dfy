/** The users and sessions tables as core/sessions/orm.go and core/sessions/reaper.go change them: each call is one
    transaction, which may also fail without effect. */
module Sessions {
  import opened Wrappers

  // ----- Letter case (ASCII) -----

  function LowerChar(c: char): char {
    if 'A' <= c <= 'Z' then c - 'A' + 'a' else c
  }

  function Lower(s: string): (r: string)
    ensures |r| == |s| && forall i | 0 <= i < |s| :: r[i] == LowerChar(s[i])
  {
    seq(|s|, i requires 0 <= i < |s| => LowerChar(s[i]))
  }

  lemma LowerTwice(s: string)
    ensures Lower(Lower(s)) == Lower(s)
  {
  }

  const CAPITALS := "ABCDEFGHIJKLMNOPQRSTUVWXYZ"
  const SMALL_LETTERS := "abcdefghijklmnopqrstuvwxyz"

  /** Each capital becomes its small letter, and everything else stays. */
  lemma LowerLetters(c: char)
    ensures forall i | 0 <= i < 26 :: LowerChar(CAPITALS[i]) == SMALL_LETTERS[i]
    ensures c !in CAPITALS ==> LowerChar(c) == c
  {
    if 'A' <= c <= 'Z' {
      CapitalAt((c - 'A') as nat);
    }
    forall i | 0 <= i < 26
      ensures LowerChar(CAPITALS[i]) == SMALL_LETTERS[i]
    {
      CapitalAt(i);
    }
  }

  lemma CapitalAt(i: nat)
    requires i < 26
    ensures CAPITALS[i] == 'A' + i as char && SMALL_LETTERS[i] == 'a' + i as char
  {
  }

  // ----- Tables -----

  datatype Role = Admin | Edit | Run | View

  datatype User = User(email: string, hashedPassword: string, role: Role)

  datatype Session = Session(email: string, lastUsed: int)

  /** The users are filed under the unique index on lower(email), the sessions under their id. */
  datatype Db = Db(users: map<string, User>, sessions: map<string, Session>)

  datatype Error =
    | Database | Duplicate | ForeignKey
    | EmptyId | NoSession | Expired | NoUser
    | InvalidEmail | InvalidPassword | MfaError | Challenge
    | EmptyRole | BadRole

  datatype Outcome = Done | Found(user: User) | LoggedIn(id: string) | Failed(error: Error)

  function GetUserRole(role: string): Option<Role> {
    if role == "admin" then Some(Admin)
    else if role == "edit" then Some(Edit)
    else if role == "run" then Some(Run)
    else if role == "view" then Some(View)
    else None
  }

  predicate Live(s: Session, duration: int, now: int) {
    s.lastUsed + duration >= now
  }

  /** What the password check and the second factor of a login come to: no key enrolled, the enrolled keys not readable,
      no response sent yet (and a challenge made, or not), or a response that is right or wrong. */
  datatype Mfa = NotEnrolled | Unreadable | NoResponse(begun: bool) | Response(ok: bool)

  datatype Checks = Checks(password: bool, mfa: Mfa)

  function LoginError(c: Checks): Option<Error> {
    if !c.password then Some(InvalidPassword) else
    match c.mfa
    case NotEnrolled => None
    case Unreadable => Some(MfaError)
    case NoResponse(begun) => Some(if begun then Challenge else MfaError)
    case Response(ok) => if ok then None else Some(MfaError)
  }

  /** InsertSession is the last statement of a login whose look-up of the user came before other calls; CreateSession is
      a login that no other call comes between. */
  datatype Call =
    | Authorize(id: string)
    | CreateUser(user: User)
    | CreateSession(email: string, checks: Checks, newId: string)
    | InsertSession(email: string, newId: string)
    | DeleteUser(email: string)
    | DeleteUserSession(id: string)
    | ClearNonCurrent(id: string)
    | UpdateRole(email: string, role: string)
    | Reap

  /** How long a session lasts, and the two durations the reaper adds up. */
  datatype Config = Config(duration: int, timeout: int, expiration: int)

  // ----- What each transaction does -----

  function AuthorizeStep(db: Db, id: string, duration: int, now: int): (Db, Outcome) {
    if id == "" then (db, Failed(EmptyId))
    else if id !in db.sessions then (db, Failed(NoSession))
    else if !Live(db.sessions[id], duration, now) then (db, Failed(Expired))
    else if Lower(db.sessions[id].email) !in db.users then (db, Failed(NoUser))
    else (db.(sessions := db.sessions[id := db.sessions[id].(lastUsed := now)]),
          Found(db.users[Lower(db.sessions[id].email)]))
  }

  function CreateUserStep(db: Db, user: User): (Db, Outcome) {
    var k := Lower(user.email);
    if k in db.users then (db, Failed(Duplicate))
    else (db.(users := db.users[k := user.(email := k)]), Found(user.(email := k)))
  }

  /** The session must refer to a stored user. */
  function InsertSessionStep(db: Db, email: string, newId: string, now: int): (Db, Outcome) {
    if newId in db.sessions then (db, Failed(Duplicate))
    else if !Owned(db, Session(email, now)) then (db, Failed(ForeignKey))
    else (db.(sessions := db.sessions[newId := Session(email, now)]), LoggedIn(newId))
  }

  /** The user that a login is for, under its stored email. */
  function Login(db: Db, email: string, checks: Checks): Outcome {
    var k := Lower(email);
    if k !in db.users then Failed(NoUser)
    else if Lower(db.users[k].email) != k then Failed(InvalidEmail)
    else if LoginError(checks).Some? then Failed(LoginError(checks).value)
    else Found(db.users[k])
  }

  function CreateSessionStep(db: Db, email: string, checks: Checks, newId: string, now: int): (Db, Outcome) {
    var r := Login(db, email, checks);
    if r.Found? then InsertSessionStep(db, r.user.email, newId, now) else (db, r)
  }

  function DeleteSessionStep(db: Db, id: string): (Db, Outcome) {
    (db.(sessions := db.sessions - {id}), Done)
  }

  /** Deleting a user cascades to the sessions that refer to it. */
  function DeleteUserStep(db: Db, email: string): (Db, Outcome) {
    var k := Lower(email);
    if k in db.users && db.users[k].email == email then
      (Db(db.users - {k}, map id | id in db.sessions && db.sessions[id].email != email :: db.sessions[id]), Done)
    else (db, Done)
  }

  function ClearStep(db: Db, id: string): (Db, Outcome) {
    (db.(sessions := map i | i in db.sessions && i == id :: db.sessions[i]), Done)
  }

  function UpdateRoleStep(db: Db, email: string, role: string): (Db, Outcome) {
    var k := Lower(email);
    if role == "" then (db, Failed(EmptyRole))
    else if k !in db.users then (db, Failed(NoUser))
    else if GetUserRole(role) == None then (db, Failed(BadRole))
    else
      var user := db.users[k].(role := GetUserRole(role).value);
      (Db(db.users[k := user], map id | id in db.sessions && db.sessions[id].email != k :: db.sessions[id]),
       Found(user))
  }

  function ReapStep(db: Db, before: int): (Db, Outcome) {
    (db.(sessions := map id | id in db.sessions && db.sessions[id].lastUsed >= before :: db.sessions[id]), Done)
  }

  function Step(db: Db, c: Config, now: int, call: Call): (Db, Outcome) {
    match call
    case Authorize(id) => AuthorizeStep(db, id, c.duration, now)
    case CreateUser(user) => CreateUserStep(db, user)
    case CreateSession(email, checks, newId) => CreateSessionStep(db, email, checks, newId, now)
    case InsertSession(email, newId) => InsertSessionStep(db, email, newId, now)
    case DeleteUser(email) => DeleteUserStep(db, email)
    case DeleteUserSession(id) => DeleteSessionStep(db, id)
    case ClearNonCurrent(id) => ClearStep(db, id)
    case UpdateRole(email, role) => UpdateRoleStep(db, email, role)
    case Reap => ReapStep(db, now - c.timeout - c.expiration)
  }

  // ----- The calls as statements on the tables -----

  class Store {
    var users: map<string, User>
    var sessions: map<string, Session>
    const sessionDuration: int

    function Tables(): Db
      reads this
    {
      Db(users, sessions)
    }

    constructor (sessionDuration: int)
      ensures Tables() == Db(map[], map[]) && this.sessionDuration == sessionDuration
    {
      this.sessionDuration := sessionDuration;
      users, sessions := map[], map[];
    }

    method AuthorizedUserWithSession(id: string, now: int) returns (r: Outcome)
      modifies this`sessions
      ensures (Tables(), r) == AuthorizeStep(old(Tables()), id, sessionDuration, now)
    {
      if |id| == 0 {
        return Failed(EmptyId);
      }
      if id !in sessions {
        return Failed(NoSession);
      }
      var foundSession := sessions[id];
      var valid := foundSession.lastUsed + sessionDuration >= now;
      if !valid {
        return Failed(Expired);
      }
      var k := Lower(foundSession.email);
      if k !in users {
        return Failed(NoUser);
      }
      var user := users[k];
      if sessions[id].lastUsed + sessionDuration >= now {
        sessions := sessions[id := sessions[id].(lastUsed := now)];
      }
      return Found(user);
    }

    method UpdateRole(email: string, newRole: string) returns (r: Outcome)
      modifies this
      ensures (Tables(), r) == UpdateRoleStep(old(Tables()), email, newRole)
    {
      if newRole == "" {
        return Failed(EmptyRole);
      }
      var k := Lower(email);
      if k !in users {
        return Failed(NoUser);
      }
      var userToEdit := users[k];
      var userRole := GetUserRole(newRole);
      if userRole == None {
        return Failed(BadRole);
      }
      userToEdit := userToEdit.(role := userRole.value);
      sessions := map id | id in sessions && sessions[id].email != k :: sessions[id];
      users := users[k := users[k].(role := userToEdit.role)];
      r := Found(users[k]);
    }

    method CreateUser(user: User) returns (r: Outcome)
      modifies this`users
      ensures (Tables(), r) == CreateUserStep(old(Tables()), user)
    {
      var k := Lower(user.email);
      if k in users {
        return Failed(Duplicate);
      }
      users := users[k := user.(email := k)];
      r := Found(users[k]);
    }

    /** Look-up, checks and insert. When other calls come before the insert, the insert is an InsertSession of its
        own. */
    method CreateSession(email: string, checks: Checks, newId: string, now: int) returns (r: Outcome)
      modifies this`sessions
      ensures (Tables(), r) == CreateSessionStep(old(Tables()), email, checks, newId, now)
    {
      var k := Lower(email);
      if k !in users {
        return Failed(NoUser);
      }
      var user := users[k];
      if Lower(email) != Lower(user.email) {
        return Failed(InvalidEmail);
      }
      if !checks.password {
        return Failed(InvalidPassword);
      }
      match checks.mfa {
        case Unreadable => return Failed(MfaError);
        case NotEnrolled => r := InsertSession(user.email, newId, now);
        case NoResponse(begun) => return Failed(if begun then Challenge else MfaError);
        case Response(ok) =>
          if !ok {
            return Failed(MfaError);
          }
          r := InsertSession(user.email, newId, now);
      }
    }

    method InsertSession(email: string, newId: string, now: int) returns (r: Outcome)
      modifies this`sessions
      ensures (Tables(), r) == InsertSessionStep(old(Tables()), email, newId, now)
    {
      if newId in sessions {
        return Failed(Duplicate);
      }
      var k := Lower(email);
      if k !in users || users[k].email != email {
        return Failed(ForeignKey);
      }
      sessions := sessions[newId := Session(email, now)];
      r := LoggedIn(newId);
    }

    method DeleteUser(email: string) returns (r: Outcome)
      modifies this
      ensures (Tables(), r) == DeleteUserStep(old(Tables()), email)
    {
      var k := Lower(email);
      if k in users && users[k].email == email {
        users := users - {k};
        sessions := map id | id in sessions && sessions[id].email != email :: sessions[id];
      }
      r := Done;
    }

    method DeleteUserSession(id: string)
      modifies this`sessions
      ensures Tables() == DeleteSessionStep(old(Tables()), id).0
    {
      sessions := sessions - {id};
    }

    method ClearNonCurrentSessions(id: string)
      modifies this`sessions
      ensures Tables() == ClearStep(old(Tables()), id).0
    {
      sessions := map i | i in sessions && i == id :: sessions[i];
    }

    /** The reaper's Work: one threshold, one delete. */
    method Work(now: int, timeout: int, expiration: int)
      modifies this`sessions
      ensures Tables() == ReapStep(old(Tables()), now - timeout - expiration).0
    {
      var threshold := (now - timeout) - expiration;
      sessions := map id | id in sessions && sessions[id].lastUsed >= threshold :: sessions[id];
    }
  }

  // ----- Runs -----

  /** A call at a point of time; `fails` when the database fails it, which leaves the tables as they are. */
  datatype Event = Event(now: int, call: Call, fails: bool)

  /** `reaping` false is the same run without the reaper. */
  function EventStep(db: Db, c: Config, e: Event, reaping: bool): (Db, Outcome) {
    if e.fails then (db, Failed(Database))
    else if e.call == Reap && !reaping then (db, Done)
    else Step(db, c, e.now, e.call)
  }

  function After(es: seq<Event>, c: Config, reaping: bool): Db {
    if es == [] then Db(map[], map[])
    else EventStep(After(es[..|es| - 1], c, reaping), c, es[|es| - 1], reaping).0
  }

  function OutcomeAt(es: seq<Event>, c: Config, reaping: bool, i: nat): Outcome
    requires i < |es|
  {
    EventStep(After(es[..i], c, reaping), c, es[i], reaping).1
  }

  // ----- Every session belongs to a user -----

  ghost predicate Integrity(db: Db) {
    && (forall k | k in db.users :: Lower(db.users[k].email) == k)
    && (forall id | id in db.sessions :: Owned(db, db.sessions[id]))
  }

  predicate Owned(db: Db, s: Session) {
    Lower(s.email) in db.users && db.users[Lower(s.email)].email == s.email
  }

  predicate LowerCase(s: string) {
    Lower(s) == s
  }

  ghost predicate AllLowerCase(db: Db) {
    forall k | k in db.users :: LowerCase(db.users[k].email)
  }

  lemma RemovalKeepsIntegrity(db: Db, c: Config, now: int, call: Call)
    requires Integrity(db)
    requires call.DeleteUser? || call.DeleteUserSession? || call.ClearNonCurrent? || call.Reap?
    ensures Integrity(Step(db, c, now, call).0)
  {
  }

  lemma NewUserKeepsIntegrity(db: Db, user: User)
    requires Integrity(db)
    ensures Integrity(CreateUserStep(db, user).0)
    ensures AllLowerCase(db) ==> AllLowerCase(CreateUserStep(db, user).0)
  {
    LowerTwice(user.email);
  }

  lemma UseKeepsIntegrity(db: Db, c: Config, now: int, call: Call)
    requires Integrity(db) && (call.Authorize? || call.CreateSession? || call.InsertSession?)
    ensures Integrity(Step(db, c, now, call).0)
  {
  }

  lemma RoleKeepsIntegrity(db: Db, email: string, role: string)
    requires Integrity(db)
    ensures Integrity(UpdateRoleStep(db, email, role).0)
    ensures AllLowerCase(db) ==> AllLowerCase(UpdateRoleStep(db, email, role).0)
  {
  }

  lemma StepKeepsIntegrity(db: Db, c: Config, now: int, call: Call)
    requires Integrity(db)
    ensures Integrity(Step(db, c, now, call).0)
    ensures AllLowerCase(db) ==> AllLowerCase(Step(db, c, now, call).0)
  {
    match call
    case CreateUser(user) => NewUserKeepsIntegrity(db, user);
    case UpdateRole(email, role) => RoleKeepsIntegrity(db, email, role);
    case Authorize(_) => UseKeepsIntegrity(db, c, now, call);
    case CreateSession(_, _, _) => UseKeepsIntegrity(db, c, now, call);
    case InsertSession(_, _) => UseKeepsIntegrity(db, c, now, call);
    case _ => RemovalKeepsIntegrity(db, c, now, call);
  }

  lemma {:induction false} RunKeepsIntegrity(es: seq<Event>, c: Config, reaping: bool)
    ensures Integrity(After(es, c, reaping)) && AllLowerCase(After(es, c, reaping))
  {
    if es == [] {
    } else {
      var e := es[|es| - 1];
      RunKeepsIntegrity(es[..|es| - 1], c, reaping);
      StepKeepsIntegrity(After(es[..|es| - 1], c, reaping), c, e.now, e.call);
    }
  }

  /** In every reachable state all stored emails are in lower case and every session belongs to a stored user. */
  lemma ReachableEmails(es: seq<Event>, c: Config, reaping: bool)
    ensures var db := After(es, c, reaping);
      && (forall k | k in db.users :: LowerCase(db.users[k].email))
      && (forall id | id in db.sessions :: LowerCase(db.sessions[id].email) && Owned(db, db.sessions[id]))
  {
    RunKeepsIntegrity(es, c, reaping);
  }

  // ----- Logging in, using a session, and losing it -----

  /** A login succeeds exactly if the user exists and passes the checks; it gives a session of the user whose email was
      given, in any letter case, that lasts for the duration. */
  lemma LoginAuthorizes(db: Db, email: string, checks: Checks, newId: string, now: int, duration: int, later: int)
    requires Integrity(db) && newId != "" && newId !in db.sessions
    ensures var (db', r) := CreateSessionStep(db, email, checks, newId, now);
      && (r.LoggedIn? <==> Lower(email) in db.users && checks.password && checks.mfa in {NotEnrolled, Response(true)})
      && (!r.LoggedIn? ==> db' == db)
      && (r.LoggedIn? ==> r.id == newId && db'.users == db.users && db'.sessions - {newId} == db.sessions)
      && (r.LoggedIn? ==>
            AuthorizeStep(db', newId, duration, later).1
              == if later <= now + duration then Found(db.users[Lower(email)]) else Failed(Expired))
  {
    LowerTwice(email);
  }

  /** Why a login is refused: an unknown user first, then the password, and only behind a right one the second
      factor. */
  lemma LoginRefused(db: Db, email: string, checks: Checks, newId: string, now: int)
    requires Integrity(db)
    ensures var (db', r) := CreateSessionStep(db, email, checks, newId, now);
      if Lower(email) !in db.users then r == Failed(NoUser)
      else if !checks.password then r == Failed(InvalidPassword)
      else if checks.mfa == NoResponse(true) then r == Failed(Challenge)
      else if checks.mfa in {Unreadable, NoResponse(false), Response(false)} then r == Failed(MfaError)
      else r == if newId in db.sessions then Failed(Duplicate) else LoggedIn(newId)
  {
    LowerTwice(email);
  }

  /** An insert behind other calls succeeds exactly if its id is new and the user is still stored under that email. */
  lemma InsertIff(db: Db, email: string, newId: string, now: int)
    ensures var (db', r) := InsertSessionStep(db, email, newId, now);
      && (r == LoggedIn(newId) <==>
            newId !in db.sessions && Lower(email) in db.users && db.users[Lower(email)].email == email)
      && (r == LoggedIn(newId) ==> db' == Db(db.users, db.sessions[newId := Session(email, now)]))
      && (r != LoggedIn(newId) ==> db' == db && r == Failed(if newId in db.sessions then Duplicate else ForeignKey))
  {
  }

  /** A new user keeps password hash and role, and can log in with its email in any letter case; no one else is touched,
      and an email that differs from a stored one at most in letter case is refused. */
  lemma CreatedUserIsStored(db: Db, user: User, email: string, newId: string, now: int, duration: nat)
    requires newId != "" && newId !in db.sessions && Lower(email) == Lower(user.email)
    ensures var (db', r) := CreateUserStep(db, user);
      && (r.Found? <==> Lower(user.email) !in db.users)
      && (!r.Found? ==> db' == db && r == Failed(Duplicate))
      && (r.Found? ==>
            var stored := User(Lower(user.email), user.hashedPassword, user.role);
            var db2 := CreateSessionStep(db', email, Checks(true, NotEnrolled), newId, now).0;
            && r == Found(stored) && db' == Db(db.users[Lower(user.email) := stored], db.sessions)
            && AuthorizeStep(db2, newId, duration, now).1 == Found(stored))
  {
    LowerTwice(user.email);
  }

  /** Each use of a session lets it last for the duration again, whatever was left of it, and for the same user. */
  lemma UseExtends(db: Db, id: string, duration: int, now: int, later: int)
    requires AuthorizeStep(db, id, duration, now).1.Found?
    ensures var (db', r) := AuthorizeStep(db, id, duration, now);
      && AuthorizeStep(db', id, duration, later).1 == (if later <= now + duration then r else Failed(Expired))
      && db'.users == db.users && db'.sessions - {id} == db.sessions - {id}
  {
  }

  /** No session authorizes a user who was deleted, and those of the others stay. */
  lemma DeletedUserIsOut(db: Db, email: string, id: string, duration: int, now: int)
    requires Integrity(db)
    ensures var db' := DeleteUserStep(db, email).0;
      && (AuthorizeStep(db', id, duration, now).1.Found? ==>
            AuthorizeStep(db', id, duration, now).1.user.email != email)
      && (id in db.sessions && db.sessions[id].email != email ==>
            AuthorizeStep(db', id, duration, now).1 == AuthorizeStep(db, id, duration, now).1)
  {
    if id in db.sessions {
      assert Owned(db, db.sessions[id]);
    }
  }

  /** The user with exactly that email is gone afterwards and cannot log in, in any letter case; nobody else is. */
  lemma DeletedUserCannotLogIn(db: Db, email: string, again: string, checks: Checks, newId: string, now: int)
    requires Lower(again) == Lower(email)
    ensures var db' := DeleteUserStep(db, email).0;
      && (Lower(email) in db'.users <==> Lower(email) in db.users && db.users[Lower(email)].email != email)
      && (Lower(email) !in db'.users ==> CreateSessionStep(db', again, checks, newId, now).1 == Failed(NoUser))
      && db'.users - {Lower(email)} == db.users - {Lower(email)}
      && (Lower(email) in db'.users || Lower(email) !in db.users ==> db' == db)
  {
  }

  /** A session that was ended is refused, and every other one is authorized as before. */
  lemma EndedSessionIsOut(db: Db, id: string, other: string, duration: int, now: int)
    ensures var db' := DeleteSessionStep(db, id).0;
      && AuthorizeStep(db', id, duration, now).1 == Failed(if id == "" then EmptyId else NoSession)
      && (other != id ==> AuthorizeStep(db', other, duration, now).1 == AuthorizeStep(db, other, duration, now).1)
  {
  }

  /** After clearing the others, the given session is authorized as before, and every other one is refused. */
  lemma OnlyCurrentStays(db: Db, id: string, other: string, duration: int, now: int)
    ensures var db' := ClearStep(db, id).0;
      && AuthorizeStep(db', id, duration, now).1 == AuthorizeStep(db, id, duration, now).1
      && (other != id ==>
            AuthorizeStep(db', other, duration, now).1 == Failed(if other == "" then EmptyId else NoSession))
  {
  }

  // ----- Role changes -----

  ghost predicate SessionOf(db: Db, id: string, user: User) {
    id in db.sessions && db.sessions[id].email == user.email
  }

  ghost predicate NoSessionOf(db: Db, user: User) {
    forall id | id in db.sessions :: db.sessions[id].email != user.email
  }

  /** When a role change succeeds: the role is one of the four, the user exists, and only its role and sessions
      change. */
  lemma RoleChange(db: Db, email: string, role: string)
    requires Integrity(db)
    ensures var (db', r) := UpdateRoleStep(db, email, role);
      && (r.Found? <==> Lower(email) in db.users && role in {"admin", "edit", "run", "view"})
      && (!r.Found? ==> db' == db)
      && (r.Found? ==>
            && db'.users == db.users[Lower(email) := r.user]
            && r.user == db.users[Lower(email)].(role := r.user.role) && GetUserRole(role) == Some(r.user.role)
            && forall id | id in db.sessions && db.sessions[id].email != r.user.email ::
                 id in db'.sessions && db'.sessions[id] == db.sessions[id])
  {
    LowerTwice(email);
  }

  /** The names of the four roles. */
  function RoleName(role: Role): string {
    match role
    case Admin => "admin"
    case Edit => "edit"
    case Run => "run"
    case View => "view"
  }

  lemma NamesDiffer(a: Role, b: Role)
    ensures RoleName(a) == RoleName(b) <==> a == b
  {
    assert RoleName(a)[0] == RoleName(b)[0] ==> a == b;
  }

  /** The name of a role gives a stored user that role, and no other text gives any; an empty one is told apart from a
      bad one. */
  lemma RoleByName(db: Db, email: string, role: Role, other: string)
    requires Lower(email) in db.users
    ensures var (db', r) := UpdateRoleStep(db, email, RoleName(role));
      r.Found? && r.user.role == role && db'.users[Lower(email)].role == role
    ensures (forall x: Role :: other != RoleName(x)) ==>
              UpdateRoleStep(db, email, other) == (db, Failed(if other == "" then EmptyRole else BadRole))
  {
    NamesDiffer(role, Admin);
    NamesDiffer(role, Edit);
    NamesDiffer(role, Run);
    assert RoleName(Admin) == "admin" && RoleName(Edit) == "edit" && RoleName(Run) == "run" && RoleName(View) == "view";
  }

  /** An unknown user is reported before a bad role. */
  lemma NoUserNoRole(db: Db, email: string, role: string)
    requires Lower(email) !in db.users
    ensures UpdateRoleStep(db, email, role) == (db, Failed(if role == "" then EmptyRole else NoUser))
  {
  }

  /** Exactly when it ends all of the user's sessions: when the stored email is in lower case, or there were none.
      A user stored with capitals, from before emails were lowered, keeps every session. */
  lemma RoleChangeEndsSessionsIff(db: Db, email: string, role: string)
    requires Integrity(db) && UpdateRoleStep(db, email, role).1.Found?
    ensures var (db', r) := UpdateRoleStep(db, email, role);
      && (NoSessionOf(db', r.user) <==> LowerCase(r.user.email) || NoSessionOf(db, r.user))
      && (!LowerCase(r.user.email) ==> db'.sessions == db.sessions)
  {
    var (db', r) := UpdateRoleStep(db, email, role);
    var k := Lower(email);
    if LowerCase(r.user.email) {
      assert r.user.email == k;
    } else {
      forall id | id in db.sessions
        ensures db.sessions[id].email != k
      {
        LowerTwice(email);
      }
      assert db'.sessions == db.sessions;
    }
  }

  /** Such a user: the role changes, and the session stays good. */
  lemma CapitalsKeepSessions(hash: string, duration: nat)
    ensures var user := User("A", hash, Admin);
      var db := Db(map["a" := user], map["s" := Session("A", 0)]);
      var (db', r) := UpdateRoleStep(db, "A", "view");
      && Integrity(db) && r == Found(user.(role := View)) && !NoSessionOf(db', user)
      && AuthorizeStep(db', "s", duration, 0).1 == r
  {
    assert Lower("A") == "a";
    assert "view" != "admin" && "view" != "edit" && "view" != "run";
    var user := User("A", hash, Admin);
    var db := Db(map["a" := user], map["s" := Session("A", 0)]);
    var (db', r) := UpdateRoleStep(db, "A", "view");
    assert "s" in db'.sessions;
  }

  /** In every reachable state a successful role change, in any letter case, ends all sessions of that user and no
      others. */
  lemma RoleChangeEndsSessions(es: seq<Event>, c: Config, reaping: bool, email: string, role: string)
    requires UpdateRoleStep(After(es, c, reaping), email, role).1.Found?
    ensures var db := After(es, c, reaping);
      var (db', r) := UpdateRoleStep(db, email, role);
      && Lower(r.user.email) == Lower(email)
      && NoSessionOf(db', r.user)
      && forall id | id in db.sessions && !SessionOf(db, id, r.user) ::
           id in db'.sessions && db'.sessions[id] == db.sessions[id]
  {
    RunKeepsIntegrity(es, c, reaping);
    RoleChange(After(es, c, reaping), email, role);
    RoleChangeEndsSessionsIff(After(es, c, reaping), email, role);
  }

  // ----- Reaping is unobservable -----

  predicate Inserts(call: Call) {
    call.CreateSession? || call.InsertSession?
  }

  /** One clock for all calls, and no session id is handed out twice. */
  ghost predicate Sane(es: seq<Event>) {
    && (forall i, j | 0 <= i < j < |es| :: es[i].now <= es[j].now)
    && (forall i, j | 0 <= i < j < |es| && Inserts(es[i].call) && Inserts(es[j].call) ::
          es[i].call.newId != es[j].call.newId)
  }

  /** The reaper waits at least as long as a session lasts. */
  predicate Patient(c: Config) {
    c.duration <= c.timeout + c.expiration
  }

  /** `d'` is `d` less some sessions that have expired by `now`. */
  ghost predicate Reaped(d: Db, d': Db, c: Config, now: int) {
    && d'.users == d.users
    && (forall id | id in d'.sessions :: id in d.sessions && d'.sessions[id] == d.sessions[id])
    && (forall id | id in d.sessions && id !in d'.sessions :: !Live(d.sessions[id], c.duration, now))
  }

  /** The outcome is the same, but for the error that a session gets which has expired: without the reaper it is
      reported as expired, and once its row is gone as unknown. */
  predicate SameToCaller(call: Call, r: Outcome, r': Outcome) {
    r == r' || (call.Authorize? && r == Failed(Expired) && r' == Failed(NoSession))
  }

  /** Time only makes more sessions expire. */
  lemma LaterReaped(d: Db, d': Db, c: Config, now: int, later: int)
    requires Reaped(d, d', c, now) && now <= later
    ensures Reaped(d, d', c, later)
  {
  }

  lemma CallSimulates(d: Db, d': Db, c: Config, now: int, call: Call)
    requires Reaped(d, d', c, now) && call != Reap
    requires Inserts(call) ==> call.newId !in d.sessions
    ensures Reaped(Step(d, c, now, call).0, Step(d', c, now, call).0, c, now)
    ensures SameToCaller(call, Step(d, c, now, call).1, Step(d', c, now, call).1)
  {
    match call
    case Authorize(id) => AuthorizeSimulates(d, d', c, now, id);
    case CreateUser(_) =>
    case CreateSession(_, _, _) =>
    case InsertSession(_, _) =>
    case _ => RemovalSimulates(d, d', c, now, call);
  }

  /** An expired session is refused whether or not its row is still there. */
  lemma AuthorizeSimulates(d: Db, d': Db, c: Config, now: int, id: string)
    requires Reaped(d, d', c, now)
    ensures Reaped(AuthorizeStep(d, id, c.duration, now).0, AuthorizeStep(d', id, c.duration, now).0, c, now)
    ensures SameToCaller(Authorize(id),
                         AuthorizeStep(d, id, c.duration, now).1, AuthorizeStep(d', id, c.duration, now).1)
  {
  }

  lemma RemovalSimulates(d: Db, d': Db, c: Config, now: int, call: Call)
    requires Reaped(d, d', c, now)
    requires call.DeleteUser? || call.DeleteUserSession? || call.ClearNonCurrent? || call.UpdateRole?
    ensures Reaped(Step(d, c, now, call).0, Step(d', c, now, call).0, c, now)
    ensures Step(d, c, now, call).1 == Step(d', c, now, call).1
  {
  }

  lemma ReapSimulates(d: Db, d': Db, c: Config, now: int)
    requires Reaped(d, d', c, now) && Patient(c)
    ensures Reaped(d, Step(d', c, now, Reap).0, c, now)
  {
  }

  /** Every stored session id came from an earlier login. */
  lemma {:induction false} IdsComeFromLogins(es: seq<Event>, c: Config, reaping: bool, id: string)
    requires id in After(es, c, reaping).sessions
    ensures exists i :: 0 <= i < |es| && Inserts(es[i].call) && es[i].call.newId == id
  {
    var before := es[..|es| - 1];
    if id in After(before, c, reaping).sessions {
      IdsComeFromLogins(before, c, reaping, id);
      var i :| 0 <= i < |before| && Inserts(before[i].call) && before[i].call.newId == id;
      assert es[i] == before[i];
    } else {
      NewIdIsLogin(After(before, c, reaping), c, es[|es| - 1], reaping, id);
    }
  }

  lemma NewIdIsLogin(db: Db, c: Config, e: Event, reaping: bool, id: string)
    requires id !in db.sessions && id in EventStep(db, c, e, reaping).0.sessions
    ensures Inserts(e.call) && e.call.newId == id
  {
  }

  lemma EventSimulates(d: Db, d': Db, c: Config, e: Event)
    requires Reaped(d, d', c, e.now) && Patient(c)
    requires Inserts(e.call) ==> e.call.newId !in d.sessions
    ensures Reaped(EventStep(d, c, e, false).0, EventStep(d', c, e, true).0, c, e.now)
    ensures SameToCaller(e.call, EventStep(d, c, e, false).1, EventStep(d', c, e, true).1)
  {
    if !e.fails {
      if e.call == Reap {
        ReapSimulates(d, d', c, e.now);
      } else {
        CallSimulates(d, d', c, e.now, e.call);
      }
    }
  }

  lemma FreshLogin(es: seq<Event>, c: Config, reaping: bool)
    requires es != [] && Sane(es) && Inserts(es[|es| - 1].call)
    ensures es[|es| - 1].call.newId !in After(es[..|es| - 1], c, reaping).sessions
  {
    var id := es[|es| - 1].call.newId;
    if id in After(es[..|es| - 1], c, reaping).sessions {
      IdsComeFromLogins(es[..|es| - 1], c, reaping, id);
    }
  }

  /** The two runs stay related. */
  lemma {:induction false} RunsSimulate(es: seq<Event>, c: Config, now: int)
    requires Sane(es) && Patient(c) && (es != [] ==> es[|es| - 1].now <= now)
    ensures Reaped(After(es, c, false), After(es, c, true), c, now)
  {
    if es == [] {
    } else {
      var before, e := es[..|es| - 1], es[|es| - 1];
      RunsSimulate(before, c, e.now);
      if Inserts(e.call) {
        FreshLogin(es, c, false);
      }
      EventSimulates(After(before, c, false), After(before, c, true), c, e);
      LaterReaped(After(es, c, false), After(es, c, true), c, e.now, now);
    }
  }

  /** Every call of every run gives its caller the same as in the run without the reaper. */
  lemma ReapingIsUnobservable(es: seq<Event>, c: Config, i: nat)
    requires Sane(es) && Patient(c) && i < |es|
    ensures SameToCaller(es[i].call, OutcomeAt(es, c, false, i), OutcomeAt(es, c, true, i))
  {
    var before, e := es[..i], es[i];
    var upTo := es[..i + 1];
    assert upTo[..|upTo| - 1] == before;
    RunsSimulate(before, c, e.now);
    if Inserts(e.call) {
      FreshLogin(upTo, c, false);
    }
    EventSimulates(After(before, c, false), After(before, c, true), c, e);
  }

  /** The reaper removes exactly the sessions last used before its threshold, and a patient one changes for no session
      what its next use, then or later, finds, but for the error that an expired one gets. */
  lemma ReapSparesLive(db: Db, c: Config, id: string, now: int, later: int)
    ensures var db' := ReapStep(db, now - c.timeout - c.expiration).0;
      && (id in db'.sessions <==>
            id in db.sessions && db.sessions[id].lastUsed >= now - c.timeout - c.expiration)
      && (Patient(c) && now <= later ==>
            SameToCaller(Authorize(id),
                         AuthorizeStep(db, id, c.duration, later).1, AuthorizeStep(db', id, c.duration, later).1))
  {
  }

  /** The call asks for a session that only the run without the reaper still stores. */
  ghost predicate AsksForReaped(es: seq<Event>, c: Config, i: nat)
    requires i < |es|
  {
    && !es[i].fails && es[i].call.Authorize? && es[i].call.id != ""
    && es[i].call.id in After(es[..i], c, false).sessions
    && es[i].call.id !in After(es[..i], c, true).sessions
  }

  /** The outcome of a call is not the same exactly if it asks for a session that was reaped: then the error differs. */
  lemma OutcomeDiffersIff(es: seq<Event>, c: Config, i: nat)
    requires Sane(es) && Patient(c) && i < |es|
    ensures OutcomeAt(es, c, false, i) != OutcomeAt(es, c, true, i) <==> AsksForReaped(es, c, i)
  {
    ReapingIsUnobservable(es, c, i);
    RunsSimulateAt(es, c, i);
  }

  lemma RunsSimulateAt(es: seq<Event>, c: Config, i: nat)
    requires Sane(es) && Patient(c) && i < |es|
    ensures Reaped(After(es[..i], c, false), After(es[..i], c, true), c, es[i].now)
  {
    RunsSimulate(es[..i], c, es[i].now);
  }

  /** Such a run: login at 0, reaping at 6, and a use at 6 of a session that lasts for 5. */
  lemma ErrorShowsReaping(es: seq<Event>)
    requires es == LoginReapUse(6)
    ensures var c := Config(5, 5, 0);
      && Sane(es) && Patient(c)
      && OutcomeAt(es, c, false, 3) == Failed(Expired) && OutcomeAt(es, c, true, 3) == Failed(NoSession)
  {
    var c := Config(5, 5, 0);
    AfterReap(6, c, false);
    AfterReap(6, c, true);
  }

  function LoginReapUse(at: int): seq<Event> {
    [Event(0, CreateUser(User("a", "", Admin)), false),
     Event(0, CreateSession("a", Checks(true, NotEnrolled), "s"), false),
     Event(at, Reap, false),
     Event(at, Authorize("s"), false)]
  }

  lemma AfterLogin(at: int, c: Config, reaping: bool)
    ensures After(LoginReapUse(at)[..2], c, reaping)
         == Db(map["a" := User("a", "", Admin)], map["s" := Session("a", 0)])
  {
    var es := LoginReapUse(at);
    assert Lower("a") == "a";
    assert es[..2][..1] == es[..1] && es[..1][..0] == [];
    assert After(es[..0], c, reaping) == Db(map[], map[]);
    assert After(es[..1], c, reaping) == Db(map["a" := User("a", "", Admin)], map[]);
  }

  lemma AfterReap(at: int, c: Config, reaping: bool)
    requires c.timeout + c.expiration < at
    ensures var db := After(LoginReapUse(at)[..3], c, reaping);
      && db.users == map["a" := User("a", "", Admin)]
      && db.sessions == if reaping then map[] else map["s" := Session("a", 0)]
  {
    AfterLogin(at, c, reaping);
    assert LoginReapUse(at)[..3][..2] == LoginReapUse(at)[..2];
  }

  ghost predicate ReapingShows(es: seq<Event>, c: Config, i: nat) {
    Sane(es) && i < |es| && !SameToCaller(es[i].call, OutcomeAt(es, c, false, i), OutcomeAt(es, c, true, i))
  }

  /** The patience is needed: a reaper that waits for less time ends some session that would still have been
      accepted. */
  lemma ImpatientReaperShows(c: Config)
    requires !Patient(c) && 0 <= c.timeout + c.expiration
    ensures exists es: seq<Event>, i: nat :: ReapingShows(es, c, i)
  {
    var at := c.timeout + c.expiration + 1;
    var es := LoginReapUse(at);
    AfterReap(at, c, false);
    AfterReap(at, c, true);
    assert Lower("a") == "a";
    assert ReapingShows(es, c, 3);
  }

  /** For a reaper that waits for a time that is not negative, patience is exactly the condition. */
  lemma ReapingIsUnobservableIff(c: Config)
    requires 0 <= c.timeout + c.expiration
    ensures Patient(c) <==> !exists es: seq<Event>, i: nat :: ReapingShows(es, c, i)
  {
    if Patient(c) {
      forall es: seq<Event>, i: nat
        ensures !ReapingShows(es, c, i)
      {
        if Sane(es) && i < |es| {
          ReapingIsUnobservable(es, c, i);
        }
      }
    } else {
      ImpatientReaperShows(c);
    }
  }
}
