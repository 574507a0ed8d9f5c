/**
 * The simulated account store of CanvasConnect/src/context/AuthContext.jsx:
 * a list of `{username, password}` persisted in `localStorage`, and the
 * current user, kept both in a state cell and in `localStorage`.
 */
module AuthContext {
  import opened Common

  datatype User = User(username: string, password: string)

  /** A `localStorage` entry: missing (or empty), not valid JSON, or a parsed value. */
  datatype Entry<T> = Absent | Unparsable | Parsed(value: T)

  const USERNAME_EXISTS: string := "Username already exists!"
  const INVALID_CREDENTIALS: string := "Invalid username or password!"
  const TOO_SHORT: string := "Username and password must be at least 3 characters long."

  /** `getRegisteredUsers`: the parsed list, or the empty list when nothing usable is stored. */
  function GetRegisteredUsers(entry: Entry<seq<User>>): (users: seq<User>)
  {
    match entry
    case Parsed(users) => users
    case _ => []
  }

  /** `users.some(user => user.username === username)`. */
  function UsernameTaken(users: seq<User>, name: string): (taken: bool)
    ensures taken <==> exists i :: 0 <= i < |users| && users[i].username == name
    decreases |users|
  {
    if users == [] then false
    else if users[0].username == name then true
    else
      var rest := UsernameTaken(users[1..], name);
      assert rest ==> exists i :: 0 <= i < |users| && users[i].username == name by {
        if rest {
          var i :| 0 <= i < |users| - 1 && users[1..][i].username == name;
          assert users[i + 1].username == name;
        }
      }
      rest
  }

  predicate Matches(u: User, name: string, password: string)
  {
    u.username == name && u.password == password
  }

  /** `users.find(u => u.username === username && u.password === password)`: the first exact match. */
  function FindUser(users: seq<User>, name: string, password: string): (found: Option<User>)
    ensures found.None? <==> forall i :: 0 <= i < |users| ==> !Matches(users[i], name, password)
    ensures found.Some? ==> exists i :: (0 <= i < |users| && users[i] == found.value
      && Matches(users[i], name, password)
      && forall j :: 0 <= j < i ==> !Matches(users[j], name, password))
    decreases |users|
  {
    if users == [] then None
    else if Matches(users[0], name, password) then Some(users[0])
    else
      var rest := FindUser(users[1..], name, password);
      assert rest.Some? ==> exists i :: (0 <= i < |users| && users[i] == rest.value
        && Matches(users[i], name, password)
        && forall j :: 0 <= j < i ==> !Matches(users[j], name, password)) by {
        if rest.Some? {
          var i :| 0 <= i < |users| - 1 && users[1..][i] == rest.value
            && Matches(users[1..][i], name, password)
            && forall j :: 0 <= j < i ==> !Matches(users[1..][j], name, password);
          assert forall j :: 0 <= j < i + 1 ==> !Matches(users[j], name, password) by {
            forall j | 0 <= j < i + 1 ensures !Matches(users[j], name, password) {
              if j > 0 { assert users[j] == users[1..][j - 1]; }
            }
          }
        }
      }
      assert rest.None? ==> forall i :: 0 <= i < |users| ==> !Matches(users[i], name, password) by {
        if rest.None? {
          forall i | 0 <= i < |users| ensures !Matches(users[i], name, password) {
            if i > 0 { assert users[i] == users[1..][i - 1]; }
          }
        }
      }
      rest
  }

  /** No two stored users share a username. */
  predicate UniqueUsernames(users: seq<User>)
  {
    forall i, j :: 0 <= i < j < |users| ==> users[i].username != users[j].username
  }

  /** The user list after `register(name, password)`: unchanged on a duplicate, else the new user appended. */
  function RegisterList(users: seq<User>, name: string, password: string): (r: seq<User>)
    ensures |users| <= |r| <= |users| + 1
    ensures r[..|users|] == users
    ensures |r| == |users| + 1 <==> !UsernameTaken(users, name)
    ensures |r| == |users| + 1 ==> r[|users|] == User(name, password)
    ensures UsernameTaken(r, name)
  {
    if UsernameTaken(users, name) then users else users + [User(name, password)]
  }

  /** One registration keeps the usernames distinct. */
  lemma RegisterKeepsUnique(users: seq<User>, name: string, password: string)
    requires UniqueUsernames(users)
    ensures UniqueUsernames(RegisterList(users, name, password))
  {
  }

  /** The user list after the registrations `requests` in order, from `users`. */
  function RegisterAll(users: seq<User>, requests: seq<User>): (r: seq<User>)
    decreases |requests|
  {
    if requests == [] then users
    else RegisterAll(RegisterList(users, requests[0].username, requests[0].password), requests[1..])
  }

  /** Usernames stay pairwise distinct across any sequence of registrations. */
  lemma {:induction false} RegisterAllKeepsUnique(users: seq<User>, requests: seq<User>)
    requires UniqueUsernames(users)
    ensures UniqueUsernames(RegisterAll(users, requests))
    decreases |requests|
  {
    if requests != [] {
      RegisterKeepsUnique(users, requests[0].username, requests[0].password);
      RegisterAllKeepsUnique(RegisterList(users, requests[0].username, requests[0].password), requests[1..]);
    }
  }

  /** A registration is a login: right after registering a new name, its credentials find that user. */
  lemma RegisterThenLogin(users: seq<User>, name: string, password: string)
    requires !UsernameTaken(users, name)
    ensures FindUser(RegisterList(users, name, password), name, password) == Some(User(name, password))
  {
    var r := RegisterList(users, name, password);
    var found := FindUser(r, name, password);
    assert Matches(r[|users|], name, password);
    var i :| 0 <= i < |r| && r[i] == found.value && Matches(r[i], name, password);
    assert i == |users|;
  }

  /** The registration page's guard in front of `register`: both fields at least 3 characters. */
  predicate LongEnough(name: string, password: string)
  {
    |name| >= 3 && |password| >= 3
  }

  class AuthProvider {
    /** `localStorage[LS_AUTH_USERS]`. */
    var usersEntry: Entry<seq<User>>
    /** `localStorage[LS_CURRENT_USER]`. */
    var currentEntry: Entry<User>
    /** The `currentUser` state cell. */
    var currentUser: Option<User>

    /** The registered users as `getRegisteredUsers` reads them. */
    function RegisteredUsers(): (users: seq<User>)
      reads this
    {
      GetRegisteredUsers(usersEntry)
    }

    /**
     * Mounting the provider: the stored current user is restored; an
     * entry that does not parse is removed.
     */
    constructor (storedUsers: Entry<seq<User>>, storedCurrent: Entry<User>)
      ensures usersEntry == storedUsers
      ensures storedCurrent.Parsed? ==> currentUser == Some(storedCurrent.value) && currentEntry == storedCurrent
      ensures !storedCurrent.Parsed? ==> currentUser == None && currentEntry == Absent
    {
      usersEntry := storedUsers;
      match storedCurrent {
        case Parsed(u) =>
          currentUser := Some(u);
          currentEntry := storedCurrent;
        case _ =>
          currentUser := None;
          currentEntry := Absent;
      }
    }

    /** `isAuthenticated`: `!!currentUser`. */
    function IsAuthenticated(): (authenticated: bool)
      reads this
    {
      match currentUser
      case Some(_) => true
      case None => false
    }

    /**
     * `register(username, password)`.  A username already in the list
     * throws `Username already exists!` and changes nothing; otherwise
     * the new user is appended to the stored list and becomes the
     * current user.
     */
    method Register(username: string, password: string) returns (r: Result<User>)
      modifies this
      ensures UsernameTaken(old(RegisteredUsers()), username) ==>
        && r == Err(USERNAME_EXISTS)
        && usersEntry == old(usersEntry) && currentEntry == old(currentEntry) && currentUser == old(currentUser)
      ensures !UsernameTaken(old(RegisteredUsers()), username) ==>
        && r == Ok(User(username, password))
        && usersEntry == Parsed(old(RegisteredUsers()) + [User(username, password)])
        && currentEntry == Parsed(User(username, password))
        && currentUser == Some(User(username, password))
      ensures RegisteredUsers() == RegisterList(old(RegisteredUsers()), username, password)
      ensures UniqueUsernames(old(RegisteredUsers())) ==> UniqueUsernames(RegisteredUsers())
      ensures !old(usersEntry).Parsed? ==>
        r == Ok(User(username, password)) && usersEntry == Parsed([User(username, password)])
      ensures old(usersEntry).Parsed? ==> RegisteredUsers() == RegisterList(old(usersEntry).value, username, password)
    {
      var users := GetRegisteredUsers(usersEntry);
      if UsernameTaken(users, username) {
        return Err(USERNAME_EXISTS);
      }
      var newUser := User(username, password);
      usersEntry := Parsed(users + [newUser]);
      currentEntry := Parsed(newUser);
      currentUser := Some(newUser);
      if UniqueUsernames(users) {
        RegisterKeepsUnique(users, username, password);
      }
      return Ok(newUser);
    }

    /**
     * The registration page's submit: credentials shorter than 3
     * characters are refused before `register` is called.
     */
    method SubmitRegistration(username: string, password: string) returns (r: Result<User>)
      modifies this
      ensures !LongEnough(username, password) ==>
        && r == Err(TOO_SHORT)
        && usersEntry == old(usersEntry) && currentEntry == old(currentEntry) && currentUser == old(currentUser)
      ensures LongEnough(username, password) ==> RegisteredUsers() == RegisterList(old(RegisteredUsers()), username, password)
      ensures LongEnough(username, password) && UsernameTaken(old(RegisteredUsers()), username) ==>
        && r == Err(USERNAME_EXISTS)
        && usersEntry == old(usersEntry) && currentEntry == old(currentEntry) && currentUser == old(currentUser)
      ensures LongEnough(username, password) && !UsernameTaken(old(RegisteredUsers()), username) ==>
        && r == Ok(User(username, password))
        && usersEntry == Parsed(old(RegisteredUsers()) + [User(username, password)])
        && currentEntry == Parsed(User(username, password))
        && currentUser == Some(User(username, password))
      ensures r.Ok? ==> currentUser == Some(r.value) && LongEnough(r.value.username, r.value.password)
      ensures UniqueUsernames(old(RegisteredUsers())) ==> UniqueUsernames(RegisteredUsers())
    {
      if !LongEnough(username, password) {
        return Err(TOO_SHORT);
      }
      r := Register(username, password);
    }

    /**
     * `login(username, password)`.  The first stored user with both
     * fields equal becomes the current user; with none, it throws
     * `Invalid username or password!` and the current user is unchanged.
     */
    method Login(username: string, password: string) returns (r: Result<User>)
      modifies this`currentEntry, this`currentUser
      ensures FindUser(RegisteredUsers(), username, password).None? ==>
        r == Err(INVALID_CREDENTIALS) && currentEntry == old(currentEntry) && currentUser == old(currentUser)
      ensures FindUser(RegisteredUsers(), username, password).Some? ==>
        var u := FindUser(RegisteredUsers(), username, password).value;
        r == Ok(u) && currentEntry == Parsed(u) && currentUser == Some(u)
      ensures r.Ok? <==> exists i :: 0 <= i < |RegisteredUsers()| && Matches(RegisteredUsers()[i], username, password)
    {
      var found := FindUser(GetRegisteredUsers(usersEntry), username, password);
      match found {
        case None =>
          return Err(INVALID_CREDENTIALS);
        case Some(u) =>
          currentEntry := Parsed(u);
          currentUser := Some(u);
          return Ok(u);
      }
    }

    /** `logout()`: the current user is removed; the registered users are untouched. */
    method Logout()
      modifies this`currentEntry, this`currentUser
      ensures currentUser == None && currentEntry == Absent
      ensures usersEntry == old(usersEntry)
      ensures !IsAuthenticated()
    {
      currentEntry := Absent;
      currentUser := None;
    }
  }
}
