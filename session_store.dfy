/** The mock authentication store shared by src/state/useSessionStore.ts and
    src/store/useAuthStore.ts: a table of accounts keyed by lower-cased
    username (a JavaScript `Map`, so iterated in insertion order) and the
    session fields `user`, `isAuthenticated`, `isLoading` and `error`.
    Thrown errors are `Fail(message)` outcomes; the simulated network delay
    and the storage writes are not modelled, so `isLoading` is seen only
    after an action has finished. */
module Session {
  import opened Types
  import opened JsText

  /** A stored account: the user record and its password. */
  datatype Account = Account(user: User, password: string)

  /** `mockUsers`: the entries, and the keys in insertion order. */
  datatype Table = Table(users: map<string, Account>, order: seq<string>)

  /** The keys listed in `order` are exactly the keys of `users`, once each. */
  predicate WellFormed(t: Table) {
    (forall i :: 0 <= i < |t.order| ==> t.order[i] in t.users)
    && (forall k :: k in t.users ==> k in t.order)
    && (forall i, j :: 0 <= i < j < |t.order| ==> t.order[i] != t.order[j])
  }

  /** Every entry sits under its own lower-cased username, so usernames are
      unique up to case, and no two entries share an e-mail up to case. */
  predicate Unique(t: Table) {
    (forall k :: k in t.users ==> k == ToLower(t.users[k].user.username))
    && (forall k1, k2 :: k1 in t.users && k2 in t.users && k1 != k2 ==>
          !SameIgnoringCase(t.users[k1].user.email, t.users[k2].user.email))
  }

  /** `keys` without `key`, the others in their order. */
  function Without(keys: seq<string>, key: string): (r: seq<string>)
    ensures forall x :: x in r <==> x in keys && x != key
    ensures key !in keys ==> r == keys
    ensures (forall i, j :: 0 <= i < j < |keys| ==> keys[i] != keys[j]) ==>
      forall i, j :: 0 <= i < j < |r| ==> r[i] != r[j]
  {
    if keys == [] then []
    else if keys[0] == key then Without(keys[1..], key)
    else
      var rest := Without(keys[1..], key);
      assert (forall i, j :: 0 <= i < j < |keys| ==> keys[i] != keys[j]) ==>
        (forall i, j :: 0 <= i < j < |keys[1..]| ==> keys[1..][i] != keys[1..][j]) && keys[0] !in keys[1..];
      assert key !in keys ==> key !in keys[1..] && keys == [keys[0]] + keys[1..];
      [keys[0]] + rest
  }

  /** Removing a key that occurs once, at position i, closes the gap and
      leaves every other key where it was relative to the rest. */
  lemma {:induction false} WithoutRemovesOne(keys: seq<string>, key: string, i: nat)
    requires i < |keys| && keys[i] == key
    requires key !in keys[..i] && key !in keys[i + 1..]
    ensures Without(keys, key) == keys[..i] + keys[i + 1..]
  {
    var tail := keys[1..];
    if i == 0 {
      assert tail == keys[i + 1..];
    } else {
      assert keys[..i][0] == keys[0];
      assert Without(keys, key) == [keys[0]] + Without(tail, key);
      assert tail[..i - 1] == keys[..i][1..];
      assert tail[i..] == keys[i + 1..];
      WithoutRemovesOne(tail, key, i - 1);
      assert keys[..i] == [keys[0]] + tail[..i - 1];
    }
  }

  /** `mockUsers.set(key, account)`: a new key goes to the end of the
      order, an existing one keeps its place. */
  function Put(t: Table, key: string, account: Account): (r: Table)
    ensures r.users == t.users[key := account]
    ensures key in t.users ==> r.order == t.order
    ensures key !in t.users ==> r.order == t.order + [key]
    ensures WellFormed(t) ==> WellFormed(r)
  {
    Table(t.users[key := account], if key in t.users then t.order else t.order + [key])
  }

  /** `mockUsers.delete(key)`: the remaining keys keep their order. */
  function Delete(t: Table, key: string): (r: Table)
    ensures r.users == t.users - {key}
    ensures key !in t.order ==> r.order == t.order
    ensures WellFormed(t) ==> WellFormed(r)
  {
    var order := Without(t.order, key);
    assert forall i :: 0 <= i < |order| ==> order[i] in order;
    Table(t.users - {key}, order)
  }

  /** Deleting a stored key closes its gap in the order. */
  lemma DeleteClosesGap(t: Table, key: string)
    requires WellFormed(t) && key in t.users
    ensures exists i :: 0 <= i < |t.order| && t.order[i] == key && Delete(t, key).order == t.order[..i] + t.order[i + 1..]
  {
    var i :| 0 <= i < |t.order| && t.order[i] == key;
    forall j | 0 <= j < |t.order| && j != i
      ensures t.order[j] != key
    {
    }
    assert key !in t.order[..i];
    assert key !in t.order[i + 1..];
    WithoutRemovesOne(t.order, key, i);
  }

  /** Position i holds the first account, in `keys` order, with this e-mail. */
  predicate FirstMatchAt(users: map<string, Account>, keys: seq<string>, email: string, i: int)
    requires forall k :: 0 <= k < |keys| ==> keys[k] in users
  {
    && 0 <= i < |keys|
    && SameIgnoringCase(users[keys[i]].user.email, email)
    && forall j :: 0 <= j < i ==> !SameIgnoringCase(users[keys[j]].user.email, email)
  }

  /** `Array.from(mockUsers.values()).find(u => lower(u.user.email) === lower(email))`,
      over the keys `keys` in order: the first match. */
  function FindEmail(users: map<string, Account>, keys: seq<string>, email: string): (r: Option<Account>)
    requires forall i :: 0 <= i < |keys| ==> keys[i] in users
    ensures r.Some? ==> r.value in users.Values && SameIgnoringCase(r.value.user.email, email)
    ensures r.None? <==> forall i :: 0 <= i < |keys| ==> !SameIgnoringCase(users[keys[i]].user.email, email)
    ensures r.Some? ==> exists i :: FirstMatchAt(users, keys, email, i) && r.value == users[keys[i]]
  {
    if keys == [] then None
    else if SameIgnoringCase(users[keys[0]].user.email, email) then
      assert FirstMatchAt(users, keys, email, 0);
      Some(users[keys[0]])
    else
      var r := FindEmail(users, keys[1..], email);
      if r.Some? then
        FirstMatchShifts(users, keys, email, r.value);
        r
      else r
  }

  lemma FirstMatchShifts(users: map<string, Account>, keys: seq<string>, email: string, a: Account)
    requires |keys| > 0 && forall i :: 0 <= i < |keys| ==> keys[i] in users
    requires !SameIgnoringCase(users[keys[0]].user.email, email)
    requires exists i :: FirstMatchAt(users, keys[1..], email, i) && a == users[keys[1..][i]]
    ensures exists i :: FirstMatchAt(users, keys, email, i) && a == users[keys[i]]
  {
    var i :| FirstMatchAt(users, keys[1..], email, i) && a == users[keys[1..][i]];
    forall j | 0 <= j < i + 1
      ensures !SameIgnoringCase(users[keys[j]].user.email, email)
    {
      if j > 0 {
        assert keys[j] == keys[1..][j - 1];
      }
    }
    assert FirstMatchAt(users, keys, email, i + 1);
  }

  /** Some stored account has this e-mail, ignoring case. */
  predicate EmailTaken(t: Table, email: string) {
    exists k :: k in t.users && SameIgnoringCase(t.users[k].user.email, email)
  }

  /** The e-mail scan finds an account exactly when the e-mail is taken. */
  lemma FindEmailIffTaken(t: Table, email: string)
    requires WellFormed(t)
    ensures FindEmail(t.users, t.order, email).Some? <==> EmailTaken(t, email)
  {
    if EmailTaken(t, email) {
      var k :| k in t.users && SameIgnoringCase(t.users[k].user.email, email);
      var i :| 0 <= i < |t.order| && t.order[i] == k;
    }
  }

  /** When exactly one account has the e-mail, the scan finds that one. */
  lemma {:induction false} FindEmailOnlyMatch(users: map<string, Account>, keys: seq<string>, email: string, key: string)
    requires forall i :: 0 <= i < |keys| ==> keys[i] in users
    requires key in keys && SameIgnoringCase(users[key].user.email, email)
    requires forall i :: 0 <= i < |keys| && keys[i] != key ==> !SameIgnoringCase(users[keys[i]].user.email, email)
    ensures FindEmail(users, keys, email) == Some(users[key])
  {
    if keys[0] != key {
      assert forall i :: 0 <= i < |keys[1..]| ==> keys[1..][i] == keys[i + 1];
      FindEmailOnlyMatch(users, keys[1..], email, key);
    }
  }

  /** `login`'s lookup: the lower-cased identifier as a username key first,
      then the e-mail scan. */
  function Lookup(t: Table, identifier: string): (r: Option<Account>)
    requires WellFormed(t)
    ensures ToLower(identifier) in t.users ==> r == Some(t.users[ToLower(identifier)])
    ensures ToLower(identifier) !in t.users ==> r == FindEmail(t.users, t.order, identifier)
    ensures r.Some? ==> r.value in t.users.Values
  {
    if ToLower(identifier) in t.users then Some(t.users[ToLower(identifier)])
    else FindEmail(t.users, t.order, identifier)
  }

  /** `signUp`'s checks, in order. */
  function SignUpCheck(t: Table, data: SignUpData): (r: Outcome)
    ensures r == Fail("Username already taken") <==> ToLower(data.username) in t.users
    ensures r == Fail("Email already registered") <==> ToLower(data.username) !in t.users && EmailTaken(t, data.email)
    ensures r == Pass <==> ToLower(data.username) !in t.users && !EmailTaken(t, data.email)
  {
    if ToLower(data.username) in t.users then Fail("Username already taken")
    else if EmailTaken(t, data.email) then Fail("Email already registered")
    else Pass
  }

  /** The new user record; `stamp` stands for `Date.now()`. Username,
      e-mail and phone keep their case. */
  function NewUser(data: SignUpData, stamp: string): User {
    User("user_" + stamp, data.username, data.email, data.phone)
  }

  /** The table after `signUp`. */
  function SignUpTable(t: Table, data: SignUpData, stamp: string): Table {
    if SignUpCheck(t, data).Pass? then Put(t, ToLower(data.username), Account(NewUser(data, stamp), data.password))
    else t
  }

  /** `login`'s checks: an unknown identifier and a wrong password give the
      same message. */
  function LoginCheck(t: Table, data: LoginData): (r: Outcome)
    requires WellFormed(t)
    ensures r.Fail? ==> r == Fail("Invalid credentials")
    ensures r.Pass? <==> Lookup(t, data.emailOrUsername).Some? && Lookup(t, data.emailOrUsername).value.password == data.password
  {
    match Lookup(t, data.emailOrUsername)
    case None => Fail("Invalid credentials")
    case Some(account) => if account.password != data.password then Fail("Invalid credentials") else Pass
  }

  /** A successful sign-up keeps the table well formed and unique. */
  lemma SignUpKeepsUnique(t: Table, data: SignUpData, stamp: string)
    requires WellFormed(t) && Unique(t)
    ensures WellFormed(SignUpTable(t, data, stamp)) && Unique(SignUpTable(t, data, stamp))
  {
    if SignUpCheck(t, data).Pass? {
      var key := ToLower(data.username);
      var r := SignUpTable(t, data, stamp);
      forall k | k in t.users
        ensures !SameIgnoringCase(t.users[k].user.email, data.email)
      {
      }
      assert r.users[key].user.email == data.email;
    }
  }

  /** Deleting an entry keeps the table well formed and unique. */
  lemma DeleteKeepsUnique(t: Table, key: string)
    requires WellFormed(t) && Unique(t)
    ensures WellFormed(Delete(t, key)) && Unique(Delete(t, key))
  {
  }

  /** After signing up, logging in with the same username and password
      succeeds and yields the new user. */
  lemma SignUpThenLogIn(t: Table, data: SignUpData, stamp: string)
    requires WellFormed(t) && SignUpCheck(t, data).Pass?
    ensures
      var t' := SignUpTable(t, data, stamp);
      WellFormed(t')
      && Lookup(t', data.username) == Some(Account(NewUser(data, stamp), data.password))
      && LoginCheck(t', LoginData(data.username, data.password)) == Pass
  {
  }

  /** After signing up, logging in with the new e-mail (in any case) and
      the password also succeeds, unless that text is itself a username key. */
  lemma SignUpThenLogInByEmail(t: Table, data: SignUpData, stamp: string, email: string)
    requires WellFormed(t) && SignUpCheck(t, data).Pass?
    requires SameIgnoringCase(email, data.email)
    requires ToLower(email) !in SignUpTable(t, data, stamp).users
    ensures LoginCheck(SignUpTable(t, data, stamp), LoginData(email, data.password)) == Pass
  {
    var t' := SignUpTable(t, data, stamp);
    NewEmailFound(t, data, stamp, email);
    assert Lookup(t', email) == FindEmail(t'.users, t'.order, email);
  }

  /** The e-mail scan after a sign-up finds the new account. */
  lemma NewEmailFound(t: Table, data: SignUpData, stamp: string, email: string)
    requires WellFormed(t) && SignUpCheck(t, data).Pass?
    requires SameIgnoringCase(email, data.email)
    ensures WellFormed(SignUpTable(t, data, stamp))
    ensures FindEmail(SignUpTable(t, data, stamp).users, SignUpTable(t, data, stamp).order, email)
      == Some(Account(NewUser(data, stamp), data.password))
  {
    var key := ToLower(data.username);
    var account := Account(NewUser(data, stamp), data.password);
    var users, order := t.users[key := account], t.order + [key];
    assert SignUpTable(t, data, stamp) == Table(users, order);
    assert order[|t.order|] == key;
    forall i | 0 <= i < |order| && order[i] != key
      ensures !SameIgnoringCase(users[order[i]].user.email, email)
    {
      var k := order[i];
      assert k == t.order[i];
      assert users[k] == t.users[k];
      assert !SameIgnoringCase(t.users[k].user.email, data.email);
    }
    FindEmailOnlyMatch(users, order, email, key);
  }

  /** The username key wins: if the identifier names an account by
      username, a wrong password for it fails even when another account
      with that e-mail has this password. */
  lemma UsernameTakesPrecedence(t: Table, data: LoginData)
    requires WellFormed(t) && ToLower(data.emailOrUsername) in t.users
    requires t.users[ToLower(data.emailOrUsername)].password != data.password
    ensures LoginCheck(t, data) == Fail("Invalid credentials")
  {
  }

  /** The session fields. */
  datatype SessionState = SessionState(user: Option<User>, isAuthenticated: bool, isLoading: bool, error: Option<string>)

  /** The store: the `mockUsers` map and the session fields, updated in place. */
  class SessionStore {
    var users: map<string, Account>
    var order: seq<string>
    var user: Option<User>
    var isAuthenticated: bool
    var isLoading: bool
    var error: Option<string>

    function Accounts(): Table
      reads this
    {
      Table(users, order)
    }

    function Fields(): SessionState
      reads this
    {
      SessionState(user, isAuthenticated, isLoading, error)
    }

    predicate Valid()
      reads this
    {
      WellFormed(Accounts())
    }

    /** A fresh store over the accounts read back from storage. */
    constructor(stored: Table)
      requires WellFormed(stored)
      ensures Valid() && Accounts() == stored
      ensures Fields() == SessionState(None, false, false, None)
    {
      users := stored.users;
      order := stored.order;
      user := None;
      isAuthenticated := false;
      isLoading := false;
      error := None;
    }

    /** The e-mail scan over the accounts in insertion order. */
    method FindByEmail(email: string) returns (found: Option<Account>)
      requires Valid()
      ensures found == FindEmail(users, order, email)
    {
      var i := 0;
      while i < |order|
        invariant 0 <= i <= |order|
        invariant FindEmail(users, order, email) == FindEmail(users, order[i..], email)
      {
        var account := users[order[i]];
        if SameIgnoringCase(account.user.email, email) {
          return Some(account);
        }
        assert order[i..][1..] == order[i + 1..];
        i := i + 1;
      }
      return None;
    }

    /** `signUp(data)`; `stamp` stands for `Date.now()`. */
    method SignUp(data: SignUpData, stamp: string) returns (outcome: Outcome)
      requires Valid()
      modifies this
      ensures Valid()
      ensures outcome == SignUpCheck(old(Accounts()), data)
      ensures Accounts() == SignUpTable(old(Accounts()), data, stamp)
      ensures outcome.Pass? ==> Fields() == SessionState(Some(NewUser(data, stamp)), true, false, None)
      ensures outcome.Fail? ==> Fields() == old(Fields()).(isLoading := false, error := Some(outcome.message))
    {
      isLoading, error := true, None;
      var key := ToLower(data.username);
      if key in users {
        outcome := Fail("Username already taken");
      } else {
        var existing := FindByEmail(data.email);
        FindEmailIffTaken(Accounts(), data.email);
        if existing.Some? {
          outcome := Fail("Email already registered");
        } else {
          var newUser := NewUser(data, stamp);
          var t := Put(Accounts(), key, Account(newUser, data.password));
          users, order := t.users, t.order;
          user, isAuthenticated, isLoading, error := Some(newUser), true, false, None;
          outcome := Pass;
          return;
        }
      }
      isLoading, error := false, Some(outcome.message);
    }

    /** `login(data)` */
    method Login(data: LoginData) returns (outcome: Outcome)
      requires Valid()
      modifies this
      ensures Accounts() == old(Accounts())
      ensures outcome == LoginCheck(Accounts(), data)
      ensures outcome.Pass? ==>
        Fields() == SessionState(Some(Lookup(Accounts(), data.emailOrUsername).value.user), true, false, None)
      ensures outcome.Fail? ==> Fields() == old(Fields()).(isLoading := false, error := Some("Invalid credentials"))
    {
      isLoading, error := true, None;
      var found: Option<Account>;
      var key := ToLower(data.emailOrUsername);
      if key in users {
        found := Some(users[key]);
      } else {
        found := FindByEmail(data.emailOrUsername);
      }
      if found.None? || found.value.password != data.password {
        outcome := Fail("Invalid credentials");
        isLoading, error := false, Some(outcome.message);
      } else {
        user, isAuthenticated, isLoading, error := Some(found.value.user), true, false, None;
        outcome := Pass;
      }
    }

    /** `logout()`: the accounts stay. */
    method Logout()
      modifies this
      ensures Accounts() == old(Accounts())
      ensures Fields() == old(Fields()).(user := None, isAuthenticated := false, error := None)
    {
      user, isAuthenticated, error := None, false, None;
    }

    /** `deleteAccount()`: removes the signed-in user's entry, then signs out. */
    method DeleteAccount()
      requires Valid()
      modifies this
      ensures Valid()
      ensures Accounts() == if old(user).Some? then Delete(old(Accounts()), ToLower(old(user).value.username)) else old(Accounts())
      ensures Fields() == old(Fields()).(user := None, isAuthenticated := false, error := None)
    {
      if user.Some? {
        var t := Delete(Accounts(), ToLower(user.value.username));
        users, order := t.users, t.order;
      }
      user, isAuthenticated, error := None, false, None;
    }

    /** `clearError()` */
    method ClearError()
      modifies this
      ensures Accounts() == old(Accounts())
      ensures Fields() == old(Fields()).(error := None)
    {
      error := None;
    }
  }
}
