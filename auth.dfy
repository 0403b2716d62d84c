/** The auth store: a registry of users keyed by id and the signed-in user,
    changed by `register`, `login`, `logout` and `updateProfile`. */
module Auth {
  import opened Wrappers
  import opened Types
  import opened JsString

  /** The errors the store throws, one per message. */
  datatype AuthError =
    | NameHasDigits       // 'Name must not contain numbers'
    | PhoneNotDigits      // 'Phone must contain digits only'
    | EmailRegistered     // 'Email already registered'
    | InvalidCredentials  // 'Invalid credentials'
    | NotAuthenticated    // 'Not authenticated'

  /** The optional registration fields; `None` is an absent property. */
  datatype Extras = Extras(dob: Option<string>, address: Option<string>, phone: Option<string>)

  /** The fields `updateProfile` may change; `None` is an absent property. */
  datatype ProfileUpdate = ProfileUpdate(
    name: Option<string>,
    dob: Option<string>,
    address: Option<string>,
    phone: Option<string>)

  /** `a.toLowerCase() === b.toLowerCase()`. */
  predicate SameEmail(a: string, b: string) {
    Lower(a) == Lower(b)
  }

  /** Some registered user has `email`, ignoring case. */
  predicate EmailTaken(users: map<string, User>, email: string) {
    exists k :: k in users && SameEmail(users[k].email, email)
  }

  /** `extras?.phone && /\D/.test(extras.phone)`: a phone that is present,
      non-empty and holds a non-digit. */
  predicate RegisterPhoneRejected(phone: Option<string>) {
    phone.Some? && phone.value != "" && HasNonDigit(phone.value)
  }

  /** The checks `register` runs before changing anything, in their order:
      digits in the name, then a bad phone, then a taken email. */
  function RegisterCheck(users: map<string, User>, name: string, email: string, extras: Extras): (r: Option<AuthError>)
    ensures HasDigit(name) ==> r == Some(NameHasDigits)
    ensures !HasDigit(name) && RegisterPhoneRejected(extras.phone) ==> r == Some(PhoneNotDigits)
    ensures r == Some(EmailRegistered) <==>
              !HasDigit(name) && !RegisterPhoneRejected(extras.phone) && EmailTaken(users, email)
    ensures r == None <==>
              !HasDigit(name) && !RegisterPhoneRejected(extras.phone) && !EmailTaken(users, email)
  {
    if HasDigit(name) then Some(NameHasDigits)
    else if RegisterPhoneRejected(extras.phone) then Some(PhoneNotDigits)
    else if EmailTaken(users, email) then Some(EmailRegistered)
    else None
  }

  /** The checks `updateProfile` runs on a signed-in user: each field is
      checked only when provided, the name before the phone; an empty phone
      passes. */
  function ProfileCheck(updates: ProfileUpdate): (r: Option<AuthError>)
    ensures r == None <==>
              (updates.name.Some? ==> !HasDigit(updates.name.value)) &&
              (updates.phone.Some? ==> forall i :: 0 <= i < |updates.phone.value| ==> IsDigit(updates.phone.value[i]))
    ensures updates.name.Some? && HasDigit(updates.name.value) ==> r == Some(NameHasDigits)
    ensures (updates.name.Some? ==> !HasDigit(updates.name.value))
            && updates.phone.Some? && HasNonDigit(updates.phone.value)
            ==> r == Some(PhoneNotDigits)
    ensures r.Some? ==> r.value in {NameHasDigits, PhoneNotDigits}
  {
    if updates.name.Some? && HasDigit(updates.name.value) then Some(NameHasDigits)
    else if updates.phone.Some? && HasNonDigit(updates.phone.value) then Some(PhoneNotDigits)
    else None
  }

  /** `{ ...current, ...updates }`: provided fields replace the user's, and
      the id, email and password are kept. */
  function Merge(current: User, updates: ProfileUpdate): (r: User)
    ensures r.id == current.id && r.email == current.email && r.password == current.password
    ensures r.name == updates.name.GetOr(current.name)
    ensures r.dob == (if updates.dob.Some? then updates.dob else current.dob)
    ensures r.address == (if updates.address.Some? then updates.address else current.address)
    ensures r.phone == (if updates.phone.Some? then updates.phone else current.phone)
    ensures updates == ProfileUpdate(None, None, None, None) ==> r == current
  {
    current.(
      name := updates.name.GetOr(current.name),
      dob := if updates.dob.Some? then updates.dob else current.dob,
      address := if updates.address.Some? then updates.address else current.address,
      phone := if updates.phone.Some? then updates.phone else current.phone)
  }

  /** The `login` search condition. */
  predicate Credentials(u: User, email: string, password: string) {
    SameEmail(u.email, email) && u.password == password
  }

  /** Every user is stored under its own id. */
  ghost predicate KeyedById(users: map<string, User>) {
    forall k :: k in users ==> users[k].id == k
  }

  /** No two users share an email, ignoring case. */
  ghost predicate EmailsDistinct(users: map<string, User>) {
    forall a, b :: a in users && b in users && a != b ==> !SameEmail(users[a].email, users[b].email)
  }

  /** Adding a user whose email is not taken, under any id, keeps emails
      distinct; this is what `register`'s check buys. */
  lemma RegisterKeepsEmailsDistinct(users: map<string, User>, u: User)
    requires EmailsDistinct(users)
    requires !EmailTaken(users, u.email)
    ensures EmailsDistinct(users[u.id := u])
  {
    var m := users[u.id := u];
    forall a, b | a in m && b in m && a != b
      ensures !SameEmail(m[a].email, m[b].email)
    {
      if a == u.id {
        assert !SameEmail(users[b].email, u.email);
      } else if b == u.id {
        assert !SameEmail(users[a].email, u.email);
      }
    }
  }

  /** Rewriting a user with a record that has the same email keeps emails
      distinct; this is why `updateProfile` cannot break uniqueness. */
  lemma RewriteKeepsEmailsDistinct(users: map<string, User>, u: User)
    requires EmailsDistinct(users)
    requires u.id in users && users[u.id].email == u.email
    ensures EmailsDistinct(users[u.id := u])
  {
    var m := users[u.id := u];
    forall a, b | a in m && b in m && a != b
      ensures !SameEmail(m[a].email, m[b].email)
    {
      assert m[a].email == users[a].email && m[b].email == users[b].email;
    }
  }

  /** With distinct emails at most one user matches a login, so `find`
      returns the same user whatever order it visits them in. */
  lemma CredentialsUnique(users: map<string, User>, email: string, password: string, a: string, b: string)
    requires EmailsDistinct(users)
    requires a in users && Credentials(users[a], email, password)
    requires b in users && Credentials(users[b], email, password)
    ensures a == b
  {
    if a != b {
      assert SameEmail(users[a].email, users[b].email);
    }
  }

  class AuthStore {
    var currentUser: Option<User>
    var users: map<string, User>

    /** Users are keyed by id, their emails are distinct ignoring case, and a
        signed-in user is the registry's record for that id. */
    ghost predicate Valid()
      reads this
    {
      && KeyedById(users)
      && EmailsDistinct(users)
      && (currentUser.Some? ==> currentUser.value.id in users && users[currentUser.value.id] == currentUser.value)
    }

    constructor ()
      ensures currentUser == None && users == map[] && Valid()
    {
      currentUser := None;
      users := map[];
    }

    /** `register(name, email, password, extras)` with the random id passed in
        as `id`. On success exactly the new user is written under `id` and
        becomes the current user; on failure nothing changes. */
    method Register(id: string, name: string, email: string, password: string, extras: Extras)
      returns (r: Result<User, AuthError>)
      requires Valid()
      modifies this
      ensures Valid()
      ensures RegisterCheck(old(users), name, email, extras).Some? ==>
                r == Failure(RegisterCheck(old(users), name, email, extras).value)
                && users == old(users) && currentUser == old(currentUser)
      ensures RegisterCheck(old(users), name, email, extras).None? ==>
                r == Success(User(id, name, email, password, extras.dob, extras.address, extras.phone))
                && users == old(users)[id := r.value] && currentUser == Some(r.value)
      ensures r.Success? && id !in old(users) ==> |users| == |old(users)| + 1
      ensures forall k :: k in old(users) && k != id ==> k in users && users[k] == old(users)[k]
    {
      var check := RegisterCheck(users, name, email, extras);
      if check.Some? {
        return Failure(check.value);
      }
      var user := User(id, name, email, password, extras.dob, extras.address, extras.phone);
      RegisterKeepsEmailsDistinct(users, user);
      users := users[id := user];
      currentUser := Some(user);
      r := Success(user);
    }

    /** `login(email, password)`: succeeds exactly when some user has the
        email (ignoring case) and the exact password, and then that user is
        current; the registry never changes. */
    method Login(email: string, password: string) returns (r: Result<User, AuthError>)
      requires Valid()
      modifies this
      ensures Valid()
      ensures users == old(users)
      ensures r.Success? <==> exists k :: k in users && Credentials(users[k], email, password)
      ensures r.Success? ==> currentUser == Some(r.value)
      ensures r.Success? ==>
                forall k :: k in users && Credentials(users[k], email, password) ==> users[k] == r.value
      ensures r.Failure? ==> r.error == InvalidCredentials && currentUser == old(currentUser)
    {
      if !exists k :: k in users && Credentials(users[k], email, password) {
        return Failure(InvalidCredentials);
      }
      var k :| k in users && Credentials(users[k], email, password);
      forall j | j in users && Credentials(users[j], email, password) ensures users[j] == users[k] {
        CredentialsUnique(users, email, password, j, k);
      }
      currentUser := Some(users[k]);
      r := Success(users[k]);
    }

    /** `logout()`: no user is current afterwards, whatever the state before,
        so a second call changes nothing. */
    method Logout()
      requires Valid()
      modifies this
      ensures Valid()
      ensures currentUser == None && users == old(users)
    {
      currentUser := None;
    }

    /** `updateProfile(updates)`: fails when nobody is signed in or a provided
        field is invalid, changing nothing; otherwise the merged record
        replaces the current user, in the registry and as current user. */
    method UpdateProfile(updates: ProfileUpdate) returns (r: Result<User, AuthError>)
      requires Valid()
      modifies this
      ensures Valid()
      ensures old(currentUser).None? ==>
                r == Failure(NotAuthenticated) && users == old(users) && currentUser == old(currentUser)
      ensures old(currentUser).Some? && ProfileCheck(updates).Some? ==>
                r == Failure(ProfileCheck(updates).value) && users == old(users) && currentUser == old(currentUser)
      ensures old(currentUser).Some? && ProfileCheck(updates).None? ==>
                r == Success(Merge(old(currentUser).value, updates))
                && users == old(users)[r.value.id := r.value] && currentUser == Some(r.value)
                && r.value.id == old(currentUser).value.id
    {
      if currentUser.None? {
        return Failure(NotAuthenticated);
      }
      var check := ProfileCheck(updates);
      if check.Some? {
        return Failure(check.value);
      }
      var next := Merge(currentUser.value, updates);
      RewriteKeepsEmailsDistinct(users, next);
      users := users[next.id := next];
      currentUser := Some(next);
      r := Success(next);
    }
  }
}
