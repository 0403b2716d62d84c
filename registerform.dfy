/** The registration form's submit handler: it validates the name and phone,
    builds the optional fields from the non-empty inputs and calls the auth
    store's `register` with the trimmed name. */
module RegisterForm {
  import opened Wrappers
  import opened Types
  import opened JsString
  import Auth

  /** `isValidName`: the trimmed name is non-empty and the name holds no
      digit. */
  function IsValidName(name: string): (r: bool)
    ensures r <==> (exists i :: 0 <= i < |name| && !IsWhiteSpace(name[i]))
                   && forall i :: 0 <= i < |name| ==> !IsDigit(name[i])
  {
    TrimSpec(name);
    |Trim(name)| > 0 && !HasDigit(name)
  }

  /** `isValidPhone`: the phone is empty or only digits. */
  function IsValidPhone(phone: string): (r: bool)
    ensures r <==> forall i :: 0 <= i < |phone| ==> IsDigit(phone[i])
  {
    phone == "" || IsDigitsOnly(phone)
  }

  /** `extras`: each optional field is set only when its input is
      non-empty. */
  function BuildExtras(phone: string, dob: string, address: string): (e: Auth.Extras)
    ensures e.phone.Some? <==> phone != ""
    ensures e.dob.Some? <==> dob != ""
    ensures e.address.Some? <==> address != ""
    ensures e.phone.Some? ==> e.phone.value == phone
    ensures e.dob.Some? ==> e.dob.value == dob
    ensures e.address.Some? ==> e.address.value == address
  {
    Auth.Extras(
      if dob != "" then Some(dob) else None,
      if address != "" then Some(address) else None,
      if phone != "" then Some(phone) else None)
  }

  /** What submitting the form does: report an error without calling the
      store, or call `register` with these arguments. */
  datatype Submission =
    | Rejected(error: Auth.AuthError)
    | CallRegister(name: string, email: string, password: string, extras: Auth.Extras)

  /** `onSubmit`: the name error first, then the phone error; otherwise
      `register(name.trim(), email, password, extras)`. The form reports an
      empty name with the store's digits message. */
  function Submit(name: string, email: string, password: string, phone: string, dob: string, address: string): (s: Submission)
    ensures !IsValidName(name) ==> s == Rejected(Auth.NameHasDigits)
    ensures IsValidName(name) && !IsValidPhone(phone) ==> s == Rejected(Auth.PhoneNotDigits)
    ensures s.CallRegister? <==> IsValidName(name) && IsValidPhone(phone)
    ensures s.CallRegister? ==> s.name == Trim(name) && s.email == email && s.password == password
                                && s.extras == BuildExtras(phone, dob, address)
  {
    if !IsValidName(name) then Rejected(Auth.NameHasDigits)
    else if !IsValidPhone(phone) then Rejected(Auth.PhoneNotDigits)
    else CallRegister(Trim(name), email, password, BuildExtras(phone, dob, address))
  }

  /** Whatever the form passes to `register` clears the store's own name and
      phone checks, so the store can only still refuse a taken email. */
  lemma SubmittedPassesStoreChecks(users: map<string, User>, name: string, email: string, password: string,
                                   phone: string, dob: string, address: string)
    requires Submit(name, email, password, phone, dob, address).CallRegister?
    ensures var s := Submit(name, email, password, phone, dob, address);
            Auth.RegisterCheck(users, s.name, s.email, s.extras) in {None, Some(Auth.EmailRegistered)}
    ensures var s := Submit(name, email, password, phone, dob, address);
            Auth.RegisterCheck(users, s.name, s.email, s.extras) == Some(Auth.EmailRegistered)
            <==> Auth.EmailTaken(users, email)
  {
    TrimKeepsDigits(name);
  }

  /** The form together with the store: an invalid form changes nothing; a
      valid one registers the trimmed name with the built extras. */
  method SubmitForm(store: Auth.AuthStore, id: string, name: string, email: string, password: string,
                    phone: string, dob: string, address: string)
    returns (r: Result<User, Auth.AuthError>)
    requires store.Valid()
    modifies store
    ensures store.Valid()
    ensures !IsValidName(name) ==> r == Failure(Auth.NameHasDigits) && store.users == old(store.users)
                                   && store.currentUser == old(store.currentUser)
    ensures IsValidName(name) && !IsValidPhone(phone) ==>
              r == Failure(Auth.PhoneNotDigits) && store.users == old(store.users)
              && store.currentUser == old(store.currentUser)
    ensures r == Failure(Auth.EmailRegistered) || r.Success? ||
            (r.Failure? && store.users == old(store.users) && store.currentUser == old(store.currentUser))
    ensures r.Success? ==> r.value == User(id, Trim(name), email, password,
                                           BuildExtras(phone, dob, address).dob,
                                           BuildExtras(phone, dob, address).address,
                                           BuildExtras(phone, dob, address).phone)
                           && store.currentUser == Some(r.value)
                           && store.users == old(store.users)[id := r.value]
    ensures IsValidName(name) && IsValidPhone(phone) && Auth.EmailTaken(old(store.users), email) ==>
              r == Failure(Auth.EmailRegistered) && store.users == old(store.users)
              && store.currentUser == old(store.currentUser)
    ensures IsValidName(name) && IsValidPhone(phone) && !Auth.EmailTaken(old(store.users), email) ==> r.Success?
    ensures r.Success? <==> IsValidName(name) && IsValidPhone(phone) && !Auth.EmailTaken(old(store.users), email)
  {
    var s := Submit(name, email, password, phone, dob, address);
    if s.Rejected? {
      return Failure(s.error);
    }
    SubmittedPassesStoreChecks(store.users, name, email, password, phone, dob, address);
    r := store.Register(id, s.name, s.email, s.password, s.extras);
  }
}
