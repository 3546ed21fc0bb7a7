/** Authentication decisions: six-digit PINs, PIN login, account-status
    lookup, and find-or-create for accounts from a social provider. Hashing
    is abstract: `hashOf` stands for `bcrypt.hash` and `matches` for
    `bcrypt.compare`; token signing is left out, so a successful login
    returns the identity the token is signed for. */
module Auth {
  import opened Util
  import opened Accounts

  datatype Role = PassengerRole | DriverRole

  datatype Repos = Repos(passengers: seq<PassengerAccount>, drivers: seq<DriverAccount>)

  datatype AuthError = InvalidPinFormat | UserNotFound | PinNotSet | InvalidPin

  datatype Outcome<T> = Success(value: T) | Failure(error: AuthError)

  predicate IsDigit(c: char) {
    '0' <= c <= '9'
  }

  /** The pattern `^\d{6}$`. */
  predicate IsSixDigitPin(pin: string) {
    |pin| == 6 && forall i :: 0 <= i < |pin| ==> IsDigit(pin[i])
  }

  /** `setPin`: stores the hash of a valid PIN on the row with that id in the
      table of the given role; updating an id that is not there changes
      nothing. */
  function SetPin(repos: Repos, userId: string, pin: string, role: Role,
                  hashOf: string -> string): (r: Outcome<Repos>)
    ensures r.Failure? <==> !IsSixDigitPin(pin)
    ensures r.Failure? ==> r.error == InvalidPinFormat
    ensures r.Success? && role == PassengerRole ==>
      && r.value.drivers == repos.drivers
      && |r.value.passengers| == |repos.passengers|
      && forall i :: 0 <= i < |repos.passengers| ==>
           r.value.passengers[i] ==
             if repos.passengers[i].id == userId
             then repos.passengers[i].(pinHash := Some(hashOf(pin)))
             else repos.passengers[i]
    ensures r.Success? && role == DriverRole ==>
      && r.value.passengers == repos.passengers
      && |r.value.drivers| == |repos.drivers|
      && forall i :: 0 <= i < |repos.drivers| ==>
           r.value.drivers[i] ==
             if repos.drivers[i].id == userId
             then repos.drivers[i].(pinHash := Some(hashOf(pin)))
             else repos.drivers[i]
  {
    if !IsSixDigitPin(pin) then Failure(InvalidPinFormat)
    else
      var h := hashOf(pin);
      match role
      case PassengerRole =>
        Success(repos.(passengers := MapWhere(repos.passengers, PassengerWithId(userId),
                                              (p: PassengerAccount) => p.(pinHash := Some(h)))))
      case DriverRole =>
        Success(repos.(drivers := MapWhere(repos.drivers, DriverWithId(userId),
                                           (d: DriverAccount) => d.(pinHash := Some(h)))))
  }

  /** The fields of a user row that the PIN checks read. */
  datatype UserView = UserView(id: string, name: string, phone: string, pinHash: Option<string>)

  function FindUser(repos: Repos, phone: string, role: Role): (u: Option<UserView>)
    ensures role == PassengerRole ==>
      (u.None? <==> Lookup(repos.passengers, PassengerWithPhone(phone)).None?)
    ensures role == DriverRole ==>
      (u.None? <==> Lookup(repos.drivers, DriverWithPhone(phone)).None?)
    ensures u.Some? ==> u.value.phone == phone
  {
    match role
    case PassengerRole =>
      (match Lookup(repos.passengers, PassengerWithPhone(phone))
       case None => None
       case Some(p) => Some(UserView(p.id, p.name, p.phone, p.pinHash)))
    case DriverRole =>
      (match Lookup(repos.drivers, DriverWithPhone(phone))
       case None => None
       case Some(d) => Some(UserView(d.id, d.name, d.phone, d.pinHash)))
  }

  datatype Identity = Identity(id: string, name: string, phone: string)

  /** `validatePinLogin`: unknown user, no stored PIN (missing or empty),
      and a PIN that does not match are the three refusals, in that order. */
  function ValidatePinLogin(repos: Repos, phone: string, pin: string, role: Role,
                            matches: (string, string) -> bool): (r: Outcome<Identity>)
    ensures r.Success? <==>
      var u := FindUser(repos, phone, role);
      u.Some? && Truthy(u.value.pinHash) && matches(pin, u.value.pinHash.value)
    ensures r.Success? ==>
      var u := FindUser(repos, phone, role).value;
      r.value == Identity(u.id, u.name, u.phone)
    ensures r == Failure(UserNotFound) <==> FindUser(repos, phone, role).None?
  {
    match FindUser(repos, phone, role)
    case None => Failure(UserNotFound)
    case Some(u) =>
      if !Truthy(u.pinHash) then Failure(PinNotSet)
      else if !matches(pin, u.pinHash.value) then Failure(InvalidPin)
      else Success(Identity(u.id, u.name, u.phone))
  }

  /** Setting a PIN on an account that can be found by phone lets the same
      PIN log in, provided the hash check accepts what the hash produced. */
  lemma SetPinThenLogin(repos: Repos, userId: string, phone: string, pin: string, role: Role,
                        hashOf: string -> string, matches: (string, string) -> bool)
    requires IsSixDigitPin(pin)
    requires hashOf(pin) != "" && matches(pin, hashOf(pin))
    requires role == DriverRole ==>
      Lookup(repos.drivers, DriverWithPhone(phone)).Some? &&
      Lookup(repos.drivers, DriverWithPhone(phone)).value.id == userId
    requires role == PassengerRole ==>
      Lookup(repos.passengers, PassengerWithPhone(phone)).Some? &&
      Lookup(repos.passengers, PassengerWithPhone(phone)).value.id == userId
    ensures
      var r := SetPin(repos, userId, pin, role, hashOf);
      r.Success? && ValidatePinLogin(r.value, phone, pin, role, matches).Success?
  {
    var r := SetPin(repos, userId, pin, role, hashOf).value;
    match role
    case DriverRole =>
      var k := FindFirst(repos.drivers, DriverWithPhone(phone)).value;
      assert r.drivers[k].phone == phone;
      assert DriverWithPhone(phone)(r.drivers[k]);
      var k' := FindFirst(r.drivers, DriverWithPhone(phone)).value;
      assert k' == k;
    case PassengerRole =>
      var k := FindFirst(repos.passengers, PassengerWithPhone(phone)).value;
      assert r.passengers[k].phone == phone;
      assert PassengerWithPhone(phone)(r.passengers[k]);
      var k' := FindFirst(r.passengers, PassengerWithPhone(phone)).value;
      assert k' == k;
  }

  datatype UserStatus = UserStatus(exists_: bool, hasPin: bool)

  /** `checkUserStatus`: whether an account has the phone, and whether it
      has a (non-empty) PIN hash. */
  function CheckUserStatus(repos: Repos, phone: string, role: Role): (st: UserStatus)
    ensures st.exists_ <==> FindUser(repos, phone, role).Some?
    ensures st.hasPin <==> st.exists_ && Truthy(FindUser(repos, phone, role).value.pinHash)
  {
    match FindUser(repos, phone, role)
    case None => UserStatus(false, false)
    case Some(u) => UserStatus(true, Truthy(u.pinHash))
  }

  /** A PIN login succeeds only for an account `checkUserStatus` reports as
      existing with a PIN. */
  lemma PinLoginNeedsPin(repos: Repos, phone: string, pin: string, role: Role,
                         matches: (string, string) -> bool)
    ensures ValidatePinLogin(repos, phone, pin, role, matches).Success? ==>
              CheckUserStatus(repos, phone, role) == UserStatus(true, true)
  {
  }

  datatype Profile = Profile(email: Option<string>, firstName: string, lastName: Option<string>,
                             picture: Option<string>)

  function PassengerFromProvider(provider: string, providerId: string): PassengerAccount -> bool {
    (p: PassengerAccount) => p.providerId == Some(providerId) && p.authProvider == Some(provider)
  }

  function DriverFromProvider(provider: string, providerId: string): DriverAccount -> bool {
    (d: DriverAccount) => d.providerId == Some(providerId) && d.authProvider == Some(provider)
  }

  /** The display name of a new social passenger: first name, then a space
      and the last name when there is one. */
  function SocialName(profile: Profile): string {
    profile.firstName + (if Truthy(profile.lastName) then " " + profile.lastName.value else "")
  }

  function NewSocialPassenger(newId: string, provider: string, providerId: string,
                              profile: Profile): PassengerAccount {
    PassengerAccount(newId, "", SocialName(profile), 0, 0, 3, Some(provider), None,
                     Some(providerId), profile.email, profile.picture)
  }

  function NewSocialDriver(newId: string, provider: string, providerId: string,
                           profile: Profile): DriverAccount {
    DriverAccount(newId, "", profile.firstName, "", "SOCIAL", "", "PENDING", "OFFLINE", 5.0, 0,
                  profile.picture, Some(provider), None, Some(providerId), profile.email)
  }

  /** `findOrCreateSocialUser`: the account linked to (provider, providerId),
      created first when there is none. `newId` stands for the randomly drawn
      id. A new account has the empty phone, and `phone` is a unique column,
      so the save fails (no account, no token: `None`) when another row of
      that table already has the empty phone. Returns the tables and the id
      of the account the token is for. */
  function FindOrCreateSocialUser(repos: Repos, provider: string, providerId: string,
                                  profile: Profile, role: Role, newId: string): (r: (Repos, Option<string>))
    ensures r.1.None? ==> r.0 == repos
    ensures role == PassengerRole ==>
      match Lookup(repos.passengers, PassengerFromProvider(provider, providerId))
      case Some(p) => r == (repos, Some(p.id))
      case None =>
        var p := NewSocialPassenger(newId, provider, providerId, profile);
        && (r.1.None? <==> exists i :: 0 <= i < |repos.passengers| &&
                             repos.passengers[i].phone == "" && repos.passengers[i].id != newId)
        && (r.1.Some? ==>
              && r.1.value == newId
              && r.0.drivers == repos.drivers
              && r.0.passengers == SavePassenger(repos.passengers, p)
              && Lookup(r.0.passengers, PassengerWithId(newId)) == Some(p))
    ensures role == DriverRole ==>
      match Lookup(repos.drivers, DriverFromProvider(provider, providerId))
      case Some(d) => r == (repos, Some(d.id))
      case None =>
        var d := NewSocialDriver(newId, provider, providerId, profile);
        && (r.1.None? <==> exists i :: 0 <= i < |repos.drivers| &&
                             repos.drivers[i].phone == "" && repos.drivers[i].id != newId)
        && (r.1.Some? ==>
              && r.1.value == newId
              && r.0.passengers == repos.passengers
              && r.0.drivers == SaveDriver(repos.drivers, d)
              && Lookup(r.0.drivers, DriverWithId(newId)) == Some(d))
  {
    match role
    case PassengerRole =>
      (match Lookup(repos.passengers, PassengerFromProvider(provider, providerId))
       case Some(p) => (repos, Some(p.id))
       case None =>
         var p := NewSocialPassenger(newId, provider, providerId, profile);
         if PassengerPhoneClash(repos.passengers, p) then (repos, None)
         else (repos.(passengers := SavePassenger(repos.passengers, p)), Some(newId)))
    case DriverRole =>
      (match Lookup(repos.drivers, DriverFromProvider(provider, providerId))
       case Some(d) => (repos, Some(d.id))
       case None =>
         var d := NewSocialDriver(newId, provider, providerId, profile);
         if DriverPhoneClash(repos.drivers, d) then (repos, None)
         else (repos.(drivers := SaveDriver(repos.drivers, d)), Some(newId)))
  }

  /** Signing in twice with the same provider account creates at most one
      account: once the first call has an account, the second call finds
      it, returns the same id, and changes nothing; a first call that fails
      leaves the tables as they were. */
  lemma SocialLoginIdempotent(repos: Repos, provider: string, providerId: string, profile: Profile,
                              role: Role, id1: string, id2: string)
    ensures
      var (repos1, user1) := FindOrCreateSocialUser(repos, provider, providerId, profile, role, id1);
      && (user1.Some? ==> FindOrCreateSocialUser(repos1, provider, providerId, profile, role, id2) == (repos1, user1))
      && (user1.None? ==> repos1 == repos)
  {
    var (repos1, user1) := FindOrCreateSocialUser(repos, provider, providerId, profile, role, id1);
    match role
    case PassengerRole =>
      if Lookup(repos.passengers, PassengerFromProvider(provider, providerId)).None? && user1.Some? {
        var p := NewSocialPassenger(id1, provider, providerId, profile);
        SavedSocialPassengerFound(repos.passengers, p, provider, providerId);
      }
    case DriverRole =>
      if Lookup(repos.drivers, DriverFromProvider(provider, providerId)).None? && user1.Some? {
        var d := NewSocialDriver(id1, provider, providerId, profile);
        SavedSocialDriverFound(repos.drivers, d, provider, providerId);
      }
  }

  /** Only one social account per table can be created: with one social
      passenger stored (phone empty), a second provider identity gets no
      account. */
  lemma SecondSocialPassengerRefused(first: PassengerAccount, provider: string, providerId: string,
                                     profile: Profile, newId: string)
    requires first.phone == "" && first.id != newId
    requires !PassengerFromProvider(provider, providerId)(first)
    ensures FindOrCreateSocialUser(Repos([first], []), provider, providerId, profile, PassengerRole, newId)
            == (Repos([first], []), None)
  {
    assert Lookup([first], PassengerFromProvider(provider, providerId)).None?;
  }

  lemma SavedSocialPassengerFound(repo: seq<PassengerAccount>, p: PassengerAccount,
                                  provider: string, providerId: string)
    requires Lookup(repo, PassengerFromProvider(provider, providerId)).None?
    requires PassengerFromProvider(provider, providerId)(p)
    ensures Lookup(SavePassenger(repo, p), PassengerFromProvider(provider, providerId)) == Some(p)
  {
    var r := SavePassenger(repo, p);
    var k := FindFirst(r, PassengerWithId(p.id)).value;
    assert PassengerFromProvider(provider, providerId)(r[k]);
    var j := FindFirst(r, PassengerFromProvider(provider, providerId)).value;
  }

  lemma SavedSocialDriverFound(repo: seq<DriverAccount>, d: DriverAccount,
                               provider: string, providerId: string)
    requires Lookup(repo, DriverFromProvider(provider, providerId)).None?
    requires DriverFromProvider(provider, providerId)(d)
    ensures Lookup(SaveDriver(repo, d), DriverFromProvider(provider, providerId)) == Some(d)
  {
    var r := SaveDriver(repo, d);
    var k := FindFirst(r, DriverWithId(d.id)).value;
    assert DriverFromProvider(provider, providerId)(r[k]);
    var j := FindFirst(r, DriverFromProvider(provider, providerId)).value;
  }
}
