/** Customer registration (`UserService`): the field patterns, the uniqueness
    rules across users and pending requests, the PENDING → APPROVED / REJECTED
    life cycle of a request, and customer login. Password hashing is outside
    the model: the hash arrives as a parameter and checking a password against
    a hash is the function `matches`. */
module Registration {
  import opened Text

  datatype User = User(
    id: Option<nat>,
    firstName: string,
    lastName: string,
    phoneNumber: string,
    email: string,
    password: string,
    driversLicenseNumber: string,
    driversLicenseImage: Option<string>,
    role: string,
    status: string)

  datatype RegistrationRequest = RegistrationRequest(
    id: Option<nat>,
    firstName: string,
    lastName: string,
    phoneNumber: string,
    email: string,
    password: string,
    driversLicenseNumber: string,
    driversLicenseImage: Option<string>,
    status: string)

  /** `^[a-zA-Z\s]+$`. */
  predicate IsValidName(s: string)
  {
    |s| >= 1 && forall i :: 0 <= i < |s| ==> IsAsciiLetter(s[i]) || IsJavaRegexSpace(s[i])
  }

  /** `^\d{7}$`. */
  predicate IsValidPhone(s: string)
  {
    |s| == 7 && AllDigits(s)
  }

  predicate IsEmailLocalChar(c: char)
  {
    IsAsciiLetter(c) || IsDigit(c) || c == '.' || c == '_' || c == '%' || c == '+' || c == '-'
  }

  const GmailSuffix: string := "@gmail.com"

  /** `^[a-zA-Z0-9._%+-]+@gmail\.com$`. */
  predicate IsValidEmail(s: string)
  {
    |s| > |GmailSuffix| && EndsWith(s, GmailSuffix) &&
    forall i :: 0 <= i < |s| - |GmailSuffix| ==> IsEmailLocalChar(s[i])
  }

  predicate IsPasswordSpecial(c: char)
  {
    c == '@' || c == '$' || c == '!' || c == '%' || c == '*' || c == '?' || c == '&'
  }

  /** `^(?=.*[a-z])(?=.*[A-Z])(?=.*\d)(?=.*[@$!%*?&])[A-Za-z\d@$!%*?&]{8,}$`. */
  predicate IsStrongPassword(s: string)
  {
    |s| >= 8 &&
    (forall i :: 0 <= i < |s| ==> IsAsciiLetter(s[i]) || IsDigit(s[i]) || IsPasswordSpecial(s[i])) &&
    (exists i :: 0 <= i < |s| && IsLower(s[i])) &&
    (exists i :: 0 <= i < |s| && IsUpper(s[i])) &&
    (exists i :: 0 <= i < |s| && IsDigit(s[i])) &&
    (exists i :: 0 <= i < |s| && IsPasswordSpecial(s[i]))
  }

  /** An accepted address holds exactly one `@`, the one that starts the
      suffix, so the text before its `@` determines the address. */
  lemma GmailLocalPartDeterminesAddress(a: string, b: string)
    requires IsValidEmail(a) && IsValidEmail(b)
    ensures a[|a| - |GmailSuffix|] == '@'
    ensures forall i :: 0 <= i < |a| && a[i] == '@' ==> i == |a| - |GmailSuffix|
    ensures a[..|a| - |GmailSuffix|] == b[..|b| - |GmailSuffix|] ==> a == b
  {
    var n := |a| - |GmailSuffix|;
    assert a[n..] == GmailSuffix;
    assert a == a[..n] + GmailSuffix;
    assert b == b[..|b| - |GmailSuffix|] + GmailSuffix;
  }

  predicate EmailInUsers(users: map<nat, User>, email: string)
  {
    exists id :: id in users && users[id].email == email
  }

  predicate LicenseInUsers(users: map<nat, User>, license: string)
  {
    exists id :: id in users && users[id].driversLicenseNumber == license
  }

  predicate EmailInRequests(requests: map<nat, RegistrationRequest>, email: string)
  {
    exists id :: id in requests && requests[id].email == email
  }

  predicate LicenseInRequests(requests: map<nat, RegistrationRequest>, license: string)
  {
    exists id :: id in requests && requests[id].driversLicenseNumber == license
  }

  /** The field checks of `registerUser`, in the order it makes them. */
  function FieldError(u: User): (r: Option<string>)
    ensures r.None? <==>
      IsValidName(u.firstName) && IsValidName(u.lastName) && IsValidPhone(u.phoneNumber) &&
      IsValidEmail(u.email) && IsStrongPassword(u.password)
  {
    if !IsValidName(u.firstName) then Some("First name must contain only letters and spaces")
    else if !IsValidName(u.lastName) then Some("Last name must contain only letters and spaces")
    else if !IsValidPhone(u.phoneNumber) then Some("Phone number must be exactly 7 digits")
    else if !IsValidEmail(u.email) then Some("Email must end with @gmail.com")
    else if !IsStrongPassword(u.password) then
      Some("Password must be at least 8 characters, including uppercase, lowercase, number, and special character")
    else None
  }

  /** Why `registerUser(u)` fails, if it does. A request of any status, even a
      rejected one, blocks its email and licence. */
  function RegisterError(users: map<nat, User>, requests: map<nat, RegistrationRequest>, u: User): Option<string>
  {
    if FieldError(u).Some? then FieldError(u)
    else if EmailInUsers(users, u.email) then Some("Email already exists")
    else if LicenseInUsers(users, u.driversLicenseNumber) then Some("Driver's license number already exists")
    else if EmailInRequests(requests, u.email) then Some("Email already has a pending request")
    else if LicenseInRequests(requests, u.driversLicenseNumber) then
      Some("Driver's license number already has a pending request")
    else None
  }

  /** Registration is refused exactly when a field pattern fails or the email
      or the licence is already known, as a user or as a request. */
  lemma RegisterRefusedIff(users: map<nat, User>, requests: map<nat, RegistrationRequest>, u: User)
    ensures RegisterError(users, requests, u).None? <==>
      IsValidName(u.firstName) && IsValidName(u.lastName) && IsValidPhone(u.phoneNumber) &&
      IsValidEmail(u.email) && IsStrongPassword(u.password) &&
      (forall id :: id in users ==> users[id].email != u.email && users[id].driversLicenseNumber != u.driversLicenseNumber) &&
      (forall id :: id in requests ==>
         requests[id].email != u.email && requests[id].driversLicenseNumber != u.driversLicenseNumber)
  {
    RegisterErrorNone(users, requests, u);
  }

  lemma RegisterErrorNone(users: map<nat, User>, requests: map<nat, RegistrationRequest>, u: User)
    ensures RegisterError(users, requests, u).None? <==>
      FieldError(u).None? && !EmailInUsers(users, u.email) && !LicenseInUsers(users, u.driversLicenseNumber) &&
      !EmailInRequests(requests, u.email) && !LicenseInRequests(requests, u.driversLicenseNumber)
  {
  }

  /** The user `approveRegistration` creates from a request. */
  function UserFromRequest(req: RegistrationRequest, id: nat): (u: User)
    ensures u.role == "ROLE_CUSTOMER" && u.status == "APPROVED"
    ensures u.email == req.email && u.password == req.password
    ensures u.driversLicenseNumber == req.driversLicenseNumber
  {
    User(Some(id), req.firstName, req.lastName, req.phoneNumber, req.email, req.password,
         req.driversLicenseNumber, req.driversLicenseImage, "ROLE_CUSTOMER", "APPROVED")
  }

  /** Why approving or rejecting request `id` fails, if it does. */
  function DecisionError(requests: map<nat, RegistrationRequest>, id: nat): Option<string>
  {
    if id !in requests then Some("Registration request not found")
    else if requests[id].status != "PENDING" then Some("Request already processed")
    else None
  }

  /** Why `approveRegistration(id)` fails, if it does: the request must be
      PENDING and its email and licence must still be free among users. */
  function ApproveError(users: map<nat, User>, requests: map<nat, RegistrationRequest>, id: nat): (r: Option<string>)
    ensures r.None? <==>
      id in requests && requests[id].status == "PENDING" &&
      !EmailInUsers(users, requests[id].email) && !LicenseInUsers(users, requests[id].driversLicenseNumber)
  {
    if DecisionError(requests, id).Some? then DecisionError(requests, id)
    else if EmailInUsers(users, requests[id].email) then Some("Email already exists in users table")
    else if LicenseInUsers(users, requests[id].driversLicenseNumber) then
      Some("Driver's license number already exists in users table")
    else None
  }

  /** Whether `password` logs in as the customer with this email. */
  ghost predicate CanLogIn(users: map<nat, User>, matches: (string, string) -> bool, email: string, password: string)
  {
    IsValidEmail(email) &&
    exists id :: id in users && users[id].email == email && users[id].status == "APPROVED" &&
      users[id].role == "ROLE_CUSTOMER" && matches(password, users[id].password)
  }

  ghost predicate UniqueUsers(users: map<nat, User>)
  {
    forall i, j :: i in users && j in users && i != j ==>
      users[i].email != users[j].email && users[i].driversLicenseNumber != users[j].driversLicenseNumber
  }

  ghost predicate UniqueRequests(requests: map<nat, RegistrationRequest>)
  {
    forall i, j :: i in requests && j in requests && i != j ==>
      requests[i].email != requests[j].email &&
      requests[i].driversLicenseNumber != requests[j].driversLicenseNumber
  }

  /** Once a pending request is approved and its user stored, its applicant
      logs in with the password whose hash the request holds. */
  lemma ApprovedApplicantCanLogIn(users: map<nat, User>, req: RegistrationRequest, newId: nat,
                                  matches: (string, string) -> bool, password: string)
    requires IsValidEmail(req.email) && matches(password, req.password)
    ensures CanLogIn(users[newId := UserFromRequest(req, newId)], matches, req.email, password)
  {
    var after := users[newId := UserFromRequest(req, newId)];
    assert newId in after && after[newId] == UserFromRequest(req, newId);
  }

  lemma AddRequestKeepsUnique(requests: map<nat, RegistrationRequest>, id: nat, req: RegistrationRequest)
    requires UniqueRequests(requests) && id !in requests
    requires !EmailInRequests(requests, req.email) && !LicenseInRequests(requests, req.driversLicenseNumber)
    ensures UniqueRequests(requests[id := req])
  {
    var m := requests[id := req];
    forall i, j | i in m && j in m && i != j
      ensures m[i].email != m[j].email && m[i].driversLicenseNumber != m[j].driversLicenseNumber
    {
      if i == id {
        assert j in requests;
      } else if j == id {
        assert i in requests;
      }
    }
  }

  lemma AddUserKeepsUnique(users: map<nat, User>, id: nat, u: User)
    requires UniqueUsers(users) && id !in users
    requires !EmailInUsers(users, u.email) && !LicenseInUsers(users, u.driversLicenseNumber)
    ensures UniqueUsers(users[id := u])
  {
    var m := users[id := u];
    forall i, j | i in m && j in m && i != j
      ensures m[i].email != m[j].email && m[i].driversLicenseNumber != m[j].driversLicenseNumber
    {
      if i == id {
        assert j in users;
      } else if j == id {
        assert i in users;
      }
    }
  }

  lemma StatusChangeKeepsUnique(requests: map<nat, RegistrationRequest>, id: nat, status: string)
    requires UniqueRequests(requests) && id in requests
    ensures UniqueRequests(requests[id := requests[id].(status := status)])
  {
  }

  /** The `users` and `registration_requests` tables and the service over them. */
  class UserService {
    var users: map<nat, User>
    var requests: map<nat, RegistrationRequest>
    var nextUserId: nat
    var nextRequestId: nat
    /** `passwordEncoder.matches(raw, encoded)`. */
    const matches: (string, string) -> bool

    /** Rows are stored under their own ids; the unique columns of `users`
        hold, and the service keeps request emails and licences unique too. */
    ghost predicate Valid()
      reads this
    {
      (forall id :: id in users ==> id < nextUserId && users[id].id == Some(id)) &&
      (forall id :: id in requests ==> id < nextRequestId && requests[id].id == Some(id)) &&
      UniqueUsers(users) && UniqueRequests(requests)
    }

    constructor (matches0: (string, string) -> bool)
      ensures Valid() && users == map[] && requests == map[] && matches == matches0
    {
      users, requests, nextUserId, nextRequestId := map[], map[], 0, 0;
      matches := matches0;
    }

    /** `registerUser`; `encoded` is what the password encoder returned for
        the submitted password. */
    method RegisterUser(u: User, encoded: string) returns (r: Result<RegistrationRequest>)
      requires Valid()
      modifies this
      ensures Valid() && users == old(users) && nextUserId == old(nextUserId)
      ensures r.Failure? <==> RegisterError(old(users), old(requests), u).Some?
      ensures r.Failure? ==>
        r.error == RegisterError(old(users), old(requests), u).value && requests == old(requests)
      ensures r.Success? ==>
        r.value == RegistrationRequest(Some(old(nextRequestId)), u.firstName, u.lastName, u.phoneNumber,
                                       u.email, encoded, u.driversLicenseNumber, u.driversLicenseImage, "PENDING") &&
        requests == old(requests)[old(nextRequestId) := r.value]
    {
      var err := RegisterError(users, requests, u);
      if err.Some? {
        return Failure(err.value);
      }
      var request := RegistrationRequest(Some(nextRequestId), u.firstName, u.lastName, u.phoneNumber,
                                         u.email, encoded, u.driversLicenseNumber, u.driversLicenseImage, "PENDING");
      AddRequestKeepsUnique(requests, nextRequestId, request);
      requests := requests[nextRequestId := request];
      nextRequestId := nextRequestId + 1;
      r := Success(request);
    }

    /** `loginUser`: the customer with this email, if the email has the gmail
        form and the account is an APPROVED customer whose password matches. */
    method LoginUser(email: string, password: string) returns (r: Option<User>)
      requires Valid()
      ensures r.Some? <==> CanLogIn(users, matches, email, password)
      ensures r.Some? ==> r.value in users.Values && r.value.email == email
    {
      if !IsValidEmail(email) {
        return None;
      }
      if !exists id :: id in users && users[id].email == email {
        return None;
      }
      var id :| id in users && users[id].email == email;
      var user := users[id];
      if user.status == "APPROVED" && user.role == "ROLE_CUSTOMER" && matches(password, user.password) {
        r := Some(user);
      } else {
        r := None;
      }
    }

    /** `approveRegistration`: only a PENDING request whose email and licence
        are not yet taken by a user; the request becomes APPROVED and an
        APPROVED customer is created from it. */
    method ApproveRegistration(requestId: nat) returns (r: Result<User>)
      requires Valid()
      modifies this
      ensures Valid()
      ensures r.Failure? <==> ApproveError(old(users), old(requests), requestId).Some?
      ensures r.Failure? ==>
        r.error == "Failed to approve registration: " + ApproveError(old(users), old(requests), requestId).value &&
        users == old(users) && requests == old(requests)
      ensures r.Success? ==>
        r.value == UserFromRequest(old(requests)[requestId], old(nextUserId)) &&
        users == old(users)[old(nextUserId) := r.value] &&
        requests == old(requests)[requestId := old(requests)[requestId].(status := "APPROVED")]
    {
      var err := ApproveError(users, requests, requestId);
      if err.Some? {
        return Failure("Failed to approve registration: " + err.value);
      }
      var request := requests[requestId];
      var user := UserFromRequest(request, nextUserId);
      AddUserKeepsUnique(users, nextUserId, user);
      StatusChangeKeepsUnique(requests, requestId, "APPROVED");
      requests := requests[requestId := request.(status := "APPROVED")];
      users := users[nextUserId := user];
      nextUserId := nextUserId + 1;
      r := Success(user);
    }

    /** `rejectRegistration`: only a PENDING request, which becomes REJECTED. */
    method RejectRegistration(requestId: nat) returns (r: Result<()>)
      requires Valid()
      modifies this
      ensures Valid() && users == old(users)
      ensures r.Failure? <==> DecisionError(old(requests), requestId).Some?
      ensures r.Failure? ==>
        r.error == "Failed to reject registration: " + DecisionError(old(requests), requestId).value &&
        requests == old(requests)
      ensures r.Success? ==>
        requests == old(requests)[requestId := old(requests)[requestId].(status := "REJECTED")]
    {
      var err := DecisionError(requests, requestId);
      if err.Some? {
        return Failure("Failed to reject registration: " + err.value);
      }
      StatusChangeKeepsUnique(requests, requestId, "REJECTED");
      requests := requests[requestId := requests[requestId].(status := "REJECTED")];
      r := Success(());
    }
  }
}
