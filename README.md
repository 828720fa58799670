# Car rental system: a verified model of its rules

This project models, in Dafny, the rule-bearing core of a car-rental system. The system has a Spring
backend, a React frontend, and a small script that strips comments from the source tree.

- **Comment stripper** (`remove_comments.py`). The regex transform removes `//` line comments first and
  then the leftmost, shortest `/* */` blocks; the Java and JavaScript variants share one body. The directory
  walk rewrites only `.java` files, or `.js` and `.jsx` files, and reports a missing root.
- **Backend services.** They are classes whose maps stand for the database tables:
  - `ReservationService`: reservation checks, amenity pricing, and the Available to Rented change;
  - `EmailService`: the verification-code store, with one-shot codes that expire;
  - `UserService`: registration checks and the PENDING to APPROVED/REJECTED workflow;
  - `AdminService`: admin registration, login and update, the guard that keeps one active admin, and
    password change;
  - `VehicleService`: vehicle checks, uniqueness of plate and VIN, status, deletion and statistics;
  - the two pending-change controllers: vehicle add/remove requests and maintenance requests, approved or
    rejected only while PENDING.
- **Frontend logic**, as functions over the page state:
  - the vehicle form validators;
  - the checkout and cancellation card formatters and checks;
  - the cancellation fee tiers;
  - amenity toggling and pricing on the car detail page;
  - the search filters and the reservation guards;
  - the breadcrumb history;
  - the hidden key sequence on the admin login page;
  - the admin reservation list.

**Conventions.**
- Money is an integer number of cents.
- Dates are day numbers or millisecond timestamps. The current time is always a parameter.
- Text is a sequence of characters.
- JavaScript `parseInt`/`parseFloat` and Java `new BigDecimal` are modelled on that text.
- Absent values (`null`, `undefined`) are `Option`s where the source tells them apart from empty text. Elsewhere a Java string that may be null is plain text. In `updateAdmin` an empty password stands for both a null and an empty one (backend/src/main/java/com/grp12/Services/AdminService.java:117-119), since both leave the password unchanged.
- The password encoder, the image compressor and the random code are parameters, since they are foreign code.

## Model

| member | source | states |
|---|---|---|
| CommentStripper.FindPair | remove_comments.py:15 | the leftmost occurrence of a two-character delimiter, or none exactly when the text holds none (the search behind the non-greedy block match) |
| CommentStripper.FromNewline | remove_comments.py:12 | what `.*` leaves of a line comment: a suffix starting at the first newline (or empty), with no newline in the consumed part |
| CommentStripper.RemoveLineComments | remove_comments.py:12 | definition; its meaning is stated by CommentStripper.LineCommentsRemovedPerLine, NewlineKept and LineStripIdempotent |
| CommentStripper.RemoveBlockComments | remove_comments.py:15 | definition; its meaning is stated by CommentStripper.LeftmostShortestBlockRemoved and NoBlockOpenerUnchanged |
| CommentStripper.StripComments | remove_comments.py:6-18 | definition; its meaning is stated by CommentStripper.StripIdempotent and NoSlashUnchanged |
| CommentStripper.LineCommentsRemovedPerLine | remove_comments.py:12 | on a line without a newline, exactly the text before the first `//` survives, and the rest of the text is processed on its own |
| CommentStripper.NewlineKept | remove_comments.py:12 | a line comment ends at its newline, and the newline itself is kept |
| CommentStripper.NoLineOpenerUnchanged | remove_comments.py:12 | text containing no `//` is untouched by the line-comment substitution |
| CommentStripper.NoBlockOpenerUnchanged | remove_comments.py:15 | text containing no `/*` is untouched by the block-comment substitution |
| CommentStripper.NoSlashUnchanged | remove_comments.py:11-15 | text without any `/` passes through the whole transform unchanged |
| CommentStripper.FirstCharKept | remove_comments.py:12 | a text that does not start with `//` keeps its first character |
| CommentStripper.LineStripLeavesNoOpener | remove_comments.py:12 | after the line substitution no `//` is left anywhere in the text |
| CommentStripper.LineStripIdempotent | remove_comments.py:12 | applying the line substitution a second time changes nothing |
| CommentStripper.CloseFoundAfterBody | remove_comments.py:15 | when the body holds no `*/`, the first closer is the one right after the body |
| CommentStripper.TextBeforeOpenerKept | remove_comments.py:15 | text with no `/*`, followed by a part that starts with `/`, is kept as it is ahead of that part's own processing |
| CommentStripper.BlockAtStartRemoved | remove_comments.py:15 | an opener at the start goes together with everything up to and including its first closer, across newlines |
| CommentStripper.LeftmostShortestBlockRemoved | remove_comments.py:15 | for `a + "/*" + c + "*/" + d` where `a` has no opener and `c` has no closer, exactly the span from the opener to the first closer is deleted |
| CommentStripper.NoCloserUnchanged | remove_comments.py:15 | text with no closer is untouched by the block substitution: no opener in it has a match |
| CommentStripper.BlockStripKeepsNoLineOpener | remove_comments.py:15 | on text without `//`, removing block comments creates no `//` |
| CommentStripper.BlockStripIdempotent | remove_comments.py:15 | on text without `//`, a second block substitution changes nothing |
| CommentStripper.StripIdempotent | remove_comments.py:11-15 | stripping comments a second time changes nothing: the line pass leaves no `//`, and a removed block never joins its neighbours into a new delimiter |
| CommentStripper.ProcessedStripsSelected | remove_comments.py:34-50 | after a walk that lists each file once, a file is stripped exactly when the group selects its name (`.java`, or `.js`/`.jsx`); every other file is unchanged and no file is added or removed |
| CommentStripper.FileSystem.RemoveComments | remove_comments.py:6-32 | the Java and the JS transform are the same: the file is replaced by its contents with line comments removed first and block comments second; nothing else changes |
| CommentStripper.FileSystem.ProcessFiles | remove_comments.py:34-50 | the files after the loop are those of the walk specification, and the console gains one "Processing ..." line per selected file, in walk order |
| CommentStripper.FileSystem.RunScript | remove_comments.py:52-67 | each group runs only when its root directory exists; a missing root prints "not found" and skips only that group, and the Java group runs before the JS group |
| CommentStripper.KeysKept | remove_comments.py:34-50 | processing a walk never adds or removes a file |
| Reservations.AmenityPrice | backend/src/main/java/com/grp12/Services/ReservationService.java:26-30 | an amenity outside the valid list costs nothing |
| Reservations.PriceSumByCount | backend/src/main/java/com/grp12/Services/ReservationService.java:153-165 | the accumulated sum is 2000 cents per baby-sitter, 1000 per gps and 500 per power-bank in the list, whatever their order |
| Reservations.AmenityCostByCount | backend/src/main/java/com/grp12/Services/ReservationService.java:148-167 | the cost is 0 when the list contains "none", and otherwise 20/10/5 per item, counted by occurrence |
| Reservations.CalculateAmenityCost | backend/src/main/java/com/grp12/Services/ReservationService.java:148-167 | the accumulating loop returns the amenity cost (0 for a missing or empty list, or one containing "none") |
| Reservations.FirstInvalidAmenity | backend/src/main/java/com/grp12/Services/ReservationService.java:82-87 | none exactly when every amenity is valid; otherwise an amenity of the list that is not valid |
| Reservations.RequestError | backend/src/main/java/com/grp12/Services/ReservationService.java:45-87 | definition; its meaning is stated by Reservations.AcceptedIff |
| Reservations.CreateError | backend/src/main/java/com/grp12/Services/ReservationService.java:45-127 | definition; its meaning is stated by Reservations.AcceptedIff and Reservations.RentedVehicleRefused |
| Reservations.AcceptedIff | backend/src/main/java/com/grp12/Services/ReservationService.java:45-127 | a reservation is accepted exactly when every field is present, the return is not before the rental (the same day is allowed), the total is positive, the amenities are non-empty and valid with "none" alone, the vehicle exists and is Available, and the total is within one cent of price per day × (days + 1) + amenity cost |
| Reservations.RentedVehicleRefused | backend/src/main/java/com/grp12/Services/ReservationService.java:102-105 | once a vehicle has been marked Rented, any reservation for it is refused |
| Reservations.ReservationService.CreateReservation | backend/src/main/java/com/grp12/Services/ReservationService.java:32-146 | it fails exactly when a rule fails, with the model's message for that rule (see "Left out") and nothing changed; on success the vehicle becomes Rented and the reservation is saved under a new id |
| Verification.FormatCode | backend/src/main/java/com/grp12/Services/EmailService.java:25 | the code is six decimal digits whose value is the draw (zero-padded) |
| Verification.FormatCodeInjective | backend/src/main/java/com/grp12/Services/EmailService.java:25 | two draws give the same code exactly when they are equal |
| Verification.VerifyIsLocal | backend/src/main/java/com/grp12/Services/EmailService.java:43-63 | other emails' entries are never touched; this email's entry is removed exactly when it had expired or the code matched, and is otherwise kept as it was |
| Verification.CodeIsOneShot | backend/src/main/java/com/grp12/Services/EmailService.java:57-60 | after a successful verification, the same email fails with any code at any time |
| Verification.SendThenVerify | backend/src/main/java/com/grp12/Services/EmailService.java:25-63 | right after sending, verification succeeds exactly for the sent code and no later than 600000 ms after sending; any earlier code is replaced |
| Verification.EmailService.SendVerificationCode | backend/src/main/java/com/grp12/Services/EmailService.java:23-28 | the stored code is the zero-padded draw, with expiry now + 600000, replacing any earlier entry for the email |
| Verification.EmailService.VerifyCode | backend/src/main/java/com/grp12/Services/EmailService.java:43-63 | the answer and the new store are those of the verification specification (false for no entry; expired entry removed; matching code removed and true; wrong code kept) |
| Registration.GmailLocalPartDeterminesAddress | backend/src/main/java/com/grp12/Services/UserService.java:25 | an accepted address holds exactly one `@`, the one that starts "@gmail.com", so two accepted addresses with the same text before it are equal |
| Registration.FieldError | backend/src/main/java/com/grp12/Services/UserService.java:33-51 | no error exactly when both names are letters or spaces, the phone is 7 digits, the email is `@gmail.com` and the password is strong |
| Registration.RegisterError | backend/src/main/java/com/grp12/Services/UserService.java:33-70 | definition; its meaning is stated by Registration.RegisterRefusedIff |
| Registration.RegisterRefusedIff | backend/src/main/java/com/grp12/Services/UserService.java:33-70 | registration succeeds exactly when every field pattern holds and no user and no request (of any status) has the email or the licence |
| Registration.UserFromRequest | backend/src/main/java/com/grp12/Services/UserService.java:144-153 | the new user is an APPROVED ROLE_CUSTOMER with the request's email, encoded password and licence |
| Registration.DecisionError | backend/src/main/java/com/grp12/Services/UserService.java:127-132 | definition; its meaning is stated by Registration.UserService.ApproveRegistration and Registration.UserService.RejectRegistration |
| Registration.ApproveError | backend/src/main/java/com/grp12/Services/UserService.java:127-141 | approval is possible exactly when the request exists, is PENDING, and no user has its email or licence |
| Registration.ApprovedApplicantCanLogIn | backend/src/main/java/com/grp12/Services/UserService.java:102-160 | after approval, the applicant logs in with the password the stored hash matches |
| Registration.AddRequestKeepsUnique | backend/src/main/java/com/grp12/Services/UserService.java:63-83 | adding a request whose email and licence are new keeps request emails and licences unique |
| Registration.AddUserKeepsUnique | backend/src/main/java/com/grp12/Services/UserService.java:134-160 | adding a user whose email and licence are new keeps user emails and licences unique |
| Registration.UserService.RegisterUser | backend/src/main/java/com/grp12/Services/UserService.java:30-94 | it fails exactly when a registration rule fails, with that rule's message and nothing changed; otherwise it stores a PENDING request holding the encoded password |
| Registration.UserService.LoginUser | backend/src/main/java/com/grp12/Services/UserService.java:96-111 | a user is returned exactly when the email has the gmail form and belongs to an APPROVED customer whose password matches |
| Registration.UserService.ApproveRegistration | backend/src/main/java/com/grp12/Services/UserService.java:125-168 | it fails exactly when the approval rules fail, with nothing changed; otherwise the request becomes APPROVED and an APPROVED customer is created from it |
| Registration.UserService.RejectRegistration | backend/src/main/java/com/grp12/Services/UserService.java:170-187 | only a PENDING request can be rejected; it becomes REJECTED and users are untouched |
| Admins.IsFirstAdmin | backend/src/main/java/com/grp12/Services/AdminService.java:170-172 | true exactly when no administrator is ACTIVE (inactive ones may exist) |
| Admins.DeactivationLeavesAnActiveAdmin | backend/src/main/java/com/grp12/Services/AdminService.java:136-143 | deactivating one administrator while more than one is active leaves at least one active |
| Admins.PutKeepsUnique | backend/src/main/java/com/grp12/Services/AdminService.java:24-31 | storing a row whose email and username no other row holds keeps emails and usernames unique |
| Admins.AdminService.RegisterAdmin | backend/src/main/java/com/grp12/Services/AdminService.java:21-51 | it fails exactly when the email or the username is taken (email checked first), with nothing changed; otherwise the stored row has the encoded password, ROLE_ADMIN and ACTIVE |
| Admins.AdminService.LoginAdmin | backend/src/main/java/com/grp12/Services/AdminService.java:53-68 | an administrator is returned exactly when the lookup finds one row, and that row is ACTIVE with a matching password |
| Admins.AdminService.UpdateAdmin | backend/src/main/java/com/grp12/Services/AdminService.java:94-129 | it fails exactly when the id is missing or a changed email or username is already taken; otherwise names, username and email are replaced, and the password only when a non-empty one was given |
| Admins.AdminService.DeactivateAdmin | backend/src/main/java/com/grp12/Services/AdminService.java:131-153 | it is refused exactly when the id is missing or at most one administrator is active; otherwise only that row becomes INACTIVE, and an active administrator always remains |
| Admins.AdminService.ChangePassword | backend/src/main/java/com/grp12/Services/AdminService.java:178-206 | it succeeds exactly when the lookup finds one row, the current password matches and the new one has at least 6 characters; then only that row's password changes |
| Vehicles.FieldError | backend/src/main/java/com/grp12/Services/VehicleService.java:25-42 | no error exactly when make, model, type and location are non-blank, the year lies in [1900, 2030] and the price per day is positive |
| Vehicles.SaveError | backend/src/main/java/com/grp12/Services/VehicleService.java:22-71 | definition; its meaning is stated by Vehicles.SaveRefusedIff |
| Vehicles.SaveRefusedIff | backend/src/main/java/com/grp12/Services/VehicleService.java:22-71 | a save is refused exactly when a field check fails or the plate or VIN belongs to a vehicle with a different id; re-saving a vehicle under its own id with its own plate and VIN is allowed |
| Vehicles.StatisticsOf | backend/src/main/java/com/grp12/Services/VehicleService.java:177-190 | definition; its meaning is stated by Vehicles.StatisticsBounded |
| Vehicles.StatisticsBounded | backend/src/main/java/com/grp12/Services/VehicleService.java:177-190 | the four status counts never add up to more than the total |
| Vehicles.SaveKeepsKeysUnique | backend/src/main/java/com/grp12/Services/VehicleService.java:44-60 | a save that passes every check keeps plates and VINs unique |
| Vehicles.VehicleService.SaveVehicle | backend/src/main/java/com/grp12/Services/VehicleService.java:22-71 | it fails exactly when the save is refused, with its message and nothing changed; otherwise the vehicle is stored under its own id if that row exists, else under a new one |
| Vehicles.VehicleService.UpdateVehicleStatus | backend/src/main/java/com/grp12/Services/VehicleService.java:123-137 | a missing id fails with "Vehicle not found"; otherwise only that vehicle's status changes |
| Vehicles.VehicleService.DeleteVehicle | backend/src/main/java/com/grp12/Services/VehicleService.java:140-154 | a missing id fails with "Vehicle not found"; otherwise exactly that vehicle is removed |
| Vehicles.VehicleService.GetVehicleStatistics | backend/src/main/java/com/grp12/Services/VehicleService.java:177-190 | the total is the number of vehicles, and the per-status counts add up to at most the total |
| PendingVehicles.SubmitGuard | backend/src/main/java/com/grp12/Controller/PendingVehicleController.java:66-83 | a submission passes the identity checks exactly when the caller is a known administrator who is not SUPER_ADMIN; otherwise the answer is 401 or 403 |
| PendingVehicles.KeepIfFilled | backend/src/main/java/com/grp12/Controller/PendingVehicleController.java:121-124 | an optional text is kept exactly when it is not blank, and then it is that text trimmed |
| PendingVehicles.FormError | backend/src/main/java/com/grp12/Controller/PendingVehicleController.java:85-105 | definition; its meaning is stated by PendingVehicles.FormAcceptedIff |
| PendingVehicles.FormAcceptedIff | backend/src/main/java/com/grp12/Controller/PendingVehicleController.java:85-105 | the ADD form is accepted exactly when every required text is present and not blank, year and seating capacity are present, and all three images are non-empty; the images are checked only after the fields |
| PendingVehicles.DataOf | backend/src/main/java/com/grp12/Controller/PendingVehicleController.java:107-124 | definition; its meaning is stated by PendingVehicles.DataOfTrimmed |
| PendingVehicles.DataOfTrimmed | backend/src/main/java/com/grp12/Controller/PendingVehicleController.java:107-124 | each stored required text is the sent text trimmed, and non-empty, except the price, which is stored as sent; an optional text is present exactly when it was sent non-blank, and then it is that text trimmed; the numbers and images are stored as sent |
| PendingVehicles.VehicleOf | backend/src/main/java/com/grp12/Controller/PendingVehicleController.java:235-255 | the vehicle an approved ADD creates exists exactly when the stored price reads as a decimal; it is Available, has no id, carries every stored field and has that price in cents |
| PendingVehicles.DecisionGuard | backend/src/main/java/com/grp12/Controller/PendingVehicleController.java:207-225 | a decision may proceed exactly when the request exists, is PENDING and the deciding administrator is known; a missing request gives 404 and a decided one gives 400 |
| PendingVehicles.OperationError | backend/src/main/java/com/grp12/Controller/PendingVehicleController.java:233-268 | REMOVE fails exactly when the vehicle is missing; ADD fails exactly when the price is unreadable or the vehicle service refuses the save; any other type does nothing |
| PendingVehicles.PaddedPriceBlocksApproval | backend/src/main/java/com/grp12/Controller/PendingVehicleController.java:248 | an ADD request whose stored price starts or ends with a space can never be approved |
| PendingVehicles.StoredReason | backend/src/main/java/com/grp12/Controller/PendingVehicleController.java:317-319 | a reason that is not blank is stored as that reason trimmed; otherwise the previous value stays |
| PendingVehicles.NewAddRequest | backend/src/main/java/com/grp12/Controller/PendingVehicleController.java:132-135 | a new ADD request is PENDING, holds the data and the requesting administrator, and is undecided |
| PendingVehicles.NewRemoveRequest | backend/src/main/java/com/grp12/Controller/PendingVehicleController.java:175 | a new REMOVE request is PENDING, holds the vehicle id and the requesting administrator, and is undecided |
| PendingVehicles.DecideKeepsWellFormed | backend/src/main/java/com/grp12/Controller/PendingVehicleController.java:227-230 | approving or rejecting a row keeps every row stored under its own id, with decided rows recording who decided and when |
| PendingVehicles.SubmitKeepsWellFormed | backend/src/main/java/com/grp12/Controller/PendingVehicleController.java:137-176 | storing a new PENDING row under the next id keeps the table well formed |
| PendingVehicles.PendingVehicleController.SubmitVehicleAddRequest | backend/src/main/java/com/grp12/Controller/PendingVehicleController.java:48-148 | it succeeds exactly when the identity checks and the form checks pass; errors carry their status and text and change nothing; success stores a PENDING ADD request under the next id |
| PendingVehicles.PendingVehicleController.SubmitVehicleRemoveRequest | backend/src/main/java/com/grp12/Controller/PendingVehicleController.java:150-187 | it succeeds exactly when the identity checks pass; success stores a PENDING REMOVE request under the next id without looking the vehicle up |
| PendingVehicles.PendingVehicleController.ApprovePendingRequest | backend/src/main/java/com/grp12/Controller/PendingVehicleController.java:202-281 | it succeeds exactly when the decision guard passes and the change can be carried out; then the request becomes APPROVED and ADD creates an Available vehicle, REMOVE deletes the vehicle; on any error nothing changes; when the guard passes but the operation fails the reply is a 500 carrying OperationError's "Failed to create vehicle: " or "Failed to delete vehicle: " text |
| PendingVehicles.PendingVehicleController.CarryOut | backend/src/main/java/com/grp12/Controller/PendingVehicleController.java:233-267 | the error it reports is exactly OperationError of the request against the vehicles before the call; a failure changes no vehicle; on success ADD stores the converted vehicle under the next id, REMOVE deletes the named vehicle, any other type changes nothing |
| PendingVehicles.PendingVehicleController.CreateVehicle | backend/src/main/java/com/grp12/Controller/PendingVehicleController.java:233-258 | a vehicle that cannot be converted fails with "Failed to create vehicle: "; one the save refuses fails with that prefix and the save's error, changing nothing; otherwise the converted vehicle is stored under the next id |
| PendingVehicles.PendingVehicleController.RemoveVehicle | backend/src/main/java/com/grp12/Controller/PendingVehicleController.java:259-266 | it fails exactly when the vehicle does not exist, with "Failed to delete vehicle: Vehicle not found" and nothing changed; otherwise exactly that vehicle is removed |
| PendingVehicles.PendingVehicleController.RejectPendingRequest | backend/src/main/java/com/grp12/Controller/PendingVehicleController.java:283-331 | it succeeds exactly when the decision guard passes; then only the request changes, to REJECTED, with the trimmed reason if it is not blank |
| PendingMaintenance.ParseIsoDate | backend/src/main/java/com/grp12/Controller/PendingMaintenanceController.java:95-97 | a parsed date is a real calendar date (leap years included) with a four-digit year |
| PendingMaintenance.IsoDateRoundTrip | backend/src/main/java/com/grp12/Controller/PendingMaintenanceController.java:95-97 | formatting a date and parsing the text gives the date back |
| PendingMaintenance.IsoDateCanonical | backend/src/main/java/com/grp12/Controller/PendingMaintenanceController.java:95-97 | a text that parses is exactly the formatted text of its date |
| PendingMaintenance.PlusMonths | backend/src/main/java/com/grp12/Controller/PendingMaintenanceController.java:100 | adding months gives a valid date whose month is k months later and whose day is the original day clamped to the end of that month |
| PendingMaintenance.Submit | backend/src/main/java/com/grp12/Controller/PendingMaintenanceController.java:82-118 | definition; its meaning is stated by PendingMaintenance.SubmitRefusedIff and PendingMaintenance.SubmitDefaults |
| PendingMaintenance.SubmitDefaults | backend/src/main/java/com/grp12/Controller/PendingMaintenanceController.java:89-118 | a built request is PENDING for the sent car, with the sent type trimmed and valid dates; its status is the one sent, trimmed, or "Completed"; its next date is the one sent, or three months after the service date, clamped; description, mechanic and notes are the sent text trimmed, or absent when blank; the cost is the sent amount read as cents, or absent when blank; the mileage is the one sent; the receipt is the sent image compressed, or absent when empty |
| PendingMaintenance.SubmitRefusedIff | backend/src/main/java/com/grp12/Controller/PendingMaintenanceController.java:82-116 | a submission is refused exactly when the car, type or date is missing, or the cost, date, next date or receipt cannot be converted; missing fields give the 400 "required" error |
| PendingMaintenance.RecordOf | backend/src/main/java/com/grp12/Controller/PendingMaintenanceController.java:178 | the maintenance record is new and completed at the approval time |
| PendingMaintenance.ReviewGuard | backend/src/main/java/com/grp12/Controller/PendingMaintenanceController.java:151-169 | a decision may proceed exactly when the request exists, is PENDING and the deciding administrator is known; a missing request gives 404 and a decided one gives 400 |
| PendingMaintenance.DecideKeepsInvariants | backend/src/main/java/com/grp12/Controller/PendingMaintenanceController.java:171-230 | deciding a PENDING request keeps the tables consistent: every record still comes from an APPROVED request whose fields it repeats |
| PendingMaintenance.AddKeepsInvariants | backend/src/main/java/com/grp12/Controller/PendingMaintenanceController.java:118-120 | storing a new PENDING request under the next id keeps the tables consistent |
| PendingMaintenance.PendingMaintenanceController.SubmitMaintenanceRequest | backend/src/main/java/com/grp12/Controller/PendingMaintenanceController.java:45-131 | a SUPER_ADMIN or unknown caller is refused with 403 or 401; otherwise the reply and the stored request are those of the submission rules, and maintenance records are untouched |
| PendingMaintenance.PendingMaintenanceController.ApprovePendingMaintenanceRequest | backend/src/main/java/com/grp12/Controller/PendingMaintenanceController.java:146-191 | it succeeds exactly when the review guard passes; then the request becomes APPROVED and a maintenance record copying its fields is created under a new id; on error nothing changes |
| PendingMaintenance.PendingMaintenanceController.RejectPendingMaintenanceRequest | backend/src/main/java/com/grp12/Controller/PendingMaintenanceController.java:193-241 | it succeeds exactly when the review guard passes; then only the request changes, to REJECTED, with the trimmed reason if it is not blank |
| VehicleForm.VinIgnoresCase | FrontEnd/src/components/AddVehicleManager.js:88-91 | under the case-insensitive flag, a VIN passes exactly when its lowercase form passes |
| VehicleForm.Check | FrontEnd/src/components/AddVehicleManager.js:133-171 | one check contributes no entry exactly when it passes |
| VehicleForm.ErrorsForHas | FrontEnd/src/components/AddVehicleManager.js:130-174 | the errors object has an entry for a field exactly when that field is checked and its check fails |
| VehicleForm.ErrorsForEmpty | FrontEnd/src/components/AddVehicleManager.js:130-174 | the errors object is empty exactly when every checked field passes |
| VehicleForm.ErrorsForComplete | FrontEnd/src/components/AddVehicleManager.js:130-174 | over a list naming every field, the errors are empty exactly when every check passes and name exactly the failing fields |
| VehicleForm.ErrorsForMessages | FrontEnd/src/components/AddVehicleManager.js:133-171 | each entry carries its own field's message |
| VehicleForm.ValidateForm | FrontEnd/src/components/AddVehicleManager.js:83-174 | definition; its meaning is stated by VehicleForm.ValidateFormIff |
| VehicleForm.ValidateFormIff | FrontEnd/src/components/AddVehicleManager.js:83-174 | the errors object is empty exactly when the plate is two letters, one whitespace and three digits, the VIN is empty or 17 valid characters, the year is in [1900, currentYear], the price in (0, 10000], the seating in [2, 50], the mileage empty or in [0, 500000], and type, fuel, transmission and location come from their lists; it names exactly the failing fields |
| VehicleForm.JoinMessages | FrontEnd/src/components/AddVehicleManager.js:183 | joining a list whose first message is non-empty gives a non-empty text |
| VehicleForm.SubmitGateIff | FrontEnd/src/components/AddVehicleManager.js:176-185 | the form is uploaded exactly when every check passes; otherwise a non-empty error text is shown and submission stops |
| VehicleForm.ImageChange | FrontEnd/src/components/AddVehicleManager.js:264-270 | a file over 5 MB leaves the form unchanged; otherwise only the chosen image slot changes, to the file |
| VehicleForm.ImagesStayWithinLimit | FrontEnd/src/components/AddVehicleManager.js:264-270 | after any sequence of image changes, no image held is over 5 MB |
| Cancellation.SpacedIsGroupedPlusSpace | FrontEnd/src/components/Cancellation.js:10 | adding a space after every full group of four gives the checkout grouping plus one trailing space when the digit count is a non-zero multiple of four |
| Cancellation.FormatCardNumber | FrontEnd/src/components/Cancellation.js:7-12 | definition; its meaning is stated by Cancellation.FormatCardNumberAgrees and Cancellation.FormattedCardAccepted |
| Cancellation.FormatCardNumberAgrees | FrontEnd/src/components/Cancellation.js:7-12 | the cancellation page's card formatter (digits, a space after each group of four, trimmed) gives exactly the checkout page's format: groups of four joined by single spaces |
| Cancellation.FormatExpiry | FrontEnd/src/components/Cancellation.js:14-19 | definition; its meaning is stated by Cancellation.FormatExpiryShape |
| Cancellation.FormatExpiryShape | FrontEnd/src/components/Cancellation.js:14-19 | the expiry text is at most five characters, keeps exactly the first four digits typed, and formatting it again changes nothing |
| Cancellation.PreviewBounds | FrontEnd/src/components/Cancellation.js:56-67 | the fee is within half a cent of the tier's share of the total (30% under 24 hours, 10% under 72, else 0), lies between nothing and the total, and the refund is always 0 |
| Cancellation.FeePercent | FrontEnd/src/components/Cancellation.js:62-66 | definition; its meaning is stated by Cancellation.FeeGrowsTowardPickup and Cancellation.PreviewBounds |
| Cancellation.FeeGrowsTowardPickup | FrontEnd/src/components/Cancellation.js:62-66 | cancelling later never costs less: the fee only grows as the pickup comes closer |
| Cancellation.RemoveSpaces | FrontEnd/src/components/Cancellation.js:80 | removing whitespace never lengthens the text |
| Cancellation.ValidatePayment | FrontEnd/src/components/Cancellation.js:78-94 | definition; its meaning is stated by Cancellation.ValidatePaymentIff |
| Cancellation.ValidatePaymentIff | FrontEnd/src/components/Cancellation.js:78-94 | a payment passes exactly with 16 card digits once spaces are removed, an expiry "MM/YY" with month 01-12 whose month is not over, and a 3-digit CVV |
| Cancellation.FormattedCardAccepted | FrontEnd/src/components/Cancellation.js:7-12 | any card number the formatter produced from 16 digits passes the card check |
| Cancellation.CancelGate | FrontEnd/src/components/Cancellation.js:98-99 | 72 hours or more before pickup, cancelling goes ahead even with an empty payment form; closer to pickup, on a total of at least 5 cents, it goes ahead exactly when the payment is valid |
| Checkout.Grouped | FrontEnd/src/components/Checkout.js:44-49 | definition; its meaning is stated by Checkout.GroupedShape and Checkout.FormatCardNumberIdempotent |
| Checkout.GroupedShape | FrontEnd/src/components/Checkout.js:44-49 | grouping digits only inserts spaces: the digits come back unchanged, every fifth character and only it is a space, the length grows by one space per full group before the last, and there is no trailing space |
| Checkout.FormatCardNumberIdempotent | FrontEnd/src/components/Checkout.js:44-49 | formatting an already formatted card number changes nothing, and the digits typed are kept |
| Checkout.ChangedValue | FrontEnd/src/components/Checkout.js:88-123 | definition; its meaning is stated by Checkout.ChangedValueWithinLimit and Checkout.OverLimitIgnored |
| Checkout.ChangedValueWithinLimit | FrontEnd/src/components/Checkout.js:88-123 | every value the change handler stores keeps to its input's limit: at most 19 card digits shown grouped, phones of at most 15 digits, a CVV of at most 4 digits, a month of at most 2 digits and at most 12, a year of at most 4 digits |
| Checkout.OverLimitIgnored | FrontEnd/src/components/Checkout.js:92-119 | a keystroke past the limit (20th card digit, 16th phone digit, 5th CVV digit, 3rd month digit, 5th year digit) is ignored |
| Checkout.ErrorsFromEmpty | FrontEnd/src/components/Checkout.js:84-85 | the errors object is empty exactly when none of the ten checks produced a message |
| Checkout.InputErrorIff | FrontEnd/src/components/Checkout.js:55-82 | an input gets no message exactly when it meets its rule |
| Checkout.ValidateForm | FrontEnd/src/components/Checkout.js:51-86 | definition; its meaning is stated by Checkout.ValidateFormIff |
| Checkout.ValidateFormIff | FrontEnd/src/components/Checkout.js:51-86 | the booking is submitted exactly when the name, an e-mail shaped address, 7 to 15 phone digits, at least 13 card digits, an expiry that is not past, a 3- or 4-digit CVV and all billing details are present |
| Checkout.ExpiredIff | FrontEnd/src/components/Checkout.js:63-75 | for typed digits the card is reported expired exactly when (year, month) is before the current (year, month), with the message "Card has expired"; the current month still passes |
| Checkout.CardDigitsInRange | FrontEnd/src/components/Checkout.js:60-94 | a card number that passed validation and came through the change handler has 13 to 19 digits, as the message says |
| Checkout.CheckoutDays | FrontEnd/src/components/Checkout.js:184-186 | definition; its meaning is stated by Checkout.CheckoutDaysMatchServer |
| Checkout.CheckoutDaysMatchServer | FrontEnd/src/components/Checkout.js:184-186 | for dates at midnight, the page charges the same number of days as the server: both end days counted |
| Checkout.CheckoutForm.constructor | FrontEnd/src/components/Checkout.js:12-26 | every input starts empty and there are no errors |
| Checkout.CheckoutForm.HandleChange | FrontEnd/src/components/Checkout.js:88-123 | an ignored keystroke leaves the form and errors as they were; otherwise only that input changes and its error is cleared, and every stored value stays within its limit |
| Checkout.CheckoutForm.Validate | FrontEnd/src/components/Checkout.js:51-86 | stores the errors object and reports success exactly when every rule holds |
| CarDetail.Without | FrontEnd/src/components/CarDetail.js:138-140 | filtering out an id removes every copy of it, keeps every other entry and never lengthens the list |
| CarDetail.WithoutKeepsDistinct | FrontEnd/src/components/CarDetail.js:138-140 | filtering a list without repeats leaves a list without repeats |
| CarDetail.WithoutAbsent | FrontEnd/src/components/CarDetail.js:140 | filtering out an id the list lacks changes nothing |
| CarDetail.WithoutAppend | FrontEnd/src/components/CarDetail.js:136-138 | filtering distributes over appending one entry |
| CarDetail.WithoutCommutes | FrontEnd/src/components/CarDetail.js:138-140 | filtering out two ids gives the same list in either order |
| CarDetail.AmenityChange | FrontEnd/src/components/CarDetail.js:132-143 | definition; its meaning is stated by CarDetail.AmenityChangeEffect and CarDetail.ChangeKeepsServerRules |
| CarDetail.AmenityChangeEffect | FrontEnd/src/components/CarDetail.js:132-143 | after checking, the selection holds the id (unless it is "none") and never "none"; after unchecking it lacks the id; no other id is added or removed; a selection without repeats stays so |
| CarDetail.CheckThenUncheck | FrontEnd/src/components/CarDetail.js:132-143 | checking a new amenity and unchecking it again restores the selection, less "none" |
| CarDetail.CalculateDays | FrontEnd/src/components/CarDetail.js:111-118 | definition; its meaning is stated by CarDetail.CalculateDaysVersusServer |
| CarDetail.CalculateDaysVersusServer | FrontEnd/src/components/CarDetail.js:111-118 | at least one day is charged; for two different midnight dates the page charges one day fewer than the server, which counts both end days; for the same date both charge one day |
| CarDetail.AmenityCost | FrontEnd/src/components/CarDetail.js:122-127 | definition; its meaning is stated by CarDetail.AmenityCostMatchesServer |
| CarDetail.AmenityCostMatchesServer | FrontEnd/src/components/CarDetail.js:122-127 | with "none" not selected, the page and the server add up the same amenity cost |
| CarDetail.TotalPrice | FrontEnd/src/components/CarDetail.js:120-130 | definition; its meaning is stated by CarDetail.TotalVersusServer |
| CarDetail.TotalVersusServer | FrontEnd/src/components/CarDetail.js:120-130 | the page's total, with 15% tax, differs from the server's expected total by exactly 15% of the page's subtotal less one day's price |
| CarDetail.ProceedError | FrontEnd/src/components/CarDetail.js:154-164 | definition; its meaning is stated by CarDetail.ProceedIff |
| CarDetail.ProceedIff | FrontEnd/src/components/CarDetail.js:154-164 | the booking is posted exactly when there is a vehicle, a user and a return date strictly after the rental date, and then at least one day is charged |
| CarDetail.DefaultSelectionRefused | FrontEnd/src/components/CarDetail.js:173 | as written, the default selection "none" is posted as an empty list, which the server refuses with its amenity message |
| CarDetail.SelectionPassesAmenityRules | FrontEnd/src/components/CarDetail.js:173 | posting the selection as it is, every non-empty selection the check boxes produce passes the server's request checks, which come before the vehicle and price checks |
| CarDetail.ChangeKeepsServerRules | FrontEnd/src/components/CarDetail.js:132-143 | starting from the default, every check box change keeps the selection to known amenity ids with "none" only on its own |
| CarDetail.MimeType | FrontEnd/src/components/CarDetail.js:21-29 | the image type is always one of JPEG, PNG, GIF or WebP |
| CarDetail.MimeTypeByHeader | FrontEnd/src/components/CarDetail.js:21-29 | only the first 20 characters count; a JPEG, PNG, GIF or WebP signature at the start gives that type when no earlier-checked signature is in the header; a header with no signature gives JPEG |
| CarDetail.ChangeImage | FrontEnd/src/components/CarDetail.js:40-41 | definition; its meaning is stated by CarDetail.ChangeImageWraps |
| CarDetail.ChangeImageWraps | FrontEnd/src/components/CarDetail.js:40-41 | from a shown image, a step either way stays among the images, forward then back returns to the same image, and the ends wrap around |
| VehicleSearch.FilterVehicles | FrontEnd/src/components/VehicleSearch.js:190-220 | the filter chain applied step by step (location, then type, then price range) yields exactly the listed vehicles that match every filter, in listing order |
| VehicleSearch.Matches | FrontEnd/src/components/VehicleSearch.js:204-217 | definition; its meaning is stated by VehicleSearch.FilterAgrees, VehicleSearch.MatchIgnoresCase and VehicleSearch.PriceRangesOverlapAtEnds |
| VehicleSearch.FilterAgrees | FrontEnd/src/components/VehicleSearch.js:204-217 | filters whose tests agree on every vehicle give the same list |
| VehicleSearch.FilterSame | FrontEnd/src/components/VehicleSearch.js:204-217 | the price filter written as one branch per range equals one filter by the chosen range, and an unknown range filters nothing |
| VehicleSearch.FilteredIsOrderedSelection | FrontEnd/src/components/VehicleSearch.js:190-220 | the shown vehicles appear in listing order and are exactly the listed ones that match |
| VehicleSearch.MatchIgnoresCase | FrontEnd/src/components/VehicleSearch.js:194-201 | the location and type tests ignore letter case in the search terms |
| VehicleSearch.PriceRangesOverlapAtEnds | FrontEnd/src/components/VehicleSearch.js:206-216 | the ranges cover every price; 100, 150 and 200 fall in two ranges each, and 50 only in "50-100" |
| VehicleSearch.HandleReservation | FrontEnd/src/components/VehicleSearch.js:227-275 | definition; its meaning is stated by VehicleSearch.ReservationIff |
| VehicleSearch.ReservationIff | FrontEnd/src/components/VehicleSearch.js:227-275 | a reservation draft is made exactly when both dates and a pickup location are given, the start is not before today and the end is after the start; it carries the searched dates and a dropoff location that falls back to the pickup location |
| VehicleSearch.ClearFiltersShowsAll | FrontEnd/src/components/VehicleSearch.js:277-287 | clearing keeps the dates and shows every vehicle |
| VehicleSearch.CarouselMatchesCarDetail | FrontEnd/src/components/VehicleSearch.js:59-60 | on a shown image, the search card's next and previous buttons step exactly as the car detail carousel does |
| Breadcrumbs.IndexOf | FrontEnd/src/components/BreadcrumbContext.js:20-56 | the position found is the first one holding the path, and there is none exactly when the path is not in the history |
| Breadcrumbs.Prefixes | FrontEnd/src/components/BreadcrumbContext.js:18-28 | the admin and manager prefixes exclude each other; the dashboards fall under their own prefix, and the home page under neither |
| Breadcrumbs.Update | FrontEnd/src/components/BreadcrumbContext.js:12-63 | definition; its meaning is stated by Breadcrumbs.UpdateCases, Breadcrumbs.UpdateEndsAtPath and Breadcrumbs.UpdateKeepsDistinct |
| Breadcrumbs.UpdateEndsAtPath | FrontEnd/src/components/BreadcrumbContext.js:12-63 | after any navigation the history is non-empty and ends with the current path |
| Breadcrumbs.UpdateCases | FrontEnd/src/components/BreadcrumbContext.js:12-63 | staying on the last page changes nothing; a dashboard or the home page resets the history to itself; a page already in the history cuts it back to end there; a new admin page starts a trail from the admin dashboard, a new manager page one from the manager dashboard (through the vehicle list for the add page), and any other new page is appended |
| Breadcrumbs.UpdateKeepsDistinct | FrontEnd/src/components/BreadcrumbContext.js:12-63 | a history without repeated pages never gets one |
| Breadcrumbs.BackCutsAtPage | FrontEnd/src/components/BreadcrumbContext.js:20-59 | going back to an earlier page of a history without repeats cuts the history right after that page |
| AllReservations.FilteredReservations | FrontEnd/src/components/AllReservations.js:76-87 | definition; its meaning is stated by AllReservations.FilteredIsOrderedSelection and AllReservations.SearchIgnoresCase |
| AllReservations.FilteredIsOrderedSelection | FrontEnd/src/components/AllReservations.js:76-87 | the list keeps its order and shows exactly the rows passing both the search and the status filter; with an empty search and "all" every row is shown |
| AllReservations.ContainedInDigits | FrontEnd/src/components/AllReservations.js:82 | a piece of a digit string is digits |
| AllReservations.LowerDigits | FrontEnd/src/components/AllReservations.js:78-82 | lower-casing leaves digit text as it is |
| AllReservations.SearchIgnoresCase | FrontEnd/src/components/AllReservations.js:77-82 | the letter case of the search term does not change which rows match, even with the case-sensitive id test |
| AllReservations.IdFindsRow | FrontEnd/src/components/AllReservations.js:82 | a row's id, typed in full, finds that row |
| AllReservations.CancelLocally | FrontEnd/src/components/AllReservations.js:53-55 | the list keeps its length |
| AllReservations.CancelChangesOnlyTarget | FrontEnd/src/components/AllReservations.js:53-55 | only the rows with the cancelled id change, and only their status, which becomes "Cancelled"; repeating the update changes nothing, and the updated rows pass the "cancelled" status filter |
| AllReservations.StatusColor | FrontEnd/src/components/AllReservations.js:66-74 | definition; its meaning is stated by AllReservations.StatusColorIgnoresCase |
| AllReservations.StatusColorIgnoresCase | FrontEnd/src/components/AllReservations.js:66-74 | the colour depends only on the lower-cased status, and the grey default is used exactly for statuses other than the four known ones |
| AdminLogin.LastTen | FrontEnd/src/components/AdminLogin.js:33 | definition of `slice(-10)`; its meaning is stated by AdminLogin.LastTenSnoc |
| AdminLogin.LastTenSnoc | FrontEnd/src/components/AdminLogin.js:33 | keeping only the last ten keys before appending one loses nothing the next `slice(-10)` sees, so whether the code is spelled is the same |
| AdminLogin.KeyDown | FrontEnd/src/components/AdminLogin.js:26-46 | definition; its meaning is stated by AdminLogin.KeyDownSpec and AdminLogin.KeyDownSteps |
| AdminLogin.KeyDownSpec | FrontEnd/src/components/AdminLogin.js:26-46 | keys are recorded lower-cased and only outside super-admin mode; the mode comes on exactly when the last ten keys spell the code, and unlocking clears the sequence; otherwise the sequence is either cleared or grows by the key, and it never exceeds 15 keys |
| AdminLogin.KeyDownSteps | FrontEnd/src/components/AdminLogin.js:26-46 | the handler ignores keys in super-admin mode, appends the lower-cased key below 15 keys unless the code is spelled, and clears the sequence on a 16th key that does not spell it |
| AdminLogin.KeyDownUnlocksOnCode | FrontEnd/src/components/AdminLogin.js:32-39 | a key that makes the last ten keys the code's keys turns the mode on |
| AdminLogin.ReplaySplit | FrontEnd/src/components/AdminLogin.js:24-53 | feeding two runs of keys one after the other is feeding their concatenation |
| AdminLogin.ModeStaysOn | FrontEnd/src/components/AdminLogin.js:27 | once on, super-admin mode survives any further keys |
| AdminLogin.RunCollects | FrontEnd/src/components/AdminLogin.js:26-46 | while the sequence stays within 15 keys it collects the lower-cased keys, and when no prefix spells the code the mode stays off |
| AdminLogin.SpellsCodeSingles | FrontEnd/src/components/AdminLogin.js:33-35 | for one-character keys, spelling the code means the last ten keys are exactly the code's keys |
| AdminLogin.TypingCodeUnlocks | FrontEnd/src/components/AdminLogin.js:26-46 | typing the code, in any letter case, after at most six other keys unlocks super-admin mode |
| AdminLogin.StrayKeyBlocksCode | FrontEnd/src/components/AdminLogin.js:33-35 | a key other than "s" ten keys from the end rules the code out |
| AdminLogin.LateCodeIsLost | FrontEnd/src/components/AdminLogin.js:42-44 | after seven other keys the code does not unlock: the 15-key limit clears the sequence while the code is being typed |
| AdminLogin.KeyDetector.constructor | FrontEnd/src/components/AdminLogin.js:21-22 | no keys recorded, the mode off, no success message |
| AdminLogin.KeyDetector.HandleKeyDown | FrontEnd/src/components/AdminLogin.js:26-46 | the new state is the handler's step from the old one, the sequence stays within 15 keys, and the success message is set exactly when the mode comes on |
| AdminLogin.ValidateForm | FrontEnd/src/components/AdminLogin.js:55-93 | definition; its meaning is stated by AdminLogin.ValidateFormIff |
| AdminLogin.ValidateFormIff | FrontEnd/src/components/AdminLogin.js:55-93 | the form passes exactly when the email and password are not blank and, in super-admin mode, the names are given, the username has at least 3 characters, and the password matches its confirmation and has at least 6 characters; outside the mode the registration fields are ignored |
| AdminLogin.BlankIsEmptyTrim | FrontEnd/src/components/AdminLogin.js:57-83 | a value trims to empty exactly when it is blank |
| Lists.Filter | FrontEnd/src/components/VehicleSearch.js:195 | a filter never lengthens the list |
| Lists.FilterSpec | FrontEnd/src/components/VehicleSearch.js:195-200 | a filter keeps exactly the entries that pass, in their order |
| Lists.FilterKeepsAll | FrontEnd/src/components/VehicleSearch.js:191-201 | a filter that every entry passes changes nothing |
| Lists.FilterTwice | FrontEnd/src/components/VehicleSearch.js:194-201 | filtering by one test and then another is filtering once by both |
| Text.TrimStart | backend/src/main/java/com/grp12/Controller/PendingVehicleController.java:109 | removes exactly the leading spaces: the result is a suffix, empty exactly for blank text, not starting with a space, and what was cut is blank |
| Text.TrimEnd | backend/src/main/java/com/grp12/Controller/PendingVehicleController.java:109 | removes exactly the trailing spaces: the result is a prefix, empty exactly for blank text, not ending with a space, and what was cut is blank |
| Text.Trim | backend/src/main/java/com/grp12/Controller/PendingVehicleController.java:86-124 | the trimmed text is empty exactly when the text is blank, and otherwise neither starts nor ends with a space; Text.TrimCutsBothEnds ties it to the input |
| Text.TrimCutsBothEnds | backend/src/main/java/com/grp12/Controller/PendingVehicleController.java:109 | `trim()` is the leading spaces cut off and then the trailing ones, so the result is an infix of the text with only blanks cut before and after it |
| Text.Lower | FrontEnd/src/components/AllReservations.js:78 | definition; its meaning is stated by Text.LowerIdempotent |
| Text.LowerIdempotent | FrontEnd/src/components/AllReservations.js:78 | the result holds no uppercase ASCII letter, text without one is unchanged, and lower-casing twice is the same as lower-casing once |
| Text.Digits | FrontEnd/src/components/Checkout.js:46 | keeping only the digits gives digits and never lengthens the text |
| Text.DigitsOfConcat | FrontEnd/src/components/Checkout.js:46 | the digits of a concatenation are the digits of each part, concatenated |
| Text.NatToString | FrontEnd/src/components/AllReservations.js:82 | an id is written as non-empty digits without leading zeros that read back as the id |
| Text.ParseInt | FrontEnd/src/components/AddVehicleManager.js:95 | on digit text, parsing gives the digits' value, and nothing for empty text |
| Text.PadNat | backend/src/main/java/com/grp12/Services/EmailService.java:25 | a zero-padded number has exactly the width asked for and reads back as the number |
| Text.DigitsValueInjective | backend/src/main/java/com/grp12/Services/EmailService.java:25 | digit strings of the same length and value are the same string |
| Text.PriceRoundTrip | backend/src/main/java/com/grp12/Controller/PendingVehicleController.java:248 | every amount written with two decimals reads back as the same amount |
| Text.PaddedPriceUnreadable | backend/src/main/java/com/grp12/Controller/PendingVehicleController.java:248 | a price with a space before or after it cannot be read as a number |
| Cancellation.FormatExpiryDigits | FrontEnd/src/components/Cancellation.js:14-19 | formatting the expiry keeps exactly the first four digits typed, in order |
| Text.BigDecimalCents | backend/src/main/java/com/grp12/Controller/PendingVehicleController.java:248 | text that reads as an amount neither starts nor ends with a space |

## Left out

- Rendering, React hooks, routing, `fetch`/`axios` calls, alerts and confirmation dialogs are left out. Each page's handler is modelled on the values it reads and the state it sets.
- Spring wiring, HTTP plumbing and the JPA repositories are left out. Repositories are maps from id to row, and a repository's unique columns are checked where a save happens.
- Transactions are left out. Neither pending-change controller runs in a transaction. A failed vehicle approval leaves both tables as they were because the request row is saved only after the vehicle operation succeeded (backend/src/main/java/com/grp12/Controller/PendingVehicleController.java:269). A maintenance approval saves the request before the new record (backend/src/main/java/com/grp12/Controller/PendingMaintenanceController.java:175-179). The model treats that record save as one that cannot fail, so an APPROVED request left without its record is not modelled.
- The text of JDK exceptions after the "Failed to ...: " prefixes is left out. The model keeps only that a conversion failed.
- Password hashing is a parameter (`encode`, `matches`), because it is foreign code.
- The random draw of the verification code is a parameter, because it is foreign code.
- Building and sending e-mail is left out, because it is I/O.
- Clocks, time zones and today's date are parameters. Dates are day numbers or millisecond timestamps.
- `LocalDate` parsing covers four-digit years only.
- Floating-point money is left out. Prices are integer cents. The car detail total with 15% tax is an exact `real` number of cents. The cancellation fee rounds exactly, where the page rounds a floating-point value.
- Sub-cent `BigDecimal` amounts are left out. Amounts are whole cents, so a price with more than two decimals is outside the model.
- Letter case is ASCII only. `toLowerCase` and `toUpperCase` on other characters, and database collation, are left out.
- `parseFloat` is modelled without exponents and without `Infinity`.
- Named keys such as "Shift" are left out of the key detector. They are treated as one multi-character key string, as `event.key` gives them.
- Base64 image compression is a parameter that may fail, because it uses image libraries. Base64 validation on the detail page is left out. Only the header check that picks the image type is modelled.
- Negative ids cannot occur, since ids are natural numbers.
- The comment stripper's file reads and writes are state changes on a map from path to content. Encoding errors and the order in which `os.walk` yields entries are left out. The walk is given as a sequence of entries.
- The comment stripper's console output is modelled as a list of lines.
- CommentStripper.FileSystem.RemoveComments: the stored contents are the text as Python's text mode reads it, so "\r\n" and a lone "\r" have already become "\n" (remove_comments.py:8,22), and the result is written back with "\n" line ends, as `os.linesep` is on POSIX (remove_comments.py:17,31). On a file with Windows line ends, the model's contents are therefore the translated text, not the bytes on disk, and a Windows write of `os.linesep` = "\r\n" is not modelled.
- Admins.AdminService.RegisterAdmin: an id sent by the client is ignored, and the admin is always stored under a new id. The source binds the request body to an `Admin` entity (backend/src/main/java/com/grp12/Controller/AdminController.java:44), which has `setId` (backend/src/main/java/com/grp12/Model/Admin.java:70), and `save` (backend/src/main/java/com/grp12/Services/AdminService.java:40) merges an entity that carries an existing id over that row. Merge semantics of the persistence layer are outside the model.
- Reservations.ReservationService.CreateReservation: the price-mismatch message is only "Total price mismatch". The source appends "Expected: X, Received: Y" (backend/src/main/java/com/grp12/Services/ReservationService.java:124), printed by `BigDecimal.toString`, whose scale the integer-cents model does not keep.
- Reservations.ReservationService.CreateReservation: a vehicle without a price per day fails with the model's own message "Vehicle has no price per day". The source instead throws a `NullPointerException` at `getPricePerDay().multiply` (ReservationService.java:109), whose JDK text is not modelled.
- Reservations.ReservationService.CreateReservation: an id sent by the client is ignored, and the reservation is always stored under a new id. The source saves the posted entity (ReservationService.java:135), and the repository's `save` merges an entity that carries an existing id, which would overwrite that reservation. Merge semantics of the persistence layer are outside the model.
- Reservations.CreateError: the same two messages as CreateReservation, the shortened price mismatch and the model's own text for a missing price per day.
- Text.BigDecimalCents: exponent text such as "1e2", which `new BigDecimal` reads as 100, is refused. So are amounts with more than two decimals. A price typed into the number field in exponent form therefore fails approval in the model but not in the source.
- Verification.CodeIsOneShot: holds for verifications that run one after another. The store is a `ConcurrentHashMap` (backend/src/main/java/com/grp12/Services/EmailService.java:21), and `verifyCode` reads the entry and then removes it in two steps, so two concurrent verifications of the same code can both succeed. Concurrency is outside the model.
- PendingVehicles.FormError: a required request parameter that is missing altogether is refused by Spring with its own 400 before the method runs, ahead of the 401 and 403 checks (PendingVehicleController.java:46-63). The model treats a missing parameter like a blank one, refused with the controller's own message after those checks. The same holds for the car id, type and date of a maintenance request (PendingMaintenanceController.java:49-53) in PendingMaintenance.Submit.
- CarDetail.TotalVersusServer: states the difference between the page's total and the server's expected total. It does not claim the two agree, because the page adds 15% tax and charges one day fewer than the server.
- PendingVehicles.PaddedPriceBlocksApproval: models, as written, a price stored untrimmed at submission. " 45" passes the submit check and then makes approval fail when the price is converted.

## Findings

| source | as written | input that shows it | evidently intended | confidence | as-written member | corrected member |
|---|---|---|---|---|---|---|
| FrontEnd/src/components/CarDetail.js:173 | the page posts an empty amenity list whenever "none" is selected, and the server refuses an empty list (backend/src/main/java/com/grp12/Services/ReservationService.java:76-78) for every existing vehicle (an unknown one gets the controller's 404 first) | the default selection ["none"] with a rental date before the return date and a positive price per day | post ["none"] as selected, since the server accepts "none" on its own | high, not executed | CarDetail.DefaultSelectionRefused | CarDetail.SelectionPassesAmenityRules |
