# Parking gate: a Dafny model

This project models the core of a small apartment-block parking system
written in Python with Flask and MySQL. Cameras at the gate read licence
plates, and the gate decides what happens:

- A plate that belongs to a resident's vehicle enters directly. When the
  vehicle is already inside, the plate scan hands over to a face check,
  and a backup code can stand in for the face.
- A guest plate opens a guest session with a six-digit ticket.
- A guest leaves by showing that ticket. Wrong tickets are counted, and an
  administrator is notified from the third one on.
- Administrators create, update, soft-delete and hard-delete residents,
  and manage backup codes.

The model has these parts:

- a database value `Tables.Db`, with one sequence per MySQL table
  (`residents`, `vehicles`, `guest_sessions`, `resident_backup_codes`,
  `parking_logs`, `guest_ticket_attempts`, `admin_notifications`,
  `admin_users`), held by the class `Tables.Database`;
- every request handler of the core as a pure function
  `Db -> (Db, response)` together with a method on `Database`. The method
  performs the handler's reads and writes one step at a time, and its
  postcondition ties the new state to that function;
- lemmas that state what each handler does to the tables and the
  invariants it keeps;
- the OCR post-processing of `frontend/ai/plate_recognition.py`: text
  clean-up, and the two plate regular expressions written out with the
  backtracking order of Python's `re`;
- the old in-memory demo front end (`LegacyDemo`), whose resident list and
  guest-session dictionary are the fields of a class.

Inputs the Python code takes from the environment become parameters:

- the clock (`now`, an integer count of microseconds);
- the `random.randint` draws (`Tariff.Draw`);
- the OCR and face-recognition results;
- whether the uploaded image could be stored.

Files:

- `wrappers.dfy`: `Option`.
- `text.dfy`: Python string helpers. These are `strip`, `lstrip`/`rstrip`,
  `split`, `upper`/`lower`, filtering, and decimal rendering with zero
  padding.
- `tables.dfy`: the table rows, `Db`, `Database`, and the generic
  `WHERE` helpers (first match, update, delete, latest match). It also
  holds AUTO_INCREMENT, modelled as one more than the largest id.
- `tariff.dfy`: `calculate_fee` and `generate_ticket_code`. These appear
  identically in `app.py` and `backend/routes_gate.py`, and are modelled
  once.
- `app_helpers.dfy`: `make_username`, `make_initial_password` and
  `fmt_time_ago`.
- `plate_gate.dfy`: `gate_capture`, the plate scan at the gate.
- `face_gate.dfy`: `gate_face_capture`, the face or backup-code step.
- `app_admin.dfy`: the resident administration of `app.py`.
- `gate_api.dfy`: the JSON gate API of `backend/routes_gate.py`.
- `admin_api.dfy`: the JSON admin API of `backend/routes_admin.py`.
- `plate.dfy`: `_normalize_raw_text` and `_extract_plate`.
- `demo.dfy`: the in-memory demo application `frontend/app_frontend_old.py.py`.

## Behaviour worth knowing


- The plate scan always looks a session up by ticket first, and only then
  by plate. Wrong tickets never lock the session.
- The soft delete of the JSON admin API sets status `inactive`.
- The "disable" button of `app.py` deletes the resident's rows for real.
- `backup_code_mismatch` is true whenever a code was typed and the gate
  asks again.

## Model

| member | source | states |
|---|---|---|
| Tables.FirstWhere | backend/db.py:18-28 | `query_one` without `ORDER BY`, fixed to the first matching row in table order (see "Left out"): the row it picks is the first in table order that satisfies the condition: the index it returns satisfies it and no earlier row does, and it finds nothing exactly when no row does |
| Tables.LatestWhere | app.py:1095-1118 | `ORDER BY id DESC LIMIT 1` finds a row that satisfies the condition with the greatest id, and finds nothing exactly when no row satisfies it |
| Tables.UpdateWhere | app.py:1194-1199 | `UPDATE ... WHERE` keeps the table length, rewrites every row that satisfies the condition and leaves every other row as it was |
| Tables.DeleteWhere | app.py:612-637 | `DELETE ... WHERE` keeps no row that satisfies the condition, keeps every row that does not, and adds nothing. It is the shared filter with the condition negated, so FilterConcat and FilterOne give the surviving rows in their order |
| Tables.NextId | app.py:528-540 | The AUTO_INCREMENT id of an insert is at least 1 and above every id in the table |
| Tariff.CalculateFee | app.py:136-140 | For a non-negative stay, the fee is 5000 times the least number of whole hours that covers the stay, and it is always a multiple of 5000 |
| Tariff.FeeMonotone | backend/routes_gate.py:18-27 | A later checkout never costs less |
| Tariff.FeeExamples | backend/routes_gate.py:18-27 | Zero time costs 0, exactly two hours costs two hours, one second over starts a third hour, and 1.2 hours costs two hours |
| Tariff.FeeForEarlierCheckout | app.py:136-140 | A checkout stamped before the check-in is billed through truncation toward zero: minus half an hour costs one hour, minus 1.5 hours costs 0, minus two hours costs -10000 |
| Tariff.TicketCode | app.py:132-133 | A code is always six ASCII digits whose decimal value is the draw |
| Tariff.TicketCodeInjective | backend/routes_gate.py:11-15 | Different draws give different codes |
| AppHelpers.PhoneTail | app.py:150 | The suffix is either the phone's last four characters, when it has at least four, or empty |
| AppHelpers.MakeUsername | app.py:144-152 | A missing or empty name gives "user". Otherwise the login name is the name part of the name followed by the phone suffix; that part has no space, no capital letter and no combining accent, and is no longer than the name |
| AppHelpers.UsernameBase | app.py:148-150 | The name part is no longer than the name, and has no space, no capital letter and no combining accent |
| AppHelpers.UsernameBaseContents | app.py:148-150 | The name part works character by character: a concatenation gives the concatenation of the parts, a combining accent or a space is dropped, and any other character is kept, lowercased, in order |
| AppHelpers.MakeInitialPassword | app.py:155-158 | The password is always six characters: the phone's last six when it has six, else "123456" |
| AppHelpers.FmtTimeAgo | app.py:117-128 | No timestamp gives an empty label. Under 60 whole seconds gives seconds, under an hour whole minutes, under a day whole hours, and otherwise the date itself (each band both ways) |
| AppHelpers.TruncSeconds | app.py:120-121 | Whole seconds truncate toward zero for positive and negative differences |
| AppAdmin.AdminResetBackupCode | app.py:578-598 | The method's new database is the reset function of the old one |
| AppAdmin.ResetBackupCode | app.py:578-598 | The tables after `admin_reset_backup_code`. Its effect is stated by ResetLeavesOneActiveCode, and AdminResetBackupCode is proved equal to it |
| AppAdmin.ResetLeavesOneActiveCode | app.py:583-595 | After a reset the resident has exactly one active code: the new six-digit code of the draw. Their old codes are kept but switched off, other residents' codes are untouched, and no other table changes |
| AppAdmin.OrNone | app.py:520-526 | A form field is None exactly when it is missing or empty, and is otherwise kept |
| AppAdmin.CreateResident | app.py:514-575 | The tables and the outcome after `admin_create_resident`. Its effect is stated by CreateResidentEffect, and AdminCreateResident is proved equal to it |
| AppAdmin.AdminCreateResident | app.py:514-575 | The method's new database and outcome are those of the create function |
| AppAdmin.CreateResidentEffect | app.py:514-575 | A blank stripped name changes nothing. Otherwise: one row is appended with an id above all existing ones, status active, the derived login and the hash of the initial password, and the old rows stay; for a given plate one vehicle row is added with an id above all others, the new resident, the stripped and uppercased plate and the outside flag, and without one the vehicles stay; one active six-digit code is appended for the new id; no other table changes |
| AppAdmin.DeleteResidentReal | app.py:601-640 | The tables after the hard delete. Its effect is stated by DeleteRemovesEveryTrace, and AdminDeleteResidentReal is proved equal to it |
| AppAdmin.AdminDeleteResidentReal | app.py:601-640 | The method's new database is the hard-delete function of the old one |
| AppAdmin.DeleteRemovesEveryTrace | app.py:601-640 | After the delete no resident, vehicle, code or log row refers to the resident. Every row about anyone else survives, and the other tables (guest sessions, ticket attempts, notifications, admins) are unchanged |
| PlateGate.HttpStatus | app.py:995-1022 | The status is 400 exactly for a missing plate image and 500 exactly for an image that could not be stored. Every other answer, an unreadable plate included, is 200 |
| PlateGate.CleanText | app.py:992-993 | The cleaned field is the stripped text, or None when that is empty |
| PlateGate.ScannedPlate | app.py:1008-1022 | The plate is the manual entry when given and the OCR text otherwise, stripped and uppercased |
| PlateGate.ResidentVehicle | app.py:1027-1035 | A vehicle is found exactly when the first vehicle row with that uppercased plate names a non-zero resident, and the one found is that row |
| PlateGate.FindGuestSession | app.py:1095-1118 | The session found is an open one with the cleaned ticket, the latest by id, if any. Failing that it is the latest open one with the plate, and None only when neither exists |
| PlateGate.NewWrongCount | app.py:1187-1209 | A wrong ticket counts one more than the stored count of the session's first attempt row, or 1 when there is none |
| PlateGate.Capture | app.py:975-1279 | The tables and the answer after `gate_capture`. CaptureRoutes states its routing, HttpStatus its status codes, and CaptureKeepsOneOpenPerPlate its invariant; GateCapture is proved equal to it |
| PlateGate.CaptureRoutes | app.py:975-1279 | The three refusals come first: no image, save failure, no plate. Then the resident branch for a resident's plate, else the guest branch, keyed by the cleaned ticket and the plate |
| PlateGate.ResidentScanEffect | app.py:1037-1092 | A resident vehicle not known to be inside is marked inside (only the rows with its id) and one resident_in log is appended. A vehicle already inside changes nothing and is handed to the face step |
| PlateGate.GuestScan | app.py:1095-1272 | The guest branch: enter when FindGuestSession finds nothing, otherwise leave through that session. GuestEnterEffect, GuestScanKeepsOneOpenPerPlate and GuestScanIgnoresAttemptHistory state its effect; ScanGuest is proved equal to it |
| PlateGate.GuestEnter | app.py:1120-1170 | A new open session and its `guest_in` log. GuestEnterEffect states the row added, its fresh id, the log and that nothing else changes |
| PlateGate.GuestEnterEffect | app.py:1095-1170 | A guest scan enters exactly when no open session has the ticket (when one was given) and none has the plate. Then exactly one open session is added with an id above all others, the draw's six-digit ticket and checkin now, plus one guest_in log for that id, and nothing else changes |
| PlateGate.GuestScanKeepsOneOpenPerPlate | app.py:1095-1272 | Every guest scan keeps at most one open session per plate |
| PlateGate.CaptureKeepsOneOpenPerPlate | app.py:975-1279 | Whole scans keep at most one open session per plate |
| PlateGate.GuestLeave | app.py:1172-1272 | Leaving through a found session: no ticket asks for one, a ticket that differs from the stored one counts as wrong, and the right ticket checks out. OpenSessionWithoutTicket, WrongTicketEffect and CorrectTicketChecksOut state the three cases |
| PlateGate.OpenSessionWithoutTicket | app.py:1176-1182 | An open session for the plate and no ticket asks for the ticket and writes nothing |
| PlateGate.WrongTicketAttempt | app.py:1184-1225 | The tables after a wrong ticket. WrongTicketEffect states the attempt rows, the notification from the third attempt on, and that nothing else changes; CountWrongTicket is proved equal to it |
| PlateGate.WrongTicketEffect | app.py:1184-1225 | A wrong ticket leaves sessions, vehicles and logs unchanged. With no attempt row for the session one row with count 1 is appended; otherwise every attempt row of the session gets the new count (one more than the first row's) and time now, and every other attempt row stays. A danger notification is added exactly when the count reaches 3 or more |
| PlateGate.GuestScanIgnoresAttemptHistory | app.py:1184-1272 | The answer and the effect on sessions and logs do not depend on attempt counters or notifications, so there is no lockout |
| PlateGate.CorrectTicketChecksOut | app.py:1227-1272 | The correct ticket deletes the session's attempt rows, closes the session with checkout now and the fee of the stay, and appends one guest_out log |
| PlateGate.TicketFirstClosesItsSession | app.py:1095-1106 | A ticket naming an open session closes the latest such session, whatever plate was scanned |
| PlateGate.CleanTicketIsStripped | app.py:992-993 | The cleaned ticket is its own strip |
| PlateGate.GateCapture | app.py:975-1279 | The stepwise handler's database and response are those of the decision function |
| PlateGate.ScanResidentVehicle | app.py:1037-1092 | The resident branch's writes equal the resident-scan function |
| PlateGate.ScanGuest | app.py:1095-1272 | The guest branch's writes equal the guest-scan function |
| PlateGate.CountWrongTicket | app.py:1184-1225 | The wrong-ticket writes equal the wrong-ticket function |
| FaceGate.FacePlate | app.py:1290-1293 | The plate is stripped and uppercased, or None when empty |
| FaceGate.ChooseMode | app.py:1343-1346 | An explicit IN or OUT wins. Otherwise the mode is OUT exactly when the matched vehicle is flagged inside |
| FaceGate.FaceVehicle | app.py:1327-1341 | The vehicle is the resident's first row with exactly the sent plate, and None without a plate |
| FaceGate.FaceCapture | app.py:1285-1429 | The tables and the answer after `gate_face_capture`. FaceAcceptedIff, NeedBackupCodeMismatch, FaceAcceptEffect and FaceModeRule state its cases; GateFaceCapture is proved equal to it |
| FaceGate.GateFaceCapture | app.py:1285-1429 | The stepwise handler's database and response are those of the face-step function |
| FaceGate.ParkAndLog | app.py:1386-1406 | The accepting writes set the vehicle flags and append one log |
| FaceGate.FaceAcceptedIff | app.py:1297-1384 | The gate accepts exactly when a resident id was sent and the face matched or the typed code is an active code of that resident. Otherwise no table changes |
| FaceGate.NeedBackupCodeMismatch | app.py:1372-1384 | When the gate asks for a code, the mismatch flag is set exactly when a code was typed |
| FaceGate.FaceAcceptEffect | app.py:1386-1425 | On acceptance, the matched vehicle (or all the resident's vehicles when none matched) gets flag 1 for IN or 0 for OUT. One resident_in or resident_out log is appended, and the codes and every other table are unchanged |
| FaceGate.FaceModeRule | app.py:1343-1346 | The mode chosen for a request follows the explicit mode or the named vehicle's flag |
| FaceGate.BackupCodeReusable | app.py:1362-1370 | An accepted code is not used up: the same request is accepted again |
| GateApi.GuestCheckin | backend/routes_gate.py:42-63 | The tables and the answer of `guest_checkin`. GuestCheckinEffect and CheckinMayDuplicateOpenSession state its effect; GuestCheckinEndpoint is proved equal to it |
| GateApi.GuestCheckinEndpoint | backend/routes_gate.py:42-63 | The endpoint's database and response are those of the check-in function |
| GateApi.GuestCheckinEffect | backend/routes_gate.py:46-56 | No plate is 400 and inserts nothing. A plate appends exactly one open session with an id above all others, the plate, the draw's code, checkin now and no checkout or fee, whatever sessions exist; nothing else changes |
| GateApi.CheckinMayDuplicateOpenSession | backend/routes_gate.py:46-56 | A plate with an open session can check in again and then has two open sessions |
| GateApi.GuestCheckout | backend/routes_gate.py:76-113 | The tables and the answer of `guest_checkout`. GuestCheckoutEffect and RepeatCheckoutNotFound state its cases; GuestCheckoutEndpoint is proved equal to it |
| GateApi.GuestCheckoutEndpoint | backend/routes_gate.py:76-113 | The endpoint's database and response are those of the checkout function |
| GateApi.GuestCheckoutEffect | backend/routes_gate.py:80-104 | A missing ticket is 400 and a ticket with no open session 404, both without change. A given ticket with an open session checks out the first such session: the answer carries its plate, checkin, now and the fee, that session (every row with its id) is closed with checkout now and the fee, and other rows and tables stay |
| GateApi.RepeatCheckoutNotFound | backend/routes_gate.py:80-104 | With unique session ids, a second checkout with the same ticket is 404 unless another open session shares the code |
| GateApi.BackupLogin | backend/routes_gate.py:127-159 | The tables and the answer of `resident_backup_login`. BackupLoginIff states when it succeeds and what it writes; ResidentBackupLogin is proved equal to it |
| GateApi.ResidentBackupLogin | backend/routes_gate.py:127-159 | The endpoint's database and response are those of the backup-login function |
| GateApi.BackupLoginIff | backend/routes_gate.py:130-151 | A backup login succeeds exactly when an active code row with that code belongs to an active resident. It then appends one resident_in log with no plate and changes no vehicle; a failure changes nothing |
| GateApi.ResidentEvent | backend/routes_gate.py:174-241 | The tables and the answer of `resident_checkin` and `resident_checkout`. ResidentEventEffect states its three cases; ResidentCheckin and ResidentCheckout are proved equal to it |
| GateApi.ResidentCheckin | backend/routes_gate.py:174-202 | The endpoint's database and response are those of the resident-event function for entering |
| GateApi.ResidentCheckout | backend/routes_gate.py:215-241 | The endpoint's database and response are those of the resident-event function for leaving |
| GateApi.ResidentEventEffect | backend/routes_gate.py:178-233 | A missing id is 400 and an unknown or inactive resident 404, both without a log. A given id with an active row is logged: the answer names the first such row, exactly one resident_in or resident_out log is appended, and nothing else changes |
| AdminApi.CreateResident | backend/routes_admin.py:16-47 | The tables and the answer of `create_resident`. CreateResidentEffect states both cases; CreateResidentEndpoint is proved equal to it |
| AdminApi.CreateResidentEndpoint | backend/routes_admin.py:16-47 | The endpoint's database and response are those of the create function |
| AdminApi.CreateResidentEffect | backend/routes_admin.py:16-47 | Without a name the answer is 400 and nothing is inserted. With one, exactly one row is appended with an id above all others, the body's columns as sent, status active and no login, and the old rows and other tables stay |
| AdminApi.Merge | backend/routes_admin.py:87-101 | Every column takes the patch's value when sent and the stored value otherwise |
| AdminApi.MergeEmptyPatch | backend/routes_admin.py:87-101 | An empty patch keeps the row as it is |
| AdminApi.UpdateResident | backend/routes_admin.py:60-103 | The tables and the answer of `update_resident`. UpdateResidentEffect and MergeEmptyPatch state its cases; UpdateResidentEndpoint is proved equal to it |
| AdminApi.UpdateResidentEndpoint | backend/routes_admin.py:60-103 | The endpoint's database and response are those of the update function |
| AdminApi.UpdateResidentEffect | backend/routes_admin.py:79-101 | No id is 400 and an unknown id 404, without change. A given id with a row is updated: every row with the id gets the merge of the first such row with the body, so unsent keys keep the stored values; other rows and tables stay |
| AdminApi.DeleteResident | backend/routes_admin.py:107-129 | The tables and the answer of `delete_resident`. DeleteResidentEffect, DeleteIsSoft and InactiveCannotEnter state its effect; DeleteResidentEndpoint is proved equal to it |
| AdminApi.DeleteResidentEndpoint | backend/routes_admin.py:107-129 | The endpoint's database and response are those of the soft-delete function |
| AdminApi.DeleteResidentEffect | backend/routes_admin.py:107-129 | No id is 400 and an unknown id 404, both without change. A known id answers "Resident deactivated": only the residents table changes, every row stays, rows with the id become 'inactive' and the others are unchanged |
| AdminApi.DeleteIsSoft | backend/routes_admin.py:116-129 | Every row stays, the resident's rows only change status to 'inactive', and the resident can no longer check in |
| AdminApi.InactiveCannotEnter | backend/routes_gate.py:178-194 | A resident whose rows are all inactive gets 404 on check-in |
| AdminApi.SetBackupCode | backend/routes_admin.py:133-154 | The tables and the answer of `set_backup_code`. SetBackupCodeEffect and SetBackupCodeKeepsOthers state its effect; SetBackupCodeEndpoint is proved equal to it |
| AdminApi.SetBackupCodeEndpoint | backend/routes_admin.py:133-154 | The endpoint's database and response are those of the set-code function |
| AdminApi.SetBackupCodeEffect | backend/routes_admin.py:133-154 | No code is 400 without change. A code appends exactly one active row for the resident with an id above all others, and nothing else changes |
| AdminApi.SetBackupCodeKeepsOthers | backend/routes_admin.py:144-152 | Setting a code adds it as active, and an earlier active code stays active |
| AdminApi.Register | backend/routes_admin.py:196-230 | The tables and the answer of `admin_register`. RegisterKeepsUsernamesUnique and RegisterThenLogin state its cases; AdminRegister is proved equal to it |
| AdminApi.AdminRegister | backend/routes_admin.py:196-230 | The endpoint's database and response are those of the register function |
| AdminApi.RegisterKeepsUsernamesUnique | backend/routes_admin.py:206-230 | A missing username or password is 400, and so is a taken username, both without change. A free username appends one row with an id above all others, the username, the hash of the password and the full name. Admin usernames stay unique |
| AdminApi.AdminLogin | backend/routes_admin.py:234-267 | A missing username or password is refused with fields-required, and an unknown username is invalid (401). For a known username the first row decides: the login is refused as invalid exactly when that row's hash is not the password's, and succeeds with that row's id, username and name otherwise |
| AdminApi.RegisterThenLogin | backend/routes_admin.py:206-259 | Registering and then logging in with the same credentials succeeds and returns the new admin |
| PlateRecognition.FixChar | frontend/ai/plate_recognition.py:31-40 | Each of the eight letters the map rewrites (O Q D I L Z S B) becomes a digit, and every other character is kept |
| PlateRecognition.Translate | frontend/ai/plate_recognition.py:68 | The length is kept and each character is replaced by its image under the map |
| PlateRecognition.KeepPlateChars | frontend/ai/plate_recognition.py:67 | Only A-Z and 0-9 remain, every kept character comes from the input, and a text made only of them is kept whole |
| PlateRecognition.KeepPlateCharsContents | frontend/ai/plate_recognition.py:67 | The clean-up works character by character: a concatenation gives the concatenation of the parts, and one character is kept exactly when it is A-Z or 0-9 |
| PlateRecognition.NormalizeRawText | frontend/ai/plate_recognition.py:57-69 | Empty text stays empty. Otherwise the result has only A-Z and 0-9 and none of the letters the map rewrites |
| PlateRecognition.NormalFormSteps | frontend/ai/plate_recognition.py:57-69 | Each clean-up step leaves a normalised text unchanged |
| PlateRecognition.NormalizeIdempotent | frontend/ai/plate_recognition.py:57-69 | Normalising twice is normalising once |
| PlateRecognition.ConfusableLettersVanish | frontend/ai/plate_recognition.py:31-40 | A text whose letters are all rewritten by the map normalises to digits only |
| PlateRecognition.TryDigits | frontend/ai/plate_recognition.py:23-28 | The digit count chosen is the largest one up to the bound that completes a match, and None means no count up to the bound does |
| PlateRecognition.TryLetters | frontend/ai/plate_recognition.py:23-28 | The letter count chosen is the largest one up to the bound for which some digit count completes a match, with the largest such digit count. None means no combination matches |
| PlateRecognition.MatchAt | frontend/ai/plate_recognition.py:23-28 | What is found at a position is a match (boundary, two digits, letters, digits, boundary), and nothing is found exactly when no letter and digit counts match there |
| PlateRecognition.SearchFrom | frontend/ai/plate_recognition.py:77-80 | The position found is the leftmost one from the start on where the pattern matches, and nothing is found only when no position matches |
| PlateRecognition.Search | frontend/ai/plate_recognition.py:77-80 | A search finds nothing exactly when the pattern matches nowhere. A result is the text of the match found at the leftmost matching position, with the letter and digit counts the backtracking picks there |
| PlateRecognition.Extract | frontend/ai/plate_recognition.py:72-91 | `_extract_plate`: the pattern loop, then the fallback scan. ExtractIsMatchingSubstring, NoLetterNoPlate and PatternLoopOnCleanText state what it returns; ExtractPlate is proved equal to it |
| PlateRecognition.ExtractPlate | frontend/ai/plate_recognition.py:72-91 | The loop over the patterns and the fallback scan return what `_extract_plate` returns |
| PlateRecognition.ScanWindows | frontend/ai/plate_recognition.py:84-89 | The fallback scan over windows of 10 down to 7 characters. ScanWindowsFirstHit and FallbackLongestThenLeftmost state which window it returns; ScanFallback is proved equal to it |
| PlateRecognition.ScanFallback | frontend/ai/plate_recognition.py:84-89 | The window loop returns the first window, 10 down to 7 long and each from the left, that a pattern matches in full |
| PlateRecognition.ScanWindowsFirstHit | frontend/ai/plate_recognition.py:84-89 | The scan returns a hit, no hit comes earlier in the scan order, and it returns nothing when there is no hit |
| PlateRecognition.FallbackLongestThenLeftmost | frontend/ai/plate_recognition.py:84-89 | The fallback prefers the longest and then the leftmost window, and its results are 7 to 10 characters long |
| PlateRecognition.MatchIsFullMatch | frontend/ai/plate_recognition.py:77-80 | A searched match is a full match of the text it returns |
| PlateRecognition.ExtractIsMatchingSubstring | frontend/ai/plate_recognition.py:72-91 | Whatever is extracted is a substring of the input that one pattern matches in full |
| PlateRecognition.BoundaryOnlyAtEnds | frontend/ai/plate_recognition.py:23-28 | On A-Z/0-9 text, a word boundary holds only at the two ends |
| PlateRecognition.SearchWholeOrNothing | frontend/ai/plate_recognition.py:77-80 | On A-Z/0-9 text, a search returns the whole input exactly when the pattern matches it in full, and otherwise nothing |
| PlateRecognition.PatternLoopOnCleanText | frontend/ai/plate_recognition.py:77-80 | On normalised text, the pattern loop returns the whole input exactly when it is plate-like |
| PlateRecognition.NoCapitalNeverMatches | frontend/ai/plate_recognition.py:23-28 | Text without a capital letter, digits alone for instance, never matches either pattern |
| PlateRecognition.NoLetterNoPlate | frontend/ai/plate_recognition.py:72-91 | Text without a capital letter yields no plate, from the patterns or from the fallback |
| PlateRecognition.SeriesLetterDIsLost | frontend/ai/plate_recognition.py:31-40 | The plate 51D-123.45 is never read back, because the map rewrites its series letter D |
| LegacyDemo.KeepLowerAlnum | frontend/app_frontend_old.py.py:226 | Only a-z and 0-9 remain, and a text made only of them is kept whole. It is the shared character filter, so FilterConcat and FilterOne give its contents |
| LegacyDemo.RemoveVietnameseDiacritics | frontend/app_frontend_old.py.py:84-227 | `remove_vietnamese_diacritics`: table, lower-casing, then the a-z0-9 filter. RemoveDiacriticsContents pins its output and RemoveDiacriticsIsLowerAlnum its alphabet |
| LegacyDemo.RemoveDiacriticsIsLowerAlnum | frontend/app_frontend_old.py.py:84-227 | Removing diacritics yields only lowercase ASCII letters and digits |
| LegacyDemo.PlainFoldsToItself | frontend/app_frontend_old.py.py:88-223 | The accent table maps every character below U+00C0 to itself, plain ASCII letters and digits included |
| LegacyDemo.RemoveDiacriticsKeepsPlain | frontend/app_frontend_old.py.py:84-227 | A text of lowercase ASCII letters and digits is its own result |
| LegacyDemo.RemoveDiacriticsIdempotent | frontend/app_frontend_old.py.py:84-227 | Removing diacritics twice is removing them once |
| LegacyDemo.RemoveDiacriticsContents | frontend/app_frontend_old.py.py:84-227 | Removing accents works character by character. A concatenation gives the concatenation of the parts, and one character becomes its table letter lower-cased, or nothing when that is not a-z0-9 |
| LegacyDemo.RemoveDiacriticsExample | frontend/app_frontend_old.py.py:84-227 | "Bạn " becomes "ban": the accent is removed from the letter, the capital is lower-cased and the space is dropped |
| LegacyDemo.UsernameCore | frontend/app_frontend_old.py.py:235-241 | The words the username is built from: none for a blank name, the last of one or two words, else every word after the first joined. UsernameCoreBlank states when there is none |
| LegacyDemo.UsernameBase | frontend/app_frontend_old.py.py:242-244 | The accent-free core, or "user" when nothing is left. UsernameBaseLowerAlnum states its alphabet |
| LegacyDemo.UsernameCoreBlank | frontend/app_frontend_old.py.py:235-240 | A name gives no words to build the username from exactly when it is blank |
| LegacyDemo.UsernameBaseLowerAlnum | frontend/app_frontend_old.py.py:235-244 | A non-blank name gives a non-empty username base of lowercase ASCII letters and digits |
| LegacyDemo.CandidateInjective | frontend/app_frontend_old.py.py:246-251 | Different suffixes give different candidate usernames |
| LegacyDemo.TriedStep | frontend/app_frontend_old.py.py:246-251 | Each step tries a name not tried before and adds exactly that name to the names tried |
| LegacyDemo.FirstFreeIsFirstFree | frontend/app_frontend_old.py.py:246-251 | The name chosen is unused, and it is the candidate of a suffix all of whose predecessors are in use |
| LegacyDemo.GeneratedName | frontend/app_frontend_old.py.py:230-252 | `generate_username_from_name` as a function. GeneratedNameIsFirstFree states that it is the first free candidate; GenerateUsernameFromName is proved equal to it |
| LegacyDemo.GeneratedNameIsFirstFree | frontend/app_frontend_old.py.py:230-252 | A blank name gives "user". Otherwise the generated name is the first unused candidate |
| LegacyDemo.GenerateUsernameFromName | frontend/app_frontend_old.py.py:230-252 | The loop returns the generated username of the specification |
| LegacyDemo.DigitsOf | frontend/app_frontend_old.py.py:256-257 | Only digits remain, no more than the phone has, and an all-digit phone is kept whole |
| LegacyDemo.DigitsOfContents | frontend/app_frontend_old.py.py:256-257 | The digits work character by character: a concatenation gives the concatenation of the parts, and one character is kept exactly when it is a digit |
| LegacyDemo.PasswordFromPhone | frontend/app_frontend_old.py.py:255-260 | The password is the last eight digits, or all digits when there are fewer, or "12345678" when there are none |
| LegacyDemo.PasswordOfDigitPhone | frontend/app_frontend_old.py.py:255-260 | An all-digit phone of length eight or more gives its last eight characters |
| LegacyDemo.CheckIn | frontend/app_frontend_old.py.py:355-367 | The sessions after `gate_guest_checkin`. CheckInOverwrites states its effect |
| LegacyDemo.CheckOut | frontend/app_frontend_old.py.py:370-392 | The sessions and the success flag of `gate_guest_checkout`. CheckOutEffect and CheckOutAtMostOnce state its effect |
| LegacyDemo.CheckOutEffect | frontend/app_frontend_old.py.py:370-392 | Checkout fails exactly for an unknown ticket or one already out, and then changes nothing. Success marks only that ticket out at now |
| LegacyDemo.CheckOutAtMostOnce | frontend/app_frontend_old.py.py:376-390 | A ticket checks out at most once |
| LegacyDemo.CheckInOverwrites | frontend/app_frontend_old.py.py:355-367 | Check-in overwrites an existing entry for the drawn ticket, even one still inside, and leaves the others unchanged |
| LegacyDemo.Ids | frontend/app_frontend_old.py.py:436 | The ids of the resident list, in order |
| LegacyDemo.NewId | frontend/app_frontend_old.py.py:436 | The new id is above every existing id, and 1 for an empty list |
| LegacyDemo.ResetBackupCode | frontend/app_frontend_old.py.py:472-478 | The list after `admin_reset_backup_code`. AdminActionsTouchOnlyThatRecord states its effect |
| LegacyDemo.DisableResident | frontend/app_frontend_old.py.py:481-487 | The list after `admin_disable_resident`. AdminActionsTouchOnlyThatRecord and DisabledCannotLogIn state its effect |
| LegacyDemo.AdminActionsTouchOnlyThatRecord | frontend/app_frontend_old.py.py:472-487 | Reset and disable change only the record with the id and only the one field, and with unique ids at most one record |
| LegacyDemo.NewRecord | frontend/app_frontend_old.py.py:432-469 | The record `admin_create_resident` appends. NewRecordKeepsIdsUnique states its id, username, status, flag and password |
| LegacyDemo.NewRecordKeepsIdsUnique | frontend/app_frontend_old.py.py:432-469 | A created record keeps ids unique and gets an id above all others. It has the generated username, unused unless the name was blank, status active, the outside flag and the password derived from the phone |
| LegacyDemo.DemoApp.constructor | frontend/app_frontend_old.py.py:20-72 | The demo starts with the seed residents and no guest sessions |
| LegacyDemo.DemoApp.GateGuestCheckin | frontend/app_frontend_old.py.py:355-367 | The sessions become the check-in function of the old ones, and the drawn ticket is returned |
| LegacyDemo.DemoApp.GateGuestCheckout | frontend/app_frontend_old.py.py:370-392 | The sessions and the success flag are the checkout function of the old ones |
| LegacyDemo.DemoApp.GateResidentBackupLogin | frontend/app_frontend_old.py.py:411-420 | A name is returned exactly when some active record has the code, and it is the first such record's name |
| LegacyDemo.DemoApp.AdminCreateResident | frontend/app_frontend_old.py.py:432-469 | The resident list becomes the old list with the form's new record appended |
| LegacyDemo.DemoApp.AdminResetBackupCode | frontend/app_frontend_old.py.py:472-478 | Every record with the id gets the drawn code, and nothing else changes |
| LegacyDemo.DemoApp.AdminDisableResident | frontend/app_frontend_old.py.py:481-487 | Every record with the id is disabled, and nothing else changes |
| LegacyDemo.DisabledCannotLogIn | frontend/app_frontend_old.py.py:416-420 | After a disable, the resident's code no longer opens the gate |
| LegacyDemo.SeedBackupCode | frontend/app_frontend_old.py.py:20-53 | In the seed data, code ABC123 opens for the first resident only |
| Text.Strip | app.py:1019 | `str.strip()`. StripEnds, StripIdempotent and StripEmptyIffBlank state what it removes |
| Text.StripEnds | app.py:1019 | Strip is no longer than its input, drops only whitespace at either end, and the result neither starts nor ends with whitespace |
| Text.StripIdempotent | app.py:1019 | Stripping twice is stripping once |
| Text.StripEmptyIffBlank | app.py:1019 | Strip is empty exactly for an all-whitespace text |
| Text.Split | frontend/app_frontend_old.py.py:235 | `str.split()` with no separator. SplitWords, SplitEmptyIffBlank, SplitConcat and SplitJoin state its words |
| Text.SplitWords | frontend/app_frontend_old.py.py:235-238 | `split()` yields non-empty words without whitespace |
| Text.SplitEmptyIffBlank | frontend/app_frontend_old.py.py:235-238 | `split()` is empty exactly for an all-whitespace text |
| Text.SplitConcat | frontend/app_frontend_old.py.py:235 | Joining the words of `split()` gives the text with its white space removed, so no character other than white space is lost or reordered |
| Text.SplitJoin | frontend/app_frontend_old.py.py:235 | Words joined by single spaces split back into the same words, so the words are the maximal runs between white space |
| Text.Upper | app.py:1019 | `str.upper()` keeps the length and upper-cases each position |
| Text.Lower | app.py:150 | `str.lower()` keeps the length and lower-cases each position |
| Text.Filter | frontend/ai/plate_recognition.py:67 | A filter keeps only the characters (or rows) that pass, is no longer than its input, and keeps a text whose characters all pass whole |
| Text.FilterConcat | frontend/ai/plate_recognition.py:67 | Filtering a concatenation gives the concatenation of the filtered parts, and FilterOne gives the one-character case, so the result is exactly the passing characters in order |

## Left out

- Images: storing the uploaded image, the OCR call and the face-recognition call are outside the model. Their results are parameters, and so is whether the image could be stored.
- `gate_captures`: the rows it inserts, only for the dashboards, are not modelled.
- Exceptions: `try/except` paths, database errors and their 500 answers are not modelled.
- Concurrency: two scans at the same time are not modelled, since each handler is modelled as one atomic change of the tables.
- AUTO_INCREMENT: it is modelled as one more than the largest id in the table, because MySQL never reuses ids while this model could after a delete.
- Schema defaults: `status` 'active' for residents and 'open' for guest sessions are written into the rows directly, because `backend/db.py` and the DDL are not part of this model.
- Password hashing: werkzeug's salted hash is a deterministic `HashOf`, and `check_password_hash` is comparison with it, because a salt is randomness the model does not need.
- Text handling: `upper`, `lower`, `isdigit` and `\w` are ASCII only, because Unicode case and digit tables are not modelled. `strip` and `split` use Python's full whitespace set.
- Unicode normalisation: NFD followed by dropping category Mn is modelled as dropping U+0300 to U+036F from an already decomposed name, because Unicode decomposition tables are not modelled.
- AppHelpers.FmtTimeAgo: returns which label is shown and its number, not the Vietnamese wording or the `strftime` layout, because those are presentation.
- JSON bodies: each field has one type. Text fields are strings or absent, resident ids are natural numbers or absent, and the face result is a boolean. Values of another JSON type, and ids sent as strings, are not modelled.
- LegacyDemo.DemoApp.GateGuestCheckout: does not return the float amount and hours of the demo checkout (half an hour minimum, 5000 per hour), because it is floating point.
- LegacyDemo.DemoApp.AdminCreateResident: takes the floor as already parsed, because the `int()` conversion and its exception are not modelled.
- LegacyDemo.DemoApp.AdminResetBackupCode: takes a single drawn code for every matching record, because the drawn code is a parameter.
- LegacyDemo.DemoApp.GateGuestCheckin: takes its ticket as a parameter instead of drawing it, and so does every other random draw.
- SQL comparisons: every `WHERE ... = %s` on text is exact string equality in the model. That covers `username` and `code`, the plate look-ups of `gate_capture` (`FindGuestSession`, `ResidentVehicle`) and the vehicle `plate = %s` of `gate_face_capture` (`FaceVehicle`, app.py:1327-1341). MySQL's usual case-insensitive collations would also match "Admin" to "admin" and ignore trailing spaces there. That is not modelled, because the collation belongs to the schema, which is not part of this model.
- Tariff.CalculateFee: the float `total_seconds() / 3600` and `is_integer()` are exact integer arithmetic on microseconds. The two agree for any realistic stay. They differ only for stays of over a century, where the double rounds a stay one microsecond past a whole hour to that whole hour. Floating point is not modelled.
- Row choice without `ORDER BY`: where a single-row query has no `ORDER BY`, MySQL does not say which matching row `query_one` or `fetchone()` returns. The model fixes it to the first matching row in table order, which is id order here. The contracts that name "the first row" rely on this choice: GuestCheckoutEffect (routes_gate.py:84-87), BackupLoginIff (routes_gate.py:134-140), UpdateResidentEffect (routes_admin.py:83), AdminLogin (routes_admin.py:250), NewWrongCount (app.py:1187-1190), ResidentVehicle (app.py:1028-1034) and FaceVehicle (app.py:1327-1341). The choice matters only when several rows match.
- Notification timestamps: `add_admin_notification` stamps its row with the clock, so the model uses `now`.
- Pages: the dashboards, reports, chat, login pages, role checks, templates and JavaScript are outside the core.
- `backend/app_backend_old.py.py` is not part of this model.
- The demo's `gate_resident_face` is outside the core.
