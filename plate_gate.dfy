/** `gate_capture` (app.py): what the gate does with one scanned plate.
    A resident vehicle outside the car park is let in; one inside is handed
    over to the face step.  A guest without an open session gets a new
    session and ticket; a guest with one must present the ticket, and each
    wrong ticket bumps a per-session counter that raises an admin
    notification from the third attempt on, without locking anything.

    Saving the images, the OCR call and the best-effort `gate_captures`
    inserts are outside the model: whether the plate image was stored and
    the text OCR returned are inputs, and so are `datetime.now()` (`now`)
    and the `random.randint` draw behind the ticket code. */
module PlateGate {
  import opened Wrappers
  import opened Text
  import opened Tariff
  import opened Tables

  /** The JSON body fields the decision reads. */
  datatype CaptureRequest = CaptureRequest(
    plateImage: bool,                // `plate_image` present and non-empty
    guestTicketCode: Option<string>, // `guest_ticket_code`
    plateTextManual: Option<string>) // `plate_text_manual`

  datatype CaptureResponse =
    | MissingPlateImage                         // 400
    | PlateNotSaved                             // 500
    | PlateUnreadable                           // ok false
    | ResidentEntered(plate: string)            // event_type resident_in
    | ResidentToFace(residentId: nat, plate: string) // next_step face
    | GuestEntered(plate: string, ticketCode: string) // event_type guest_in
    | NeedTicketCode(plate: string)             // open session, no ticket given
    | WrongTicket(plate: string)                // ticket does not match
    | GuestExited(plate: string, fee: int)      // event_type guest_out

  function HttpStatus(r: CaptureResponse): (code: nat)
    ensures code == 400 <==> r.MissingPlateImage?
    ensures code == 500 <==> r.PlateNotSaved?
    ensures code == 200 <==> !r.MissingPlateImage? && !r.PlateNotSaved?
  {
    match r
    case MissingPlateImage => 400
    case PlateNotSaved => 500
    case _ => 200
  }

  /** A refusal: the request is answered without writing anything. */
  predicate IsRefusal(r: CaptureResponse) {
    r.MissingPlateImage? || r.PlateNotSaved? || r.PlateUnreadable? || r.ResidentToFace? || r.NeedTicketCode?
  }

  /** `(value or "").strip() or None` */
  function CleanText(raw: Option<string>): (r: Option<string>)
    ensures r.None? <==> raw.None? || Strip(raw.value) == []
    ensures r.Some? ==> raw.Some? && r.value == Strip(raw.value) && r.value != []
  {
    if raw.None? || Strip(raw.value) == [] then None else Some(Strip(raw.value))
  }

  /** The plate text: the manual entry when there is one, else the OCR text,
      stripped and upper-cased. */
  function ScannedPlate(req: CaptureRequest, ocr: Option<string>): (plate: string)
    ensures CleanText(req.plateTextManual).Some? ==> plate == Upper(Strip(CleanText(req.plateTextManual).value))
    ensures CleanText(req.plateTextManual).None? ==> plate == Upper(Strip(ocr.GetOr("")))
  {
    var manual := CleanText(req.plateTextManual);
    var text := if manual.Some? then manual.value else ocr.GetOr("");
    Upper(Strip(text))
  }

  // Row predicates and row updates, named so that the specification and
  // the method below use the very same ones.

  function PlateIs(plate: string): Vehicle -> bool { (v: Vehicle) => Upper(v.plate) == plate }
  function VehicleWithId(id: nat): Vehicle -> bool { (v: Vehicle) => v.id == id }
  function MarkInParking(): Vehicle -> Vehicle { (v: Vehicle) => v.(inParking := Some(true)) }
  function OpenWithTicket(code: string): GuestSession -> bool {
    (s: GuestSession) => s.ticketCode == code && s.status == Open
  }
  function OpenWithPlate(plate: string): GuestSession -> bool {
    (s: GuestSession) => s.plate == plate && s.status == Open
  }
  function WithPlateAndTicket(plate: string, code: string): GuestSession -> bool {
    (s: GuestSession) => s.plate == plate && s.ticketCode == code
  }
  function SessionWithId(id: nat): GuestSession -> bool { (s: GuestSession) => s.id == id }
  function CloseSession(now: int, fee: int): GuestSession -> GuestSession {
    (s: GuestSession) => s.(checkout := Some(now), fee := Some(fee), status := Closed)
  }
  function AttemptOf(sessionId: nat): TicketAttempt -> bool {
    (a: TicketAttempt) => a.sessionId == sessionId
  }
  function RecordAttempt(count: nat, now: int): TicketAttempt -> TicketAttempt {
    (a: TicketAttempt) => a.(wrongCount := Some(count), lastAttemptAt := now)
  }

  const WrongTicketTitle: string := "Nhập mã vé sai quá 3 lần"

  /** The vehicle row that makes the plate a resident's: the first row whose
      upper-cased plate is `plate`, when that row has a (non-zero) resident id. */
  function ResidentVehicle(vs: seq<Vehicle>, plate: string): (r: Option<nat>)
    ensures r.Some? ==> r.value < |vs| && Upper(vs[r.value].plate) == plate
    ensures r.Some? ==> vs[r.value].residentId.Some? && vs[r.value].residentId.value != 0
    ensures r.Some? ==> r == FirstWhere(vs, PlateIs(plate))
    ensures r.None? ==> FirstWhere(vs, PlateIs(plate)).None? || vs[FirstWhere(vs, PlateIs(plate)).value].residentId.GetOr(0) == 0
  {
    var i := FirstWhere(vs, PlateIs(plate));
    if i.Some? && vs[i.value].residentId.Some? && vs[i.value].residentId.value != 0 then i else None
  }

  /** The open guest session the scan refers to: by ticket first, then by
      plate, the one with the greatest id each time. */
  function FindGuestSession(ss: seq<GuestSession>, ticket: Option<string>, plate: string): (r: Option<nat>)
    ensures r.Some? ==> r.value < |ss| && ss[r.value].status == Open
    ensures ticket.Some? && LatestWhere(ss, OpenWithTicket(ticket.value)).Some? ==>
      r == LatestWhere(ss, OpenWithTicket(ticket.value))
    ensures !(ticket.Some? && LatestWhere(ss, OpenWithTicket(ticket.value)).Some?) ==>
      r == LatestWhere(ss, OpenWithPlate(plate))
    ensures r.None? ==> !HasOpenSession(ss, plate)
  {
    var byTicket := if ticket.Some? then LatestWhere(ss, OpenWithTicket(ticket.value)) else None;
    if byTicket.Some? then byTicket else LatestWhere(ss, OpenWithPlate(plate))
  }

  /** The whole decision as a function of the database before the scan:
      the database after it and the response. */
  function Capture(db: Db, req: CaptureRequest, plateSaved: bool, ocr: Option<string>, now: int, draw: Draw): (Db, CaptureResponse)
  {
    if !req.plateImage then (db, MissingPlateImage)
    else if !plateSaved then (db, PlateNotSaved)
    else
      var plate := ScannedPlate(req, ocr);
      if plate == [] then (db, PlateUnreadable)
      else
        match ResidentVehicle(db.vehicles, plate)
        case Some(i) => ResidentScan(db, i, plate, now)
        case None => GuestScan(db, CleanText(req.guestTicketCode), plate, now, draw)
  }

  function ResidentScan(db: Db, i: nat, plate: string, now: int): (Db, CaptureResponse)
    requires i < |db.vehicles| && db.vehicles[i].residentId.Some?
  {
    var v := db.vehicles[i];
    var rid := v.residentId.value;
    if v.inParking != Some(true) then
      (db.(vehicles := UpdateWhere(db.vehicles, VehicleWithId(v.id), MarkInParking()),
           logs := db.logs + [ParkingLog(now, ResidentIn, ResidentUser, Some(rid), None, Some(plate))]),
       ResidentEntered(plate))
    else (db, ResidentToFace(rid, plate))
  }

  function GuestScan(db: Db, ticket: Option<string>, plate: string, now: int, draw: Draw): (Db, CaptureResponse)
  {
    match FindGuestSession(db.sessions, ticket, plate)
    case None => GuestEnter(db, plate, now, draw)
    case Some(i) => GuestLeave(db, i, ticket, plate, now)
  }

  function GuestEnter(db: Db, plate: string, now: int, draw: Draw): (Db, CaptureResponse)
  {
    var code := TicketCode(draw);
    var sessions := db.sessions + [GuestSession(NextId(SessionIds(db.sessions)), plate, code, now, None, None, Open)];
    var row := LatestWhere(sessions, WithPlateAndTicket(plate, code));
    var sessionId := if row.Some? then Some(sessions[row.value].id) else None;
    (db.(sessions := sessions,
         logs := db.logs + [ParkingLog(now, GuestIn, GuestUser, None, sessionId, Some(plate))]),
     GuestEntered(plate, code))
  }

  function GuestLeave(db: Db, i: nat, ticket: Option<string>, plate: string, now: int): (Db, CaptureResponse)
    requires i < |db.sessions|
  {
    var s := db.sessions[i];
    if ticket.None? then (db, NeedTicketCode(plate))
    else if ticket.value != Strip(s.ticketCode) then WrongTicketAttempt(db, s.id, plate, now)
    else
      var fee := CalculateFee(s.checkin, now);
      (db.(attempts := DeleteWhere(db.attempts, AttemptOf(s.id)),
           sessions := UpdateWhere(db.sessions, SessionWithId(s.id), CloseSession(now, fee)),
           logs := db.logs + [ParkingLog(now, GuestOut, GuestUser, None, Some(s.id), Some(plate))]),
       GuestExited(plate, fee))
  }

  /** The wrong count a wrong ticket for the session records: one more than
      the stored count of its first attempt row, or 1 without a row. */
  function NewWrongCount(attempts: seq<TicketAttempt>, sessionId: nat): (count: nat)
    ensures count >= 1
    ensures FirstWhere(attempts, AttemptOf(sessionId)).None? ==> count == 1
    ensures FirstWhere(attempts, AttemptOf(sessionId)).Some? ==>
      count == attempts[FirstWhere(attempts, AttemptOf(sessionId)).value].wrongCount.GetOr(0) + 1
  {
    var row := FirstWhere(attempts, AttemptOf(sessionId));
    if row.Some? then attempts[row.value].wrongCount.GetOr(0) + 1 else 1
  }

  function WrongTicketAttempt(db: Db, sessionId: nat, plate: string, now: int): (Db, CaptureResponse)
  {
    var count := NewWrongCount(db.attempts, sessionId);
    var attempts :=
      if FirstWhere(db.attempts, AttemptOf(sessionId)).Some? then
        UpdateWhere(db.attempts, AttemptOf(sessionId), RecordAttempt(count, now))
      else db.attempts + [TicketAttempt(sessionId, Some(1), now)];
    var notifications :=
      if count >= 3 then db.notifications + [Notification("danger", WrongTicketTitle, plate, sessionId, count, now)]
      else db.notifications;
    (db.(attempts := attempts, notifications := notifications), WrongTicket(plate))
  }

  // ---------------------------------------------------------------
  // Properties of the decision
  // ---------------------------------------------------------------

  /** The scan reaches the guest flow: an image was stored, a plate was
      read and no resident vehicle carries it. */
  predicate GuestPath(db: Db, req: CaptureRequest, plateSaved: bool, ocr: Option<string>) {
    && req.plateImage && plateSaved && ScannedPlate(req, ocr) != []
    && ResidentVehicle(db.vehicles, ScannedPlate(req, ocr)).None?
  }

  /** How a scan is routed: the three early refusals, then the resident
      branch for a plate whose first vehicle row has a resident, else the
      guest branch, keyed by the cleaned ticket and the plate. */
  lemma CaptureRoutes(db: Db, req: CaptureRequest, plateSaved: bool, ocr: Option<string>, now: int, draw: Draw)
    ensures !req.plateImage ==> Capture(db, req, plateSaved, ocr, now, draw) == (db, MissingPlateImage)
    ensures req.plateImage && !plateSaved ==> Capture(db, req, plateSaved, ocr, now, draw) == (db, PlateNotSaved)
    ensures req.plateImage && plateSaved && ScannedPlate(req, ocr) == [] ==>
      Capture(db, req, plateSaved, ocr, now, draw) == (db, PlateUnreadable)
    ensures (req.plateImage && plateSaved && ScannedPlate(req, ocr) != [] &&
             ResidentVehicle(db.vehicles, ScannedPlate(req, ocr)).Some?) ==>
        Capture(db, req, plateSaved, ocr, now, draw) ==
        ResidentScan(db, ResidentVehicle(db.vehicles, ScannedPlate(req, ocr)).value, ScannedPlate(req, ocr), now)
    ensures GuestPath(db, req, plateSaved, ocr) ==>
      Capture(db, req, plateSaved, ocr, now, draw) ==
      GuestScan(db, CleanText(req.guestTicketCode), ScannedPlate(req, ocr), now, draw)
  {
  }

  /** Resident branch: a vehicle not known to be inside (flag 0 or NULL) is
      marked inside, every row with its id and no other, and exactly one
      `resident_in` log is appended; a vehicle already inside changes
      nothing and is handed over to the face step. */
  lemma ResidentScanEffect(db: Db, i: nat, plate: string, now: int)
    requires i < |db.vehicles| && db.vehicles[i].residentId.Some?
    ensures var (db2, r) := ResidentScan(db, i, plate, now);
      var v := db.vehicles[i];
      if v.inParking == None || v.inParking == Some(false) then
        && r == ResidentEntered(plate)
        && db2.logs == db.logs + [ParkingLog(now, ResidentIn, ResidentUser, v.residentId, None, Some(plate))]
        && |db2.vehicles| == |db.vehicles|
        && db2.vehicles[i].inParking == Some(true)
        && (forall k :: 0 <= k < |db.vehicles| && db.vehicles[k].id != v.id ==> db2.vehicles[k] == db.vehicles[k])
        && db2 == db.(vehicles := db2.vehicles, logs := db2.logs)
      else
        db2 == db && r == ResidentToFace(v.residentId.value, plate)
  {
    var v := db.vehicles[i];
    if v.inParking.Some? && !v.inParking.value {
      assert v.inParking == Some(false);
    }
  }

  /** A guest enters only when no open session has the plate (nor the
      ticket); exactly one open row with the plate, the six-digit code of
      the draw, `checkin = now` and a fresh id is added, plus one `guest_in`
      log that refers to that id. */
  lemma {:induction false} GuestEnterEffect(db: Db, ticket: Option<string>, plate: string, now: int, draw: Draw)
    ensures var (db2, r) := GuestScan(db, ticket, plate, now, draw);
      |db2.sessions| >= |db.sessions|
    ensures var r := GuestScan(db, ticket, plate, now, draw).1;
      r.GuestEntered? <==>
        && (ticket.None? || forall k :: 0 <= k < |db.sessions| ==> !OpenWithTicket(ticket.value)(db.sessions[k]))
        && (forall k :: 0 <= k < |db.sessions| ==> !OpenWithPlate(plate)(db.sessions[k]))
    ensures var (db2, r) := GuestScan(db, ticket, plate, now, draw);
      var id := NextId(SessionIds(db.sessions));
      r.GuestEntered? || |db2.sessions| > |db.sessions| ==>
        && r == GuestEntered(plate, TicketCode(draw))
        && !HasOpenSession(db.sessions, plate)
        && db2.sessions == db.sessions + [GuestSession(id, plate, TicketCode(draw), now, None, None, Open)]
        && (forall k :: 0 <= k < |db.sessions| ==> db.sessions[k].id < id)
        && db2.logs == db.logs + [ParkingLog(now, GuestIn, GuestUser, None, Some(id), Some(plate))]
        && db2 == db.(sessions := db2.sessions, logs := db2.logs)
  {
    if FindGuestSession(db.sessions, ticket, plate).None? {
      var code := TicketCode(draw);
      var id := NextId(SessionIds(db.sessions));
      var sessions := db.sessions + [GuestSession(id, plate, code, now, None, None, Open)];
      var row := LatestWhere(sessions, WithPlateAndTicket(plate, code));
      assert WithPlateAndTicket(plate, code)(sessions[|sessions| - 1]);
      assert row == Some(|sessions| - 1) by {
        assert sessions[row.value].id >= id;
        forall k | 0 <= k < |db.sessions|
          ensures sessions[k].id < id
        {
          assert SessionIds(db.sessions)[k] == db.sessions[k].id;
        }
      }
    }
  }

  /** Every guest scan keeps "at most one open session per plate": a session
      is opened only for a plate without one, and closing a session or
      counting attempts opens nothing. */
  lemma {:induction false} GuestScanKeepsOneOpenPerPlate(db: Db, ticket: Option<string>, plate: string, now: int, draw: Draw)
    requires OneOpenPerPlate(db.sessions)
    ensures OneOpenPerPlate(GuestScan(db, ticket, plate, now, draw).0.sessions)
  {
    var (db2, r) := GuestScan(db, ticket, plate, now, draw);
    GuestEnterEffect(db, ticket, plate, now, draw);
    var found := FindGuestSession(db.sessions, ticket, plate);
    if found.None? {
      forall i, j | 0 <= i < j < |db2.sessions| && db2.sessions[i].status == Open && db2.sessions[j].status == Open
        ensures db2.sessions[i].plate != db2.sessions[j].plate
      {
        if j == |db.sessions| {
          assert !IsOpenWithPlate(db.sessions[i], plate);
        }
      }
    } else {
      var s := db.sessions[found.value];
      if ticket.Some? && ticket.value == Strip(s.ticketCode) {
        var fee := CalculateFee(s.checkin, now);
        assert db2.sessions == UpdateWhere(db.sessions, SessionWithId(s.id), CloseSession(now, fee));
        forall i, j | 0 <= i < j < |db2.sessions| && db2.sessions[i].status == Open && db2.sessions[j].status == Open
          ensures db2.sessions[i].plate != db2.sessions[j].plate
        {
          assert db2.sessions[i] == db.sessions[i] && db2.sessions[j] == db.sessions[j];
        }
      }
    }
  }

  /** The invariant for whole scans: the resident branch and the refusals
      do not touch the sessions. */
  lemma {:induction false} CaptureKeepsOneOpenPerPlate(db: Db, req: CaptureRequest, plateSaved: bool, ocr: Option<string>, now: int, draw: Draw)
    requires OneOpenPerPlate(db.sessions)
    ensures OneOpenPerPlate(Capture(db, req, plateSaved, ocr, now, draw).0.sessions)
  {
    CaptureRoutes(db, req, plateSaved, ocr, now, draw);
    if GuestPath(db, req, plateSaved, ocr) {
      GuestScanKeepsOneOpenPerPlate(db, CleanText(req.guestTicketCode), ScannedPlate(req, ocr), now, draw);
    }
  }

  /** An open session for the plate and no ticket: the guest is asked for
      the ticket and nothing is written. */
  lemma OpenSessionWithoutTicket(db: Db, plate: string, now: int, draw: Draw)
    requires HasOpenSession(db.sessions, plate)
    ensures GuestScan(db, None, plate, now, draw) == (db, NeedTicketCode(plate))
  {
  }

  /** A wrong ticket: the sessions, vehicles and logs stay as they were; the
      session's counter becomes one more than its stored value, or 1 in a
      new row; a 'danger' notification is appended exactly when the new
      count is at least 3. */
  lemma WrongTicketEffect(db: Db, sid: nat, plate: string, now: int)
    ensures var (db2, r) := WrongTicketAttempt(db, sid, plate, now);
      var row := FirstWhere(db.attempts, AttemptOf(sid));
      var count := NewWrongCount(db.attempts, sid);
      && r == WrongTicket(plate)
      && db2 == db.(attempts := db2.attempts, notifications := db2.notifications)
      && (row.None? ==> count == 1 && db2.attempts == db.attempts + [TicketAttempt(sid, Some(1), now)])
      && (row.Some? ==>
            && count == db.attempts[row.value].wrongCount.GetOr(0) + 1
            && |db2.attempts| == |db.attempts|
            && db2.attempts[row.value] == TicketAttempt(sid, Some(count), now)
            && (forall k :: 0 <= k < |db.attempts| ==>
                  db2.attempts[k] == if db.attempts[k].sessionId == sid then TicketAttempt(sid, Some(count), now) else db.attempts[k]))
      && (count >= 3 ==>
            db2.notifications == db.notifications + [Notification("danger", WrongTicketTitle, plate, sid, count, now)])
      && (count < 3 ==> db2.notifications == db.notifications)
  {
  }

  /** There is no lockout: what a guest scan answers, and what it does to
      the sessions and logs, does not depend on the attempt counters or the
      notifications, so a correct ticket is accepted after any number of
      wrong ones. */
  lemma GuestScanIgnoresAttemptHistory(db1: Db, db2: Db, ticket: Option<string>, plate: string, now: int, draw: Draw)
    requires db1.(attempts := db2.attempts, notifications := db2.notifications) == db2
    ensures GuestScan(db1, ticket, plate, now, draw).1 == GuestScan(db2, ticket, plate, now, draw).1
    ensures GuestScan(db1, ticket, plate, now, draw).0.sessions == GuestScan(db2, ticket, plate, now, draw).0.sessions
    ensures GuestScan(db1, ticket, plate, now, draw).0.logs == GuestScan(db2, ticket, plate, now, draw).0.logs
  {
  }

  /** The correct ticket for the session found: its attempt rows are
      deleted, the session (every row with its id) is closed with
      `checkout = now` and the fee of the stay, and one `guest_out` log for
      the scanned plate is appended. */
  lemma {:induction false} CorrectTicketChecksOut(db: Db, i: nat, plate: string, now: int)
    requires i < |db.sessions|
    ensures var s := db.sessions[i];
      var (db2, r) := GuestLeave(db, i, Some(Strip(s.ticketCode)), plate, now);
      var fee := CalculateFee(s.checkin, now);
      && r == GuestExited(plate, fee)
      && |db2.sessions| == |db.sessions|
      && db2.sessions[i] == s.(checkout := Some(now), fee := Some(fee), status := Closed)
      && (forall k :: 0 <= k < |db.sessions| && db.sessions[k].id != s.id ==> db2.sessions[k] == db.sessions[k])
      && (forall k :: 0 <= k < |db2.attempts| ==> db2.attempts[k].sessionId != s.id)
      && (forall a :: a in db.attempts && a.sessionId != s.id ==> a in db2.attempts)
      && db2.logs == db.logs + [ParkingLog(now, GuestOut, GuestUser, None, Some(s.id), Some(plate))]
      && db2 == db.(attempts := db2.attempts, sessions := db2.sessions, logs := db2.logs)
  {
    var s := db.sessions[i];
    var db2 := GuestLeave(db, i, Some(Strip(s.ticketCode)), plate, now).0;
    assert db2.attempts == DeleteWhere(db.attempts, AttemptOf(s.id));
    forall a | a in db.attempts && a.sessionId != s.id
      ensures a in db2.attempts
    {
      assert !AttemptOf(s.id)(a);
    }
  }

  /** Ticket first: a ticket naming an open session closes the most recent
      such session, whatever plate was scanned. */
  lemma {:induction false} TicketFirstClosesItsSession(db: Db, t: string, plate: string, now: int, draw: Draw, i: nat)
    requires t == Strip(t)
    requires LatestWhere(db.sessions, OpenWithTicket(t)) == Some(i)
    ensures var (db2, r) := GuestScan(db, Some(t), plate, now, draw);
      var fee := CalculateFee(db.sessions[i].checkin, now);
      && r == GuestExited(plate, fee)
      && db2.sessions[i] == db.sessions[i].(checkout := Some(now), fee := Some(fee), status := Closed)
  {
    assert OpenWithTicket(t)(db.sessions[i]);
    CorrectTicketChecksOut(db, i, plate, now);
  }

  /** The cleaned ticket of a request is its own strip, as ticket first needs. */
  lemma CleanTicketIsStripped(raw: Option<string>)
    requires CleanText(raw).Some?
    ensures CleanText(raw).value == Strip(CleanText(raw).value)
  {
    StripIdempotent(raw.value);
  }

  /** `gate_capture`: the queries and writes one after the other on the
      database tables. */
  method GateCapture(db: Database, req: CaptureRequest, plateSaved: bool, ocr: Option<string>, now: int, draw: Draw)
    returns (resp: CaptureResponse)
    modifies db
    ensures (db.State(), resp) == Capture(old(db.State()), req, plateSaved, ocr, now, draw)
  {
    if !req.plateImage {
      return MissingPlateImage;
    }
    if !plateSaved {
      return PlateNotSaved;
    }
    var plate := ScannedPlate(req, ocr);
    if plate == [] {
      return PlateUnreadable;
    }
    var veh := ResidentVehicle(db.vehicles, plate);
    if veh.Some? {
      resp := ScanResidentVehicle(db, veh.value, plate, now);
    } else {
      resp := ScanGuest(db, CleanText(req.guestTicketCode), plate, now, draw);
    }
  }

  /** The resident branch of `gate_capture`. */
  method ScanResidentVehicle(db: Database, i: nat, plate: string, now: int) returns (resp: CaptureResponse)
    requires i < |db.vehicles| && db.vehicles[i].residentId.Some?
    modifies db
    ensures (db.State(), resp) == ResidentScan(old(db.State()), i, plate, now)
  {
    var v := db.vehicles[i];
    var rid := v.residentId.value;
    if v.inParking != Some(true) {
      db.vehicles := UpdateWhere(db.vehicles, VehicleWithId(v.id), MarkInParking());
      db.logs := db.logs + [ParkingLog(now, ResidentIn, ResidentUser, Some(rid), None, Some(plate))];
      return ResidentEntered(plate);
    }
    return ResidentToFace(rid, plate);
  }

  /** The guest branch of `gate_capture`. */
  method ScanGuest(db: Database, ticket: Option<string>, plate: string, now: int, draw: Draw) returns (resp: CaptureResponse)
    modifies db
    ensures (db.State(), resp) == GuestScan(old(db.State()), ticket, plate, now, draw)
  {
    var found := FindGuestSession(db.sessions, ticket, plate);
    if found.None? {
      var code := TicketCode(draw);
      db.sessions := db.sessions + [GuestSession(NextId(SessionIds(db.sessions)), plate, code, now, None, None, Open)];
      var row := LatestWhere(db.sessions, WithPlateAndTicket(plate, code));
      var sessionId := if row.Some? then Some(db.sessions[row.value].id) else None;
      db.logs := db.logs + [ParkingLog(now, GuestIn, GuestUser, None, sessionId, Some(plate))];
      return GuestEntered(plate, code);
    }
    var s := db.sessions[found.value];
    if ticket.None? {
      return NeedTicketCode(plate);
    }
    if ticket.value != Strip(s.ticketCode) {
      resp := CountWrongTicket(db, s.id, plate, now);
      return;
    }
    db.attempts := DeleteWhere(db.attempts, AttemptOf(s.id));
    var fee := CalculateFee(s.checkin, now);
    db.sessions := UpdateWhere(db.sessions, SessionWithId(s.id), CloseSession(now, fee));
    db.logs := db.logs + [ParkingLog(now, GuestOut, GuestUser, None, Some(s.id), Some(plate))];
    return GuestExited(plate, fee);
  }

  /** The wrong-ticket branch: bump or create the attempt row, then notify. */
  method CountWrongTicket(db: Database, sessionId: nat, plate: string, now: int) returns (resp: CaptureResponse)
    modifies db
    ensures (db.State(), resp) == WrongTicketAttempt(old(db.State()), sessionId, plate, now)
  {
    var count := NewWrongCount(db.attempts, sessionId);
    var row := FirstWhere(db.attempts, AttemptOf(sessionId));
    if row.Some? {
      db.attempts := UpdateWhere(db.attempts, AttemptOf(sessionId), RecordAttempt(count, now));
    } else {
      db.attempts := db.attempts + [TicketAttempt(sessionId, Some(1), now)];
    }
    if count >= 3 {
      db.notifications := db.notifications + [Notification("danger", WrongTicketTitle, plate, sessionId, count, now)];
    }
    return WrongTicket(plate);
  }
}
