/** The older gate API of backend/routes_gate.py: guest check-in and
    check-out keyed by ticket code, backup-code login and plain resident
    check-in/check-out logging.  The fee and ticket helpers are the ones of
    Tariff; image paths are left out; `now` and the ticket draw are inputs. */
module GateApi {
  import opened Wrappers
  import opened Text
  import opened Tariff
  import opened Tables
  import PlateGate

  /** A JSON value is falsy when absent or empty. */
  predicate Given(v: Option<string>) { v.Some? && v.value != [] }
  predicate GivenId(v: Option<nat>) { v.Some? && v.value != 0 }

  datatype CheckinResponse = PlateRequired | CheckedIn(plate: string, ticketCode: string, checkinTime: int)

  /** `guest_checkin`: a plate is required; a new session row is inserted
      (status 'open' by default) with a fresh six-digit ticket, whatever
      sessions the plate already has. */
  function GuestCheckin(db: Db, plate: Option<string>, now: int, draw: Draw): (Db, CheckinResponse)
  {
    if !Given(plate) then (db, PlateRequired)
    else
      var code := TicketCode(draw);
      (db.(sessions := db.sessions + [GuestSession(NextId(SessionIds(db.sessions)), plate.value, code, now, None, None, Open)]),
       CheckedIn(plate.value, code, now))
  }

  method GuestCheckinEndpoint(db: Database, plate: Option<string>, now: int, draw: Draw) returns (resp: CheckinResponse)
    modifies db
    ensures (db.State(), resp) == GuestCheckin(old(db.State()), plate, now, draw)
  {
    if !Given(plate) {
      return PlateRequired;
    }
    var ticketCode := TicketCode(draw);
    db.sessions := db.sessions + [GuestSession(NextId(SessionIds(db.sessions)), plate.value, ticketCode, now, None, None, Open)];
    return CheckedIn(plate.value, ticketCode, now);
  }

  /** Check-in without a plate inserts nothing; with one it inserts exactly
      one open row with a fresh id, the drawn ticket, `checkin_time = now`
      and no checkout or fee, even when the plate already has an open
      session (so two open sessions for one plate can exist). */
  lemma GuestCheckinEffect(db: Db, plate: Option<string>, now: int, draw: Draw)
    ensures var (db2, r) := GuestCheckin(db, plate, now, draw);
      && (!Given(plate) ==> r == PlateRequired && db2 == db)
      && (Given(plate) ==>
            var id := NextId(SessionIds(db.sessions));
            && db2 == db.(sessions := db2.sessions)
            && db2.sessions == db.sessions + [GuestSession(id, plate.value, TicketCode(draw), now, None, None, Open)]
            && (forall k :: 0 <= k < |db.sessions| ==> db.sessions[k].id < id)
            && IsOpenWithPlate(db2.sessions[|db.sessions|], plate.value)
            && r == CheckedIn(plate.value, TicketCode(draw), now))
  {
    if Given(plate) {
      var id := NextId(SessionIds(db.sessions));
      forall k | 0 <= k < |db.sessions| ensures db.sessions[k].id < id {
        assert SessionIds(db.sessions)[k] == db.sessions[k].id;
      }
    }
  }

  /** A plate with an open session checks in again and ends up with two. */
  lemma {:induction false} CheckinMayDuplicateOpenSession(db: Db, plate: string, now: int, draw: Draw, k: nat)
    requires plate != [] && k < |db.sessions| && IsOpenWithPlate(db.sessions[k], plate)
    ensures !OneOpenPerPlate(GuestCheckin(db, Some(plate), now, draw).0.sessions)
  {
    var ss := GuestCheckin(db, Some(plate), now, draw).0.sessions;
    assert ss[k] == db.sessions[k];
    assert ss[k].status == Open && ss[|db.sessions|].status == Open && ss[k].plate == ss[|db.sessions|].plate;
  }

  datatype CheckoutResponse =
    | TicketRequired                 // 400
    | TicketNotFound                 // 404
    | CheckedOut(ticketCode: string, plate: string, checkinTime: int, checkoutTime: int, fee: int)

  /** `guest_checkout`: a ticket is required; the first open row with that
      ticket is closed with `checkout_time = now` and its fee. */
  function GuestCheckout(db: Db, ticket: Option<string>, now: int): (Db, CheckoutResponse)
  {
    if !Given(ticket) then (db, TicketRequired)
    else
      match FirstWhere(db.sessions, PlateGate.OpenWithTicket(ticket.value))
      case None => (db, TicketNotFound)
      case Some(i) =>
        var s := db.sessions[i];
        var fee := CalculateFee(s.checkin, now);
        (db.(sessions := UpdateWhere(db.sessions, PlateGate.SessionWithId(s.id), PlateGate.CloseSession(now, fee))),
         CheckedOut(ticket.value, s.plate, s.checkin, now, fee))
  }

  method GuestCheckoutEndpoint(db: Database, ticket: Option<string>, now: int) returns (resp: CheckoutResponse)
    modifies db
    ensures (db.State(), resp) == GuestCheckout(old(db.State()), ticket, now)
  {
    if !Given(ticket) {
      return TicketRequired;
    }
    var session := FirstWhere(db.sessions, PlateGate.OpenWithTicket(ticket.value));
    if session.None? {
      return TicketNotFound;
    }
    var s := db.sessions[session.value];
    var fee := CalculateFee(s.checkin, now);
    db.sessions := UpdateWhere(db.sessions, PlateGate.SessionWithId(s.id), PlateGate.CloseSession(now, fee));
    return CheckedOut(ticket.value, s.plate, s.checkin, now, fee);
  }

  /** A missing ticket is a 400 and a ticket with no open session a 404,
      both without change; otherwise the session found (every row with its
      id) is closed with `checkout = now` and the fee, other rows stay. */
  lemma GuestCheckoutEffect(db: Db, ticket: Option<string>, now: int)
    ensures var (db2, r) := GuestCheckout(db, ticket, now);
      && (!Given(ticket) ==> r == TicketRequired && db2 == db)
      && (Given(ticket) && (forall k :: 0 <= k < |db.sessions| ==> !PlateGate.OpenWithTicket(ticket.value)(db.sessions[k])) ==>
            r == TicketNotFound && db2 == db)
      && (Given(ticket) && (exists k :: 0 <= k < |db.sessions| && PlateGate.OpenWithTicket(ticket.value)(db.sessions[k])) ==>
            var i := FirstWhere(db.sessions, PlateGate.OpenWithTicket(ticket.value)).value;
            var s := db.sessions[i];
            && i < |db.sessions| && s.ticketCode == ticket.value && s.status == Open
            && (forall k :: 0 <= k < i ==> !PlateGate.OpenWithTicket(ticket.value)(db.sessions[k]))
            && r == CheckedOut(ticket.value, s.plate, s.checkin, now, CalculateFee(s.checkin, now))
            && db2 == db.(sessions := db2.sessions)
            && |db2.sessions| == |db.sessions|
            && db2.sessions[i] == s.(checkout := Some(now), fee := Some(r.fee), status := Closed)
            && (forall k :: 0 <= k < |db.sessions| && db.sessions[k].id != s.id ==> db2.sessions[k] == db.sessions[k]))
  {
  }

  /** Checking out twice with the same ticket: the second attempt is a 404
      unless another open row, with another id, shares the code.  With
      unique session ids it is exactly "404 unless another open row has the
      code". */
  lemma {:induction false} RepeatCheckoutNotFound(db: Db, t: string, now: int, later: int)
    requires t != []
    requires GuestCheckout(db, Some(t), now).1.CheckedOut?
    ensures var db2 := GuestCheckout(db, Some(t), now).0;
      var i := FirstWhere(db.sessions, PlateGate.OpenWithTicket(t)).value;
      GuestCheckout(db2, Some(t), later).1 == TicketNotFound <==>
        forall k :: 0 <= k < |db.sessions| && db.sessions[k].id != db.sessions[i].id ==>
          !PlateGate.OpenWithTicket(t)(db.sessions[k])
  {
    var db2 := GuestCheckout(db, Some(t), now).0;
    var i := FirstWhere(db.sessions, PlateGate.OpenWithTicket(t)).value;
    var sid := db.sessions[i].id;
    forall k | 0 <= k < |db.sessions|
      ensures PlateGate.OpenWithTicket(t)(db2.sessions[k]) <==>
        (db.sessions[k].id != sid && PlateGate.OpenWithTicket(t)(db.sessions[k]))
    {
    }
    if GuestCheckout(db2, Some(t), later).1 != TicketNotFound {
      var j := FirstWhere(db2.sessions, PlateGate.OpenWithTicket(t)).value;
      assert db.sessions[j].id != sid && PlateGate.OpenWithTicket(t)(db.sessions[j]);
    }
  }

  datatype BackupLoginResponse =
    | BackupCodeRequired      // 400
    | BackupCodeInvalid       // 404
    | BackupAccepted(residentId: nat, fullName: string, floor: Option<string>, room: Option<string>)

  /** An active resident row with this id. */
  function ActiveResidentWithId(id: nat): Resident -> bool {
    (r: Resident) => r.id == id && r.status == "active"
  }

  /** The join row of `resident_backup_login`: a backup code row, active and
      with the code, whose resident is active. */
  predicate Joins(db: Db, code: string, b: BackupCode) {
    b.code == code && b.active && FirstWhere(db.residents, ActiveResidentWithId(b.residentId)).Some?
  }

  function JoinsCode(db: Db, code: string): BackupCode -> bool { (b: BackupCode) => Joins(db, code, b) }

  /** `resident_backup_login`: the first join row names the resident; one
      `resident_in` log with a NULL plate is written. */
  function BackupLogin(db: Db, code: Option<string>, now: int): (Db, BackupLoginResponse)
  {
    if !Given(code) then (db, BackupCodeRequired)
    else
      match FirstWhere(db.codes, JoinsCode(db, code.value))
      case None => (db, BackupCodeInvalid)
      case Some(j) =>
        var ri := FirstWhere(db.residents, ActiveResidentWithId(db.codes[j].residentId)).value;
        var r := db.residents[ri];
        (db.(logs := db.logs + [ParkingLog(now, ResidentIn, ResidentUser, Some(r.id), None, None)]),
         BackupAccepted(r.id, r.fullName, r.floor, r.room))
  }

  method ResidentBackupLogin(db: Database, code: Option<string>, now: int) returns (resp: BackupLoginResponse)
    modifies db
    ensures (db.State(), resp) == BackupLogin(old(db.State()), code, now)
  {
    if !Given(code) {
      return BackupCodeRequired;
    }
    var row := FirstWhere(db.codes, JoinsCode(db.State(), code.value));
    if row.None? {
      return BackupCodeInvalid;
    }
    var ri := FirstWhere(db.residents, ActiveResidentWithId(db.codes[row.value].residentId)).value;
    var resident := db.residents[ri];
    db.logs := db.logs + [ParkingLog(now, ResidentIn, ResidentUser, Some(resident.id), None, None)];
    return BackupAccepted(resident.id, resident.fullName, resident.floor, resident.room);
  }

  /** Backup login succeeds exactly when an active code row with that code
      belongs to an active resident; it then appends one `resident_in` log
      for an active resident holding the code, with a NULL plate, and
      changes nothing else (in particular no vehicle flag); a failure
      changes nothing. */
  lemma {:induction false} BackupLoginIff(db: Db, code: string, now: int)
    requires code != []
    ensures var (db2, r) := BackupLogin(db, Some(code), now);
      && (r.BackupAccepted? <==>
            exists j, i :: 0 <= j < |db.codes| && 0 <= i < |db.residents| &&
              db.codes[j].code == code && db.codes[j].active &&
              ActiveResidentWithId(db.codes[j].residentId)(db.residents[i]))
      && (!r.BackupAccepted? ==> db2 == db)
      && (r.BackupAccepted? ==>
            && db2 == db.(logs := db.logs + [ParkingLog(now, ResidentIn, ResidentUser, Some(r.residentId), None, None)])
            && (exists j :: 0 <= j < |db.codes| && db.codes[j].code == code && db.codes[j].active &&
                  db.codes[j].residentId == r.residentId)
            && (exists i :: 0 <= i < |db.residents| && db.residents[i].id == r.residentId &&
                  db.residents[i].status == "active"))
  {
    var (db2, r) := BackupLogin(db, Some(code), now);
    if exists j, i :: 0 <= j < |db.codes| && 0 <= i < |db.residents| &&
              db.codes[j].code == code && db.codes[j].active &&
              ActiveResidentWithId(db.codes[j].residentId)(db.residents[i]) {
      var j, i :| 0 <= j < |db.codes| && 0 <= i < |db.residents| &&
              db.codes[j].code == code && db.codes[j].active &&
              ActiveResidentWithId(db.codes[j].residentId)(db.residents[i]);
      assert JoinsCode(db, code)(db.codes[j]);
    }
    if r.BackupAccepted? {
      var j := FirstWhere(db.codes, JoinsCode(db, code)).value;
      var i := FirstWhere(db.residents, ActiveResidentWithId(db.codes[j].residentId)).value;
      assert ActiveResidentWithId(db.codes[j].residentId)(db.residents[i]);
    }
  }

  datatype ResidentLogResponse =
    | ResidentIdRequired        // 400
    | ResidentNotFound          // 404
    | Logged(residentId: nat, fullName: string, plate: Option<string>, eventTime: int)

  /** `resident_checkin` (entering) and `resident_checkout` (leaving): the
      resident must exist and be active; one log row is written. */
  function ResidentEvent(db: Db, rid: Option<nat>, plate: Option<string>, entering: bool, now: int): (Db, ResidentLogResponse)
  {
    if !GivenId(rid) then (db, ResidentIdRequired)
    else
      match FirstWhere(db.residents, ActiveResidentWithId(rid.value))
      case None => (db, ResidentNotFound)
      case Some(i) =>
        (db.(logs := db.logs + [ParkingLog(now, if entering then ResidentIn else ResidentOut, ResidentUser, Some(rid.value), None, plate)]),
         Logged(rid.value, db.residents[i].fullName, plate, now))
  }

  method ResidentCheckin(db: Database, rid: Option<nat>, plate: Option<string>, now: int) returns (resp: ResidentLogResponse)
    modifies db
    ensures (db.State(), resp) == ResidentEvent(old(db.State()), rid, plate, true, now)
  {
    if !GivenId(rid) {
      return ResidentIdRequired;
    }
    var resident := FirstWhere(db.residents, ActiveResidentWithId(rid.value));
    if resident.None? {
      return ResidentNotFound;
    }
    db.logs := db.logs + [ParkingLog(now, ResidentIn, ResidentUser, Some(rid.value), None, plate)];
    return Logged(rid.value, db.residents[resident.value].fullName, plate, now);
  }

  method ResidentCheckout(db: Database, rid: Option<nat>, plate: Option<string>, now: int) returns (resp: ResidentLogResponse)
    modifies db
    ensures (db.State(), resp) == ResidentEvent(old(db.State()), rid, plate, false, now)
  {
    if !GivenId(rid) {
      return ResidentIdRequired;
    }
    var resident := FirstWhere(db.residents, ActiveResidentWithId(rid.value));
    if resident.None? {
      return ResidentNotFound;
    }
    db.logs := db.logs + [ParkingLog(now, ResidentOut, ResidentUser, Some(rid.value), None, plate)];
    return Logged(rid.value, db.residents[resident.value].fullName, plate, now);
  }

  /** A missing id is a 400, an unknown or inactive resident a 404, both
      without a log; otherwise exactly one `resident_in` (`resident_out`)
      log is appended and nothing else changes. */
  lemma ResidentEventEffect(db: Db, rid: Option<nat>, plate: Option<string>, entering: bool, now: int)
    ensures var (db2, r) := ResidentEvent(db, rid, plate, entering, now);
      && (!GivenId(rid) ==> r == ResidentIdRequired && db2 == db)
      && (GivenId(rid) && (forall k :: 0 <= k < |db.residents| ==> !(db.residents[k].id == rid.value && db.residents[k].status == "active")) ==>
            r == ResidentNotFound && db2 == db)
      && (GivenId(rid) && (exists k :: 0 <= k < |db.residents| && db.residents[k].id == rid.value && db.residents[k].status == "active") ==>
            var i := FirstWhere(db.residents, ActiveResidentWithId(rid.value)).value;
            && i < |db.residents|
            && r == Logged(rid.value, db.residents[i].fullName, plate, now)
            && db2 == db.(logs := db.logs + [ParkingLog(now, if entering then ResidentIn else ResidentOut, ResidentUser, rid, None, plate)]))
  {
    if GivenId(rid) && (forall k :: 0 <= k < |db.residents| ==> !(db.residents[k].id == rid.value && db.residents[k].status == "active")) {
      assert forall k :: 0 <= k < |db.residents| ==> !ActiveResidentWithId(rid.value)(db.residents[k]);
    }
    if GivenId(rid) && (exists k :: 0 <= k < |db.residents| && db.residents[k].id == rid.value && db.residents[k].status == "active") {
      var k :| 0 <= k < |db.residents| && db.residents[k].id == rid.value && db.residents[k].status == "active";
      assert ActiveResidentWithId(rid.value)(db.residents[k]);
    }
  }
}
