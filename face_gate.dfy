/** `gate_face_capture` (app.py): the resident's second factor.  The gate
    accepts when the face check succeeded (`face_ok` or `face_verified`) or
    the resident typed one of their active backup codes; otherwise it asks
    for a backup code and writes nothing.  On acceptance the vehicle flag
    follows the mode and one resident log is written; the code is not used
    up.  Saved face and scene images and the `gate_captures` row are left
    out; `now` is an input. */
module FaceGate {
  import opened Wrappers
  import opened Text
  import opened Tables
  import PlateGate

  datatype Mode = In | Out

  /** The JSON body fields the decision reads. */
  datatype FaceRequest = FaceRequest(
    residentId: Option<nat>,  // `resident_id`; 0 is falsy
    plateText: Option<string>,
    mode: Option<string>,
    backupCode: Option<string>,
    faceOk: bool)             // `bool(face_ok or face_verified)`

  datatype FaceResponse =
    | MissingResident                                                           // 400
    | NeedBackupCode(mismatch: bool, mode: Mode, residentId: nat, plate: Option<string>)
    | FaceAccepted(mode: Mode, residentId: nat, plate: Option<string>)

  /** `(plate_text or "").strip().upper() or None` */
  function FacePlate(raw: Option<string>): (p: Option<string>)
    ensures p.Some? ==> p.value != [] && p.value == Upper(Strip(raw.GetOr("")))
    ensures p.None? <==> Upper(Strip(raw.GetOr(""))) == []
  {
    var t := Upper(Strip(raw.GetOr("")));
    if t == [] then None else Some(t)
  }

  /** `(mode or "AUTO").upper()` */
  function RawMode(raw: Option<string>): string {
    if raw.None? || raw.value == [] then "AUTO" else Upper(raw.value)
  }

  /** An explicit IN or OUT wins; otherwise IN unless the matched vehicle is
      known to be inside (a vehicle with a NULL flag counts as outside). */
  function ChooseMode(rawMode: string, inside: Option<bool>): (m: Mode)
    ensures rawMode == "IN" ==> m == In
    ensures rawMode == "OUT" ==> m == Out
    ensures rawMode != "IN" && rawMode != "OUT" ==> (m == Out <==> inside == Some(true))
  {
    if rawMode == "IN" then In
    else if rawMode == "OUT" then Out
    else if inside == Some(true) then Out
    else In
  }

  function OwnedWithPlate(rid: nat, plate: string): Vehicle -> bool {
    (v: Vehicle) => v.residentId == Some(rid) && v.plate == plate
  }
  function OwnedBy(rid: nat): Vehicle -> bool { (v: Vehicle) => v.residentId == Some(rid) }
  function SetParked(inside: bool): Vehicle -> Vehicle { (v: Vehicle) => v.(inParking := Some(inside)) }
  function ActiveCodeOf(rid: nat, code: string): BackupCode -> bool {
    (c: BackupCode) => c.residentId == rid && c.code == code && c.active
  }

  /** The resident has this code among their active backup codes. */
  predicate HasActiveCode(codes: seq<BackupCode>, rid: nat, code: string) {
    exists k :: 0 <= k < |codes| && ActiveCodeOf(rid, code)(codes[k])
  }

  /** The vehicle named by the request: the first of the resident's rows with
      exactly that plate, when a plate was sent. */
  function FaceVehicle(vs: seq<Vehicle>, rid: nat, plate: Option<string>): (r: Option<nat>)
    ensures r.Some? ==> plate.Some? && r.value < |vs| && OwnedWithPlate(rid, plate.value)(vs[r.value])
    ensures plate.Some? ==> r == FirstWhere(vs, OwnedWithPlate(rid, plate.value))
  {
    if plate.Some? then FirstWhere(vs, OwnedWithPlate(rid, plate.value)) else None
  }

  /** The mode the request resolves to. */
  function FaceMode(db: Db, rid: nat, req: FaceRequest): Mode {
    var veh := FaceVehicle(db.vehicles, rid, FacePlate(req.plateText));
    var inside := if veh.Some? then Some(db.vehicles[veh.value].inParking == Some(true)) else None;
    ChooseMode(RawMode(req.mode), inside)
  }

  /** The second factor holds: a face match, or an active code of the resident. */
  predicate Verified(db: Db, rid: nat, req: FaceRequest) {
    var code := PlateGate.CleanText(req.backupCode);
    req.faceOk || (code.Some? && FirstWhere(db.codes, ActiveCodeOf(rid, code.value)).Some?)
  }

  /** The vehicle rows after acceptance: the matched row, or every row of
      the resident when none matched, get the flag of the mode. */
  function ParkedVehicles(vs: seq<Vehicle>, rid: nat, plate: Option<string>, mode: Mode): seq<Vehicle> {
    var veh := FaceVehicle(vs, rid, plate);
    if veh.Some? then UpdateWhere(vs, PlateGate.VehicleWithId(vs[veh.value].id), SetParked(mode == In))
    else UpdateWhere(vs, OwnedBy(rid), SetParked(mode == In))
  }

  /** The whole face step as a function of the database before it. */
  function FaceCapture(db: Db, req: FaceRequest, now: int): (Db, FaceResponse)
  {
    if req.residentId.None? || req.residentId.value == 0 then (db, MissingResident)
    else
      var rid := req.residentId.value;
      var plate := FacePlate(req.plateText);
      var mode := FaceMode(db, rid, req);
      if !Verified(db, rid, req) then
        (db, NeedBackupCode(!req.faceOk && PlateGate.CleanText(req.backupCode).Some?, mode, rid, plate))
      else
        (db.(vehicles := ParkedVehicles(db.vehicles, rid, plate, mode),
             logs := db.logs + [ParkingLog(now, if mode == In then ResidentIn else ResidentOut, ResidentUser, Some(rid), None, plate)]),
         FaceAccepted(mode, rid, plate))
  }

  /** `gate_face_capture`: the lookups, then the flag update and the log. */
  method GateFaceCapture(db: Database, req: FaceRequest, now: int) returns (resp: FaceResponse)
    modifies db
    ensures (db.State(), resp) == FaceCapture(old(db.State()), req, now)
  {
    if req.residentId.None? || req.residentId.value == 0 {
      return MissingResident;
    }
    var rid := req.residentId.value;
    var plate := FacePlate(req.plateText);
    var code := PlateGate.CleanText(req.backupCode);
    var veh := FaceVehicle(db.vehicles, rid, plate);
    var inside := if veh.Some? then Some(db.vehicles[veh.value].inParking == Some(true)) else None;
    var mode := ChooseMode(RawMode(req.mode), inside);
    var needBackupCode := false;
    var mismatch := false;
    if !req.faceOk {
      if code.None? {
        needBackupCode := true;
      } else if FirstWhere(db.codes, ActiveCodeOf(rid, code.value)).None? {
        needBackupCode := true;
        mismatch := true;
      }
    }
    if needBackupCode {
      return NeedBackupCode(mismatch, mode, rid, plate);
    }
    ParkAndLog(db, rid, plate, veh, mode, now);
    return FaceAccepted(mode, rid, plate);
  }

  /** The writes of an accepted face step. */
  method ParkAndLog(db: Database, rid: nat, plate: Option<string>, veh: Option<nat>, mode: Mode, now: int)
    requires veh == FaceVehicle(db.vehicles, rid, plate)
    modifies db
    ensures db.State() == old(db.State()).(
      vehicles := ParkedVehicles(old(db.vehicles), rid, plate, mode),
      logs := old(db.logs) + [ParkingLog(now, if mode == In then ResidentIn else ResidentOut, ResidentUser, Some(rid), None, plate)])
  {
    if veh.Some? {
      db.vehicles := UpdateWhere(db.vehicles, PlateGate.VehicleWithId(db.vehicles[veh.value].id), SetParked(mode == In));
    } else {
      db.vehicles := UpdateWhere(db.vehicles, OwnedBy(rid), SetParked(mode == In));
    }
    db.logs := db.logs + [ParkingLog(now, if mode == In then ResidentIn else ResidentOut, ResidentUser, Some(rid), None, plate)];
  }

  // ---------------------------------------------------------------
  // Properties of the face step
  // ---------------------------------------------------------------

  /** The gate accepts exactly when a resident id was sent and either the
      face matched or the typed code is an active code of that resident;
      anything else changes no table. */
  lemma FaceAcceptedIff(db: Db, req: FaceRequest, now: int)
    ensures var (db2, r) := FaceCapture(db, req, now);
      r.FaceAccepted? <==>
        && req.residentId.Some? && req.residentId.value != 0
        && (req.faceOk ||
            (PlateGate.CleanText(req.backupCode).Some? &&
             HasActiveCode(db.codes, req.residentId.value, PlateGate.CleanText(req.backupCode).value)))
    ensures var (db2, r) := FaceCapture(db, req, now);
      !r.FaceAccepted? ==> db2 == db
  {
    if req.residentId.Some? && req.residentId.value != 0 {
      var code := PlateGate.CleanText(req.backupCode);
      if code.Some? && HasActiveCode(db.codes, req.residentId.value, code.value) {
        assert FirstWhere(db.codes, ActiveCodeOf(req.residentId.value, code.value)).Some?;
      }
    }
  }

  /** When the gate asks for a code, `backup_code_mismatch` says whether a
      code was typed (and none of the resident's active codes matched). */
  lemma NeedBackupCodeMismatch(db: Db, req: FaceRequest, now: int)
    ensures var r := FaceCapture(db, req, now).1;
      r.NeedBackupCode? ==>
        && !req.faceOk
        && (r.mismatch <==> PlateGate.CleanText(req.backupCode).Some?)
        && (r.mismatch ==> !HasActiveCode(db.codes, r.residentId, PlateGate.CleanText(req.backupCode).value))
  {
  }

  /** On acceptance: the matched vehicle, or all of the resident's vehicles
      when none matched, get the flag 1 for IN and 0 for OUT, other rows
      stay; exactly one `resident_in` or `resident_out` log is appended; the
      backup codes, and every other table, are untouched. */
  lemma {:induction false} FaceAcceptEffect(db: Db, req: FaceRequest, now: int)
    ensures var (db2, r) := FaceCapture(db, req, now);
      r.FaceAccepted? ==>
        var rid := r.residentId;
        var veh := FaceVehicle(db.vehicles, rid, r.plate);
        && |db2.vehicles| == |db.vehicles|
        && (veh.Some? ==> forall k :: 0 <= k < |db.vehicles| ==>
              db2.vehicles[k] == if db.vehicles[k].id == db.vehicles[veh.value].id
                                 then db.vehicles[k].(inParking := Some(r.mode == In)) else db.vehicles[k])
        && (veh.None? ==> forall k :: 0 <= k < |db.vehicles| ==>
              db2.vehicles[k] == if db.vehicles[k].residentId == Some(rid)
                                 then db.vehicles[k].(inParking := Some(r.mode == In)) else db.vehicles[k])
        && db2.logs == db.logs + [ParkingLog(now, if r.mode == In then ResidentIn else ResidentOut, ResidentUser, Some(rid), None, r.plate)]
        && db2.codes == db.codes
        && db2 == db.(vehicles := db2.vehicles, logs := db2.logs)
  {
  }

  /** The mode is the explicit IN or OUT when one is sent, else IN unless the
      vehicle named by resident and plate is flagged inside. */
  lemma FaceModeRule(db: Db, req: FaceRequest, now: int)
    ensures var r := FaceCapture(db, req, now).1;
      !r.MissingResident? ==>
        var veh := FaceVehicle(db.vehicles, r.residentId, r.plate);
        && (RawMode(req.mode) == "IN" ==> r.mode == In)
        && (RawMode(req.mode) == "OUT" ==> r.mode == Out)
        && (RawMode(req.mode) != "IN" && RawMode(req.mode) != "OUT" ==>
              (r.mode == Out <==> veh.Some? && db.vehicles[veh.value].inParking == Some(true)))
  {
  }

  /** Accepting does not use the code up: the same request is accepted
      again right after. */
  lemma {:induction false} BackupCodeReusable(db: Db, req: FaceRequest, now: int, later: int)
    requires FaceCapture(db, req, now).1.FaceAccepted?
    ensures FaceCapture(FaceCapture(db, req, now).0, req, later).1.FaceAccepted?
  {
    FaceAcceptedIff(db, req, now);
    FaceAcceptEffect(db, req, now);
    FaceAcceptedIff(FaceCapture(db, req, now).0, req, later);
  }
}
