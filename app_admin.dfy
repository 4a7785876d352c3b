/** The resident administration of app.py as table effects: creating a
    resident with login, optional vehicle and first backup code, resetting
    the backup code, and the hard delete behind the "disable" button.  Role
    checks, flash messages and redirects are left out; the `random.randint`
    draws are inputs. */
module AppAdmin {
  import opened Wrappers
  import opened Text
  import opened Tariff
  import opened Tables
  import opened AppHelpers

  function OfResident(rid: nat): BackupCode -> bool { (c: BackupCode) => c.residentId == rid }
  function Deactivate(): BackupCode -> BackupCode { (c: BackupCode) => c.(active := false) }

  /** `admin_reset_backup_code(resident_id)`: every code of the resident is
      deactivated (the rows stay) and one new active code is inserted. */
  function ResetBackupCode(db: Db, rid: nat, draw: Draw): Db {
    var codes := UpdateWhere(db.codes, OfResident(rid), Deactivate());
    db.(codes := codes + [BackupCode(NextId(CodeIds(codes)), rid, TicketCode(draw), true)])
  }

  method AdminResetBackupCode(db: Database, rid: nat, draw: Draw)
    modifies db
    ensures db.State() == ResetBackupCode(old(db.State()), rid, draw)
  {
    db.codes := UpdateWhere(db.codes, OfResident(rid), Deactivate());
    var newCode := TicketCode(draw);
    db.codes := db.codes + [BackupCode(NextId(CodeIds(db.codes)), rid, newCode, true)];
  }

  /** After a reset the resident has exactly one active code, the new one
      (the last row); every old row is kept, the resident's ones switched
      off and the other residents' ones untouched; no other table changes. */
  lemma ResetLeavesOneActiveCode(db: Db, rid: nat, draw: Draw)
    ensures var db2 := ResetBackupCode(db, rid, draw);
      && |db2.codes| == |db.codes| + 1
      && db2.codes[|db.codes|].residentId == rid && db2.codes[|db.codes|].active
      && db2.codes[|db.codes|].code == TicketCode(draw)
      && (forall k :: 0 <= k < |db2.codes| && db2.codes[k].residentId == rid && db2.codes[k].active ==> k == |db.codes|)
      && (forall k :: 0 <= k < |db.codes| && db.codes[k].residentId != rid ==> db2.codes[k] == db.codes[k])
      && (forall k :: 0 <= k < |db.codes| && db.codes[k].residentId == rid ==> db2.codes[k] == db.codes[k].(active := false))
      && db2 == db.(codes := db2.codes)
  {
  }

  /** The form fields `admin_create_resident` reads, as sent. */
  datatype ResidentForm = ResidentForm(
    fullName: Option<string>,
    floor: Option<string>,
    room: Option<string>,
    citizenId: Option<string>,
    email: Option<string>,
    phone: Option<string>,
    plateNumber: Option<string>)

  datatype CreateOutcome = NameRequired | CreatedResident(id: nat)

  /** `request.form.get(k) or None` */
  function OrNone(v: Option<string>): (r: Option<string>)
    ensures r.Some? <==> v.Some? && v.value != []
    ensures r.Some? ==> r == v
  {
    if v.Some? && v.value != [] then v else None
  }

  function ResidentWithId(id: nat): Resident -> bool { (r: Resident) => r.id == id }
  function SetLogin(username: string, hash: PasswordHash): Resident -> Resident {
    (r: Resident) => r.(username := Some(username), passwordHash := Some(hash))
  }

  /** `admin_create_resident`: a stripped, non-empty name is required; the
      resident row is inserted (status 'active' by default), its login name
      and password hash are set, the vehicle is inserted outside the car
      park when a plate was given, and a first active backup code is
      inserted. */
  function CreateResident(db: Db, form: ResidentForm, draw: Draw): (Db, CreateOutcome)
  {
    var fullName := Strip(form.fullName.GetOr(""));
    if fullName == [] then (db, NameRequired)
    else
      var phone := OrNone(form.phone);
      var rid := NextId(ResidentIds(db.residents));
      var row := Resident(rid, fullName, OrNone(form.floor), OrNone(form.room), OrNone(form.citizenId),
                          OrNone(form.email), phone, "active", None, None);
      var residents := UpdateWhere(db.residents + [row], ResidentWithId(rid),
        SetLogin(MakeUsername(Some(fullName), phone), HashOf(MakeInitialPassword(phone))));
      var plate := OrNone(form.plateNumber);
      var vehicles :=
        if plate.Some? then db.vehicles + [Vehicle(NextId(VehicleIds(db.vehicles)), Some(rid), Upper(Strip(plate.value)), Some(false))]
        else db.vehicles;
      var codes := db.codes + [BackupCode(NextId(CodeIds(db.codes)), rid, TicketCode(draw), true)];
      (db.(residents := residents, vehicles := vehicles, codes := codes), CreatedResident(rid))
  }

  method AdminCreateResident(db: Database, form: ResidentForm, draw: Draw) returns (outcome: CreateOutcome)
    modifies db
    ensures (db.State(), outcome) == CreateResident(old(db.State()), form, draw)
  {
    var fullName := Strip(form.fullName.GetOr(""));
    var floor := OrNone(form.floor);
    var room := OrNone(form.room);
    var citizenId := OrNone(form.citizenId);
    var email := OrNone(form.email);
    var phone := OrNone(form.phone);
    var plateNumber := OrNone(form.plateNumber);
    if fullName == [] {
      return NameRequired;
    }
    var rid := NextId(ResidentIds(db.residents));
    db.residents := db.residents + [Resident(rid, fullName, floor, room, citizenId, email, phone, "active", None, None)];
    var username := MakeUsername(Some(fullName), phone);
    var rawPassword := MakeInitialPassword(phone);
    db.residents := UpdateWhere(db.residents, ResidentWithId(rid), SetLogin(username, HashOf(rawPassword)));
    if plateNumber.Some? {
      db.vehicles := db.vehicles + [Vehicle(NextId(VehicleIds(db.vehicles)), Some(rid), Upper(Strip(plateNumber.value)), Some(false))];
    }
    var backupCode := TicketCode(draw);
    db.codes := db.codes + [BackupCode(NextId(CodeIds(db.codes)), rid, backupCode, true)];
    return CreatedResident(rid);
  }

  /** Creating a resident: without a name nothing changes; otherwise the new
      row has an id above every existing one, is active, carries the
      derived login name and the hash of the initial password, every old
      row stays; a vehicle row outside the car park, with a fresh id and the
      stripped, upper-cased plate, is added only for a plate; and one active
      six-digit code for the new id is appended. */
  lemma {:induction false} CreateResidentEffect(db: Db, form: ResidentForm, draw: Draw)
    ensures var (db2, out) := CreateResident(db, form, draw);
      var fullName := Strip(form.fullName.GetOr(""));
      if fullName == [] then out == NameRequired && db2 == db
      else
        var rid := NextId(ResidentIds(db.residents));
        var phone := OrNone(form.phone);
        && out == CreatedResident(rid)
        && (forall k :: 0 <= k < |db.residents| ==> db.residents[k].id < rid)
        && |db2.residents| == |db.residents| + 1
        && db2.residents[..|db.residents|] == db.residents
        && db2.residents[|db.residents|] ==
             Resident(rid, fullName, OrNone(form.floor), OrNone(form.room), OrNone(form.citizenId),
                      OrNone(form.email), phone, "active",
                      Some(MakeUsername(Some(fullName), phone)), Some(HashOf(MakeInitialPassword(phone))))
        && (OrNone(form.plateNumber).None? ==> db2.vehicles == db.vehicles)
        && (OrNone(form.plateNumber).Some? ==>
              && |db2.vehicles| == |db.vehicles| + 1 && db2.vehicles[..|db.vehicles|] == db.vehicles
              && db2.vehicles[|db.vehicles|] ==
                   Vehicle(db2.vehicles[|db.vehicles|].id, Some(rid), Upper(Strip(OrNone(form.plateNumber).value)), Some(false))
              && (forall k :: 0 <= k < |db.vehicles| ==> db.vehicles[k].id < db2.vehicles[|db.vehicles|].id))
        && db2.codes == db.codes + [BackupCode(NextId(CodeIds(db.codes)), rid, TicketCode(draw), true)]
        && db2 == db.(residents := db2.residents, vehicles := db2.vehicles, codes := db2.codes)
  {
    var fullName := Strip(form.fullName.GetOr(""));
    if fullName != [] {
      var (db2, out) := CreateResident(db, form, draw);
      var rid := NextId(ResidentIds(db.residents));
      forall k | 0 <= k < |db.residents|
        ensures db.residents[k].id < rid && db2.residents[k] == db.residents[k]
      {
        assert ResidentIds(db.residents)[k] == db.residents[k].id;
      }
      if OrNone(form.plateNumber).Some? {
        var vid := NextId(VehicleIds(db.vehicles));
        forall k | 0 <= k < |db.vehicles| ensures db.vehicles[k].id < vid {
          assert VehicleIds(db.vehicles)[k] == db.vehicles[k].id;
        }
      }
    }
  }

  function LogOfResident(rid: nat): ParkingLog -> bool { (l: ParkingLog) => l.residentId == Some(rid) }
  function VehicleOfResident(rid: nat): Vehicle -> bool { (v: Vehicle) => v.residentId == Some(rid) }

  /** `admin_delete_resident_real(resident_id)`: the resident's logs, backup
      codes and vehicles are deleted, then the resident row. */
  function DeleteResidentReal(db: Db, rid: nat): Db {
    db.(logs := DeleteWhere(db.logs, LogOfResident(rid)),
        codes := DeleteWhere(db.codes, OfResident(rid)),
        vehicles := DeleteWhere(db.vehicles, VehicleOfResident(rid)),
        residents := DeleteWhere(db.residents, ResidentWithId(rid)))
  }

  method AdminDeleteResidentReal(db: Database, rid: nat)
    modifies db
    ensures db.State() == DeleteResidentReal(old(db.State()), rid)
  {
    db.logs := DeleteWhere(db.logs, LogOfResident(rid));
    db.codes := DeleteWhere(db.codes, OfResident(rid));
    db.vehicles := DeleteWhere(db.vehicles, VehicleOfResident(rid));
    db.residents := DeleteWhere(db.residents, ResidentWithId(rid));
  }

  /** After the hard delete no row of those four tables refers to the
      resident, every row about anyone else survives, and the other tables
      (guest sessions, ticket attempts, notifications, admins) are untouched. */
  lemma {:induction false} DeleteRemovesEveryTrace(db: Db, rid: nat)
    ensures var db2 := DeleteResidentReal(db, rid);
      && (forall k :: 0 <= k < |db2.residents| ==> db2.residents[k].id != rid)
      && (forall k :: 0 <= k < |db2.vehicles| ==> db2.vehicles[k].residentId != Some(rid))
      && (forall k :: 0 <= k < |db2.codes| ==> db2.codes[k].residentId != rid)
      && (forall k :: 0 <= k < |db2.logs| ==> db2.logs[k].residentId != Some(rid))
      && (forall r :: r in db.residents && r.id != rid ==> r in db2.residents)
      && (forall v :: v in db.vehicles && v.residentId != Some(rid) ==> v in db2.vehicles)
      && (forall c :: c in db.codes && c.residentId != rid ==> c in db2.codes)
      && (forall l :: l in db.logs && l.residentId != Some(rid) ==> l in db2.logs)
      && db2 == db.(residents := db2.residents, vehicles := db2.vehicles, codes := db2.codes, logs := db2.logs)
  {
    var db2 := DeleteResidentReal(db, rid);
    forall k | 0 <= k < |db2.residents| ensures db2.residents[k].id != rid {
      assert !ResidentWithId(rid)(db2.residents[k]);
    }
    forall k | 0 <= k < |db2.vehicles| ensures db2.vehicles[k].residentId != Some(rid) {
      assert !VehicleOfResident(rid)(db2.vehicles[k]);
    }
    forall k | 0 <= k < |db2.codes| ensures db2.codes[k].residentId != rid {
      assert !OfResident(rid)(db2.codes[k]);
    }
    forall k | 0 <= k < |db2.logs| ensures db2.logs[k].residentId != Some(rid) {
      assert !LogOfResident(rid)(db2.logs[k]);
    }
    forall r | r in db.residents && r.id != rid ensures r in db2.residents {
      assert !ResidentWithId(rid)(r);
    }
    forall v | v in db.vehicles && v.residentId != Some(rid) ensures v in db2.vehicles {
      assert !VehicleOfResident(rid)(v);
    }
    forall c | c in db.codes && c.residentId != rid ensures c in db2.codes {
      assert !OfResident(rid)(c);
    }
    forall l | l in db.logs && l.residentId != Some(rid) ensures l in db2.logs {
      assert !LogOfResident(rid)(l);
    }
  }
}
