/** The admin API of backend/routes_admin.py: resident create, partial
    update and soft delete, backup codes, and admin registration and login.
    Werkzeug's hashing is `HashOf`; `check_password_hash(h, p)` is
    `h == HashOf(p)`. */
module AdminApi {
  import opened Wrappers
  import opened Tables
  import PlateGate
  import AppAdmin
  import GateApi

  /** The body of `create_resident`. */
  datatype NewResident = NewResident(
    fullName: Option<string>,
    floor: Option<string>, room: Option<string>, cccd: Option<string>,
    email: Option<string>, phone: Option<string>)

  datatype AdminResponse =
    | BadRequest(error: string)   // 400
    | NotFound(error: string)     // 404
    | Unauthorized(error: string) // 401
    | Done(message: string)       // 200 or 201

  /** `create_resident`: `full_name` is required; the row is inserted with
      the body's fields as given and status 'active' by default. */
  function CreateResident(db: Db, body: NewResident): (Db, AdminResponse)
  {
    if !GateApi.Given(body.fullName) then (db, BadRequest("full_name is required"))
    else
      (db.(residents := db.residents + [Resident(NextId(ResidentIds(db.residents)), body.fullName.value,
                          body.floor, body.room, body.cccd, body.email, body.phone, "active", None, None)]),
       Done("Resident created successfully"))
  }

  method CreateResidentEndpoint(db: Database, body: NewResident) returns (resp: AdminResponse)
    modifies db
    ensures (db.State(), resp) == CreateResident(old(db.State()), body)
  {
    if !GateApi.Given(body.fullName) {
      return BadRequest("full_name is required");
    }
    db.residents := db.residents + [Resident(NextId(ResidentIds(db.residents)), body.fullName.value,
                       body.floor, body.room, body.cccd, body.email, body.phone, "active", None, None)];
    return Done("Resident created successfully");
  }

  /** Without a name nothing is inserted; with one exactly one row is added,
      with an id above all existing ones, the body's columns as sent, status
      'active' and no login yet. */
  lemma CreateResidentEffect(db: Db, body: NewResident)
    ensures var (db2, r) := CreateResident(db, body);
      && (!GateApi.Given(body.fullName) ==> r.BadRequest? && db2 == db)
      && (GateApi.Given(body.fullName) ==>
            && db2 == db.(residents := db2.residents)
            && |db2.residents| == |db.residents| + 1
            && db2.residents[..|db.residents|] == db.residents
            && r == Done("Resident created successfully")
            && db2.residents[|db.residents|] ==
                 Resident(db2.residents[|db.residents|].id, body.fullName.value, body.floor, body.room,
                          body.cccd, body.email, body.phone, "active", None, None)
            && (forall k :: 0 <= k < |db.residents| ==> db.residents[k].id < db2.residents[|db.residents|].id))
  {
    if GateApi.Given(body.fullName) {
      var (db2, r) := CreateResident(db, body);
      var rid := NextId(ResidentIds(db.residents));
      forall k | 0 <= k < |db.residents| ensures db.residents[k].id < rid {
        assert ResidentIds(db.residents)[k] == db.residents[k].id;
      }
    }
  }

  /** The body of `update_resident`: for each column, absent (`None`) or the
      value sent (for the nullable columns possibly JSON null). */
  datatype ResidentPatch = ResidentPatch(
    id: Option<nat>,
    fullName: Option<string>,
    floor: Option<Option<string>>, room: Option<Option<string>>, cccd: Option<Option<string>>,
    email: Option<Option<string>>, phone: Option<Option<string>>,
    status: Option<string>)

  /** `data.get(key, existing[key])` for every column. */
  function Merge(existing: Resident, p: ResidentPatch): (r: Resident)
    ensures r.id == existing.id && r.username == existing.username && r.passwordHash == existing.passwordHash
    ensures r.fullName == (if p.fullName.Some? then p.fullName.value else existing.fullName)
    ensures r.floor == (if p.floor.Some? then p.floor.value else existing.floor)
    ensures r.room == (if p.room.Some? then p.room.value else existing.room)
    ensures r.cccd == (if p.cccd.Some? then p.cccd.value else existing.cccd)
    ensures r.email == (if p.email.Some? then p.email.value else existing.email)
    ensures r.phone == (if p.phone.Some? then p.phone.value else existing.phone)
    ensures r.status == (if p.status.Some? then p.status.value else existing.status)
  {
    existing.(fullName := p.fullName.GetOr(existing.fullName),
              floor := p.floor.GetOr(existing.floor),
              room := p.room.GetOr(existing.room),
              cccd := p.cccd.GetOr(existing.cccd),
              email := p.email.GetOr(existing.email),
              phone := p.phone.GetOr(existing.phone),
              status := p.status.GetOr(existing.status))
  }

  /** An empty patch merges to the row itself. */
  lemma MergeEmptyPatch(existing: Resident, id: Option<nat>)
    ensures Merge(existing, ResidentPatch(id, None, None, None, None, None, None, None)) == existing
  {
  }

  /** The UPDATE of `update_resident`: every row with the id gets the merged values. */
  function WriteMerged(merged: Resident): Resident -> Resident {
    (r: Resident) => r.(fullName := merged.fullName, floor := merged.floor, room := merged.room,
                        cccd := merged.cccd, email := merged.email, phone := merged.phone,
                        status := merged.status)
  }

  /** `update_resident`: an id is required and must exist; the first row
      with it supplies the stored values for the keys the body leaves out. */
  function UpdateResident(db: Db, p: ResidentPatch): (Db, AdminResponse)
  {
    if !GateApi.GivenId(p.id) then (db, BadRequest("id is required"))
    else
      match FirstWhere(db.residents, AppAdmin.ResidentWithId(p.id.value))
      case None => (db, NotFound("Resident not found"))
      case Some(i) =>
        var merged := Merge(db.residents[i], p);
        (db.(residents := UpdateWhere(db.residents, AppAdmin.ResidentWithId(p.id.value), WriteMerged(merged))),
         Done("Resident updated successfully"))
  }

  method UpdateResidentEndpoint(db: Database, p: ResidentPatch) returns (resp: AdminResponse)
    modifies db
    ensures (db.State(), resp) == UpdateResident(old(db.State()), p)
  {
    if !GateApi.GivenId(p.id) {
      return BadRequest("id is required");
    }
    var existing := FirstWhere(db.residents, AppAdmin.ResidentWithId(p.id.value));
    if existing.None? {
      return NotFound("Resident not found");
    }
    var merged := Merge(db.residents[existing.value], p);
    db.residents := UpdateWhere(db.residents, AppAdmin.ResidentWithId(p.id.value), WriteMerged(merged));
    return Done("Resident updated successfully");
  }

  /** No id is a 400 and an unknown id a 404, both without change; otherwise
      only the residents table changes, only the rows with that id, and the
      (first) row keeps its stored value for every key the body left out. */
  lemma {:induction false} UpdateResidentEffect(db: Db, p: ResidentPatch)
    ensures var (db2, r) := UpdateResident(db, p);
      && (!GateApi.GivenId(p.id) ==> r.BadRequest? && db2 == db)
      && (GateApi.GivenId(p.id) && (forall k :: 0 <= k < |db.residents| ==> db.residents[k].id != p.id.value) ==>
            r.NotFound? && db2 == db)
      && (GateApi.GivenId(p.id) && (exists k :: 0 <= k < |db.residents| && db.residents[k].id == p.id.value) ==>
            var i := FirstWhere(db.residents, AppAdmin.ResidentWithId(p.id.value)).value;
            && i < |db.residents| && db.residents[i].id == p.id.value
            && (forall k :: 0 <= k < i ==> db.residents[k].id != p.id.value)
            && r == Done("Resident updated successfully")
            && db2 == db.(residents := db2.residents)
            && |db2.residents| == |db.residents|
            && db2.residents[i] == Merge(db.residents[i], p)
            && (forall k :: 0 <= k < |db.residents| && db.residents[k].id == p.id.value ==>
                  db2.residents[k] == WriteMerged(Merge(db.residents[i], p))(db.residents[k]))
            && (forall k :: 0 <= k < |db.residents| && db.residents[k].id != p.id.value ==> db2.residents[k] == db.residents[k]))
  {
    var (db2, r) := UpdateResident(db, p);
    if GateApi.GivenId(p.id) && (forall k :: 0 <= k < |db.residents| ==> db.residents[k].id != p.id.value) {
      assert forall k :: 0 <= k < |db.residents| ==> !AppAdmin.ResidentWithId(p.id.value)(db.residents[k]);
    }
    if GateApi.GivenId(p.id) && (exists k :: 0 <= k < |db.residents| && db.residents[k].id == p.id.value) {
      var k :| 0 <= k < |db.residents| && db.residents[k].id == p.id.value;
      assert AppAdmin.ResidentWithId(p.id.value)(db.residents[k]);
    }
  }

  function Deactivated(): Resident -> Resident { (r: Resident) => r.(status := "inactive") }

  /** `delete_resident`: a soft delete that sets status 'inactive'. */
  function DeleteResident(db: Db, id: Option<nat>): (Db, AdminResponse)
  {
    if !GateApi.GivenId(id) then (db, BadRequest("id is required"))
    else if FirstWhere(db.residents, AppAdmin.ResidentWithId(id.value)).None? then (db, NotFound("Resident not found"))
    else (db.(residents := UpdateWhere(db.residents, AppAdmin.ResidentWithId(id.value), Deactivated())),
          Done("Resident deactivated"))
  }

  method DeleteResidentEndpoint(db: Database, id: Option<nat>) returns (resp: AdminResponse)
    modifies db
    ensures (db.State(), resp) == DeleteResident(old(db.State()), id)
  {
    if !GateApi.GivenId(id) {
      return BadRequest("id is required");
    }
    var existing := FirstWhere(db.residents, AppAdmin.ResidentWithId(id.value));
    if existing.None? {
      return NotFound("Resident not found");
    }
    db.residents := UpdateWhere(db.residents, AppAdmin.ResidentWithId(id.value), Deactivated());
    return Done("Resident deactivated");
  }

  /** `delete_resident` refuses a missing id with 400 and an unknown one
      with 404, both without a write; a known id sets status 'inactive' on
      every row with it and changes nothing else. */
  lemma {:induction false} DeleteResidentEffect(db: Db, id: Option<nat>)
    ensures var (db2, r) := DeleteResident(db, id);
      && (!GateApi.GivenId(id) ==> r == BadRequest("id is required") && db2 == db)
      && (GateApi.GivenId(id) && (forall k :: 0 <= k < |db.residents| ==> db.residents[k].id != id.value) ==>
            r == NotFound("Resident not found") && db2 == db)
      && (GateApi.GivenId(id) && (exists k :: 0 <= k < |db.residents| && db.residents[k].id == id.value) ==>
            && r == Done("Resident deactivated")
            && db2 == db.(residents := db2.residents)
            && |db2.residents| == |db.residents|
            && (forall k :: 0 <= k < |db.residents| ==>
                  db2.residents[k] == if db.residents[k].id == id.value then db.residents[k].(status := "inactive") else db.residents[k]))
  {
    if GateApi.GivenId(id) {
      if exists k :: 0 <= k < |db.residents| && db.residents[k].id == id.value {
        var k :| 0 <= k < |db.residents| && db.residents[k].id == id.value;
        assert AppAdmin.ResidentWithId(id.value)(db.residents[k]);
      } else {
        assert forall k :: 0 <= k < |db.residents| ==> !AppAdmin.ResidentWithId(id.value)(db.residents[k]);
      }
    }
  }

  /** The delete is soft: every row stays, the resident's rows only change
      status to 'inactive', and the resident can no longer check in. */
  lemma {:induction false} DeleteIsSoft(db: Db, id: nat, now: int, plate: Option<string>)
    requires id != 0
    requires exists k :: 0 <= k < |db.residents| && db.residents[k].id == id
    ensures var (db2, r) := DeleteResident(db, Some(id));
      && r.Done?
      && db2 == db.(residents := db2.residents)
      && |db2.residents| == |db.residents|
      && (forall k :: 0 <= k < |db.residents| ==>
            db2.residents[k] == if db.residents[k].id == id then db.residents[k].(status := "inactive") else db.residents[k])
      && GateApi.ResidentEvent(db2, Some(id), plate, true, now).1 == GateApi.ResidentNotFound
  {
    var k :| 0 <= k < |db.residents| && db.residents[k].id == id;
    assert AppAdmin.ResidentWithId(id)(db.residents[k]);
    var db2 := DeleteResident(db, Some(id)).0;
    InactiveCannotEnter(db2, id, now, plate);
  }

  /** A resident whose rows are all inactive is refused at the gate. */
  lemma {:induction false} InactiveCannotEnter(db: Db, id: nat, now: int, plate: Option<string>)
    requires id != 0
    requires forall j :: 0 <= j < |db.residents| && db.residents[j].id == id ==> db.residents[j].status == "inactive"
    ensures GateApi.ResidentEvent(db, Some(id), plate, true, now).1 == GateApi.ResidentNotFound
  {
    forall j | 0 <= j < |db.residents|
      ensures !GateApi.ActiveResidentWithId(id)(db.residents[j])
    {
    }
  }

  /** `set_backup_code(resident_id)`: a code is required; it is inserted as
      active without touching the resident's other codes. */
  function SetBackupCode(db: Db, rid: nat, code: Option<string>): (Db, AdminResponse)
  {
    if !GateApi.Given(code) then (db, BadRequest("backup_code is required"))
    else (db.(codes := db.codes + [BackupCode(NextId(CodeIds(db.codes)), rid, code.value, true)]),
          Done("Backup code created"))
  }

  method SetBackupCodeEndpoint(db: Database, rid: nat, code: Option<string>) returns (resp: AdminResponse)
    modifies db
    ensures (db.State(), resp) == SetBackupCode(old(db.State()), rid, code)
  {
    if !GateApi.Given(code) {
      return BadRequest("backup_code is required");
    }
    db.codes := db.codes + [BackupCode(NextId(CodeIds(db.codes)), rid, code.value, true)];
    return Done("Backup code created");
  }

  /** `set_backup_code` refuses a missing code with 400 and writes nothing;
      a given code is appended as one active row of the resident with an id
      above every other code id, and no other table changes. */
  lemma {:induction false} SetBackupCodeEffect(db: Db, rid: nat, code: Option<string>)
    ensures var (db2, r) := SetBackupCode(db, rid, code);
      && (!GateApi.Given(code) ==> r == BadRequest("backup_code is required") && db2 == db)
      && (GateApi.Given(code) ==>
            var id := NextId(CodeIds(db.codes));
            && r == Done("Backup code created")
            && db2 == db.(codes := db.codes + [BackupCode(id, rid, code.value, true)])
            && (forall k :: 0 <= k < |db.codes| ==> db.codes[k].id < id))
  {
    if GateApi.Given(code) {
      var id := NextId(CodeIds(db.codes));
      forall k | 0 <= k < |db.codes| ensures db.codes[k].id < id {
        assert CodeIds(db.codes)[k] == db.codes[k].id;
      }
    }
  }

  /** Earlier codes stay active: after setting a second code both work. */
  lemma {:induction false} SetBackupCodeKeepsOthers(db: Db, rid: nat, prior: string, code: string)
    requires code != []
    requires exists k :: 0 <= k < |db.codes| && db.codes[k] == BackupCode(db.codes[k].id, rid, prior, true)
    ensures var db2 := SetBackupCode(db, rid, Some(code)).0;
      && db2.codes[..|db.codes|] == db.codes
      && (exists k :: 0 <= k < |db2.codes| && db2.codes[k].residentId == rid && db2.codes[k].code == prior && db2.codes[k].active)
      && (exists k :: 0 <= k < |db2.codes| && db2.codes[k].residentId == rid && db2.codes[k].code == code && db2.codes[k].active)
  {
    var db2 := SetBackupCode(db, rid, Some(code)).0;
    var k :| 0 <= k < |db.codes| && db.codes[k] == BackupCode(db.codes[k].id, rid, prior, true);
    assert db2.codes[k] == db.codes[k];
    assert db2.codes[|db.codes|].code == code;
  }

  function UsernameIs(username: string): AdminUser -> bool { (u: AdminUser) => u.username == username }

  /** `admin_register`: username and password required, username unused. */
  function Register(db: Db, username: Option<string>, password: Option<string>, fullName: Option<string>): (Db, AdminResponse)
  {
    if !GateApi.Given(username) || !GateApi.Given(password) then (db, BadRequest("username and password are required"))
    else if FirstWhere(db.admins, UsernameIs(username.value)).Some? then (db, BadRequest("Username already exists"))
    else (db.(admins := db.admins + [AdminUser(NextId(AdminIds(db.admins)), username.value, HashOf(password.value), fullName)]),
          Done("Admin user created successfully"))
  }

  method AdminRegister(db: Database, username: Option<string>, password: Option<string>, fullName: Option<string>)
    returns (resp: AdminResponse)
    modifies db
    ensures (db.State(), resp) == Register(old(db.State()), username, password, fullName)
  {
    if !GateApi.Given(username) || !GateApi.Given(password) {
      return BadRequest("username and password are required");
    }
    var existing := FirstWhere(db.admins, UsernameIs(username.value));
    if existing.Some? {
      return BadRequest("Username already exists");
    }
    db.admins := db.admins + [AdminUser(NextId(AdminIds(db.admins)), username.value, HashOf(password.value), fullName)];
    return Done("Admin user created successfully");
  }

  predicate UniqueUsernames(us: seq<AdminUser>) {
    forall i, j :: 0 <= i < j < |us| ==> us[i].username != us[j].username
  }

  /** Registration refuses a missing field or a taken username without
      inserting; otherwise it adds one row, and it keeps admin usernames
      unique. */
  lemma {:induction false} RegisterKeepsUsernamesUnique(db: Db, username: Option<string>, password: Option<string>, fullName: Option<string>)
    requires UniqueUsernames(db.admins)
    ensures var (db2, r) := Register(db, username, password, fullName);
      && UniqueUsernames(db2.admins)
      && (r.BadRequest? <==> db2 == db)
      && (!GateApi.Given(username) || !GateApi.Given(password) ==>
            r == BadRequest("username and password are required"))
      && ((GateApi.Given(username) && GateApi.Given(password) &&
           (exists k :: 0 <= k < |db.admins| && db.admins[k].username == username.value)) ==>
            r == BadRequest("Username already exists"))
      && ((GateApi.Given(username) && GateApi.Given(password) &&
           (forall k :: 0 <= k < |db.admins| ==> db.admins[k].username != username.value)) ==>
            && r == Done("Admin user created successfully")
            && |db2.admins| == |db.admins| + 1 && db2.admins[..|db.admins|] == db.admins
            && db2.admins[|db.admins|].username == username.value
            && db2.admins[|db.admins|].passwordHash == HashOf(password.value)
            && db2.admins[|db.admins|].fullName == fullName
            && (forall k :: 0 <= k < |db.admins| ==> db.admins[k].id < db2.admins[|db.admins|].id)
            && db2 == db.(admins := db2.admins))
  {
    var (db2, r) := Register(db, username, password, fullName);
    if GateApi.Given(username) && GateApi.Given(password) {
      if exists k :: 0 <= k < |db.admins| && db.admins[k].username == username.value {
        var k :| 0 <= k < |db.admins| && db.admins[k].username == username.value;
        assert UsernameIs(username.value)(db.admins[k]);
      }
      if r.Done? {
        forall k | 0 <= k < |db.admins| ensures db.admins[k].id < db2.admins[|db.admins|].id {
          assert AdminIds(db.admins)[k] == db.admins[k].id;
        }
        forall i, j | 0 <= i < j < |db2.admins|
          ensures db2.admins[i].username != db2.admins[j].username
        {
          if j == |db.admins| {
            assert !UsernameIs(username.value)(db.admins[i]);
          }
        }
        assert |db2.admins| == |db.admins| + 1;
      }
    }
  }

  datatype LoginResponse =
    | LoginFieldsRequired   // 400
    | InvalidCredentials    // 401
    | LoggedIn(adminId: nat, username: string, fullName: Option<string>)

  /** `admin_login`: the first admin row with the username must carry the
      hash of the password. */
  function AdminLogin(db: Db, username: Option<string>, password: Option<string>): (r: LoginResponse)
    ensures r.LoggedIn? ==> password.Some? && username == Some(r.username)
    ensures r.LoggedIn? ==> FirstWhere(db.admins, UsernameIs(r.username)).Some?
    ensures GateApi.Given(username) && GateApi.Given(password) && FirstWhere(db.admins, UsernameIs(username.value)).Some? ==>
      var u := db.admins[FirstWhere(db.admins, UsernameIs(username.value)).value];
      && (r == InvalidCredentials <==> u.passwordHash != HashOf(password.value))
      && (r.LoggedIn? <==> u.passwordHash == HashOf(password.value))
      && (r.LoggedIn? ==> r == LoggedIn(u.id, u.username, u.fullName))
    ensures (GateApi.Given(username) && GateApi.Given(password) &&
             (forall k :: 0 <= k < |db.admins| ==> db.admins[k].username != username.value)) ==> r == InvalidCredentials
    ensures !GateApi.Given(username) || !GateApi.Given(password) ==> r == LoginFieldsRequired
  {
    if !GateApi.Given(username) || !GateApi.Given(password) then LoginFieldsRequired
    else
      match FirstWhere(db.admins, UsernameIs(username.value))
      case None => InvalidCredentials
      case Some(i) =>
        var u := db.admins[i];
        if u.passwordHash != HashOf(password.value) then InvalidCredentials
        else LoggedIn(u.id, u.username, u.fullName)
  }

  /** Registering and then logging in with the same credentials succeeds. */
  lemma {:induction false} RegisterThenLogin(db: Db, username: string, password: string, fullName: Option<string>)
    requires username != [] && password != []
    requires Register(db, Some(username), Some(password), fullName).1.Done?
    ensures AdminLogin(Register(db, Some(username), Some(password), fullName).0, Some(username), Some(password)).LoggedIn?
  {
    var db2 := Register(db, Some(username), Some(password), fullName).0;
    assert UsernameIs(username)(db2.admins[|db.admins|]);
  }
}
