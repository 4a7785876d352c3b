/** The MySQL tables the gate and admin code read and write, as in-memory
    sequences of rows in table (id) order.  Where a `query_one` has no
    `ORDER BY`, SQL leaves open which matching row comes back; the model fixes
    it to the first matching row in table order.  `ORDER BY id DESC LIMIT 1`
    is the matching row with
    the greatest id, an `AUTO_INCREMENT` id is one more than the greatest id
    in the table, an `UPDATE ... WHERE` rewrites every matching row and a
    `DELETE ... WHERE` drops every matching row. */
module Tables {
  import opened Wrappers
  import opened Text

  /** `generate_password_hash(p)`; `check_password_hash(h, p)` is `h == HashOf(p)`. */
  datatype PasswordHash = HashOf(secret: string)

  /** A row of `residents`.  Text columns that the code may leave NULL are options. */
  datatype Resident = Resident(
    id: nat,
    fullName: string,
    floor: Option<string>,
    room: Option<string>,
    cccd: Option<string>,
    email: Option<string>,
    phone: Option<string>,
    status: string,
    username: Option<string>,
    passwordHash: Option<PasswordHash>)

  /** A row of `resident_vehicles`; `residentId` and `inParking` may be NULL. */
  datatype Vehicle = Vehicle(id: nat, residentId: Option<nat>, plate: string, inParking: Option<bool>)

  datatype SessionStatus = Open | Closed

  /** A row of `guest_sessions` (image paths left out). */
  datatype GuestSession = GuestSession(
    id: nat,
    plate: string,
    ticketCode: string,
    checkin: int,
    checkout: Option<int>,
    fee: Option<int>,
    status: SessionStatus)

  /** A row of `guest_ticket_attempts`. */
  datatype TicketAttempt = TicketAttempt(sessionId: nat, wrongCount: Option<nat>, lastAttemptAt: int)

  datatype EventType = ResidentIn | ResidentOut | GuestIn | GuestOut
  datatype UserType = ResidentUser | GuestUser

  /** A row of `parking_logs`. */
  datatype ParkingLog = ParkingLog(
    time: int,
    event: EventType,
    userType: UserType,
    residentId: Option<nat>,
    guestSessionId: Option<nat>,
    plate: Option<string>)

  /** A row of `admin_notifications`; the message text is kept as the fields
      it is formatted from. */
  datatype Notification = Notification(
    level: string,
    title: string,
    plate: string,
    sessionId: nat,
    wrongCount: nat,
    createdAt: int)

  /** A row of `resident_backup_codes`. */
  datatype BackupCode = BackupCode(id: nat, residentId: nat, code: string, active: bool)

  /** A row of `admin_users`. */
  datatype AdminUser = AdminUser(id: nat, username: string, passwordHash: PasswordHash, fullName: Option<string>)

  /** The whole database as a value. */
  datatype Db = Db(
    residents: seq<Resident>,
    vehicles: seq<Vehicle>,
    sessions: seq<GuestSession>,
    attempts: seq<TicketAttempt>,
    logs: seq<ParkingLog>,
    notifications: seq<Notification>,
    codes: seq<BackupCode>,
    admins: seq<AdminUser>)

  /** The database the endpoints update in place, one field per table. */
  class Database {
    var residents: seq<Resident>
    var vehicles: seq<Vehicle>
    var sessions: seq<GuestSession>
    var attempts: seq<TicketAttempt>
    var logs: seq<ParkingLog>
    var notifications: seq<Notification>
    var codes: seq<BackupCode>
    var admins: seq<AdminUser>

    function State(): Db
      reads this
    {
      Db(residents, vehicles, sessions, attempts, logs, notifications, codes, admins)
    }

    constructor (init: Db)
      ensures State() == init
    {
      residents := init.residents;
      vehicles := init.vehicles;
      sessions := init.sessions;
      attempts := init.attempts;
      logs := init.logs;
      notifications := init.notifications;
      codes := init.codes;
      admins := init.admins;
    }
  }

  // ---------------------------------------------------------------
  // Query and update primitives
  // ---------------------------------------------------------------

  /** `query_one(... WHERE p)` without `ORDER BY`, fixed to the first row in
      table order that satisfies `p`. */
  function FirstWhere<T>(s: seq<T>, p: T -> bool): (r: Option<nat>)
    ensures r.Some? ==> r.value < |s| && p(s[r.value])
    ensures r.Some? ==> forall k :: 0 <= k < r.value ==> !p(s[k])
    ensures r.None? <==> forall k :: 0 <= k < |s| ==> !p(s[k])
  {
    if s == [] then None
    else if p(s[0]) then Some(0)
    else
      match FirstWhere(s[1..], p)
      case None => None
      case Some(i) => Some(i + 1)
  }

  /** `UPDATE ... SET f WHERE p`: every row satisfying `p` is rewritten by `f`, the others stay. */
  function UpdateWhere<T>(s: seq<T>, p: T -> bool, f: T -> T): (r: seq<T>)
    ensures |r| == |s|
    ensures forall k :: 0 <= k < |s| ==> r[k] == if p(s[k]) then f(s[k]) else s[k]
  {
    seq(|s|, k requires 0 <= k < |s| => if p(s[k]) then f(s[k]) else s[k])
  }

  /** `DELETE ... WHERE p`: the rows not satisfying `p`, in their order. */
  function DeleteWhere<T>(s: seq<T>, p: T -> bool): (r: seq<T>)
    ensures |r| <= |s|
    ensures forall k :: 0 <= k < |r| ==> !p(r[k]) && r[k] in s
    ensures forall x :: x in s && !p(x) ==> x in r
  {
    FilterFrom(s, x => !p(x));
    FilterKeeps(s, x => !p(x));
    Filter(s, x => !p(x))
  }

  /** The greatest of `ids`, 0 for none. */
  function MaxId(ids: seq<nat>): (m: nat)
    ensures forall k :: 0 <= k < |ids| ==> ids[k] <= m
    ensures ids == [] ==> m == 0
    ensures ids != [] ==> m in ids
  {
    if ids == [] then 0
    else
      var m := MaxId(ids[1..]);
      if ids[0] >= m then ids[0] else m
  }

  /** The id `AUTO_INCREMENT` hands out: above every id in the table. */
  function NextId(ids: seq<nat>): (n: nat)
    ensures forall k :: 0 <= k < |ids| ==> ids[k] < n
    ensures n >= 1
  {
    MaxId(ids) + 1
  }

  function ResidentIds(rs: seq<Resident>): (ids: seq<nat>)
    ensures |ids| == |rs| && forall k :: 0 <= k < |rs| ==> ids[k] == rs[k].id
  {
    seq(|rs|, k requires 0 <= k < |rs| => rs[k].id)
  }

  function VehicleIds(vs: seq<Vehicle>): (ids: seq<nat>)
    ensures |ids| == |vs| && forall k :: 0 <= k < |vs| ==> ids[k] == vs[k].id
  {
    seq(|vs|, k requires 0 <= k < |vs| => vs[k].id)
  }

  function SessionIds(ss: seq<GuestSession>): (ids: seq<nat>)
    ensures |ids| == |ss| && forall k :: 0 <= k < |ss| ==> ids[k] == ss[k].id
  {
    seq(|ss|, k requires 0 <= k < |ss| => ss[k].id)
  }

  function CodeIds(cs: seq<BackupCode>): (ids: seq<nat>)
    ensures |ids| == |cs| && forall k :: 0 <= k < |cs| ==> ids[k] == cs[k].id
  {
    seq(|cs|, k requires 0 <= k < |cs| => cs[k].id)
  }

  function AdminIds(us: seq<AdminUser>): (ids: seq<nat>)
    ensures |ids| == |us| && forall k :: 0 <= k < |us| ==> ids[k] == us[k].id
  {
    seq(|us|, k requires 0 <= k < |us| => us[k].id)
  }

  /** `query_one(... FROM guest_sessions WHERE p ORDER BY id DESC LIMIT 1)`:
      among the rows satisfying `p`, one with the greatest id (the last such
      row in table order when ids tie). */
  function LatestWhere(ss: seq<GuestSession>, p: GuestSession -> bool): (r: Option<nat>)
    ensures r.Some? ==> r.value < |ss| && p(ss[r.value])
    ensures r.Some? ==> forall k :: 0 <= k < |ss| && p(ss[k]) ==> ss[k].id <= ss[r.value].id
    ensures r.None? <==> forall k :: 0 <= k < |ss| ==> !p(ss[k])
  {
    if ss == [] then None
    else
      var last := |ss| - 1;
      match LatestWhere(ss[..last], p)
      case None => if p(ss[last]) then Some(last) else None
      case Some(i) => if p(ss[last]) && ss[last].id >= ss[i].id then Some(last) else Some(i)
  }

  // ---------------------------------------------------------------
  // Invariants of the tables
  // ---------------------------------------------------------------

  /** No two guest sessions share an id. */
  predicate UniqueSessionIds(ss: seq<GuestSession>) {
    forall i, j :: 0 <= i < j < |ss| ==> ss[i].id != ss[j].id
  }

  /** At most one open guest session per plate. */
  predicate OneOpenPerPlate(ss: seq<GuestSession>) {
    forall i, j :: 0 <= i < j < |ss| && ss[i].status == Open && ss[j].status == Open ==>
      ss[i].plate != ss[j].plate
  }

  predicate IsOpenWithPlate(s: GuestSession, plate: string) {
    s.status == Open && s.plate == plate
  }

  /** Whether the plate has an open guest session. */
  predicate HasOpenSession(ss: seq<GuestSession>, plate: string) {
    exists k :: 0 <= k < |ss| && IsOpenWithPlate(ss[k], plate)
  }
}
