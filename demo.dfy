/** The in-memory demo of frontend/app_frontend_old.py.py: the global
    `RESIDENTS` list and `GUEST_SESSIONS` dictionary become the fields of
    `DemoApp`, which its routes update in place.  The clock and the random
    ticket and backup-code draws are parameters. */
module LegacyDemo {
  import opened Wrappers
  import opened Text
  import Tables

  /** One dictionary of `RESIDENTS`. */
  datatype DemoResident = DemoResident(
    id: nat, username: string, password: string, fullName: string,
    floor: int, room: string, plateNumber: string, vehicleType: string,
    status: string, backupCode: string, isInParking: bool,
    citizenId: string, email: string, phone: string)

  /** "IN" / "OUT" */
  datatype Presence = In | Out

  /** One value of `GUEST_SESSIONS`; the float `amount` is left out. */
  datatype DemoSession = DemoSession(plateNumber: string, checkinTime: int, checkoutTime: Option<int>, status: Presence)

  /** The two residents the demo starts with. */
  const SeedResidents := [
    DemoResident(1, "qvu1803", "18032005", "Nguyễn Văn A", 3, "305", "59A12345", "motorbike",
                 "active", "ABC123", true, "012345678901", "a@example.com", "0909123456"),
    DemoResident(2, "nluong1801", "18012005", "Trần Thị B", 5, "502", "51F56789", "car",
                 "active", "XYZ789", false, "012345678902", "b@example.com", "0909987654")]

  // ---------------------------------------------------------------------
  // remove_vietnamese_diacritics

  const AGroup := "àáảãạăằắẳẵặâầấẩẫậÀÁẢÃẠĂẰẮẲẴẶÂẦẤẨẪẬ"
  const EGroup := "èéẻẽẹêềếểễệÈÉẺẼẸÊỀẾỂỄỆ"
  const IGroup := "ìíỉĩịÌÍỈĨỊ"
  const OGroup := "òóỏõọôồốổỗộơờớởỡợÒÓỎÕỌÔỒỐỔỖỘƠỜỚỞỠỢ"
  const UGroup := "ùúủũụưừứửữựÙÚỦŨỤƯỪỨỬỮỰ"
  const YGroup := "ỳýỷỹỵỲÝỶỸỴ"
  const DGroup := "đĐ"

  /** The translation table: each accented vowel and d-bar to its plain
      lower-case letter, every other character to itself. */
  function FoldChar(c: char): char {
    if c in AGroup then 'a'
    else if c in EGroup then 'e'
    else if c in IGroup then 'i'
    else if c in OGroup then 'o'
    else if c in UGroup then 'u'
    else if c in YGroup then 'y'
    else if c in DGroup then 'd'
    else c
  }

  function Fold(s: string): string {
    seq(|s|, k requires 0 <= k < |s| => FoldChar(s[k]))
  }

  predicate IsLowerAlnum(c: char) { IsLowerAscii(c) || IsDigit(c) }

  predicate LowerAlnum(s: string) { forall k :: 0 <= k < |s| ==> IsLowerAlnum(s[k]) }

  /** `re.sub(r"[^a-z0-9]+", "", t)`: only a-z0-9 survive, and a text made
      of them is kept whole. */
  function KeepLowerAlnum(t: string): (r: string)
    ensures LowerAlnum(r)
    ensures LowerAlnum(t) ==> r == t
  {
    Filter(t, IsLowerAlnum)
  }

  /** `remove_vietnamese_diacritics`: translate, lower-case, keep a-z0-9. */
  function RemoveVietnameseDiacritics(text: string): string {
    KeepLowerAlnum(Lower(Fold(text)))
  }

  /** The result is made of a-z0-9 only. */
  lemma RemoveDiacriticsIsLowerAlnum(text: string)
    ensures LowerAlnum(RemoveVietnameseDiacritics(text))
  {
  }

  /** Every key of the translation table lies above the ASCII range. */
  predicate AboveAscii(g: string) { forall k :: 0 <= k < |g| ==> g[k] >= 'À' }

  lemma AGroupAboveAscii() ensures AboveAscii(AGroup) { }
  lemma EGroupAboveAscii() ensures AboveAscii(EGroup) { }
  lemma IGroupAboveAscii() ensures AboveAscii(IGroup) { }
  lemma OGroupAboveAscii() ensures AboveAscii(OGroup) { }
  lemma UGroupAboveAscii() ensures AboveAscii(UGroup) { }
  lemma YGroupAboveAscii() ensures AboveAscii(YGroup) { }
  lemma DGroupAboveAscii() ensures AboveAscii(DGroup) { }

  lemma {:induction false} PlainFoldsToItself(c: char)
    requires c < 'À'
    ensures FoldChar(c) == c
  {
    AGroupAboveAscii(); EGroupAboveAscii(); IGroupAboveAscii(); OGroupAboveAscii();
    UGroupAboveAscii(); YGroupAboveAscii(); DGroupAboveAscii();
    assert c < 'À';
  }

  /** Plain lower-case letters and digits pass through unchanged, so the
      function is idempotent. */
  lemma {:induction false} RemoveDiacriticsKeepsPlain(text: string)
    requires LowerAlnum(text)
    ensures RemoveVietnameseDiacritics(text) == text
  {
    assert Lower(Fold(text)) == text by {
      forall k | 0 <= k < |text| ensures LowerChar(FoldChar(text[k])) == text[k] {
        PlainFoldsToItself(text[k]);
      }
    }
  }

  /** The three steps all work character by character. */
  lemma RemoveDiacriticsConcat(a: string, b: string)
    ensures RemoveVietnameseDiacritics(a + b) == RemoveVietnameseDiacritics(a) + RemoveVietnameseDiacritics(b)
  {
    assert Fold(a + b) == Fold(a) + Fold(b);
    LowerConcat(Fold(a), Fold(b));
    FilterConcat(Lower(Fold(a)), Lower(Fold(b)), IsLowerAlnum);
  }

  /** Removing accents works character by character: a concatenation gives
      the concatenation of the parts, and one character becomes its plain
      lower-case letter, or nothing when that is not a-z0-9. */
  lemma RemoveDiacriticsContents(a: string, b: string, c: char)
    ensures RemoveVietnameseDiacritics(a + b) == RemoveVietnameseDiacritics(a) + RemoveVietnameseDiacritics(b)
    ensures RemoveVietnameseDiacritics([c]) ==
      if IsLowerAlnum(LowerChar(FoldChar(c))) then [LowerChar(FoldChar(c))] else []
  {
    RemoveDiacriticsConcat(a, b);
    assert Lower(Fold([c])) == [LowerChar(FoldChar(c))];
    FilterOne(LowerChar(FoldChar(c)), IsLowerAlnum);
  }

  /** `ord("ạ"): "a"` in the table. */
  lemma FoldDotA() ensures FoldChar('ạ') == 'a' {
    assert AGroup[4] == 'ạ';
  }

  /** The characters of the example below, one at a time. */
  lemma FoldExampleChars()
    ensures RemoveVietnameseDiacritics("B") == "b" && RemoveVietnameseDiacritics("ạ") == "a"
    ensures RemoveVietnameseDiacritics("n") == "n" && RemoveVietnameseDiacritics(" ") == ""
  {
    assert RemoveVietnameseDiacritics("B") == "b" by {
      PlainFoldsToItself('B');
      RemoveDiacriticsContents("", "", 'B');
    }
    assert RemoveVietnameseDiacritics("ạ") == "a" by {
      FoldDotA();
      RemoveDiacriticsContents("", "", 'ạ');
    }
    assert RemoveVietnameseDiacritics("n") == "n" by {
      PlainFoldsToItself('n');
      RemoveDiacriticsContents("", "", 'n');
    }
    assert RemoveVietnameseDiacritics(" ") == "" by {
      PlainFoldsToItself(' ');
      RemoveDiacriticsContents("", "", ' ');
    }
  }

  /** An accented vowel folds to its plain letter, a capital is lower-cased
      and a space is dropped. */
  lemma RemoveDiacriticsExample()
    ensures RemoveVietnameseDiacritics("Bạn ") == "ban"
  {
    assert "Bạn " == "B" + ("ạ" + ("n" + " "));
    FoldExampleChars();
    RemoveDiacriticsConcat("n", " ");
    RemoveDiacriticsConcat("ạ", "n" + " ");
    RemoveDiacriticsConcat("B", "ạ" + ("n" + " "));
  }

  lemma RemoveDiacriticsIdempotent(text: string)
    ensures RemoveVietnameseDiacritics(RemoveVietnameseDiacritics(text)) == RemoveVietnameseDiacritics(text)
  {
    RemoveDiacriticsIsLowerAlnum(text);
    RemoveDiacriticsKeepsPlain(RemoveVietnameseDiacritics(text));
  }

  // ---------------------------------------------------------------------
  // generate_username_from_name and generate_password_from_phone

  /** The words the username is built from: none for a blank name, the
      last word of one or two, else every word after the first. */
  function UsernameCore(fullName: string): Option<string> {
    var parts := Split(Strip(fullName));
    if parts == [] then None
    else if |parts| <= 2 then Some(parts[|parts| - 1])
    else Some(Concat(parts[1..]))
  }

  /** The accent-free core, or "user" when nothing of it is left. */
  function UsernameBase(core: string): string {
    var b := RemoveVietnameseDiacritics(core);
    if b == [] then "user" else b
  }

  /** A blank full name, and only a blank one, gives no core. */
  lemma UsernameCoreBlank(fullName: string)
    ensures UsernameCore(fullName).None? <==> Blank(fullName)
  {
    SplitEmptyIffBlank(Strip(fullName));
    StripEmptyIffBlank(fullName);
    StripEnds(fullName);
    var r := Strip(fullName);
    assert Blank(r) <==> r == [] by {
      if r != [] {
        assert !IsSpace(r[0]);
      }
    }
  }

  /** The base is a non-empty run of a-z0-9. */
  lemma UsernameBaseLowerAlnum(core: string)
    ensures UsernameBase(core) != []
    ensures LowerAlnum(UsernameBase(core))
  {
    RemoveDiacriticsIsLowerAlnum(core);
  }

  /** The k-th name tried: the base, then base2, base3, ... */
  function Candidate(base: string, k: nat): string {
    if k <= 1 then base else base + NatToString(k)
  }

  lemma CandidateInjective(base: string, j: nat, k: nat)
    requires 1 <= j && 1 <= k && Candidate(base, j) == Candidate(base, k)
    ensures j == k
  {
    if j > 1 && k > 1 {
      assert Candidate(base, j)[|base|..] == NatToString(j);
      assert Candidate(base, k)[|base|..] == NatToString(k);
      NatToStringInjective(j, k);
    }
  }

  /** The names tried before the k-th. */
  function TriedBefore(base: string, k: nat): set<string> {
    set j | 1 <= j < k :: Candidate(base, j)
  }

  lemma {:induction false} TriedStep(base: string, k: nat)
    requires k >= 1
    ensures Candidate(base, k) !in TriedBefore(base, k)
    ensures TriedBefore(base, k + 1) == TriedBefore(base, k) + {Candidate(base, k)}
  {
    if Candidate(base, k) in TriedBefore(base, k) {
      var j :| 1 <= j < k && Candidate(base, k) == Candidate(base, j);
      CandidateInjective(base, j, k);
    }
  }

  function UsernameSet(rs: seq<DemoResident>): set<string> {
    set r | r in rs :: r.username
  }

  /** The ASCII digits of `s`, in order. */
  function DigitsOf(s: string): (r: string)
    ensures AllDigits(r) && |r| <= |s|
    ensures AllDigits(s) ==> r == s
  {
    Filter(s, IsDigit)
  }

  /** Every digit of the phone is kept, in order, and everything else is
      dropped: the digits work character by character. */
  lemma DigitsOfContents(a: string, b: string, c: char)
    ensures DigitsOf(a + b) == DigitsOf(a) + DigitsOf(b)
    ensures DigitsOf([c]) == if IsDigit(c) then [c] else []
  {
    FilterConcat(a, b, IsDigit);
    FilterOne(c, IsDigit);
  }

  /** `generate_password_from_phone`: the last eight digits of the phone,
      all of them when there are fewer, "12345678" when there are none. */
  function PasswordFromPhone(phone: string): (r: string)
    ensures AllDigits(r) && 1 <= |r| <= 8
    ensures |DigitsOf(phone)| >= 8 ==> r == DigitsOf(phone)[|DigitsOf(phone)| - 8..]
    ensures 0 < |DigitsOf(phone)| < 8 ==> r == DigitsOf(phone)
    ensures DigitsOf(phone) == [] ==> r == "12345678"
  {
    var digits := DigitsOf(phone);
    if |digits| >= 8 then Last(digits, 8)
    else if digits != [] then digits
    else "12345678"
  }

  /** The password of a phone number that is all digits is its tail. */
  lemma PasswordOfDigitPhone(phone: string)
    requires AllDigits(phone) && |phone| >= 8
    ensures PasswordFromPhone(phone) == phone[|phone| - 8..]
  {
  }

  // ---------------------------------------------------------------------
  // GUEST_SESSIONS

  /** `gate_guest_checkin` with `ticket` drawn: the entry is (over)written. */
  function CheckIn(sessions: map<string, DemoSession>, ticket: string, now: int): map<string, DemoSession> {
    sessions[ticket := DemoSession("CHUA_OCR", now, None, In)]
  }

  /** `gate_guest_checkout`: an unknown ticket or one already out fails;
      otherwise the session is marked out at `now`. */
  function CheckOut(sessions: map<string, DemoSession>, ticket: string, now: int): (map<string, DemoSession>, bool) {
    if ticket !in sessions || sessions[ticket].status == Out then (sessions, false)
    else (sessions[ticket := sessions[ticket].(checkoutTime := Some(now), status := Out)], true)
  }

  /** Check-out fails exactly for an unknown or already-out ticket and then
      changes nothing; a success changes only that ticket's entry. */
  lemma CheckOutEffect(sessions: map<string, DemoSession>, ticket: string, now: int)
    ensures var (m, ok) := CheckOut(sessions, ticket, now);
      && (ok <==> ticket in sessions && sessions[ticket].status == In)
      && (!ok ==> m == sessions)
      && (ok ==> m.Keys == sessions.Keys
                 && m[ticket] == sessions[ticket].(checkoutTime := Some(now), status := Out)
                 && forall t :: t in sessions && t != ticket ==> m[t] == sessions[t])
  {
  }

  /** A ticket checks out at most once. */
  lemma {:induction false} CheckOutAtMostOnce(sessions: map<string, DemoSession>, ticket: string, now: int, later: int)
    ensures !CheckOut(CheckOut(sessions, ticket, now).0, ticket, later).1
  {
    var (m, ok) := CheckOut(sessions, ticket, now);
    if ok {
      assert m[ticket].status == Out;
    }
  }

  /** Check-in does not look at what is stored: a drawn ticket that is
      already in use replaces that session, even one still in. */
  lemma CheckInOverwrites(sessions: map<string, DemoSession>, ticket: string, now: int)
    ensures var m := CheckIn(sessions, ticket, now);
      && m.Keys == sessions.Keys + {ticket}
      && m[ticket] == DemoSession("CHUA_OCR", now, None, In)
      && (forall t :: t in sessions && t != ticket ==> m[t] == sessions[t])
      && CheckOut(m, ticket, now).1
  {
  }

  // ---------------------------------------------------------------------
  // RESIDENTS

  function Ids(rs: seq<DemoResident>): (ids: seq<nat>)
    ensures |ids| == |rs| && forall k :: 0 <= k < |rs| ==> ids[k] == rs[k].id
  {
    seq(|rs|, k requires 0 <= k < |rs| => rs[k].id)
  }

  /** `max(r["id"] for r in RESIDENTS) + 1 if RESIDENTS else 1` */
  function NewId(rs: seq<DemoResident>): (id: nat)
    ensures forall k :: 0 <= k < |rs| ==> rs[k].id < id
    ensures rs == [] ==> id == 1
  {
    Tables.NextId(Ids(rs))
  }

  function HasId(id: nat): DemoResident -> bool { (r: DemoResident) => r.id == id }
  function WithBackupCode(code: string): DemoResident -> DemoResident { (r: DemoResident) => r.(backupCode := code) }
  function Disabled(): DemoResident -> DemoResident { (r: DemoResident) => r.(status := "disabled") }

  /** `admin_reset_backup_code`: every record with the id gets the code. */
  function ResetBackupCode(rs: seq<DemoResident>, id: nat, code: string): seq<DemoResident> {
    Tables.UpdateWhere(rs, HasId(id), WithBackupCode(code))
  }

  /** `admin_disable_resident`: every record with the id is disabled. */
  function DisableResident(rs: seq<DemoResident>, id: nat): seq<DemoResident> {
    Tables.UpdateWhere(rs, HasId(id), Disabled())
  }

  predicate UniqueIds(rs: seq<DemoResident>) {
    forall i, j :: 0 <= i < j < |rs| ==> rs[i].id != rs[j].id
  }

  /** Both admin actions touch only the record with the given id and only
      the one field; with unique ids, that is one record at most. */
  lemma {:induction false} AdminActionsTouchOnlyThatRecord(rs: seq<DemoResident>, id: nat, code: string)
    requires UniqueIds(rs)
    ensures var reset := ResetBackupCode(rs, id, code);
      && |reset| == |rs|
      && (forall k :: 0 <= k < |rs| ==> reset[k] == if rs[k].id == id then rs[k].(backupCode := code) else rs[k])
      && (forall i, j :: 0 <= i < j < |rs| && reset[i] != rs[i] ==> reset[j] == rs[j])
    ensures var off := DisableResident(rs, id);
      && |off| == |rs|
      && (forall k :: 0 <= k < |rs| ==> off[k] == if rs[k].id == id then rs[k].(status := "disabled") else rs[k])
      && UniqueIds(off)
  {
    var reset := ResetBackupCode(rs, id, code);
    forall i, j | 0 <= i < j < |rs| && reset[i] != rs[i] ensures reset[j] == rs[j] {
      assert rs[i].id == id;
      assert rs[j].id != id;
    }
    var off := DisableResident(rs, id);
    forall i, j | 0 <= i < j < |off| ensures off[i].id != off[j].id {
      assert off[i].id == rs[i].id && off[j].id == rs[j].id;
    }
  }

  predicate OpensWithCode(r: DemoResident, code: string) { r.backupCode == code && r.status == "active" }

  /** The form of `admin_create_resident` (the floor already parsed). */
  datatype DemoForm = DemoForm(
    fullName: Option<string>, floor: int, room: Option<string>, plateNumber: Option<string>,
    vehicleType: Option<string>, citizenId: Option<string>, email: Option<string>, phone: Option<string>)

  /** `request.form.get(k, "").strip()` */
  function Field(v: Option<string>): string { Strip(v.GetOr("")) }

  lemma TriedShrinks(base: string, existing: set<string>, k: nat)
    requires k >= 1 && TriedBefore(base, k) <= existing && Candidate(base, k) in existing
    ensures TriedBefore(base, k + 1) <= existing
    ensures |existing - TriedBefore(base, k + 1)| < |existing - TriedBefore(base, k)|
  {
    TriedStep(base, k);
    var t := TriedBefore(base, k);
    assert existing - TriedBefore(base, k + 1) == (existing - t) - {Candidate(base, k)};
  }

  /** The first free name among the k-th, (k+1)-th, ... candidates, when
      every earlier candidate is taken. */
  function FirstFree(base: string, existing: set<string>, k: nat): string
    requires k >= 1 && TriedBefore(base, k) <= existing
    decreases |existing - TriedBefore(base, k)|
  {
    var c := Candidate(base, k);
    if c !in existing then c
    else
      TriedShrinks(base, existing, k);
      FirstFree(base, existing, k + 1)
  }

  /** The login name `generate_username_from_name` picks over `rs`. */
  function GeneratedName(rs: seq<DemoResident>, fullName: string): string {
    match UsernameCore(fullName)
    case None => "user"
    case Some(core) =>
      assert TriedBefore(UsernameBase(core), 1) == {};
      FirstFree(UsernameBase(core), UsernameSet(rs), 1)
  }

  /** What `generate_username_from_name` promises about its result for
      the residents `rs`: "user" for a blank name; otherwise a name no
      resident has, the first of base, base2, base3, ... that is free. */
  ghost predicate GeneratedUsername(rs: seq<DemoResident>, fullName: string, username: string) {
    match UsernameCore(fullName)
    case None => username == "user"
    case Some(core) =>
      && username !in UsernameSet(rs)
      && exists k :: 1 <= k && username == Candidate(UsernameBase(core), k) &&
           TriedBefore(UsernameBase(core), k) <= UsernameSet(rs)
  }

  lemma {:induction false} FirstFreeIsFirstFree(base: string, existing: set<string>, k: nat)
    requires k >= 1 && TriedBefore(base, k) <= existing
    ensures FirstFree(base, existing, k) !in existing
    ensures exists j :: k <= j && FirstFree(base, existing, k) == Candidate(base, j) &&
              TriedBefore(base, j) <= existing
    decreases |existing - TriedBefore(base, k)|
  {
    if Candidate(base, k) in existing {
      TriedShrinks(base, existing, k);
      FirstFreeIsFirstFree(base, existing, k + 1);
    } else {
      assert FirstFree(base, existing, k) == Candidate(base, k);
    }
  }

  /** The picked name is free and every candidate before it is taken. */
  lemma GeneratedNameIsFirstFree(rs: seq<DemoResident>, fullName: string)
    ensures GeneratedUsername(rs, fullName, GeneratedName(rs, fullName))
  {
    var core := UsernameCore(fullName);
    if core.Some? {
      assert TriedBefore(UsernameBase(core.value), 1) == {};
      FirstFreeIsFirstFree(UsernameBase(core.value), UsernameSet(rs), 1);
    }
  }

  /** `generate_username_from_name` over the current `RESIDENTS`. */
  method GenerateUsernameFromName(residents: seq<DemoResident>, fullName: string) returns (username: string)
    ensures username == GeneratedName(residents, fullName)
  {
    var core := UsernameCore(fullName);
    if core.None? {
      return "user";
    }
    var base := UsernameBase(core.value);
    username := base;
    var suffix := 1;
    var existing := UsernameSet(residents);
    ghost var tried: set<string> := {};
    assert TriedBefore(base, 1) == {};
    while username in existing
      invariant suffix >= 1 && username == Candidate(base, suffix)
      invariant tried == TriedBefore(base, suffix)
      invariant tried <= existing
      invariant FirstFree(base, existing, suffix) == GeneratedName(residents, fullName)
      decreases |existing - tried|
    {
      TriedStep(base, suffix);
      assert existing - (tried + {username}) < existing - tried;
      tried := tried + {username};
      suffix := suffix + 1;
      username := base + NatToString(suffix);
    }
  }

  /** The record `admin_create_resident` appends to `rs`. */
  function NewRecord(rs: seq<DemoResident>, form: DemoForm): DemoResident {
    var id := NewId(rs);
    var phone := Field(form.phone);
    DemoResident(id, GeneratedName(rs, Field(form.fullName)), PasswordFromPhone(phone), Field(form.fullName),
                 form.floor, Field(form.room), Field(form.plateNumber), form.vehicleType.GetOr("motorbike"),
                 "active", "CODE" + NatToString(id), false, Field(form.citizenId), Field(form.email), phone)
  }

  /** The new record has an id above every existing one (so ids stay
      unique), a login name no resident of `rs` has unless the name was
      blank, status active, is outside the car park, and has the password
      derived from the phone. */
  lemma {:induction false} NewRecordKeepsIdsUnique(rs: seq<DemoResident>, form: DemoForm)
    requires UniqueIds(rs)
    ensures UniqueIds(rs + [NewRecord(rs, form)])
    ensures forall k :: 0 <= k < |rs| ==> rs[k].id < NewRecord(rs, form).id
    ensures GeneratedUsername(rs, Field(form.fullName), NewRecord(rs, form).username)
    ensures UsernameCore(Field(form.fullName)).Some? ==> NewRecord(rs, form).username !in UsernameSet(rs)
    ensures NewRecord(rs, form).status == "active" && !NewRecord(rs, form).isInParking
    ensures NewRecord(rs, form).password == PasswordFromPhone(Field(form.phone))
  {
    var r := NewRecord(rs, form);
    var rs2 := rs + [r];
    forall i, j | 0 <= i < j < |rs2| ensures rs2[i].id != rs2[j].id {
      if j == |rs| {
        assert rs2[i] == rs[i];
      } else {
        assert rs2[i] == rs[i] && rs2[j] == rs[j];
      }
    }
    GeneratedNameIsFirstFree(rs, Field(form.fullName));
  }

  class DemoApp {
    var residents: seq<DemoResident>
    var guestSessions: map<string, DemoSession>

    constructor ()
      ensures residents == SeedResidents && guestSessions == map[]
    {
      residents := SeedResidents;
      guestSessions := map[];
    }

    /** `gate_guest_checkin` with the drawn ticket and the clock as inputs. */
    method GateGuestCheckin(ticket: string, now: int) returns (ticketCode: string)
      modifies this
      ensures guestSessions == CheckIn(old(guestSessions), ticket, now) && ticketCode == ticket
      ensures residents == old(residents)
    {
      guestSessions := guestSessions[ticket := DemoSession("CHUA_OCR", now, None, In)];
      return ticket;
    }

    /** `gate_guest_checkout`, status and times only; a missing ticket is "". */
    method GateGuestCheckout(ticket: string, now: int) returns (success: bool)
      modifies this
      ensures (guestSessions, success) == CheckOut(old(guestSessions), ticket, now)
      ensures residents == old(residents)
    {
      if ticket !in guestSessions || guestSessions[ticket].status == Out {
        return false;
      }
      var info := guestSessions[ticket];
      guestSessions := guestSessions[ticket := info.(checkoutTime := Some(now), status := Out)];
      return true;
    }

    /** `gate_resident_backup_login`: the name of the first active resident
        whose code is exactly `code`, if any. */
    method GateResidentBackupLogin(code: string) returns (residentName: Option<string>)
      ensures residentName.Some? <==> exists k :: 0 <= k < |residents| && OpensWithCode(residents[k], code)
      ensures residentName.Some? ==> exists k :: (0 <= k < |residents| && OpensWithCode(residents[k], code) &&
                residentName.value == residents[k].fullName &&
                forall j :: 0 <= j < k ==> !OpensWithCode(residents[j], code))
    {
      var k := 0;
      while k < |residents|
        invariant 0 <= k <= |residents|
        invariant forall j :: 0 <= j < k ==> !OpensWithCode(residents[j], code)
      {
        if residents[k].backupCode == code && residents[k].status == "active" {
          return Some(residents[k].fullName);
        }
        k := k + 1;
      }
      return None;
    }

    /** `admin_create_resident`: the form's record is appended to
        `RESIDENTS`. */
    method AdminCreateResident(form: DemoForm)
      modifies this
      ensures residents == old(residents) + [NewRecord(old(residents), form)]
      ensures guestSessions == old(guestSessions)
    {
      var newId := NewId(residents);
      var fullName := Field(form.fullName);
      var phone := Field(form.phone);
      var username := GenerateUsernameFromName(residents, fullName);
      var password := PasswordFromPhone(phone);
      var res := DemoResident(newId, username, password, fullName, form.floor, Field(form.room),
                              Field(form.plateNumber), form.vehicleType.GetOr("motorbike"), "active",
                              "CODE" + NatToString(newId), false, Field(form.citizenId), Field(form.email), phone);
      assert res == NewRecord(residents, form);
      residents := residents + [res];
    }

    /** `admin_reset_backup_code` with the drawn code as input. */
    method AdminResetBackupCode(id: nat, code: string)
      modifies this
      ensures residents == ResetBackupCode(old(residents), id, code)
      ensures guestSessions == old(guestSessions)
    {
      var k := 0;
      while k < |residents|
        invariant 0 <= k <= |residents| && |residents| == |old(residents)|
        invariant forall j :: 0 <= j < k ==> residents[j] == if old(residents)[j].id == id then old(residents)[j].(backupCode := code) else old(residents)[j]
        invariant forall j :: k <= j < |residents| ==> residents[j] == old(residents)[j]
        invariant guestSessions == old(guestSessions)
      {
        if residents[k].id == id {
          residents := residents[k := residents[k].(backupCode := code)];
        }
        k := k + 1;
      }
    }

    /** `admin_disable_resident` */
    method AdminDisableResident(id: nat)
      modifies this
      ensures residents == DisableResident(old(residents), id)
      ensures guestSessions == old(guestSessions)
    {
      var k := 0;
      while k < |residents|
        invariant 0 <= k <= |residents| && |residents| == |old(residents)|
        invariant forall j :: 0 <= j < k ==> residents[j] == if old(residents)[j].id == id then old(residents)[j].(status := "disabled") else old(residents)[j]
        invariant forall j :: k <= j < |residents| ==> residents[j] == old(residents)[j]
        invariant guestSessions == old(guestSessions)
      {
        if residents[k].id == id {
          residents := residents[k := residents[k].(status := "disabled")];
        }
        k := k + 1;
      }
    }
  }

  /** A disabled resident's code no longer opens the gate. */
  lemma {:induction false} DisabledCannotLogIn(rs: seq<DemoResident>, id: nat, code: string)
    ensures forall k :: 0 <= k < |rs| && rs[k].id == id ==> !OpensWithCode(DisableResident(rs, id)[k], code)
  {
  }

  /** In the seed data, code ABC123 opens for the first resident. */
  lemma SeedBackupCode()
    ensures OpensWithCode(SeedResidents[0], "ABC123")
    ensures forall k :: 0 <= k < |SeedResidents| && OpensWithCode(SeedResidents[k], "ABC123") ==> k == 0
  {
  }
}
