/** The small pure helpers of app.py: login names and initial passwords
    derived from a resident's name and phone, and the "time ago" label of the
    admin notification list. */
module AppHelpers {
  import opened Wrappers
  import opened Text

  /** Combining diacritical marks (U+0300 to U+036F), the marks that
      `unicodedata.category(c) == "Mn"` removes from Vietnamese names once
      they are decomposed. */
  predicate IsCombiningMark(c: char) { '\U{300}' <= c <= '\U{36f}' }

  predicate NotCombiningMark(c: char) { !IsCombiningMark(c) }

  predicate NotSpaceChar(c: char) { c != ' ' }

  /** The last four characters of the phone number, when it has four. */
  function PhoneTail(phone: Option<string>): (t: string)
    ensures |t| == 0 || |t| == 4
    ensures |t| == 4 <==> phone.Some? && |phone.value| >= 4
    ensures |t| == 4 ==> t == phone.value[|phone.value| - 4..]
  {
    if phone.Some? && |phone.value| >= 4 then phone.value[|phone.value| - 4..] else ""
  }

  /** `make_username(full_name, phone)`: "user" for a missing name; otherwise
      the name without accents, in lower case and without spaces, followed by
      the last four characters of the phone number. */
  function MakeUsername(fullName: Option<string>, phone: Option<string>): (u: string)
    ensures fullName.None? || fullName == Some("") ==> u == "user"
    ensures fullName.Some? && fullName.value != "" ==>
      && |PhoneTail(phone)| <= |u| <= |fullName.value| + |PhoneTail(phone)|
      && u == UsernameBase(fullName.value) + PhoneTail(phone)
      && u[|u| - |PhoneTail(phone)|..] == PhoneTail(phone)
      && forall k :: 0 <= k < |u| - |PhoneTail(phone)| ==>
           u[k] != ' ' && !IsUpperAscii(u[k]) && !IsCombiningMark(u[k])
  {
    if fullName.None? || fullName.value == "" then "user"
    else
      var base := UsernameBase(fullName.value);
      var u := base + PhoneTail(phone);
      assert u[..|base|] == base && u[|base|..] == PhoneTail(phone);
      u
  }

  /** The name part of `make_username`: accents dropped, lower-cased, spaces removed. */
  function UsernameBase(name: string): (base: string)
    ensures |base| <= |name|
    ensures forall k :: 0 <= k < |base| ==>
      base[k] != ' ' && !IsUpperAscii(base[k]) && !IsCombiningMark(base[k])
  {
    var noAccent := Filter(name, NotCombiningMark);
    var base := Filter(Lower(noAccent), NotSpaceChar);
    LowerKeepsFilter(noAccent, NotSpaceChar, NotCombiningMark);
    LowerKeepsFilter(noAccent, NotSpaceChar, c => !IsUpperAscii(c));
    base
  }

  /** The name part works character by character: a combining accent or a
      space is dropped, any other character is kept lower-cased, in order. */
  lemma UsernameBaseContents(a: string, b: string, c: char)
    ensures UsernameBase(a + b) == UsernameBase(a) + UsernameBase(b)
    ensures UsernameBase([c]) == if IsCombiningMark(c) || c == ' ' then [] else [LowerChar(c)]
  {
    FilterConcat(a, b, NotCombiningMark);
    var fa := Filter(a, NotCombiningMark);
    var fb := Filter(b, NotCombiningMark);
    LowerConcat(fa, fb);
    FilterConcat(Lower(fa), Lower(fb), NotSpaceChar);
    FilterOne(c, NotCombiningMark);
    if !IsCombiningMark(c) {
      assert Lower([c]) == [LowerChar(c)];
      FilterOne(LowerChar(c), NotSpaceChar);
    } else {
      assert Lower([]) == [];
    }
  }

  /** Every character of `Filter(Lower(s), keep)` has `prop` when every
      lower-cased character of `s` has it. */
  lemma {:induction false} LowerKeepsFilter(s: string, keep: char -> bool, prop: char -> bool)
    requires forall k :: 0 <= k < |s| ==> prop(LowerChar(s[k]))
    ensures forall k :: 0 <= k < |Filter(Lower(s), keep)| ==> prop(Filter(Lower(s), keep)[k])
  {
    if s != [] {
      LowerKeepsFilter(s[1..], keep, prop);
      assert Lower(s)[1..] == Lower(s[1..]);
    }
  }

  /** `make_initial_password(phone)`: always six characters, the last six of
      the phone number when it has at least six, else "123456". */
  function MakeInitialPassword(phone: Option<string>): (pw: string)
    ensures |pw| == 6
    ensures phone.Some? && |phone.value| >= 6 ==> pw == phone.value[|phone.value| - 6..]
    ensures !(phone.Some? && |phone.value| >= 6) ==> pw == "123456"
  {
    if phone.Some? && |phone.value| >= 6 then phone.value[|phone.value| - 6..] else "123456"
  }

  /** The label `fmt_time_ago` shows; the Vietnamese wording around the number
      and the `strftime` layout are not modelled. */
  datatype Ago =
    | NoTime                    // no timestamp: ""
    | SecondsAgo(seconds: int)  // "{sec}s truoc"
    | MinutesAgo(minutes: int)  // "{sec // 60} phut truoc"
    | HoursAgo(hours: int)      // "{sec // 3600} gio truoc"
    | DateStamp(at: int)        // dt.strftime("%d/%m %H:%M")

  /** `fmt_time_ago(dt)` with `datetime.now()` passed in as `now`; whole
      seconds are `int(total_seconds())`, truncated toward zero. */
  function FmtTimeAgo(dt: Option<int>, now: int): (r: Ago)
    ensures dt.None? <==> r == NoTime
    ensures dt.Some? ==>
      var sec := TruncSeconds(now - dt.value);
      && (r.SecondsAgo? <==> sec < 60)
      && (r.SecondsAgo? ==> r.seconds == sec)
      && (r.MinutesAgo? ==> 1 <= r.minutes < 60 && r.minutes * 60 <= sec < (r.minutes + 1) * 60)
      && (r.HoursAgo? ==> 1 <= r.hours < 24 && r.hours * 3600 <= sec < (r.hours + 1) * 3600)
      && (r.DateStamp? <==> sec >= 86400)
      && (r.DateStamp? ==> r.at == dt.value)
  {
    if dt.None? then NoTime
    else
      var sec := TruncSeconds(now - dt.value);
      if sec < 60 then SecondsAgo(sec)
      else if sec < 3600 then MinutesAgo(sec / 60)
      else if sec < 86400 then HoursAgo(sec / 3600)
      else DateStamp(dt.value)
  }

  /** `int(diff.total_seconds())` for a difference in microseconds. */
  function TruncSeconds(micros: int): (s: int)
    ensures micros >= 0 ==> s * 1_000_000 <= micros < (s + 1) * 1_000_000
    ensures micros < 0 ==> (s - 1) * 1_000_000 < micros <= s * 1_000_000
  {
    if micros >= 0 then micros / 1_000_000 else -((-micros) / 1_000_000)
  }
}
