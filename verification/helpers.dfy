/** The general helpers of the frontend: emptiness of values, the phone, password and
    username patterns, truncation, token-based date formatting and the long-form
    relative time. */
module Helpers {
  import opened Common
  import Validation

  // ---------------------------------------------------------------- emptiness

  function TrimStart(s: string): (r: string)
    ensures |r| <= |s| && r == s[|s| - |r|..]
    ensures r != [] ==> !IsSpace(r[0])
  {
    if s != [] && IsSpace(s[0]) then TrimStart(s[1..]) else s
  }

  function TrimEnd(s: string): (r: string)
    ensures |r| <= |s| && r == s[..|r|]
    ensures r != [] ==> !IsSpace(r[|r| - 1])
  {
    if s != [] && IsSpace(s[|s| - 1]) then TrimEnd(s[..|s| - 1]) else s
  }

  /** `String.prototype.trim`. */
  function Trim(s: string): string {
    TrimEnd(TrimStart(s))
  }

  predicate AllSpace(s: string) {
    forall k :: 0 <= k < |s| ==> IsSpace(s[k])
  }

  lemma {:induction false} TrimStartEmpty(s: string)
    ensures TrimStart(s) == [] <==> AllSpace(s)
    decreases |s|
  {
    if s != [] && IsSpace(s[0]) {
      TrimStartEmpty(s[1..]);
      if AllSpace(s[1..]) {
        forall k | 0 <= k < |s| ensures IsSpace(s[k]) {
          if k > 0 { assert s[k] == s[1..][k - 1]; }
        }
      }
    }
  }

  lemma {:induction false} TrimEndEmpty(s: string)
    ensures TrimEnd(s) == [] <==> AllSpace(s)
    decreases |s|
  {
    if s != [] && IsSpace(s[|s| - 1]) {
      var p := s[..|s| - 1];
      TrimEndEmpty(p);
      if AllSpace(p) {
        forall k | 0 <= k < |s| ensures IsSpace(s[k]) {
          if k < |s| - 1 { assert s[k] == p[k]; }
        }
      }
    }
  }

  /** Trimming leaves nothing exactly when every character is white space. */
  lemma TrimEmpty(s: string)
    ensures Trim(s) == [] <==> AllSpace(s)
  {
    var t := TrimStart(s);
    TrimStartEmpty(s);
    TrimEndEmpty(t);
    if t != [] {
      assert !IsSpace(t[0]);
    }
  }

  /** `isEmpty`: `null`, `undefined`, a string of white space, an empty array and an
      object without keys are empty; booleans and numbers never are. */
  function IsEmpty(value: JsValue): (r: bool)
    ensures Nullish(value) ==> r
    ensures value.Str? ==> (r <==> AllSpace(value.s))
    ensures value.Arr? ==> (r <==> value.items == [])
    ensures value.Obj? ==> (r <==> value.fields == [])
    ensures value.Bool? || value.Num? ==> !r
  {
    match value
    case Undefined => true
    case Null => true
    case Str(s) =>
      TrimEmpty(s);
      |Trim(s)| == 0
    case Arr(items) => |items| == 0
    case Obj(fields) => |fields| == 0
    case _ => false
  }

  /** `isNotEmpty`: the negation of `isEmpty`; a string is non-empty once it holds a
      character that is not white space. */
  function IsNotEmpty(value: JsValue): (r: bool)
    ensures r <==> !IsEmpty(value)
    ensures value.Str? ==> (r <==> exists k :: 0 <= k < |value.s| && !IsSpace(value.s[k]))
  {
    !IsEmpty(value)
  }

  // ---------------------------------------------------------------- patterns

  /** A phone number without its sign: a leading digit 1-9 and then 1 to 14 digits. */
  predicate PhoneDigits(t: string) {
    && 2 <= |t| <= 15
    && '1' <= t[0] <= '9'
    && forall k :: 1 <= k < |t| ==> IsDigit(t[k])
  }

  /** `isValidPhone`: the pattern `^\+?[1-9]\d{1,14}$`, whose optional sign is either
      absent or present. */
  predicate IsValidPhone(phone: string) {
    PhoneDigits(phone) || (|phone| > 0 && phone[0] == '+' && PhoneDigits(phone[1..]))
  }

  /** The sign is never ambiguous: a leading '+' must be the sign, and 2 to 16
      characters remain in a valid number, the last of them a digit. */
  lemma IsValidPhoneMeans(phone: string)
    ensures IsValidPhone(phone) <==>
              if |phone| > 0 && phone[0] == '+' then PhoneDigits(phone[1..]) else PhoneDigits(phone)
    ensures IsValidPhone(phone) ==> 2 <= |phone| <= 16 && IsDigit(phone[|phone| - 1])
  {
    if IsValidPhone(phone) && |phone| > 0 && phone[0] == '+' {
      assert !PhoneDigits(phone);
      assert phone[|phone| - 1] == phone[1..][|phone| - 2];
    }
  }

  predicate PasswordSymbol(c: char) { c in "@$!%*?&" }
  predicate PasswordChar(c: char) { IsAlphaNum(c) || PasswordSymbol(c) }
  predicate HasPasswordSymbol(s: string) { exists k :: 0 <= k < |s| && PasswordSymbol(s[k]) }

  /** The characters `.` does not match. */
  predicate LineTerminator(c: char) {
    c == '\n' || c == '\r' || c == '\U{2028}' || c == '\U{2029}'
  }

  /** The look-ahead `(?=.*[C])` at the start of the string: a character of class `C`
      that no line terminator precedes. */
  predicate LookaheadFinds(s: string, charClass: char -> bool) {
    exists k :: 0 <= k < |s| && charClass(s[k]) && forall j :: 0 <= j < k ==> !LineTerminator(s[j])
  }

  /** `isValidPassword`: the pattern
      `^(?=.*[a-z])(?=.*[A-Z])(?=.*\d)(?=.*[@$!%*?&])[A-Za-z\d@$!%*?&]{8,}$`, look-ahead
      by look-ahead. */
  predicate IsValidPassword(password: string) {
    && LookaheadFinds(password, IsLower)
    && LookaheadFinds(password, IsUpper)
    && LookaheadFinds(password, IsDigit)
    && LookaheadFinds(password, PasswordSymbol)
    && |password| >= 8
    && forall k :: 0 <= k < |password| ==> PasswordChar(password[k])
  }

  /** The look-aheads only ask for one character of each class: a valid password has
      at least 8 characters from the allowed set, among them a lower-case letter, an
      upper-case letter, a digit and a symbol. */
  lemma IsValidPasswordMeans(password: string)
    ensures IsValidPassword(password) <==>
              && |password| >= 8
              && (forall k :: 0 <= k < |password| ==> PasswordChar(password[k]))
              && HasLower(password) && HasUpper(password) && HasDigit(password)
              && HasPasswordSymbol(password)
  {
    if forall k :: 0 <= k < |password| ==> PasswordChar(password[k]) {
      assert forall k :: 0 <= k < |password| ==> !LineTerminator(password[k]);
    }
  }

  /** `isValidUsername`: the pattern `^[a-zA-Z0-9_]{3,30}$`. */
  predicate IsValidUsername(username: string) {
    3 <= |username| <= 30 && forall k :: 0 <= k < |username| ==> IsAlphaNum(username[k]) || username[k] == '_'
  }

  /** The helper pattern and the form validator agree up to 20 characters, except that
      the validator also admits hyphens: every helper-valid name of at most 20
      characters passes the validator, and a name the validator accepts but the helper
      does not holds a hyphen. */
  lemma UsernameRulesAgree(username: string)
    ensures IsValidUsername(username) && |username| <= 20 ==>
              forall k :: 0 <= k < |username| ==> Validation.UsernameChar(username[k])
    ensures (&& 3 <= |username| <= 20
             && (forall k :: 0 <= k < |username| ==> Validation.UsernameChar(username[k]))
             && !IsValidUsername(username))
            ==> '-' in username
  {
    if 3 <= |username| <= 20 && (forall k :: 0 <= k < |username| ==> Validation.UsernameChar(username[k]))
       && !IsValidUsername(username) {
      var k :| 0 <= k < |username| && !(IsAlphaNum(username[k]) || username[k] == '_');
      assert Validation.UsernameChar(username[k]);
    }
  }

  // ---------------------------------------------------------------- truncation

  /** `truncateText(text, length)`: the text itself when it fits, else its first
      `length` characters (as `slice` counts them) and an ellipsis. Positions are
      counted in characters, which are JavaScript's UTF-16 code units for text in the
      Basic Multilingual Plane. */
  function TruncateText(text: string, length: int := 100): (r: string)
    ensures |text| <= length ==> r == text
    ensures (forall k :: 0 <= k < |text| ==> !Astral(text[k])) ==>
              && (Utf16Length(text) <= length ==> r == text)
              && (Utf16Length(text) > length ==> r == JsSlice(text, 0, length) + "...")
    ensures |text| > length ==> r == JsSlice(text, 0, length) + "..."
    ensures 0 <= length < |text| ==> r == text[..length] + "..." && |r| == length + 3
    ensures |text| > length ==> StartsWith(text, r[..|r| - 3])
  {
    if |text| <= length then text else JsSlice(text, 0, length) + "..."
  }

  // ---------------------------------------------------------------- formatDate

  /** `pat` occurs in `s` at position `k`. */
  predicate OccursAt(s: string, pat: string, k: nat) {
    k + |pat| <= |s| && s[k..k + |pat|] == pat
  }

  /** The position of the first occurrence of `pat` in `s`, as `indexOf` finds it. */
  function FindFirst(s: string, pat: string): (r: Option<nat>)
    requires pat != []
    ensures r.Some? ==> OccursAt(s, pat, r.value)
    ensures r.Some? ==> forall k: nat :: k < r.value ==> !OccursAt(s, pat, k)
    ensures r.None? ==> forall k: nat :: !OccursAt(s, pat, k)
    decreases |s|
  {
    if |s| < |pat| then None
    else if s[..|pat|] == pat then Some(0)
    else
      var rest := FindFirst(s[1..], pat);
      assert forall k: nat :: k >= 1 ==> (OccursAt(s, pat, k) <==> OccursAt(s[1..], pat, k - 1)) by {
        forall k: nat | k >= 1 ensures OccursAt(s, pat, k) <==> OccursAt(s[1..], pat, k - 1) {
          if k + |pat| <= |s| {
            var t := s[1..];
            var u := t[k - 1..k - 1 + |pat|];
            var w := s[k..k + |pat|];
            assert u == w by {
              forall i | 0 <= i < |pat| ensures u[i] == w[i] {
                assert t[k - 1 + i] == s[k + i];
              }
            }
          }
        }
      }
      if rest.None? then None else Some(rest.value + 1)
  }

  /** `s.replace(pat, rep)` with a string pattern: only the first occurrence is replaced. */
  function ReplaceFirst(s: string, pat: string, rep: string): (r: string)
    requires pat != []
    ensures FindFirst(s, pat).None? ==> r == s
    ensures FindFirst(s, pat).Some? ==>
              var i := FindFirst(s, pat).value; r == s[..i] + rep + s[i + |pat|..]
  {
    match FindFirst(s, pat)
    case None => s
    case Some(i) => s[..i] + rep + s[i + |pat|..]
  }

  /** A prefix none of whose characters can start `pat` shifts the first occurrence. */
  lemma {:induction false} FindFirstSkip(a: string, b: string, pat: string)
    requires pat != []
    requires forall k :: 0 <= k < |a| ==> a[k] != pat[0]
    ensures FindFirst(a + b, pat) ==
              if FindFirst(b, pat).None? then None else Some(FindFirst(b, pat).value + |a|)
    decreases |a|
  {
    if a != [] {
      FindFirstSkip(a[1..], b, pat);
      assert (a + b)[1..] == a[1..] + b;
      if |a + b| >= |pat| {
        assert (a + b)[..|pat|][0] == a[0];
      } else {
        assert FindFirst(b, pat).None?;
      }
    } else {
      assert a + b == b;
    }
  }

  lemma OccursAtStarts(s: string, pat: string, k: nat)
    requires pat != [] && OccursAt(s, pat, k)
    ensures k < |s| && s[k] == pat[0]
  {
    assert s[k..k + |pat|][0] == s[k];
  }

  /** No occurrence when no character of `s` can start `pat`. */
  lemma FindFirstAbsent(s: string, pat: string)
    requires pat != []
    requires forall k :: 0 <= k < |s| ==> s[k] != pat[0]
    ensures FindFirst(s, pat).None?
  {
    var r := FindFirst(s, pat);
    if r.Some? {
      OccursAtStarts(s, pat, r.value);
    }
  }

  /** The local calendar fields of a valid `Date`; the month is `getMonth()`, from 0. */
  datatype DateFields = DateFields(year: int, month0: nat, day: nat, hours: nat, minutes: nat, seconds: nat)

  /** The text of a field: `String(value).padStart(2, '0')`, and `NaN` for an invalid
      date, whose getters all return `NaN`. */
  function FieldText(valid: bool, value: nat): string {
    if valid then Pad2(value) else "NaN"
  }

  /** `formatDate(date, format)`: each of YYYY, MM, DD, HH, mm and ss is replaced at its
      first occurrence, in this order, in the string built so far. An invalid date is
      `None`. */
  function FormatDate(date: Option<DateFields>, format: string := "YYYY-MM-DD"): string {
    var valid := date.Some?;
    var d := date.GetOr(DateFields(0, 0, 0, 0, 0, 0));
    var s1 := ReplaceFirst(format, "YYYY", if valid then IntToString(d.year) else "NaN");
    var s2 := ReplaceFirst(s1, "MM", FieldText(valid, d.month0 + 1));
    var s3 := ReplaceFirst(s2, "DD", FieldText(valid, d.day));
    var s4 := ReplaceFirst(s3, "HH", FieldText(valid, d.hours));
    var s5 := ReplaceFirst(s4, "mm", FieldText(valid, d.minutes));
    ReplaceFirst(s5, "ss", FieldText(valid, d.seconds))
  }

  predicate DigitsOrDash(s: string) {
    forall k :: 0 <= k < |s| ==> IsDigit(s[k]) || s[k] == '-'
  }

  lemma IntToStringDigits(i: int)
    ensures DigitsOrDash(IntToString(i))
  {
    if i < 0 {
      var n := NatToString(-i);
      assert IntToString(i) == "-" + n;
      forall k | 0 <= k < |"-" + n| ensures IsDigit(("-" + n)[k]) || ("-" + n)[k] == '-' {
        if k > 0 { assert ("-" + n)[k] == n[k - 1]; }
      }
    }
  }

  lemma Pad2Digits(n: nat)
    ensures DigitsOrDash(Pad2(n))
  {
  }

  /** Replacing a token at the front of the unprocessed tail of the format. */
  lemma ReplaceAfterDigits(done: string, pat: string, rest: string, rep: string)
    requires pat != [] && !IsDigit(pat[0]) && pat[0] != '-'
    requires DigitsOrDash(done)
    ensures FindFirst(done + pat + rest, pat) == Some(|done|)
    ensures ReplaceFirst(done + pat + rest, pat, rep) == done + rep + rest
  {
    FindFirstSkip(done, pat + rest, pat);
    assert (pat + rest)[..|pat|] == pat;
    assert done + pat + rest == done + (pat + rest);
    var s := done + pat + rest;
    assert s[..|done|] == done;
    assert s[|done| + |pat|..] == rest;
  }

  /** With the default format a valid date prints as year, zero-padded month (counted
      from 1) and zero-padded day, separated by '-'. */
  lemma FormatDateDefault(d: DateFields)
    ensures FormatDate(Some(d)) == IntToString(d.year) + "-" + Pad2(d.month0 + 1) + "-" + Pad2(d.day)
  {
    var y := IntToString(d.year);
    var m := Pad2(d.month0 + 1);
    var dd := Pad2(d.day);
    IntToStringDigits(d.year);
    Pad2Digits(d.month0 + 1);
    Pad2Digits(d.day);
    var s3 := DefaultTokens(y, m, dd);
    NoTimeTokens(s3);
    var s4 := ReplaceFirst(s3, "HH", FieldText(true, d.hours));
    assert s4 == s3;
    var s5 := ReplaceFirst(s4, "mm", FieldText(true, d.minutes));
    assert s5 == s3;
    assert FormatDate(Some(d)) == ReplaceFirst(s5, "ss", FieldText(true, d.seconds));
  }

  /** A text of digits and dashes holds none of the time tokens. */
  lemma NoTimeTokens(s: string)
    requires DigitsOrDash(s)
    ensures FindFirst(s, "HH").None? && FindFirst(s, "mm").None? && FindFirst(s, "ss").None?
  {
    assert forall k :: 0 <= k < |s| ==> s[k] != 'H' && s[k] != 'm' && s[k] != 's';
    FindFirstAbsent(s, "HH");
    FindFirstAbsent(s, "mm");
    FindFirstAbsent(s, "ss");
  }

  /** The three tokens of the default format, replaced in turn. */
  lemma DefaultTokens(y: string, m: string, dd: string) returns (s3: string)
    requires DigitsOrDash(y) && DigitsOrDash(m) && DigitsOrDash(dd)
    ensures s3 == ReplaceFirst(ReplaceFirst(ReplaceFirst("YYYY-MM-DD", "YYYY", y), "MM", m), "DD", dd)
    ensures s3 == y + "-" + m + "-" + dd
    ensures DigitsOrDash(s3)
  {
    YearToken(y);
    var p := MonthToken(y, m);
    s3 := DayToken(p, dd);
  }

  lemma YearToken(y: string)
    requires DigitsOrDash(y)
    ensures ReplaceFirst("YYYY-MM-DD", "YYYY", y) == y + "-MM-DD"
  {
    assert [] + "YYYY" + "-MM-DD" == "YYYY-MM-DD";
    ReplaceAfterDigits([], "YYYY", "-MM-DD", y);
    assert [] + y + "-MM-DD" == y + "-MM-DD";
  }

  lemma MonthToken(y: string, m: string) returns (p: string)
    requires DigitsOrDash(y) && DigitsOrDash(m)
    ensures ReplaceFirst(y + "-MM-DD", "MM", m) == p + "DD"
    ensures p == y + "-" + m + "-" && DigitsOrDash(p)
  {
    assert y + "-" + "MM" + "-DD" == y + "-MM-DD";
    DigitsOrDashAppend(y, "-");
    ReplaceAfterDigits(y + "-", "MM", "-DD", m);
    p := y + "-" + m + "-";
    assert y + "-" + m + "-DD" == p + "DD";
    DigitsOrDashAppend(y + "-", m);
    DigitsOrDashAppend(y + "-" + m, "-");
  }

  lemma DayToken(p: string, dd: string) returns (s3: string)
    requires DigitsOrDash(p) && DigitsOrDash(dd)
    ensures ReplaceFirst(p + "DD", "DD", dd) == s3 && s3 == p + dd && DigitsOrDash(s3)
  {
    assert p + "DD" + "" == p + "DD";
    ReplaceAfterDigits(p, "DD", "", dd);
    s3 := p + dd;
    assert p + dd + "" == s3;
    DigitsOrDashAppend(p, dd);
  }

  lemma DigitsOrDashAppend(a: string, b: string)
    requires DigitsOrDash(a) && (DigitsOrDash(b) || b == "-")
    ensures DigitsOrDash(a + b)
  {
    assert forall k :: |a| <= k < |a + b| ==> (a + b)[k] == b[k - |a|];
  }

  // ---------------------------------------------------------------- relative time

  /** `${n} ${unit}${n > 1 ? 's' : ''} ago`. */
  function Ago(n: nat, unit: string): string {
    NatToString(n) + " " + unit + (if n > 1 then "s" else "") + " ago"
  }

  /** `formatRelativeTime(date)` with the clock `now`, both in milliseconds: seconds,
      minutes, hours, days, months of 30 days and years of 12 such months, each the floor
      of the previous unit; the largest positive unit is reported. */
  function FormatRelativeTime(now: int, date: int): (r: string)
  {
    var seconds := (now - date) / 1000;
    var minutes := seconds / 60;
    var hours := minutes / 60;
    var days := hours / 24;
    var months := days / 30;
    var years := months / 12;
    if years > 0 then Ago(years, "year")
    else if months > 0 then Ago(months, "month")
    else if days > 0 then Ago(days, "day")
    else if hours > 0 then Ago(hours, "hour")
    else if minutes > 0 then Ago(minutes, "minute")
    else if seconds > 0 then Ago(seconds, "second")
    else "just now"
  }

  const SecondMs := 1000
  const MinuteMs := 60 * SecondMs
  const HourMs := 60 * MinuteMs
  const DayMs := 24 * HourMs
  const MonthMs := 30 * DayMs
  const YearMs := 12 * MonthMs

  /** The unit chosen by `formatRelativeTime` is the largest whose length the difference
      reaches, and the count is the floor of the difference by that length; less than one
      second (or a date in the future) reads "just now". */
  lemma FormatRelativeTimeBuckets(now: int, date: int)
    ensures var diff := now - date;
            && (diff >= YearMs ==> FormatRelativeTime(now, date) == Ago(diff / YearMs, "year"))
            && (MonthMs <= diff < YearMs ==> FormatRelativeTime(now, date) == Ago(diff / MonthMs, "month"))
            && (DayMs <= diff < MonthMs ==> FormatRelativeTime(now, date) == Ago(diff / DayMs, "day"))
            && (HourMs <= diff < DayMs ==> FormatRelativeTime(now, date) == Ago(diff / HourMs, "hour"))
            && (MinuteMs <= diff < HourMs ==> FormatRelativeTime(now, date) == Ago(diff / MinuteMs, "minute"))
            && (SecondMs <= diff < MinuteMs ==> FormatRelativeTime(now, date) == Ago(diff / SecondMs, "second"))
            && (diff < SecondMs <==> FormatRelativeTime(now, date) == "just now")
  {
    var diff := now - date;
    FloorTwice(diff, 1000, 60);
    FloorTwice(diff, 60000, 60);
    FloorTwice(diff, 3600000, 24);
    FloorTwice(diff, 86400000, 30);
    FloorTwice(diff, 2592000000, 12);
  }
}
