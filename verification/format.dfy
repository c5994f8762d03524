/** The display formatters of the frontend: short relative times, message bodies with
    links and line breaks, user and group names, message and typing status, search
    result counts, error texts, notification badges and phone numbers. */
module Format {
  import opened Common

  // ---------------------------------------------------------------- relative time

  const MinuteMs := 60000
  const HourMs := 3600000
  const DayMs := 86400000
  const WeekMs := 604800000

  /** `formatRelativeTime(date)` with the clock `now`, both in milliseconds. Whole
      seconds, minutes, hours and days are floors of the previous unit. `None` stands for
      the locale date string given to dates a week old or more. */
  function FormatRelativeTime(now: int, date: int): (r: Option<string>)
  {
    var diffInSeconds := (now - date) / 1000;
    if diffInSeconds < 60 then Some("just now")
    else
      var diffInMinutes := diffInSeconds / 60;
      if diffInMinutes < 60 then Some(NatToString(diffInMinutes) + "m ago")
      else
        var diffInHours := diffInMinutes / 60;
        if diffInHours < 24 then Some(NatToString(diffInHours) + "h ago")
        else
          var diffInDays := diffInHours / 24;
          if diffInDays < 7 then Some(NatToString(diffInDays) + "d ago")
          else None
  }

  /** The buckets in milliseconds: under a minute is "just now", then whole minutes
      under an hour, whole hours under a day, whole days under a week, and the locale
      date from a week on. The count in each bucket is the floor of the difference by
      the unit and lies in the unit's range. */
  lemma FormatRelativeTimeBuckets(now: int, date: int)
    ensures var diff := now - date;
            && (diff < MinuteMs <==> FormatRelativeTime(now, date) == Some("just now"))
            && (MinuteMs <= diff < HourMs ==>
                  1 <= diff / MinuteMs < 60 && FormatRelativeTime(now, date) == Some(NatToString(diff / MinuteMs) + "m ago"))
            && (HourMs <= diff < DayMs ==>
                  1 <= diff / HourMs < 24 && FormatRelativeTime(now, date) == Some(NatToString(diff / HourMs) + "h ago"))
            && (DayMs <= diff < WeekMs ==>
                  1 <= diff / DayMs < 7 && FormatRelativeTime(now, date) == Some(NatToString(diff / DayMs) + "d ago"))
            && (diff >= WeekMs <==> FormatRelativeTime(now, date).None?)
  {
    var diff := now - date;
    FloorTwice(diff, 1000, 60);
    FloorTwice(diff, 60000, 60);
    FloorTwice(diff, 3600000, 24);
    if diff >= MinuteMs {
      assert "just now" != NatToString(diff / 1000 / 60) + "m ago" by {
        assert IsDigit((NatToString(diff / 1000 / 60) + "m ago")[0]);
      }
      assert "just now" != NatToString(diff / 1000 / 60 / 60) + "h ago" by {
        assert IsDigit((NatToString(diff / 1000 / 60 / 60) + "h ago")[0]);
      }
      assert "just now" != NatToString(diff / 1000 / 60 / 60 / 24) + "d ago" by {
        assert IsDigit((NatToString(diff / 1000 / 60 / 60 / 24) + "d ago")[0]);
      }
    }
  }

  // ---------------------------------------------------------------- message content

  /** The length of the scheme of a link starting `s`: `https?:\/\/` matches
      "https://" or "http://". */
  function SchemeLength(s: string): (r: nat)
    ensures r == 0 || r == 7 || r == 8
    ensures r == 8 <==> StartsWith(s, "https://")
    ensures r == 7 <==> StartsWith(s, "http://")
  {
    if StartsWith(s, "https://") then
      assert s[..8][4] == 's' && "http://"[4] == ':';
      8
    else if StartsWith(s, "http://") then 7 else 0
  }

  /** The longest run of characters outside `\s` at the start of `s`. */
  function NonSpaceRun(s: string): (r: nat)
    ensures r <= |s|
    ensures forall k :: 0 <= k < r ==> !IsSpace(s[k])
    ensures r < |s| ==> IsSpace(s[r])
  {
    if s == [] || IsSpace(s[0]) then 0 else 1 + NonSpaceRun(s[1..])
  }

  /** The length of the link `(https?:\/\/[^\s]+)` matches at the start of `s`, 0 when
      none does: the scheme and at least one more character outside `\s`, as many as
      there are. */
  function UrlLength(s: string): (r: nat)
    ensures r <= |s|
    ensures r > 0 ==> SchemeLength(s) > 0 && r > SchemeLength(s)
    ensures r > 0 ==> forall k :: 0 <= k < r ==> !IsSpace(s[k])
    ensures 0 < r < |s| ==> IsSpace(s[r])
    ensures SchemeLength(s) == 0 ==> r == 0
  {
    var p := SchemeLength(s);
    if p == 0 then 0
    else
      var n := NonSpaceRun(s[p..]);
      assert forall k :: 0 <= k < p ==> s[k] in "https://";
      if n == 0 then 0 else p + n
  }

  /** The link that replaces a matched URL. */
  function Anchor(url: string): string {
    "<a href=\"" + url + "\" target=\"_blank\" rel=\"noopener noreferrer\">" + url + "</a>"
  }

  /** `content.replace(urlRegex, url => <a ...>)` with the global flag: matches are
      found left to right, and the search resumes after each one. */
  function Linkify(s: string): string
    decreases |s|
  {
    if s == [] then []
    else
      var n := UrlLength(s);
      if n > 0 then Anchor(s[..n]) + Linkify(s[n..]) else [s[0]] + Linkify(s[1..])
  }

  /** `text.replace(/\n/g, '<br>')`. */
  function BreakLines(s: string): (r: string)
    ensures '\n' !in r
    ensures '\n' !in s ==> r == s
  {
    if s == [] then []
    else (if s[0] == '\n' then "<br>" else [s[0]]) + BreakLines(s[1..])
  }

  /** `formatMessageContent(content)`: empty for a missing body; otherwise links are
      wrapped in anchors and newlines become `<br>`. */
  function FormatMessageContent(content: Option<string>): (r: string)
    ensures '\n' !in r
    ensures Missing(content) ==> r == ""
  {
    if Missing(content) then "" else BreakLines(Linkify(content.value))
  }

  /** No link starts anywhere in `s`. */
  predicate NoScheme(s: string) {
    forall i :: 0 <= i <= |s| ==> SchemeLength(s[i..]) == 0
  }

  /** Text without links is left alone by the link pass. */
  lemma {:induction false} LinkifyPlain(s: string)
    requires NoScheme(s)
    ensures Linkify(s) == s
    decreases |s|
  {
    if s != [] {
      assert SchemeLength(s[0..]) == 0;
      assert s[0..] == s;
      assert NoScheme(s[1..]) by {
        forall i | 0 <= i <= |s[1..]| ensures SchemeLength(s[1..][i..]) == 0 {
          assert s[1..][i..] == s[i + 1..];
        }
      }
      LinkifyPlain(s[1..]);
      assert s == [s[0]] + s[1..];
    }
  }

  /** Plain text, without links or newlines, is shown exactly as written. */
  lemma FormatPlainContent(content: string)
    requires NoScheme(content) && '\n' !in content
    ensures FormatMessageContent(Some(content)) == content
  {
    if content != "" {
      LinkifyPlain(content);
    }
  }

  /** A link is shown as an anchor around the URL, with the rest of the text after it. */
  lemma FormatLeadingLink(url: string, rest: string)
    requires SchemeLength(url) > 0 && |url| > SchemeLength(url)
    requires forall k :: 0 <= k < |url| ==> !IsSpace(url[k])
    requires rest == [] || IsSpace(rest[0])
    ensures Linkify(url + rest) == Anchor(url) + Linkify(rest)
  {
    var s := url + rest;
    var p := SchemeLength(url);
    assert s[..|url|] == url;
    assert StartsWith(s, "https://") <==> StartsWith(url, "https://") by {
      if |url| >= 8 { assert s[..8] == url[..8]; }
    }
    assert StartsWith(s, "http://") <==> StartsWith(url, "http://") by {
      assert s[..7] == url[..7];
    }
    assert SchemeLength(s) == p;
    var n := NonSpaceRun(s[p..]);
    assert n == |url| - p by {
      var t := s[p..];
      assert forall k :: 0 <= k < |url| - p ==> t[k] == url[p + k];
      if |url| - p < |t| {
        assert t[|url| - p] == rest[0];
      }
    }
    assert s[|url|..] == rest;
  }

  // ---------------------------------------------------------------- names

  /** `formatUsername(username)`: empty for a missing name, else '@' and the name in
      lower case. */
  function FormatUsername(username: Option<string>): (r: string)
    ensures Missing(username) <==> r == ""
    ensures !Missing(username) ==> |r| == |username.value| + 1 && r[0] == '@'
    ensures forall k :: 1 <= k < |r| ==> !IsUpper(r[k])
  {
    if Missing(username) then "" else "@" + ToLower(username.value)
  }

  /** Formatting an already formatted name again, without its '@', gives the same text. */
  lemma FormatUsernameIdempotent(username: string)
    requires username != ""
    ensures var r := FormatUsername(Some(username)); FormatUsername(Some(r[1..])) == r
  {
    var r := FormatUsername(Some(username));
    var l := r[1..];
    assert l == ToLower(username);
    assert ToLower(l) == l by {
      forall i | 0 <= i < |l| ensures ToLower(l)[i] == l[i] {
        assert !IsUpper(l[i]);
      }
    }
  }

  /** `formatGroupName(name, memberCount)`. */
  function FormatGroupName(name: Option<string>, memberCount: int): (r: string)
    ensures Missing(name) <==> r == ""
    ensures !Missing(name) ==> StartsWith(r, name.value + " (")
  {
    if Missing(name) then "" else name.value + " (" + IntToString(memberCount) + " members)"
  }

  // ---------------------------------------------------------------- status

  /** `formatMessageStatus(status)`: a switch with strict equality on the status. */
  function FormatMessageStatus(status: JsValue): (r: string)
    ensures r in {"Sent", "Delivered", "Read", "Sending..."}
    ensures r == "Sent" <==> status == Str("sent")
    ensures r == "Delivered" <==> status == Str("delivered")
    ensures r == "Read" <==> status == Str("read")
    ensures r == "Sending..." <==> status !in {Str("sent"), Str("delivered"), Str("read")}
  {
    if status == Str("sent") then "Sent"
    else if status == Str("delivered") then "Delivered"
    else if status == Str("read") then "Read"
    else "Sending..."
  }

  /** `formatTypingStatus(users)`. */
  function FormatTypingStatus(users: Option<seq<string>>): (r: string)
    ensures users.None? || users.value == [] <==> r == ""
    ensures users.Some? && |users.value| == 1 ==> r == users.value[0] + " is typing..."
    ensures users.Some? && |users.value| == 2 ==> r == users.value[0] + " and " + users.value[1] + " are typing..."
    ensures users.Some? && |users.value| >= 3 ==> r == "Several people are typing..."
  {
    if users.None? || |users.value| == 0 then ""
    else if |users.value| == 1 then users.value[0] + " is typing..."
    else if |users.value| == 2 then users.value[0] + " and " + users.value[1] + " are typing..."
    else "Several people are typing..."
  }

  /** `formatSearchResults(results, type)`. */
  function FormatSearchResults<T>(results: Option<seq<T>>, resultType: string): (r: string)
    ensures var n := if results.None? then 0 else |results.value|;
            && (n == 0 ==> r == "No " + resultType + " found")
            && (n == 1 ==> r == "1 " + resultType + " found")
            && (n >= 2 ==> r == NatToString(n) + " " + resultType + "s found")
  {
    if results.None? || |results.value| == 0 then "No " + resultType + " found"
    else if |results.value| == 1 then "1 " + resultType + " found"
    else NatToString(|results.value|) + " " + resultType + "s found"
  }

  /** The count a search summary reports reads back as the number of results. */
  lemma SearchSummaryCount<T>(results: seq<T>, resultType: string)
    requires |results| >= 1
    ensures var r := FormatSearchResults(Some(results), resultType);
            var digits := NatToString(|results|);
            StartsWith(r, digits + " ") && ParseDigits(digits) == |results|
  {
    NatToStringRoundTrip(|results|);
    var r := FormatSearchResults(Some(results), resultType);
    if |results| == 1 {
      assert NatToString(1) == "1";
    }
  }

  const UnknownErrorText := "An unknown error occurred"

  /** `formatErrorMessage(error)`: a falsy error gives the unknown-error text, a string
      is its own message, and otherwise the response body's truthy message, then the
      error's own truthy message, then the unknown-error text. */
  function FormatErrorMessage(error: JsValue): (r: JsValue)
    ensures !Truthy(error) ==> r == Str(UnknownErrorText)
    ensures error.Str? && Truthy(error) ==> r == error
    ensures Truthy(r)
  {
    if !Truthy(error) then Str(UnknownErrorText)
    else if error.Str? then error
    else
      var response := GetProp(error, "response").value;
      var data := if Nullish(response) then Undefined else GetProp(response, "data").value;
      var bodyMessage := if Nullish(data) then Undefined else GetProp(data, "message").value;
      if Truthy(bodyMessage) then bodyMessage
      else
        var message := GetProp(error, "message").value;
        if Truthy(message) then message else Str(UnknownErrorText)
  }

  // ---------------------------------------------------------------- counts

  /** `formatNotificationCount(count)`: nothing for 0, '99+' above 99, else the number. */
  function FormatNotificationCount(count: int): (r: string)
    ensures r == "" <==> count == 0
    ensures count > 99 ==> r == "99+"
    ensures count != 0 && count <= 99 ==> r == IntToString(count)
  {
    if count == 0 then "" else if count > 99 then "99+" else IntToString(count)
  }

  /** A badge for a count from 1 to 99 has one or two digits that read back as the
      count. */
  lemma NotificationBadge(count: int)
    requires 1 <= count <= 99
    ensures var r := FormatNotificationCount(count);
            && 1 <= |r| <= 2
            && (forall k :: 0 <= k < |r| ==> IsDigit(r[k]))
            && ParseDigits(r) == count
  {
    NatToStringLength(count);
    NatToStringRoundTrip(count);
  }

  // ---------------------------------------------------------------- phone numbers

  /** `phone.replace(/\D/g, '')`. */
  function DigitsOf(s: string): (r: string)
    ensures |r| <= |s|
    ensures forall k :: 0 <= k < |r| ==> IsDigit(r[k])
  {
    if s == [] then [] else (if IsDigit(s[0]) then [s[0]] else []) + DigitsOf(s[1..])
  }

  lemma {:induction false} DigitsOfAppend(a: string, b: string)
    ensures DigitsOf(a + b) == DigitsOf(a) + DigitsOf(b)
    decreases |a|
  {
    if a != [] {
      DigitsOfAppend(a[1..], b);
      assert (a + b)[1..] == a[1..] + b;
    } else {
      assert a + b == b;
    }
  }

  lemma {:induction false} DigitsOfDigits(s: string)
    requires forall k :: 0 <= k < |s| ==> IsDigit(s[k])
    ensures DigitsOf(s) == s
    decreases |s|
  {
    if s != [] {
      DigitsOfDigits(s[1..]);
      assert s == [s[0]] + s[1..];
    }
  }

  /** `formatPhoneNumber(phone)`: empty for a missing number; "(AAA) BBB-CCCC" when the
      number has exactly ten digits once everything else is removed; otherwise the input
      as it was. */
  function FormatPhoneNumber(phone: Option<string>): (r: string)
    ensures Missing(phone) ==> r == ""
    ensures !Missing(phone) && |DigitsOf(phone.value)| != 10 ==> r == phone.value
    ensures !Missing(phone) && |DigitsOf(phone.value)| == 10 ==>
              |r| == 14 && r[0] == '(' && r[4] == ')' && r[5] == ' ' && r[9] == '-'
  {
    if Missing(phone) then ""
    else
      var cleaned := DigitsOf(phone.value);
      if |cleaned| == 10 then "(" + cleaned[..3] + ") " + cleaned[3..6] + "-" + cleaned[6..]
      else phone.value
  }

  /** Formatting a phone number never adds, drops or reorders its digits. */
  lemma FormatPhoneKeepsDigits(phone: string)
    requires phone != ""
    ensures DigitsOf(FormatPhoneNumber(Some(phone))) == DigitsOf(phone)
  {
    var c := DigitsOf(phone);
    if |c| == 10 {
      var a, b, d := c[..3], c[3..6], c[6..];
      DigitsOfDigits(a);
      DigitsOfDigits(b);
      DigitsOfDigits(d);
      DigitsOfAppend("(" + a + ") " + b + "-", d);
      DigitsOfAppend("(" + a + ") " + b, "-");
      DigitsOfAppend("(" + a + ") ", b);
      DigitsOfAppend("(" + a, ") ");
      DigitsOfAppend("(", a);
      assert DigitsOf("(") == [];
      assert DigitsOf(") ") == [];
      assert DigitsOf("-") == [];
      assert a + b + d == c;
    }
  }
}
