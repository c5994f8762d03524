/** The form validators of the frontend. Each validator starts from a valid result,
    pushes one message per failed check onto its error list and marks the result
    invalid; a missing value gives the single "required" message and stops there.
    `validateForm` runs the rules of every field in nested loops. */
module Validation {
  import opened Common

  // ---------------------------------------------------------------- isValidEmail

  /** The class `[^\s@]`. */
  predicate EmailChar(c: char) { !IsSpace(c) && c != '@' }

  predicate AllEmailChars(s: string) { forall k :: 0 <= k < |s| ==> EmailChar(s[k]) }

  /** `/^[^\s@]+@[^\s@]+\.[^\s@]+$/.test(email)`, read off the pattern: a non-empty run
      of allowed characters, '@', a non-empty run, a dot, a non-empty run. */
  predicate IsValidEmail(email: string) {
    exists i, j :: 0 < i && i + 1 < j && j + 1 < |email| && email[i] == '@' && email[j] == '.'
                   && AllEmailChars(email[..i]) && AllEmailChars(email[i + 1..j]) && AllEmailChars(email[j + 1..])
  }

  /** The number of '@' characters. */
  function CountAt(s: string): nat {
    if s == [] then 0 else CountAt(s[..|s| - 1]) + (if s[|s| - 1] == '@' then 1 else 0)
  }

  lemma {:induction false} CountAtZero(s: string)
    ensures CountAt(s) == 0 <==> forall k :: 0 <= k < |s| ==> s[k] != '@'
  {
    if s != [] {
      CountAtZero(s[..|s| - 1]);
      assert forall k :: 0 <= k < |s| - 1 ==> s[..|s| - 1][k] == s[k];
    }
  }

  lemma {:induction false} CountAtAppend(a: string, b: string)
    ensures CountAt(a + b) == CountAt(a) + CountAt(b)
    decreases |b|
  {
    if b != [] {
      assert (a + b)[..|a + b| - 1] == a + b[..|b| - 1];
      CountAtAppend(a, b[..|b| - 1]);
    } else {
      assert a + b == a;
    }
  }

  /** The same condition in words: no whitespace, exactly one '@' with text before it,
      and after it a dot with text on both sides. */
  predicate EmailShape(email: string) {
    && (forall k :: 0 <= k < |email| ==> !IsSpace(email[k]))
    && CountAt(email) == 1
    && exists i, j :: 0 < i < |email| && email[i] == '@' && i + 1 < j < |email| - 1 && email[j] == '.'
  }

  lemma EmailShapeSplit(email: string, i: nat)
    requires 0 < i < |email| && email[i] == '@'
    ensures CountAt(email) == CountAt(email[..i]) + 1 + CountAt(email[i + 1..])
  {
    assert email == email[..i] + [email[i]] + email[i + 1..];
    CountAtAppend(email[..i] + [email[i]], email[i + 1..]);
    CountAtAppend(email[..i], [email[i]]);
    assert [email[i]][..0] == [];
  }

  /** A match of the pattern, with '@' at `i` and the dot at `j`, has that shape. */
  lemma RegexMatchHasShape(email: string, i: nat, j: nat)
    requires 0 < i && i + 1 < j && j + 1 < |email| && email[i] == '@' && email[j] == '.'
    requires AllEmailChars(email[..i]) && AllEmailChars(email[i + 1..j]) && AllEmailChars(email[j + 1..])
    ensures EmailShape(email)
  {
    var local, domain := email[..i], email[i + 1..];
    var host, tld := email[i + 1..j], email[j + 1..];
    forall k | 0 <= k < |domain| ensures EmailChar(domain[k]) {
      if k < j - i - 1 { assert domain[k] == host[k]; }
      else if k > j - i - 1 { assert domain[k] == tld[k - (j - i)]; }
    }
    forall k | 0 <= k < |email| ensures !IsSpace(email[k]) {
      if k < i { assert email[k] == local[k]; }
      else if k > i { assert email[k] == domain[k - i - 1]; }
    }
    EmailShapeSplit(email, i);
    CountAtZero(local);
    CountAtZero(domain);
  }

  /** A string of that shape, with '@' at `i` and a dot at `j`, matches the pattern. */
  lemma ShapeMatchesRegex(email: string, i: nat, j: nat)
    requires forall k :: 0 <= k < |email| ==> !IsSpace(email[k])
    requires CountAt(email) == 1
    requires 0 < i < |email| && email[i] == '@' && i + 1 < j < |email| - 1 && email[j] == '.'
    ensures IsValidEmail(email)
  {
    var local, domain := email[..i], email[i + 1..];
    EmailShapeSplit(email, i);
    CountAtZero(local);
    CountAtZero(domain);
    var host, tld := email[i + 1..j], email[j + 1..];
    assert AllEmailChars(local) by {
      forall k | 0 <= k < |local| ensures EmailChar(local[k]) {
        assert local[k] == email[k];
      }
    }
    assert AllEmailChars(host) by {
      forall k | 0 <= k < |host| ensures EmailChar(host[k]) {
        assert host[k] == domain[k] == email[i + 1 + k];
      }
    }
    assert AllEmailChars(tld) by {
      forall k | 0 <= k < |tld| ensures EmailChar(tld[k]) {
        assert tld[k] == domain[j - i + k] == email[j + 1 + k];
      }
    }
  }

  /** The pattern accepts exactly the strings of that shape. */
  lemma IsValidEmailMeans(email: string)
    ensures IsValidEmail(email) <==> EmailShape(email)
  {
    if IsValidEmail(email) {
      var i, j :| 0 < i && i + 1 < j && j + 1 < |email| && email[i] == '@' && email[j] == '.'
                  && AllEmailChars(email[..i]) && AllEmailChars(email[i + 1..j]) && AllEmailChars(email[j + 1..]);
      RegexMatchHasShape(email, i, j);
    }
    if EmailShape(email) {
      var i, j :| 0 < i < |email| && email[i] == '@' && i + 1 < j < |email| - 1 && email[j] == '.';
      ShapeMatchesRegex(email, i, j);
    }
  }

  // ---------------------------------------------------------------- single-value validators

  /** The class `[!@#$%^&*]`. */
  predicate PasswordSpecial(c: char) { c in "!@#$%^&*" }
  predicate HasPasswordSpecial(s: string) { exists k :: 0 <= k < |s| && PasswordSpecial(s[k]) }

  predicate StrongPassword(p: string) {
    Utf16Length(p) >= 8 && HasUpper(p) && HasLower(p) && HasDigit(p) && HasPasswordSpecial(p)
  }

  const PasswordRequired := "Password is required"
  const PasswordTooShort := "Password must be at least 8 characters long"
  const PasswordNoUpper := "Password must contain at least one uppercase letter"
  const PasswordNoLower := "Password must contain at least one lowercase letter"
  const PasswordNoDigit := "Password must contain at least one number"
  const PasswordNoSpecial := "Password must contain at least one special character (!@#$%^&*)"

  /** `[m]` when the check `failed`, nothing otherwise. */
  function Flag(failed: bool, m: string): seq<string> {
    if failed then [m] else []
  }

  /** The messages for a present password, in the order the checks run. */
  function PasswordErrors(p: string): seq<string> {
    Flag(Utf16Length(p) < 8, PasswordTooShort) + Flag(!HasUpper(p), PasswordNoUpper) + Flag(!HasLower(p), PasswordNoLower)
      + Flag(!HasDigit(p), PasswordNoDigit) + Flag(!HasPasswordSpecial(p), PasswordNoSpecial)
  }

  /** Each message appears exactly when its check fails, at most once, and there are
      none exactly for a strong password. */
  lemma PasswordErrorsSpec(p: string)
    ensures var errors := PasswordErrors(p);
            && (errors == [] <==> StrongPassword(p))
            && (PasswordTooShort in errors <==> Utf16Length(p) < 8)
            && (PasswordNoUpper in errors <==> !HasUpper(p))
            && (PasswordNoLower in errors <==> !HasLower(p))
            && (PasswordNoDigit in errors <==> !HasDigit(p))
            && (PasswordNoSpecial in errors <==> !HasPasswordSpecial(p))
            && (forall e :: e in errors ==> e in [PasswordTooShort, PasswordNoUpper, PasswordNoLower, PasswordNoDigit, PasswordNoSpecial])
            && NoDup(errors)
  {
    var all := [PasswordTooShort, PasswordNoUpper, PasswordNoLower, PasswordNoDigit, PasswordNoSpecial];
    assert NoDup(all) by {
      forall i, j | 0 <= i < j < 5
        ensures all[i] != all[j]
      {
        if i == 1 && j == 2 {
          assert all[i][35] != all[j][35];
        } else {
          assert |all[i]| != |all[j]|;
        }
      }
    }
    var c := [Utf16Length(p) < 8, !HasUpper(p), !HasLower(p), !HasDigit(p), !HasPasswordSpecial(p)];
    var errors := PasswordErrors(p);
    SubsequenceOf(c, all);
    assert Selected(c, all, 1) == Flag(c[0], all[0]);
    assert Selected(c, all, 2) == Selected(c, all, 1) + Flag(c[1], all[1]);
    assert Selected(c, all, 3) == Selected(c, all, 2) + Flag(c[2], all[2]);
    assert Selected(c, all, 4) == Selected(c, all, 3) + Flag(c[3], all[3]);
    assert errors == Selected(c, all, 5);
  }

  /** The entries of `all[..n]` whose flag in `c` is set, in order. */
  function Selected(c: seq<bool>, all: seq<string>, n: nat): seq<string>
    requires n <= |c| == |all|
  {
    if n == 0 then [] else Selected(c, all, n - 1) + Flag(c[n - 1], all[n - 1])
  }

  /** Selecting from distinct entries keeps them distinct, and an entry is selected
      exactly when its flag is set. */
  lemma SubsequenceOf(c: seq<bool>, all: seq<string>)
    requires |c| == |all| && NoDup(all)
    ensures NoDup(Selected(c, all, |c|))
    ensures forall i :: 0 <= i < |c| ==> (all[i] in Selected(c, all, |c|) <==> c[i])
    ensures forall e :: e in Selected(c, all, |c|) ==> e in all
  {
    SelectedPrefix(c, all, |c|);
  }

  lemma {:induction false} SelectedPrefix(c: seq<bool>, all: seq<string>, n: nat)
    requires n <= |c| == |all| && NoDup(all)
    ensures NoDup(Selected(c, all, n))
    ensures forall i :: 0 <= i < |c| ==> (all[i] in Selected(c, all, n) <==> i < n && c[i])
    ensures forall e :: e in Selected(c, all, n) ==> e in all
  {
    if n > 0 {
      SelectedPrefix(c, all, n - 1);
      var prev := Selected(c, all, n - 1);
      if c[n - 1] {
        assert all[n - 1] !in prev;
        NoDupAppend(prev, all[n - 1]);
      }
    }
  }

  /** `validatePassword`: one message per failed check, none for a strong password. */
  method ValidatePassword(password: Option<string>) returns (isValid: bool, errors: seq<string>)
    ensures isValid <==> errors == []
    ensures isValid <==> !Missing(password) && StrongPassword(password.value)
    ensures Missing(password) ==> errors == [PasswordRequired]
    ensures !Missing(password) ==> errors == PasswordErrors(password.value)
  {
    isValid := true;
    errors := [];
    if Missing(password) {
      isValid := false;
      errors := errors + [PasswordRequired];
      return;
    }
    var p := password.value;
    if Utf16Length(p) < 8 {
      isValid := false;
      errors := errors + [PasswordTooShort];
    }
    assert errors == Flag(Utf16Length(p) < 8, PasswordTooShort) && (isValid <==> errors == []);
    if !HasUpper(p) {
      isValid := false;
      errors := errors + [PasswordNoUpper];
    }
    ghost var e2 := Flag(Utf16Length(p) < 8, PasswordTooShort) + Flag(!HasUpper(p), PasswordNoUpper);
    assert errors == e2 && (isValid <==> errors == []);
    if !HasLower(p) {
      isValid := false;
      errors := errors + [PasswordNoLower];
    }
    ghost var e3 := e2 + Flag(!HasLower(p), PasswordNoLower);
    assert errors == e3 && (isValid <==> errors == []);
    if !HasDigit(p) {
      isValid := false;
      errors := errors + [PasswordNoDigit];
    }
    ghost var e4 := e3 + Flag(!HasDigit(p), PasswordNoDigit);
    assert errors == e4 && (isValid <==> errors == []);
    if !HasPasswordSpecial(p) {
      isValid := false;
      errors := errors + [PasswordNoSpecial];
    }
    assert errors == PasswordErrors(p) && (isValid <==> errors == []);
    PasswordErrorsSpec(p);
  }

  /** The class `[a-zA-Z0-9_-]`. */
  predicate UsernameChar(c: char) { IsAlphaNum(c) || c == '_' || c == '-' }

  const UsernameRequired := "Username is required"
  const UsernameTooShort := "Username must be at least 3 characters long"
  const UsernameTooLong := "Username must be at most 20 characters long"
  const UsernameBadChars := "Username can only contain letters, numbers, underscores and hyphens"

  /** `validateUsername`: accepted exactly when 3..20 UTF-16 code units long, all from
      `[A-Za-z0-9_-]`; one message per failed check. */
  method ValidateUsername(username: Option<string>) returns (isValid: bool, errors: seq<string>)
    ensures isValid <==> errors == []
    ensures isValid <==> !Missing(username) && 3 <= Utf16Length(username.value) <= 20
                         && forall k :: 0 <= k < |username.value| ==> UsernameChar(username.value[k])
    ensures Missing(username) ==> errors == [UsernameRequired]
    ensures !Missing(username) ==>
              var u := username.value;
              && (UsernameTooShort in errors <==> Utf16Length(u) < 3)
              && (UsernameTooLong in errors <==> Utf16Length(u) > 20)
              && (UsernameBadChars in errors <==> exists k :: 0 <= k < |u| && !UsernameChar(u[k]))
              && (forall e :: e in errors ==> e in [UsernameTooShort, UsernameTooLong, UsernameBadChars])
              && NoDup(errors)
  {
    isValid := true;
    errors := [];
    if Missing(username) {
      isValid := false;
      errors := errors + [UsernameRequired];
      return;
    }
    var u := username.value;
    if Utf16Length(u) < 3 {
      isValid := false;
      errors := errors + [UsernameTooShort];
    }
    if Utf16Length(u) > 20 {
      isValid := false;
      errors := errors + [UsernameTooLong];
    }
    // `^[a-zA-Z0-9_-]+$`: the string is non-empty here
    if exists k :: 0 <= k < |u| && !UsernameChar(u[k]) {
      isValid := false;
      errors := errors + [UsernameBadChars];
    }
  }

  /** A validator that checks only a length range, as `validateMessage`,
      `validateSearchQuery` and `validateConversationName` do. `tooShort` is `None`
      where the validator has no lower bound beyond being present. */
  method ValidateLength(value: Option<string>, minLength: nat, maxLength: nat,
                        required: string, tooShort: Option<string>, tooLong: string)
    returns (isValid: bool, errors: seq<string>)
    requires tooShort.Some? ==> tooShort.value != tooLong
    ensures isValid <==> errors == []
    ensures Missing(value) ==> errors == [required]
    ensures !Missing(value) ==>
              && (tooShort.Some? && Utf16Length(value.value) < minLength ==> tooShort.value in errors)
              && (Utf16Length(value.value) > maxLength <==> tooLong in errors)
              && (isValid <==> (tooShort.None? || Utf16Length(value.value) >= minLength) && Utf16Length(value.value) <= maxLength)
              && |errors| <= 2 && NoDup(errors)
  {
    isValid := true;
    errors := [];
    if Missing(value) {
      isValid := false;
      errors := errors + [required];
      return;
    }
    var s := value.value;
    if tooShort.Some? && Utf16Length(s) < minLength {
      isValid := false;
      errors := errors + [tooShort.value];
    }
    if Utf16Length(s) > maxLength {
      isValid := false;
      errors := errors + [tooLong];
    }
  }

  /** `validateMessage`: 1 to 1000 UTF-16 code units. */
  method ValidateMessage(content: Option<string>) returns (isValid: bool, errors: seq<string>)
    ensures isValid <==> errors == []
    ensures isValid <==> !Missing(content) && 1 <= Utf16Length(content.value) <= 1000
    ensures Missing(content) ==> errors == ["Message content is required"]
  {
    isValid, errors := ValidateLength(content, 1, 1000, "Message content is required", None,
                                      "Message must be at most 1000 characters long");
  }

  /** `validateSearchQuery`: 2 to 50 UTF-16 code units. */
  method ValidateSearchQuery(query: Option<string>) returns (isValid: bool, errors: seq<string>)
    ensures isValid <==> errors == []
    ensures isValid <==> !Missing(query) && 2 <= Utf16Length(query.value) <= 50
    ensures Missing(query) ==> errors == ["Search query is required"]
  {
    isValid, errors := ValidateLength(query, 2, 50, "Search query is required",
                                      Some("Search query must be at least 2 characters long"),
                                      "Search query must be at most 50 characters long");
  }

  /** `validateConversationName`: 3 to 50 UTF-16 code units. */
  method ValidateConversationName(name: Option<string>) returns (isValid: bool, errors: seq<string>)
    ensures isValid <==> errors == []
    ensures isValid <==> !Missing(name) && 3 <= Utf16Length(name.value) <= 50
    ensures Missing(name) ==> errors == ["Conversation name is required"]
  {
    isValid, errors := ValidateLength(name, 3, 50, "Conversation name is required",
                                      Some("Conversation name must be at least 3 characters long"),
                                      "Conversation name must be at most 50 characters long");
  }

  /** `validateFriendRequest`: a truthy value that is not a string is rejected. */
  method ValidateFriendRequest(userId: JsValue) returns (isValid: bool, errors: seq<string>)
    ensures isValid <==> errors == []
    ensures isValid <==> Truthy(userId) && userId.Str?
    ensures !Truthy(userId) ==> errors == ["User ID is required"]
    ensures Truthy(userId) && !userId.Str? ==> errors == ["User ID must be a string"]
  {
    isValid := true;
    errors := [];
    if !Truthy(userId) {
      isValid := false;
      errors := errors + ["User ID is required"];
      return;
    }
    if !userId.Str? {
      isValid := false;
      errors := errors + ["User ID must be a string"];
    }
  }

  const ParticipantsRequired := "Participants are required"
  const ParticipantsNotArray := "Participants must be an array"
  const TooFewParticipants := "Group must have at least 2 participants"
  const TooManyParticipants := "Group cannot have more than 50 participants"
  const DuplicateParticipants := "Duplicate participants are not allowed"

  /** `validateGroupParticipants`: a present array of 2 to 50 distinct entries. */
  method ValidateGroupParticipants(participants: JsValue) returns (isValid: bool, errors: seq<string>)
    ensures isValid <==> errors == []
    ensures isValid <==> participants.Arr? && 2 <= |participants.items| <= 50 && NoDup(participants.items)
    ensures !Truthy(participants) ==> errors == [ParticipantsRequired]
    ensures Truthy(participants) && !participants.Arr? ==> errors == [ParticipantsNotArray]
    ensures participants.Arr? ==>
              var ps := participants.items;
              && (TooFewParticipants in errors <==> |ps| < 2)
              && (TooManyParticipants in errors <==> |ps| > 50)
              && (DuplicateParticipants in errors <==> !NoDup(ps))
              && (forall e :: e in errors ==> e in [TooFewParticipants, TooManyParticipants, DuplicateParticipants])
  {
    isValid := true;
    errors := [];
    if !Truthy(participants) {
      isValid := false;
      errors := errors + [ParticipantsRequired];
      return;
    }
    if !participants.Arr? {
      isValid := false;
      errors := errors + [ParticipantsNotArray];
      return;
    }
    var ps := participants.items;
    if |ps| < 2 {
      isValid := false;
      errors := errors + [TooFewParticipants];
    }
    if |ps| > 50 {
      isValid := false;
      errors := errors + [TooManyParticipants];
    }
    var unique := DistinctCount(ps);
    if unique != |ps| {
      isValid := false;
      errors := errors + [DuplicateParticipants];
    }
  }

  /** `new Set(items).size`. */
  function DistinctCount(items: seq<JsValue>): (r: nat)
    ensures r <= |items|
    ensures r == |items| <==> NoDup(items)
  {
    DistinctCountSpec(items);
    |set x | x in items|
  }

  lemma {:induction false} DistinctCountSpec(items: seq<JsValue>)
    ensures |set x | x in items| <= |items|
    ensures |set x | x in items| == |items| <==> NoDup(items)
  {
    if items != [] {
      var init := items[..|items| - 1];
      var last := items[|items| - 1];
      DistinctCountSpec(init);
      assert (set x | x in items) == (set x | x in init) + {last};
      if last in init {
        assert (set x | x in items) == (set x | x in init);
        var k :| 0 <= k < |init| && init[k] == last;
        assert items[k] == items[|items| - 1];
      } else {
        assert NoDup(items) <==> NoDup(init) by {
          if NoDup(init) {
            forall a, b | 0 <= a < b < |items| ensures items[a] != items[b] {
              if b == |items| - 1 { assert items[a] == init[a]; }
              else { assert items[a] == init[a] && items[b] == init[b]; }
            }
          }
          if NoDup(items) {
            forall a, b | 0 <= a < b < |init| ensures init[a] != init[b] {
              assert items[a] == init[a] && items[b] == init[b];
            }
          }
        }
      }
    }
  }

  const FileRequired := "File is required"
  const FileTooLarge := "File size must be less than 5MB"
  const FileBadType := "File type must be one of: image/jpeg, image/png, image/gif"
  const MaxFileSize := 5 * 1024 * 1024

  /** A file as `validateFile` reads it: its size in bytes and its MIME type. */
  datatype UploadFile = UploadFile(size: int, mimeType: string)

  /** `validateFile` with the default options: at most 5 MiB, a JPEG, PNG or GIF image. */
  method ValidateFile(file: Option<UploadFile>) returns (isValid: bool, errors: seq<string>)
    ensures isValid <==> errors == []
    ensures isValid <==> file.Some? && file.value.size <= MaxFileSize
                         && file.value.mimeType in ["image/jpeg", "image/png", "image/gif"]
    ensures file.None? ==> errors == [FileRequired]
    ensures file.Some? ==>
              && (FileTooLarge in errors <==> file.value.size > MaxFileSize)
              && (FileBadType in errors <==> file.value.mimeType !in ["image/jpeg", "image/png", "image/gif"])
  {
    isValid := true;
    errors := [];
    if file.None? {
      isValid := false;
      errors := errors + [FileRequired];
      return;
    }
    if file.value.size > MaxFileSize {
      isValid := false;
      errors := errors + [FileTooLarge];
    }
    if file.value.mimeType !in ["image/jpeg", "image/png", "image/gif"] {
      isValid := false;
      errors := errors + [FileBadType];
    }
  }

  // ---------------------------------------------------------------- validateForm

  /** One rule of a field. Numeric bounds use 0 for an absent (falsy) bound; `pattern`
      and `validate` are the rule's abstract regular expression and custom check, the
      latter returning a falsy value when it passes. */
  datatype Rule = Rule(required: bool, minLength: int, maxLength: int,
                       pattern: Option<JsValue -> bool>, message: JsValue,
                       validate: Option<(JsValue, seq<(string, JsValue)>) -> JsValue>)

  /** `value.length`: strings and arrays have one; anything else reads `undefined`,
      which no comparison accepts. */
  function Length(value: JsValue): Option<int> {
    match value
    case Str(s) => Some(Utf16Length(s) as int)
    case Arr(items) => Some(|items|)
    case _ => None
  }

  /** The messages one rule adds for a field's value. */
  function RuleErrors(field: string, rule: Rule, value: JsValue, values: seq<(string, JsValue)>): (r: seq<JsValue>)
    ensures rule.required && !Truthy(value) ==> r == [Str(field + " is required")]
    ensures !rule.required && !Truthy(value) ==> r == []
    ensures |r| <= 4
    ensures forall k :: 0 <= k < |r| ==> Truthy(r[k])
  {
    if rule.required && !Truthy(value) then [Str(field + " is required")]
    else if !Truthy(value) then []
    else
      var len := Length(value);
      (if rule.minLength != 0 && len.Some? && len.value < rule.minLength
       then [Str(field + " must be at least " + IntToString(rule.minLength) + " characters long")] else [])
      + (if rule.maxLength != 0 && len.Some? && len.value > rule.maxLength
         then [Str(field + " must be at most " + IntToString(rule.maxLength) + " characters long")] else [])
      + (if rule.pattern.Some? && !rule.pattern.value(value)
         then [if Truthy(rule.message) then rule.message else Str(field + " is invalid")] else [])
      + (if rule.validate.Some? && Truthy(rule.validate.value(value, values))
         then [rule.validate.value(value, values)] else [])
  }

  /** The messages all rules of a field add, in rule order. */
  function FieldErrors(field: string, rules: seq<Rule>, value: JsValue, values: seq<(string, JsValue)>): seq<JsValue> {
    if rules == [] then []
    else FieldErrors(field, rules[..|rules| - 1], value, values) + RuleErrors(field, rules[|rules| - 1], value, values)
  }

  /** A field without a value gets exactly one "required" message per required rule and
      nothing else. */
  lemma {:induction false} MissingValueErrors(field: string, rules: seq<Rule>, value: JsValue, values: seq<(string, JsValue)>)
    requires !Truthy(value)
    ensures forall k :: 0 <= k < |FieldErrors(field, rules, value, values)| ==>
              FieldErrors(field, rules, value, values)[k] == Str(field + " is required")
    ensures (exists k :: 0 <= k < |rules| && rules[k].required) <==> FieldErrors(field, rules, value, values) != []
  {
    if rules != [] {
      var n := |rules| - 1;
      var init := rules[..n];
      MissingValueErrors(field, init, value, values);
      var prev := FieldErrors(field, init, value, values);
      var last := RuleErrors(field, rules[n], value, values);
      assert FieldErrors(field, rules, value, values) == prev + last;
      assert last == if rules[n].required then [Str(field + " is required")] else [];
      if exists k :: 0 <= k < |rules| && rules[k].required {
        var k :| 0 <= k < |rules| && rules[k].required;
        if k < n {
          assert init[k] == rules[k];
        }
      }
      if exists k :: 0 <= k < n && init[k].required {
        var k :| 0 <= k < n && init[k].required;
        assert rules[k] == init[k];
      }
    }
  }

  /** The error map after the rules of `validationRules` have been walked: a field
      gets an entry when its rules produce a message. */
  function FormErrors(values: seq<(string, JsValue)>, validationRules: seq<(string, seq<Rule>)>): map<string, seq<JsValue>> {
    if validationRules == [] then map[]
    else
      var prev := FormErrors(values, validationRules[..|validationRules| - 1]);
      var (field, rules) := validationRules[|validationRules| - 1];
      var fieldErrors := FieldErrors(field, rules, FieldValue(values, field), values);
      if fieldErrors != [] then prev[field := fieldErrors] else prev
  }

  /** Whether a field's rules produce a message for the field's value. */
  predicate Fails(values: seq<(string, JsValue)>, entry: (string, seq<Rule>)) {
    FieldErrors(entry.0, entry.1, FieldValue(values, entry.0), values) != []
  }

  /** A field has an entry exactly when one of its rule lists produces a message. */
  lemma {:induction false} FormErrorsKeys(values: seq<(string, JsValue)>, validationRules: seq<(string, seq<Rule>)>)
    ensures forall field :: field in FormErrors(values, validationRules) <==>
              exists k :: 0 <= k < |validationRules| && validationRules[k].0 == field && Fails(values, validationRules[k])
  {
    if validationRules != [] {
      var n := |validationRules| - 1;
      var init := validationRules[..n];
      FormErrorsKeys(values, init);
      var prev := FormErrors(values, init);
      var errors := FormErrors(values, validationRules);
      var last := validationRules[n];
      assert errors == if Fails(values, last) then prev[last.0 := FieldErrors(last.0, last.1, FieldValue(values, last.0), values)] else prev;
      forall f
        ensures f in errors <==>
                  exists k :: 0 <= k < |validationRules| && validationRules[k].0 == f && Fails(values, validationRules[k])
      {
        if f in prev {
          var k :| 0 <= k < n && init[k].0 == f && Fails(values, init[k]);
          assert validationRules[k] == init[k];
        }
        if exists k :: 0 <= k < |validationRules| && validationRules[k].0 == f && Fails(values, validationRules[k]) {
          var k :| 0 <= k < |validationRules| && validationRules[k].0 == f && Fails(values, validationRules[k]);
          if k < n {
            assert init[k] == validationRules[k];
          }
        }
      }
    }
  }

  /** With distinct field names, a field's entry is the messages its rules produce. */
  lemma {:induction false} FormErrorsValues(values: seq<(string, JsValue)>, validationRules: seq<(string, seq<Rule>)>)
    requires forall a, b :: 0 <= a < b < |validationRules| ==> validationRules[a].0 != validationRules[b].0
    ensures var errors := FormErrors(values, validationRules);
            forall k :: 0 <= k < |validationRules| && validationRules[k].0 in errors ==>
              errors[validationRules[k].0] == FieldErrors(validationRules[k].0, validationRules[k].1,
                                                          FieldValue(values, validationRules[k].0), values)
  {
    if validationRules != [] {
      var n := |validationRules| - 1;
      var init := validationRules[..n];
      FormErrorsValues(values, init);
      FormErrorsKeys(values, init);
      var prev := FormErrors(values, init);
      var errors := FormErrors(values, validationRules);
      var field := validationRules[n].0;
      forall k | 0 <= k < |validationRules| && validationRules[k].0 in errors
        ensures errors[validationRules[k].0] == FieldErrors(validationRules[k].0, validationRules[k].1,
                                                            FieldValue(values, validationRules[k].0), values)
      {
        if k < n {
          assert init[k] == validationRules[k];
          assert validationRules[k].0 != field;
          assert validationRules[k].0 in prev;
        }
      }
    }
  }

  /** The inner loop of `validateForm`: the messages of a field's rules, in rule order. */
  method RunRules(field: string, rules: seq<Rule>, value: JsValue, values: seq<(string, JsValue)>)
    returns (fieldErrors: seq<JsValue>)
    ensures fieldErrors == FieldErrors(field, rules, value, values)
  {
    fieldErrors := [];
    var r := 0;
    while r < |rules|
      invariant 0 <= r <= |rules|
      invariant fieldErrors == FieldErrors(field, rules[..r], value, values)
    {
      assert rules[..r + 1][..r] == rules[..r];
      fieldErrors := fieldErrors + RuleErrors(field, rules[r], value, values);
      r := r + 1;
    }
    assert rules[..r] == rules;
  }

  /** `validateForm(values, validationRules)`. The rules object is a list of distinct
      field names with their rules, in `Object.entries` order. */
  method ValidateForm(values: seq<(string, JsValue)>, validationRules: seq<(string, seq<Rule>)>)
    returns (isValid: bool, errors: map<string, seq<JsValue>>)
    requires forall a, b :: 0 <= a < b < |validationRules| ==> validationRules[a].0 != validationRules[b].0
    ensures errors == FormErrors(values, validationRules)
    ensures forall field :: field in errors <==>
              exists k :: 0 <= k < |validationRules| && validationRules[k].0 == field && Fails(values, validationRules[k])
    ensures forall k :: 0 <= k < |validationRules| && validationRules[k].0 in errors ==>
              errors[validationRules[k].0] == FieldErrors(validationRules[k].0, validationRules[k].1,
                                                          FieldValue(values, validationRules[k].0), values)
    ensures isValid <==> errors == map[]
  {
    isValid := true;
    errors := map[];
    var f := 0;
    while f < |validationRules|
      invariant 0 <= f <= |validationRules|
      invariant errors == FormErrors(values, validationRules[..f])
      invariant isValid <==> errors == map[]
    {
      assert validationRules[..f + 1][..f] == validationRules[..f];
      var (field, rules) := validationRules[f];
      var value := FieldValue(values, field);
      var fieldErrors := RunRules(field, rules, value, values);
      if |fieldErrors| > 0 {
        isValid := false;
        errors := errors[field := fieldErrors];
        assert field in errors;
      }
      f := f + 1;
    }
    assert validationRules[..f] == validationRules;
    FormErrorsKeys(values, validationRules);
    FormErrorsValues(values, validationRules);
  }
}
