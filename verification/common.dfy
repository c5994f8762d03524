/** Shared vocabulary of the model: failure-compatible wrappers, the JavaScript values
    that travel as payloads, character classes, decimal rendering and small sequence
    helpers used by several components. */
module Common {

  datatype Option<+T> = None | Some(value: T) {
    function GetOr(default: T): T {
      match this
      case Some(v) => v
      case None => default
    }
  }

  datatype Result<+T, +E> = Ok(value: T) | Err(error: E)

  /** A JavaScript value as it appears in payloads, storage entries and Redux actions.
      Numbers are integers: floating point is not part of the model. */
  datatype JsValue =
    | Undefined
    | Null
    | Bool(b: bool)
    | Num(n: int)
    | Str(s: string)
    | Arr(items: seq<JsValue>)
    | Obj(fields: seq<(string, JsValue)>)

  /** The value stored under `key` in an object's field list; a repeated key resolves to
      its last occurrence, as `JSON.parse` does. */
  function FieldValue(fields: seq<(string, JsValue)>, key: string): (r: JsValue)
    ensures r != Undefined ==> exists i :: 0 <= i < |fields| && fields[i] == (key, r)
    ensures (forall i :: 0 <= i < |fields| ==> fields[i].0 != key) ==> r == Undefined
  {
    if fields == [] then Undefined
    else if fields[|fields| - 1].0 == key then fields[|fields| - 1].1
    else FieldValue(fields[..|fields| - 1], key)
  }

  /** Field lookup in objects of one and two fields, as built by the code. */
  lemma FieldValueSmall(k1: string, v1: JsValue, k2: string, v2: JsValue, key: string)
    ensures FieldValue([(k1, v1)], key) == if key == k1 then v1 else Undefined
    ensures FieldValue([(k1, v1), (k2, v2)], key) ==
              if key == k2 then v2 else if key == k1 then v1 else Undefined
  {
    assert [(k1, v1)][..0] == [];
    assert [(k1, v1), (k2, v2)][..1] == [(k1, v1)];
  }

  /** `null` or `undefined`. */
  predicate Nullish(v: JsValue) {
    v.Undefined? || v.Null?
  }

  /** JavaScript property access `v.key`: reading a property of `null` or `undefined`
      throws (`None`); any other value that is not an object has none of the properties
      this model reads, so they are `undefined`. */
  function GetProp(v: JsValue, key: string): (r: Option<JsValue>)
    ensures r.None? <==> Nullish(v)
    ensures r.Some? && !v.Obj? ==> r.value == Undefined
  {
    match v
    case Undefined => None
    case Null => None
    case Obj(fields) => Some(FieldValue(fields, key))
    case _ => Some(Undefined)
  }

  /** JavaScript truthiness of a value: `false`, `0`, `""`, `null` and `undefined` are
      falsy. */
  predicate Truthy(v: JsValue) {
    match v
    case Undefined => false
    case Null => false
    case Bool(b) => b
    case Num(n) => n != 0
    case Str(s) => s != ""
    case _ => true
  }

  /** `String(v)`: an array joins its entries' strings with commas, a null or
      undefined entry counting as empty; every object is "[object Object]". */
  function JsToString(v: JsValue): (r: string)
    ensures v.Str? ==> r == v.s
    ensures Truthy(v) && r == "" ==> v.Arr?
    decreases v
  {
    match v
    case Undefined => "undefined"
    case Null => "null"
    case Bool(b) => if b then "true" else "false"
    case Num(n) => IntToString(n)
    case Str(s) => s
    case Arr(items) =>
      JoinWithCommas(seq(|items|, k requires 0 <= k < |items| =>
                           if Nullish(items[k]) then "" else JsToString(items[k])))
    case Obj(_) => "[object Object]"
  }

  /** `parts.join(",")`. */
  function JoinWithCommas(parts: seq<string>): (r: string)
    ensures parts == [] ==> r == ""
    ensures |parts| == 1 ==> r == parts[0]
  {
    if parts == [] then "" else if |parts| == 1 then parts[0] else parts[0] + "," + JoinWithCommas(parts[1..])
  }

  /** `!value` for a string input: absent or empty. */
  predicate Missing(value: Option<string>) { value.None? || value.value == "" }

  // ---------------------------------------------------------------- characters

  predicate IsDigit(c: char) { '0' <= c <= '9' }
  predicate IsUpper(c: char) { 'A' <= c <= 'Z' }
  predicate IsLower(c: char) { 'a' <= c <= 'z' }
  predicate IsLetter(c: char) { IsUpper(c) || IsLower(c) }
  predicate IsAlphaNum(c: char) { IsLetter(c) || IsDigit(c) }

  predicate HasUpper(s: string) { exists k :: 0 <= k < |s| && IsUpper(s[k]) }
  predicate HasLower(s: string) { exists k :: 0 <= k < |s| && IsLower(s[k]) }
  predicate HasDigit(s: string) { exists k :: 0 <= k < |s| && IsDigit(s[k]) }

  /** The characters matched by the `\s` class of JavaScript regular expressions and
      removed by `String.prototype.trim`. */
  predicate IsSpace(c: char) {
    || c == ' ' || c == '\t' || c == '\n' || c == '\r' || c == '\U{000B}' || c == '\U{000C}'
    || c == '\U{00A0}' || c == '\U{1680}' || ('\U{2000}' <= c <= '\U{200A}')
    || c == '\U{2028}' || c == '\U{2029}' || c == '\U{202F}' || c == '\U{205F}'
    || c == '\U{3000}' || c == '\U{FEFF}'
  }

  /** ASCII lower-casing; other characters are left as they are. */
  function ToLowerChar(c: char): (r: char)
    ensures !IsUpper(r)
    ensures IsUpper(c) ==> r as int == c as int + 32
    ensures !IsUpper(c) ==> r == c
  {
    if IsUpper(c) then (c as int + 32) as char else c
  }

  function ToLower(s: string): (r: string)
    ensures |r| == |s|
    ensures forall i :: 0 <= i < |s| ==> r[i] == ToLowerChar(s[i])
  {
    if s == [] then [] else [ToLowerChar(s[0])] + ToLower(s[1..])
  }

  /** ASCII upper-casing; other characters are left as they are. */
  function ToUpperChar(c: char): (r: char)
    ensures !IsLower(r)
    ensures IsLower(c) ==> r as int == c as int - 32
    ensures !IsLower(c) ==> r == c
  {
    if IsLower(c) then (c as int - 32) as char else c
  }

  function ToUpper(s: string): (r: string)
    ensures |r| == |s|
    ensures forall i :: 0 <= i < |s| ==> r[i] == ToUpperChar(s[i])
  {
    if s == [] then [] else [ToUpperChar(s[0])] + ToUpper(s[1..])
  }

  predicate StartsWith(s: string, prefix: string) {
    |prefix| <= |s| && s[..|prefix|] == prefix
  }

  /** A character outside the Basic Multilingual Plane is a surrogate pair in UTF-16. */
  predicate Astral(c: char) { c as int >= 0x10000 }

  /** `String.prototype.length`: the number of UTF-16 code units, two for each astral character. */
  function Utf16Length(s: string): (n: nat)
    ensures |s| <= n <= 2 * |s|
    ensures n == |s| <==> forall k :: 0 <= k < |s| ==> !Astral(s[k])
  {
    if s == [] then 0
    else
      var rest := Utf16Length(s[1..]);
      assert forall k :: 1 <= k < |s| ==> s[k] == s[1..][k - 1];
      (if Astral(s[0]) then 2 else 1) + rest
  }

  // ---------------------------------------------------------------- powers

  /** `Math.pow(x, n)` for a positive base and a natural exponent. */
  function Pow(x: real, n: nat): (r: real)
    requires x > 0.0
    ensures r > 0.0
  {
    if n == 0 then 1.0 else x * Pow(x, n - 1)
  }

  // ---------------------------------------------------------------- division

  lemma MulAtLeast(x: int, m: int)
    requires x >= 1 && m > 0
    ensures x * m >= m
  {
    assert x * m == (x - 1) * m + m;
    assert (x - 1) * m >= 0;
  }

  /** The quotient is determined by any decomposition with a remainder in range. */
  lemma DivUnique(a: int, m: int, q: int, r: int)
    requires m > 0 && a == q * m + r && 0 <= r < m
    ensures a / m == q && a % m == r
  {
    var q0 := a / m;
    var r0 := a % m;
    assert (q - q0) * m == r0 - r by {
      assert a == q0 * m + r0;
      assert (q - q0) * m == q * m - q0 * m;
    }
    if q0 < q {
      MulAtLeast(q - q0, m);
    } else if q0 > q {
      MulAtLeast(q0 - q, m);
    }
  }

  lemma MulDistrib(x: int, y: int, z: int)
    ensures (x + y) * z == x * z + y * z
  {
  }

  lemma MulAssoc(x: int, y: int, z: int)
    ensures (x * y) * z == x * (y * z) && y * z == z * y
  {
  }

  lemma MulMono(x: int, y: int, m: int)
    requires 0 <= x <= y && m >= 0
    ensures 0 <= x * m <= y * m
  {
    MulDistrib(x, y - x, m);
  }

  /** Floor division in two steps is floor division by the product. */
  lemma FloorTwice(a: int, b: int, c: int)
    requires b > 0 && c > 0
    ensures (a / b) / c == a / (b * c)
  {
    var q := a / b;
    var r := a % b;
    var q2 := q / c;
    var r2 := q % c;
    MulDistrib(q2 * c, r2, b);
    MulAssoc(q2, c, b);
    assert a == q2 * (b * c) + (r2 * b + r);
    MulMono(r2, c - 1, b);
    MulDistrib(c, -1, b);
    DivUnique(a, b * c, q2, r2 * b + r);
  }

  /** The remainder by a multiple of `m`, taken again by `m`, is the remainder by `m`. */
  lemma ModOfMod(a: int, m: int, k: int)
    requires m > 0 && k > 0
    ensures (a % (k * m)) % m == a % m
  {
    var q := a / (k * m);
    var r := a % (k * m);
    assert a == q * (k * m) + r;
    var q2 := r / m;
    var r2 := r % m;
    assert r == q2 * m + r2;
    assert a == (q * k + q2) * m + r2 by {
      assert q * (k * m) == (q * k) * m;
      assert (q * k) * m + q2 * m == (q * k + q2) * m;
    }
    DivUnique(a, m, q * k + q2, r2);
  }

  // ---------------------------------------------------------------- decimals

  function DigitChar(d: nat): (c: char)
    requires d < 10
    ensures IsDigit(c)
  {
    ('0' as int + d) as char
  }

  function DigitValue(c: char): nat
    requires IsDigit(c)
  {
    c as int - '0' as int
  }

  /** The decimal rendering of a natural number, as `String(n)` prints it. */
  function NatToString(n: nat): (r: string)
    ensures r != []
    ensures forall i :: 0 <= i < |r| ==> IsDigit(r[i])
    decreases n
  {
    if n < 10 then [DigitChar(n)] else NatToString(n / 10) + [DigitChar(n % 10)]
  }

  /** The decimal rendering of an integer, with a leading '-' for negatives. */
  function IntToString(i: int): (r: string)
    ensures r != []
  {
    if i < 0 then "-" + NatToString(-i) else NatToString(i)
  }

  /** Reads a string of digits back as a number. */
  function ParseDigits(s: string): nat
    requires forall i :: 0 <= i < |s| ==> IsDigit(s[i])
  {
    if s == [] then 0 else ParseDigits(s[..|s| - 1]) * 10 + DigitValue(s[|s| - 1])
  }

  /** Rendering a number in decimal loses nothing: reading it back yields the number. */
  lemma {:induction false} NatToStringRoundTrip(n: nat)
    ensures ParseDigits(NatToString(n)) == n
    decreases n
  {
    if n >= 10 {
      NatToStringRoundTrip(n / 10);
      var s := NatToString(n);
      assert s[..|s| - 1] == NatToString(n / 10);
    }
  }

  /** Numbers below ten render as one digit, the others as more than one. */
  lemma {:induction false} NatToStringLength(n: nat)
    ensures n < 10 <==> |NatToString(n)| == 1
    ensures n < 100 ==> |NatToString(n)| <= 2
  {
    if n >= 10 {
      NatToStringLength(n / 10);
    }
  }

  /** `String(n).padStart(2, '0')`. */
  function Pad2(n: nat): (r: string)
    ensures n < 10 ==> r == ['0', DigitChar(n)]
    ensures n >= 10 ==> r == NatToString(n)
  {
    var s := NatToString(n);
    if |s| < 2 then NatToStringLength(n); "0" + s else s
  }

  // ---------------------------------------------------------------- sequences

  /** `Array.prototype.slice(start, end)` (and `String.prototype.slice`): negative positions count from the end, and
      positions are clamped to the list. */
  function JsSlice<T>(s: seq<T>, start: int, end: int): (r: seq<T>)
    ensures 0 <= start <= end <= |s| ==> r == s[start..end]
    ensures |r| <= |s|
  {
    var from := if start < 0 then Max(|s| + start, 0) else Min(start, |s|);
    var to := if end < 0 then Max(|s| + end, 0) else Min(end, |s|);
    if from < to then s[from..to] else []
  }

  function Min(a: int, b: int): int { if a <= b then a else b }
  function Max(a: int, b: int): int { if a >= b then a else b }

  predicate NoDup<T(==)>(s: seq<T>) {
    forall i, j :: 0 <= i < j < |s| ==> s[i] != s[j]
  }

  /** Appending an absent element keeps a list duplicate-free. */
  lemma NoDupAppend<T>(s: seq<T>, x: T)
    requires NoDup(s) && x !in s
    ensures NoDup(s + [x])
  {
    forall i, j | 0 <= i < j < |s + [x]|
      ensures (s + [x])[i] != (s + [x])[j]
    {
      if j == |s| {
        assert s[i] in s;
      }
    }
  }

  /** `list.filter(x => x !== v)`. */
  function RemoveAll<T(==)>(s: seq<T>, v: T): (r: seq<T>)
  {
    if s == [] then [] else (if s[0] == v then [] else [s[0]]) + RemoveAll(s[1..], v)
  }

  lemma {:induction false} RemoveAllMembers<T>(s: seq<T>, v: T)
    ensures forall x :: x in RemoveAll(s, v) <==> x in s && x != v
    ensures |RemoveAll(s, v)| <= |s|
    ensures v !in s ==> RemoveAll(s, v) == s
  {
    if s != [] {
      RemoveAllMembers(s[1..], v);
      assert s == [s[0]] + s[1..];
    }
  }

  lemma {:induction false} RemoveAllMultiset<T>(s: seq<T>, v: T)
    ensures multiset(RemoveAll(s, v)) == multiset(s)[v := 0]
  {
    if s != [] {
      RemoveAllMultiset(s[1..], v);
      assert s == [s[0]] + s[1..];
      assert multiset(s) == multiset{s[0]} + multiset(s[1..]);
    }
  }

  /** Filtering keeps exactly the other elements, in their order, and never lengthens. */
  lemma RemoveAllSpec<T>(s: seq<T>, v: T)
    ensures v !in RemoveAll(s, v)
    ensures forall x :: x in RemoveAll(s, v) <==> x in s && x != v
    ensures |RemoveAll(s, v)| <= |s|
    ensures v !in s ==> RemoveAll(s, v) == s
    ensures multiset(RemoveAll(s, v)) == multiset(s)[v := 0]
  {
    RemoveAllMembers(s, v);
    RemoveAllMultiset(s, v);
  }

  /** Putting an absent element in front keeps a list duplicate-free. */
  lemma NoDupPrepend<T>(x: T, s: seq<T>)
    requires NoDup(s) && x !in s
    ensures NoDup([x] + s)
  {
    forall i, j | 0 <= i < j < |[x] + s|
      ensures ([x] + s)[i] != ([x] + s)[j]
    {
      if i == 0 {
        assert ([x] + s)[j] == s[j - 1];
      } else {
        assert ([x] + s)[i] == s[i - 1] && ([x] + s)[j] == s[j - 1];
      }
    }
  }

  /** Filtering keeps a duplicate-free list duplicate-free. */
  lemma {:induction false} RemoveAllNoDup<T>(s: seq<T>, v: T)
    requires NoDup(s)
    ensures NoDup(RemoveAll(s, v))
  {
    if s != [] {
      var rest := s[1..];
      assert NoDup(rest) by {
        forall i, j | 0 <= i < j < |rest|
          ensures rest[i] != rest[j]
        {
          assert rest[i] == s[i + 1] && rest[j] == s[j + 1];
        }
      }
      RemoveAllNoDup(rest, v);
      var t := RemoveAll(rest, v);
      if s[0] != v {
        RemoveAllMembers(rest, v);
        assert s[0] !in rest by {
          forall k | 0 <= k < |rest|
            ensures rest[k] != s[0]
          {
            assert rest[k] == s[k + 1];
          }
        }
        NoDupPrepend(s[0], t);
      }
    }
  }

  /** `if (!list.includes(x)) list.push(x)`. */
  function AppendIfAbsent<T(==,!new)>(s: seq<T>, x: T): (r: seq<T>)
    ensures x in r
    ensures forall y :: y in r <==> y in s || y == x
    ensures NoDup(s) ==> NoDup(r)
    ensures |r| == if x in s then |s| else |s| + 1
  {
    if x in s then s else s + [x]
  }
}
