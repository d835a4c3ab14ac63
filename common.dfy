/** Values shared by every part of the model: ids, time, optional values,
    HTTP-style responses, the string setters Mongoose applies (trim,
    lowercase) and the message of a Mongoose validation error. */
module Common {

  /** Document and user ids are uninterpreted strings. The empty string plays the
      part of a falsy value, as in JavaScript. */
  type Id = string

  /** A point in time, in milliseconds since the epoch. */
  type Millis = nat

  datatype Option<T> = None | Some(value: T)

  datatype Result<T, E> = Success(value: T) | Failure(error: E)

  /** A JSON field that may be absent, explicitly null, or carry a value.
      The handlers treat absent and null differently in some places. */
  datatype Json<T> = Undefined | Null | Value(v: T)

  /** JavaScript truthiness of an optional string: present and non-empty. */
  predicate Truthy(s: Option<string>) {
    s.Some? && s.value != ""
  }

  /** The identity a request carries, as the session provider hands it over;
      `None` when there is no session at all. */
  datatype SessionUser = SessionUser(id: Option<Id>, email: Option<string>)

  /** `session?.user?.id` when it is truthy. */
  function CallerId(session: Option<SessionUser>): (r: Option<Id>)
    ensures r.Some? <==> session.Some? && Truthy(session.value.id)
    ensures r.Some? ==> r.value != "" && r == session.value.id
  {
    if session.Some? && Truthy(session.value.id) then session.value.id else None
  }

  /** A handler's reply: a status code and either a value or an error string
      (the `{error: ...}` body). */
  datatype Response<T> = Ok(status: int, value: T) | Err(status: int, error: string)

  // ---------------------------------------------------------------------
  // Whitespace and trimming (String.prototype.trim)
  // ---------------------------------------------------------------------

  /** The characters `String.prototype.trim` removes: the ECMAScript
      WhiteSpace and LineTerminator characters. */
  predicate IsSpace(c: char) {
    c == ' ' || c == '\t' || c == '\n' || c == '\r' ||
    c == '\U{000B}' || c == '\U{000C}' || c == '\U{00A0}' || c == '\U{1680}' ||
    ('\U{2000}' <= c <= '\U{200A}') ||
    c == '\U{2028}' || c == '\U{2029}' || c == '\U{202F}' || c == '\U{205F}' ||
    c == '\U{3000}' || c == '\U{FEFF}'
  }

  predicate AllSpace(s: string) {
    forall k :: 0 <= k < |s| ==> IsSpace(s[k])
  }

  /** Drops leading whitespace: the result is a suffix of `s`, what was
      dropped is all whitespace, and the result does not start with any. */
  function TrimStart(s: string): (r: string)
    ensures |r| <= |s| && r == s[|s| - |r|..]
    ensures AllSpace(s[..|s| - |r|])
    ensures r != [] ==> !IsSpace(r[0])
  {
    if s != [] && IsSpace(s[0]) then
      var t := s[1..];
      var r := TrimStart(t);
      assert s[..|s| - |r|] == [s[0]] + t[..|t| - |r|];
      assert s[|s| - |r|..] == t[|t| - |r|..];
      r
    else s
  }

  /** Drops trailing whitespace: the result is a prefix of `s`, what was
      dropped is all whitespace, and the result does not end with any. */
  function TrimEnd(s: string): (r: string)
    ensures |r| <= |s| && r == s[..|r|]
    ensures AllSpace(s[|r|..])
    ensures r != [] ==> !IsSpace(r[|r| - 1])
  {
    if s != [] && IsSpace(s[|s| - 1]) then
      var t := s[..|s| - 1];
      var r := TrimEnd(t);
      assert s[..|r|] == t[..|r|];
      assert s[|r|..] == t[|r|..] + [s[|s| - 1]];
      r
    else s
  }

  /** `s.trim()`: leading whitespace removed (`TrimStart`), then trailing
      whitespace (`TrimEnd`). The result is no longer than `s` and neither
      starts nor ends with whitespace; what each half cuts away is stated by
      that half's own contract. */
  function Trim(s: string): (r: string)
    ensures |r| <= |s|
    ensures r != [] ==> !IsSpace(r[0]) && !IsSpace(r[|r| - 1])
  {
    TrimEnd(TrimStart(s))
  }

  /** A string is blank once trimmed exactly when it is all whitespace. */
  lemma TrimBlank(s: string)
    ensures Trim(s) == "" <==> AllSpace(s)
  {
    var a := TrimStart(s);
    var n := |s| - |a|;
    if Trim(s) == "" {
      assert a[|TrimEnd(a)|..] == a;
      assert a == [];
      assert s[..n] == s;
    }
  }

  predicate Trimmed(s: string) {
    s == [] || (!IsSpace(s[0]) && !IsSpace(s[|s| - 1]))
  }

  /** What is left of a string that is not all whitespace is a non-empty,
      trimmed string. */
  lemma TrimFilled(s: string)
    requires !AllSpace(s)
    ensures Trim(s) != "" && Trimmed(Trim(s))
  {
    TrimBlank(s);
  }

  lemma {:induction false} TrimStartOfTrimmed(s: string)
    requires s == [] || !IsSpace(s[0])
    ensures TrimStart(s) == s
  {
  }

  lemma {:induction false} TrimEndOfTrimmed(s: string)
    requires s == [] || !IsSpace(s[|s| - 1])
    ensures TrimEnd(s) == s
  {
  }

  /** Trimming leaves a string that is already trimmed alone; in particular
      trimming twice is trimming once. */
  lemma TrimIdempotent(s: string)
    ensures Trimmed(Trim(s))
    ensures Trim(Trim(s)) == Trim(s)
  {
    var t := Trim(s);
    TrimStartOfTrimmed(t);
    TrimEndOfTrimmed(t);
  }

  // ---------------------------------------------------------------------
  // Lower-casing (String.prototype.toLowerCase, on ASCII letters)
  // ---------------------------------------------------------------------

  function LowerChar(c: char): (r: char)
    ensures 'A' <= c <= 'Z' ==> r as int == c as int + 32
    ensures !('A' <= c <= 'Z') ==> r == c
  {
    if 'A' <= c <= 'Z' then (c as int + 32) as char else c
  }

  function ToLower(s: string): (r: string)
    ensures |r| == |s|
    ensures forall k :: 0 <= k < |s| ==> r[k] == LowerChar(s[k])
  {
    seq(|s|, k requires 0 <= k < |s| => LowerChar(s[k]))
  }

  /** No upper-case ASCII letter is left in `s`. */
  predicate Lowered(s: string) {
    forall k :: 0 <= k < |s| ==> !('A' <= s[k] <= 'Z')
  }

  /** Lower-casing leaves a string with no upper-case letter, and leaves
      such a string alone. */
  lemma ToLowerLowered(s: string)
    ensures Lowered(ToLower(s))
    ensures Lowered(s) ==> ToLower(s) == s
  {
  }

  lemma ToLowerIdempotent(s: string)
    ensures ToLower(ToLower(s)) == ToLower(s)
  {
  }

  lemma LowerCharKeepsSpace(c: char)
    ensures IsSpace(LowerChar(c)) <==> IsSpace(c)
  {
  }

  lemma {:induction false} TrimStartLower(s: string)
    ensures TrimStart(ToLower(s)) == ToLower(TrimStart(s))
  {
    if s != [] {
      LowerCharKeepsSpace(s[0]);
      if IsSpace(s[0]) {
        assert ToLower(s)[1..] == ToLower(s[1..]);
        TrimStartLower(s[1..]);
      }
    }
  }

  lemma {:induction false} TrimEndLower(s: string)
    ensures TrimEnd(ToLower(s)) == ToLower(TrimEnd(s))
  {
    if s != [] {
      LowerCharKeepsSpace(s[|s| - 1]);
      if IsSpace(s[|s| - 1]) {
        assert ToLower(s)[..|s| - 1] == ToLower(s[..|s| - 1]);
        TrimEndLower(s[..|s| - 1]);
      }
    }
  }

  /** The `lowercase` and `trim` setters commute, so the order in which
      Mongoose applies them does not matter. */
  lemma TrimLowerCommute(s: string)
    ensures Trim(ToLower(s)) == ToLower(Trim(s))
  {
    TrimStartLower(s);
    TrimEndLower(TrimStart(s));
  }

  // ---------------------------------------------------------------------
  // Decimal rendering of naturals (Number.prototype.toString)
  // ---------------------------------------------------------------------

  predicate IsDigit(c: char) {
    '0' <= c <= '9'
  }

  function DigitChar(d: nat): (c: char)
    requires d < 10
    ensures IsDigit(c) && c as int - '0' as int == d
  {
    ('0' as int + d) as char
  }

  /** The decimal digits of `n`, without leading zeros. */
  function NatToString(n: nat): (r: string)
    ensures r != [] && forall k :: 0 <= k < |r| ==> IsDigit(r[k])
    ensures |r| > 1 ==> r[0] != '0'
  {
    if n < 10 then [DigitChar(n)] else NatToString(n / 10) + [DigitChar(n % 10)]
  }

  /** The number a string of decimal digits denotes. */
  function DigitsValue(s: string): nat
    requires forall k :: 0 <= k < |s| ==> IsDigit(s[k])
  {
    if s == [] then 0
    else
      assert IsDigit(s[|s| - 1]);
      DigitsValue(s[..|s| - 1]) * 10 + (s[|s| - 1] as int - '0' as int)
  }

  /** Rendering a number and reading the digits back gives the number. */
  lemma {:induction false} NatToStringRoundTrip(n: nat)
    ensures DigitsValue(NatToString(n)) == n
  {
    if n >= 10 {
      NatToStringRoundTrip(n / 10);
      var s := NatToString(n);
      assert s[..|s| - 1] == NatToString(n / 10);
    }
  }

  // ---------------------------------------------------------------------
  // Mongoose validation errors
  // ---------------------------------------------------------------------

  /** One failed path of a document, with the schema's message for it. */
  datatype FieldError = FieldError(path: string, message: string)

  function JoinErrors(errors: seq<FieldError>): string
  {
    if errors == [] then ""
    else if |errors| == 1 then errors[0].path + ": " + errors[0].message
    else errors[0].path + ": " + errors[0].message + ", " + JoinErrors(errors[1..])
  }

  /** `error.message` of a Mongoose ValidationError on model `model`. */
  function ValidationMessage(model: string, errors: seq<FieldError>): string
  {
    model + " validation failed: " + JoinErrors(errors)
  }

  /** The message of the schema's default `required` validator. */
  function RequiredMessage(field: string): string
  {
    "Path `" + field + "` is required."
  }

  /** The message of the schema's default `enum` validator. */
  function EnumMessage(value: string, field: string): string
  {
    "`" + value + "` is not a valid enum value for path `" + field + "`."
  }

  /** A `required` string path with the `trim` setter: missing, or empty
      once trimmed (all whitespace, by `TrimBlank`), fails. */
  function RequiredTrimmed(path: string, v: Option<string>, message: string): (e: seq<FieldError>)
    ensures e == [] <==> v.Some? && !AllSpace(v.value)
  {
    if v.None? || AllSpace(v.value) then [FieldError(path, message)] else []
  }

  /** A `required` string path without a setter: missing or empty fails. */
  function RequiredString(path: string, v: Option<string>, message: string): (e: seq<FieldError>)
    ensures e == [] <==> Truthy(v)
  {
    if !Truthy(v) then [FieldError(path, message)] else []
  }

  /** A `maxlength` string path: a present value longer than `max` fails. */
  function MaxLength(path: string, v: Option<string>, max: nat, message: string): (e: seq<FieldError>)
    ensures e == [] <==> (v.Some? ==> |v.value| <= max)
  {
    if v.Some? && |v.value| > max then [FieldError(path, message)] else []
  }

  /** A `required` path of any other type: absent fails. */
  function Required<T>(path: string, v: Option<T>, message: string): (e: seq<FieldError>)
    ensures e == [] <==> v.Some?
  {
    if v.None? then [FieldError(path, message)] else []
  }

  /** Errors raised by the document store when a document is created. */
  datatype DbError =
    | Invalid(model: string, errors: seq<FieldError>)
    | DuplicateKey(index: string)

  /** `error.code` as the driver reports it. */
  function ErrorCode(e: DbError): Option<int>
  {
    match e
    case Invalid(_, _) => None
    case DuplicateKey(_) => Some(11000)
  }

  /** `error.message`. */
  function ErrorMessage(e: DbError): string
  {
    match e
    case Invalid(model, errors) => ValidationMessage(model, errors)
    case DuplicateKey(index) => "E11000 duplicate key error index: " + index
  }
}
