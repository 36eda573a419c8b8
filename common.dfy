/** Vocabulary shared by the backend models and the frontend pages: optional
    values, the truthiness rules of PHP and JavaScript that the source leans
    on, ASCII character classes, defaults filled in on create, and tables
    that carry a UNIQUE index. */
module Common {

  datatype Option<+T> = None | Some(value: T)

  /** PHP's boolean reading of a nullable string: null, "" and "0" are false. */
  predicate PhpTruthy(v: Option<string>) {
    v.Some? && v.value != "" && v.value != "0"
  }

  /** JavaScript's boolean reading of a possibly-missing string: only "" and
      undefined/null are false ("0" is true in JavaScript). */
  predicate JsTruthy(v: Option<string>) {
    v.Some? && v.value != ""
  }

  /** JavaScript's `v || fallback` on a possibly-missing string. */
  function OrElse(v: Option<string>, fallback: string): (r: string)
    ensures JsTruthy(v) ==> r == v.value
    ensures !JsTruthy(v) ==> r == fallback
  {
    if JsTruthy(v) then v.value else fallback
  }

  /** A creating hook's `if (!$model->field) { $model->field = default; }` for
      a field that is null or an object (an object is always truthy in PHP). */
  function FillIfAbsent<T>(v: Option<T>, default: T): (r: Option<T>)
    ensures r.Some?
    ensures v.Some? ==> r == v
    ensures v.None? ==> r == Some(default)
  {
    if v.Some? then v else Some(default)
  }

  predicate IsAsciiUpper(c: char) { 'A' <= c <= 'Z' }
  predicate IsAsciiLower(c: char) { 'a' <= c <= 'z' }
  predicate IsAsciiDigit(c: char) { '0' <= c <= '9' }
  predicate IsAsciiAlnum(c: char) { IsAsciiUpper(c) || IsAsciiLower(c) || IsAsciiDigit(c) }

  predicate AllDigits(s: string) {
    forall k :: 0 <= k < |s| ==> IsAsciiDigit(s[k])
  }

  /** Some character of s is an upper-case letter, a lower-case letter or a
      digit, each read over ASCII. */
  predicate HasUpper(s: string) { exists k :: 0 <= k < |s| && IsAsciiUpper(s[k]) }
  predicate HasLower(s: string) { exists k :: 0 <= k < |s| && IsAsciiLower(s[k]) }
  predicate HasDigit(s: string) { exists k :: 0 <= k < |s| && IsAsciiDigit(s[k]) }

  /** A character of the Basic Multilingual Plane: one UTF-16 code unit. */
  predicate InBmp(c: char) { c as int <= 0xFFFF }

  predicate AllInBmp(s: string) {
    forall k :: 0 <= k < |s| ==> InBmp(s[k])
  }

  /** JavaScript's `s.length`: UTF-16 code units, so a character outside the
      Basic Multilingual Plane counts twice. */
  function Utf16Length(s: string): (n: nat)
    ensures |s| <= n <= 2 * |s|
    ensures AllInBmp(s) ==> n == |s|
  {
    if s == [] then 0
    else
      assert AllInBmp(s) ==> AllInBmp(s[1..]) by {
        if AllInBmp(s) {
          forall k | 0 <= k < |s[1..]| ensures InBmp(s[1..][k]) {
            assert s[1..][k] == s[k + 1];
          }
        }
      }
      (if InBmp(s[0]) then 1 else 2) + Utf16Length(s[1..])
  }

  /** C's `toupper` in the "C" locale, which PHP 8 string functions use. */
  function ToUpperAscii(c: char): (u: char)
    ensures IsAsciiLower(c) ==> IsAsciiUpper(u) && u as int == c as int - 32
    ensures !IsAsciiLower(c) ==> u == c
  {
    if IsAsciiLower(c) then (c as int - 32) as char else c
  }

  /** A table with a UNIQUE index over `key`: no two rows share a key. */
  ghost predicate UniqueBy<R, K>(rows: seq<R>, key: R -> K) {
    forall i, j :: 0 <= i < j < |rows| ==> key(rows[i]) != key(rows[j])
  }

  /** An INSERT into such a table: the database rejects a row whose key is
      already taken and appends it otherwise. */
  function InsertUnique<R, K(==)>(rows: seq<R>, key: R -> K, row: R): (r: Option<seq<R>>)
    ensures r.None? <==> exists i :: 0 <= i < |rows| && key(rows[i]) == key(row)
    ensures r.Some? ==> r.value == rows + [row]
    ensures UniqueBy(rows, key) && r.Some? ==> UniqueBy(r.value, key)
  {
    if exists i :: 0 <= i < |rows| && key(rows[i]) == key(row) then None else Some(rows + [row])
  }

  // ---------------------------------------------------------------------
  // How the frontend pages see an awaited API call
  // ---------------------------------------------------------------------

  /** The end of an awaited axios call: a 2xx response, an error response
      with its status and `data.message`, or no response at all. */
  datatype ApiOutcome = Succeeded | ErrorResponse(status: int, message: Option<string>) | NoResponse

  const NetworkErrorMessage := "Network error. Please check your internet connection."

  /** The catch branch shared by the pages: `err.response?.data?.message ||
      fallback`, and no error at all when the call succeeded. */
  function ErrorMessageOr(o: ApiOutcome, fallback: string): (r: Option<string>)
    ensures r.None? <==> o.Succeeded?
    ensures o.ErrorResponse? && JsTruthy(o.message) ==> r == Some(o.message.value)
    ensures o.ErrorResponse? && !JsTruthy(o.message) ==> r == Some(fallback)
    ensures o.NoResponse? ==> r == Some(fallback)
    ensures fallback != "" && r.Some? ==> r.value != ""
  {
    match o
    case Succeeded => None
    case ErrorResponse(_, message) => Some(OrElse(message, fallback))
    case NoResponse => Some(fallback)
  }
}
