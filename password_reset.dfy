/** The password-reset flow of NewPasswordController: a table of one-time
    codes `(email, otp, expires_at)` and the users' password hashes.

    Time is a number of seconds; `now` (Carbon::now()) is a parameter. The
    random draw, Laravel's `email` rule, the breached-password lookup and
    Hash::make are parameters too: the model says what is done with them,
    not how they are computed. */
module PasswordReset {
  import opened Common

  /** Number of characters of every code. */
  const OtpLength := 6
  /** The largest integer random_int(0, 999999) can draw. */
  const MaxOtp := 999999
  /** A code lives ten minutes. */
  const OtpLifetime := 600

  const SentMessage := "OTP sent to your email address."
  const VerifiedMessage := "OTP verified successfully."
  const ResetMessage := "Password reset successfully."
  const InvalidOtpMessage := "Invalid or expired OTP code."

  datatype OtpRecord = OtpRecord(email: string, otp: string, expiresAt: int)

  /** A request field that failed its validation rules. */
  datatype Field = EmailField | OtpField | PasswordField

  /** Both failures are a ValidationException (HTTP 422); the second carries
      the message "Invalid or expired OTP code." on the otp field. */
  datatype Failure = Invalid(fields: set<Field>) | OtpInvalidOrExpired

  datatype Response = Ok(message: string) | Rejected(failure: Failure)

  // ---------------------------------------------------------------------
  // The code: str_pad(random_int(0, 999999), 6, '0', STR_PAD_LEFT)
  // ---------------------------------------------------------------------

  function DigitChar(d: nat): (c: char)
    requires d < 10
    ensures IsAsciiDigit(c)
  {
    ('0' as int + d) as char
  }

  function DigitValue(c: char): (d: nat)
    requires IsAsciiDigit(c)
    ensures d < 10 && DigitChar(d) == c
  {
    c as int - '0' as int
  }

  function Pow10(k: nat): (p: nat)
    ensures p >= 1
  {
    if k == 0 then 1 else 10 * Pow10(k - 1)
  }

  /** PHP's conversion of a non-negative integer to a string: its decimal
      digits, without leading zeros. */
  function DecimalString(n: nat): (s: string)
    ensures 1 <= |s| && AllDigits(s)
    ensures n < 10 <==> |s| == 1
  {
    if n < 10 then [DigitChar(n)] else DecimalString(n / 10) + [DigitChar(n % 10)]
  }

  /** The integer that a string of decimal digits denotes, leading zeros
      allowed. */
  function ParseDigits(s: string): nat
    requires AllDigits(s)
  {
    if s == [] then 0 else 10 * ParseDigits(s[..|s| - 1]) + DigitValue(s[|s| - 1])
  }

  function Repeat(c: char, n: nat): (r: string)
    ensures |r| == n && forall k :: 0 <= k < n ==> r[k] == c
  {
    seq(n, _ => c)
  }

  /** PHP's str_pad($s, $width, $c, STR_PAD_LEFT). */
  function PadLeft(s: string, width: nat, c: char): (r: string)
    ensures |s| >= width ==> r == s
    ensures |s| < width ==> |r| == width && r == Repeat(c, width - |s|) + s
  {
    if |s| >= width then s else Repeat(c, width - |s|) + s
  }

  /** The code sendOtp stores for the drawn integer n: six ASCII digits
      that denote n, so distinct draws give distinct codes. */
  function OtpCode(n: nat): (c: string)
    requires n <= MaxOtp
    ensures |c| == OtpLength && AllDigits(c)
    ensures ParseDigits(c) == n
  {
    PaddedDecimalWellFormed(n);
    PadLeft(DecimalString(n), OtpLength, '0')
  }

  lemma {:induction false} DecimalRoundTrip(n: nat)
    ensures ParseDigits(DecimalString(n)) == n
  {
    if n >= 10 {
      var s := DecimalString(n);
      assert s[..|s| - 1] == DecimalString(n / 10);
      DecimalRoundTrip(n / 10);
    }
  }

  lemma {:induction false} DecimalLength(n: nat, k: nat)
    requires 1 <= k && n < Pow10(k)
    ensures |DecimalString(n)| <= k
  {
    if n >= 10 {
      assert n / 10 < Pow10(k - 1);
      DecimalLength(n / 10, k - 1);
    }
  }

  lemma {:induction false} ZerosParse(m: nat)
    ensures AllDigits(Repeat('0', m)) && ParseDigits(Repeat('0', m)) == 0
  {
    if m > 0 {
      var z := Repeat('0', m);
      assert z[..m - 1] == Repeat('0', m - 1);
      ZerosParse(m - 1);
    }
  }

  /** Leading zeros do not change the value of a digit string. */
  lemma {:induction false} LeadingZeros(m: nat, s: string)
    requires AllDigits(s)
    ensures AllDigits(Repeat('0', m) + s)
    ensures ParseDigits(Repeat('0', m) + s) == ParseDigits(s)
  {
    var z := Repeat('0', m);
    if s == [] {
      assert z + s == z;
      ZerosParse(m);
    } else {
      var t := z + s;
      assert t[..|t| - 1] == z + s[..|s| - 1];
      assert t[|t| - 1] == s[|s| - 1];
      LeadingZeros(m, s[..|s| - 1]);
    }
  }

  /** A number below a million, padded to six places with zeros, is six
      decimal digits that denote it. */
  lemma PaddedDecimalWellFormed(n: nat)
    requires n <= MaxOtp
    ensures |PadLeft(DecimalString(n), OtpLength, '0')| == OtpLength
    ensures AllDigits(PadLeft(DecimalString(n), OtpLength, '0'))
    ensures ParseDigits(PadLeft(DecimalString(n), OtpLength, '0')) == n
  {
    var d := DecimalString(n);
    assert Pow10(6) == 1000000;
    DecimalLength(n, 6);
    DecimalRoundTrip(n);
    LeadingZeros(OtpLength - |d|, d);
    if |d| == OtpLength {
      assert Repeat('0', 0) + d == d;
    }
  }

  // ---------------------------------------------------------------------
  // The OTP table as a value
  // ---------------------------------------------------------------------

  /** The WHERE clause shared by verifyOtp and resetPassword: exact email,
      exact code, and `expires_at > now`. */
  predicate Matches(r: OtpRecord, email: string, otp: string, now: int) {
    r.email == email && r.otp == otp && r.expiresAt > now
  }

  /** The `->first()` of that query: the index of the first matching record. */
  function FirstMatch(rs: seq<OtpRecord>, email: string, otp: string, now: int): (r: Option<nat>)
    ensures r.Some? ==> r.value < |rs| && Matches(rs[r.value], email, otp, now)
    ensures r.Some? ==> forall k :: 0 <= k < r.value ==> !Matches(rs[k], email, otp, now)
    ensures r.None? <==> forall k :: 0 <= k < |rs| ==> !Matches(rs[k], email, otp, now)
  {
    if rs == [] then None
    else if Matches(rs[0], email, otp, now) then Some(0)
    else match FirstMatch(rs[1..], email, otp, now)
      case None => None
      case Some(i) => Some(i + 1)
  }

  /** `PasswordResetOtp::where('email', $email)->delete()`: every record of
      that email is dropped, the others stay in order. */
  function DeleteFor(rs: seq<OtpRecord>, email: string): (r: seq<OtpRecord>)
    ensures forall x :: x in r <==> x in rs && x.email != email
  {
    if rs == [] then []
    else if rs[0].email == email then DeleteFor(rs[1..], email)
    else [rs[0]] + DeleteFor(rs[1..], email)
  }

  /** `$otpRecord->delete()` on the record at index i: that one row goes,
      the others keep their order. */
  function RemoveAt(rs: seq<OtpRecord>, i: nat): (r: seq<OtpRecord>)
    requires i < |rs|
    ensures |r| == |rs| - 1
    ensures forall k :: 0 <= k < i ==> r[k] == rs[k]
    ensures forall k :: i <= k < |r| ==> r[k] == rs[k + 1]
    ensures multiset(r) + multiset{rs[i]} == multiset(rs)
  {
    assert rs == rs[..i] + [rs[i]] + rs[i + 1..];
    rs[..i] + rs[i + 1..]
  }

  /** The records of one email, in table order. */
  function RecordsFor(rs: seq<OtpRecord>, email: string): seq<OtpRecord> {
    if rs == [] then []
    else if rs[0].email == email then [rs[0]] + RecordsFor(rs[1..], email)
    else RecordsFor(rs[1..], email)
  }

  /** At most one record per email: sendOtp deletes before it inserts. */
  ghost predicate UniqueEmails(rs: seq<OtpRecord>) {
    forall i, j :: 0 <= i < j < |rs| ==> rs[i].email != rs[j].email
  }

  /** The record sendOtp inserts for email at time now. */
  function Issued(email: string, drawn: nat, now: int): OtpRecord
    requires drawn <= MaxOtp
  {
    OtpRecord(email, OtpCode(drawn), now + OtpLifetime)
  }

  /** The table after a successful sendOtp. */
  function AfterSend(rs: seq<OtpRecord>, email: string, drawn: nat, now: int): seq<OtpRecord>
    requires drawn <= MaxOtp
  {
    DeleteFor(rs, email) + [Issued(email, drawn, now)]
  }

  lemma {:induction false} RecordsForConcat(a: seq<OtpRecord>, b: seq<OtpRecord>, email: string)
    ensures RecordsFor(a + b, email) == RecordsFor(a, email) + RecordsFor(b, email)
  {
    if a != [] {
      assert (a + b)[1..] == a[1..] + b;
      RecordsForConcat(a[1..], b, email);
    } else {
      assert a + b == b;
    }
  }

  lemma {:induction false} RecordsForDeleted(rs: seq<OtpRecord>, email: string, other: string)
    ensures RecordsFor(DeleteFor(rs, email), email) == []
    ensures other != email ==> RecordsFor(DeleteFor(rs, email), other) == RecordsFor(rs, other)
  {
    if rs != [] {
      RecordsForDeleted(rs[1..], email, other);
      if rs[0].email != email {
        RecordsForConcat([rs[0]], DeleteFor(rs[1..], email), email);
        RecordsForConcat([rs[0]], DeleteFor(rs[1..], email), other);
      }
    }
  }

  /** After sendOtp(e) exactly one record exists for e, the one just issued,
      and the records of every other email are exactly what they were. */
  lemma SendLeavesOneCode(rs: seq<OtpRecord>, email: string, drawn: nat, now: int, other: string)
    requires drawn <= MaxOtp
    ensures RecordsFor(AfterSend(rs, email, drawn, now), email) == [Issued(email, drawn, now)]
    ensures other != email ==> RecordsFor(AfterSend(rs, email, drawn, now), other) == RecordsFor(rs, other)
  {
    var n := Issued(email, drawn, now);
    RecordsForConcat(DeleteFor(rs, email), [n], email);
    RecordsForConcat(DeleteFor(rs, email), [n], other);
    RecordsForDeleted(rs, email, other);
  }

  /** sendOtp keeps at most one record per email. */
  lemma SendKeepsEmailsUnique(rs: seq<OtpRecord>, email: string, drawn: nat, now: int)
    requires drawn <= MaxOtp
    requires UniqueEmails(rs)
    ensures UniqueEmails(AfterSend(rs, email, drawn, now))
  {
    var d := DeleteFor(rs, email);
    DeleteForSubsequence(rs, email);
    var t := d + [Issued(email, drawn, now)];
    forall i, j | 0 <= i < j < |t| ensures t[i].email != t[j].email {
      if j == |t| - 1 {
        assert t[i] in d;
      }
    }
  }

  /** DeleteFor keeps a subsequence, so it keeps emails unique. */
  lemma {:induction false} DeleteForSubsequence(rs: seq<OtpRecord>, email: string)
    requires UniqueEmails(rs)
    ensures UniqueEmails(DeleteFor(rs, email))
  {
    if rs != [] {
      DeleteForSubsequence(rs[1..], email);
      var tail := DeleteFor(rs[1..], email);
      if rs[0].email != email {
        var t := [rs[0]] + tail;
        forall i, j | 0 <= i < j < |t| ensures t[i].email != t[j].email {
          if i == 0 {
            assert t[j] in rs[1..];
          } else {
            assert t[i] == tail[i - 1] && t[j] == tail[j - 1];
          }
        }
      }
    }
  }

  /** The code just issued verifies exactly during the ten minutes after
      issuance: at `now + 600` it is already rejected (`expires_at > now` is
      strict), and a different code for the same email never verifies. */
  lemma {:induction false} IssuedCodeWindow(rs: seq<OtpRecord>, email: string, drawn: nat, now: int, t: int, code: string)
    requires drawn <= MaxOtp
    ensures FirstMatch(AfterSend(rs, email, drawn, now), email, OtpCode(drawn), t).Some? <==> t < now + OtpLifetime
    ensures code != OtpCode(drawn) ==> FirstMatch(AfterSend(rs, email, drawn, now), email, code, t).None?
  {
    var a := AfterSend(rs, email, drawn, now);
    var d := DeleteFor(rs, email);
    forall k | 0 <= k < |d| ensures a[k].email != email {
      assert a[k] == d[k] && d[k] in d;
    }
    assert a[|a| - 1] == Issued(email, drawn, now);
  }

  /** Deleting the matched record leaves no record for its email when emails
      are unique: whatever the code and whatever the time, a second reset
      for that email finds nothing, so each code is single-use. */
  lemma ConsumedCodeIsGone(rs: seq<OtpRecord>, email: string, otp: string, now: int, code: string, t: int)
    requires UniqueEmails(rs)
    requires FirstMatch(rs, email, otp, now).Some?
    ensures FirstMatch(RemoveAt(rs, FirstMatch(rs, email, otp, now).value), email, code, t).None?
  {
    var i := FirstMatch(rs, email, otp, now).value;
    var r := RemoveAt(rs, i);
    forall k | 0 <= k < |r| ensures r[k].email != email {
      if k < i { assert r[k] == rs[k]; } else { assert r[k] == rs[k + 1]; }
    }
  }

  lemma RemoveKeepsEmailsUnique(rs: seq<OtpRecord>, i: nat)
    requires i < |rs| && UniqueEmails(rs)
    ensures UniqueEmails(RemoveAt(rs, i))
  {
    var r := RemoveAt(rs, i);
    forall a, b | 0 <= a < b < |r| ensures r[a].email != r[b].email {
      var a' := if a < i then a else a + 1;
      var b' := if b < i then b else b + 1;
      assert r[a] == rs[a'] && r[b] == rs[b'];
    }
  }

  // ---------------------------------------------------------------------
  // Request validation
  // ---------------------------------------------------------------------

  /** The characters PHP's trim() strips: space, tab, line feed, carriage
      return, NUL and vertical tab. */
  predicate IsTrimmed(c: char) {
    c == ' ' || c == '\t' || c == '\n' || c == '\r' || c == '\0' || c == '\U{000B}'
  }

  /** Laravel's `required` on a string: what is left after trim() is not
      empty, so a blank value counts as missing. */
  predicate Required(s: string) {
    exists k :: 0 <= k < |s| && !IsTrimmed(s[k])
  }

  /** 'required|email': present, not blank, and accepted by Laravel's email
      rule (a parameter). */
  predicate EmailFieldOk(email: string, isEmail: string -> bool) {
    Required(email) && isEmail(email)
  }

  predicate IsAsciiSymbol(c: char) {
    ' ' <= c <= '~' && !IsAsciiAlnum(c)
  }

  /** A lower-case letter followed by an upper-case one, or the reverse. */
  predicate IsCasePair(a: char, b: char) {
    (IsAsciiLower(a) && IsAsciiUpper(b)) || (IsAsciiUpper(a) && IsAsciiLower(b))
  }

  /** mixedCase's pattern /(\p{Ll}+.*\p{Lu})|(\p{Lu}+.*\p{Ll})/u: letters of
      both cases, in either order, with no line feed between them, since
      `.` does not match "\n". */
  predicate MixedCase(p: string) {
    exists i, j :: 0 <= i < j < |p| && IsCasePair(p[i], p[j]) && forall k :: i < k < j ==> p[k] != '\n'
  }

  /** symbols()'s pattern /\p{Z}|\p{S}|\p{P}/u. */
  predicate HasSymbol(p: string) {
    exists k :: 0 <= k < |p| && IsAsciiSymbol(p[k])
  }

  /** Password::min(8)->mixedCase()->numbers()->symbols(), with the Unicode
      classes \p{Lu}, \p{Ll}, \p{N} and \p{Z}|\p{S}|\p{P} read over ASCII. */
  predicate ServerStrength(p: string) {
    |p| >= 8 && MixedCase(p) && HasDigit(p) && HasSymbol(p)
  }

  /** Without a line feed, mixedCase asks only for one letter of each case. */
  lemma MixedCaseWithoutLineFeed(p: string)
    requires '\n' !in p
    ensures MixedCase(p) <==> HasUpper(p) && HasLower(p)
  {
    if HasUpper(p) && HasLower(p) {
      var u :| 0 <= u < |p| && IsAsciiUpper(p[u]);
      var l :| 0 <= l < |p| && IsAsciiLower(p[l]);
      var i, j := if u < l then u else l, if u < l then l else u;
      forall k | i < k < j ensures p[k] != '\n' {
        assert p[k] in p;
      }
      assert IsCasePair(p[i], p[j]);
    }
  }

  /** A line feed between the only two cases defeats mixedCase even though
      both cases are present. */
  lemma LineFeedSplitsCases()
    ensures HasUpper("abc1!xyz\nQ") && HasLower("abc1!xyz\nQ")
    ensures !MixedCase("abc1!xyz\nQ")
  {
    var p := "abc1!xyz\nQ";
    assert IsAsciiUpper(p[9]) && IsAsciiLower(p[0]);
    forall i, j | 0 <= i < j < |p| && IsCasePair(p[i], p[j])
      ensures exists k :: i < k < j && p[k] == '\n'
    {
      assert forall k :: 0 <= k < 9 ==> !IsAsciiUpper(p[k]);
      assert j == 9 && i != 8;
      assert p[8] == '\n';
    }
  }

  /** The whole password rule: the strength rule and ->uncompromised(), the
      breach lookup, which is given. */
  predicate ServerPasswordRule(p: string, uncompromised: string -> bool) {
    ServerStrength(p) && uncompromised(p)
  }

  /** The fields verifyOtp's validate() call rejects. */
  function VerifyFailures(email: string, otp: string, isEmail: string -> bool): (r: set<Field>)
    ensures EmailField in r <==> !EmailFieldOk(email, isEmail)
    ensures OtpField in r <==> !Required(otp) || |otp| != OtpLength
    ensures PasswordField !in r
  {
    (if EmailFieldOk(email, isEmail) then {} else {EmailField})
    + (if Required(otp) && |otp| == OtpLength then {} else {OtpField})
  }

  /** A code of six blanks has the right size but is missing to `required`,
      so it is refused before the table is read. */
  lemma BlankCodeIsMissing(email: string, isEmail: string -> bool)
    ensures OtpField in VerifyFailures(email, "      ", isEmail)
  {
    var blank := "      ";
    assert forall k :: 0 <= k < |blank| ==> IsTrimmed(blank[k]);
  }

  /** Every six-digit code passes the code field's rules. */
  lemma DigitCodeIsPresent(email: string, isEmail: string -> bool, code: string)
    requires |code| == OtpLength && AllDigits(code)
    ensures OtpField !in VerifyFailures(email, code, isEmail)
  {
    assert !IsTrimmed(code[0]);
  }

  /** The fields resetPassword's validate() call rejects. */
  function ResetFailures(email: string, otp: string, password: string, confirmation: string,
                         isEmail: string -> bool, uncompromised: string -> bool): (r: set<Field>)
    ensures r - {PasswordField} == VerifyFailures(email, otp, isEmail)
    ensures PasswordField in r <==>
      !Required(password) || password != confirmation || !ServerPasswordRule(password, uncompromised)
  {
    VerifyFailures(email, otp, isEmail)
    + (if Required(password) && password == confirmation && ServerPasswordRule(password, uncompromised)
       then {} else {PasswordField})
  }

  // ---------------------------------------------------------------------
  // The controller over its tables
  // ---------------------------------------------------------------------

  class OtpStore {
    /** The password_reset_otps table. */
    var records: seq<OtpRecord>
    /** The users table: email to password hash. */
    var passwords: map<string, string>

    /** Every email holds at most one record, every record belongs to an
        existing user, and every stored code is six digits. */
    ghost predicate Valid()
      reads this
    {
      && UniqueEmails(records)
      && forall r | r in records :: r.email in passwords && |r.otp| == OtpLength && AllDigits(r.otp)
    }

    constructor (users: map<string, string>)
      ensures Valid() && records == [] && passwords == users
    {
      records := [];
      passwords := users;
    }

    /** sendOtp: fails validation unless the email names a user; otherwise
        replaces that email's records by one fresh code that expires ten
        minutes from now. `drawn` is the value random_int(0, 999999) drew. */
    method SendOtp(email: string, isEmail: string -> bool, drawn: nat, now: int) returns (r: Response)
      requires Valid()
      requires drawn <= MaxOtp
      modifies this`records
      ensures Valid()
      ensures r.Ok? <==> EmailFieldOk(email, isEmail) && email in passwords
      ensures r.Ok? ==> r.message == SentMessage && records == AfterSend(old(records), email, drawn, now)
      ensures r.Rejected? ==> r.failure == Invalid({EmailField}) && records == old(records)
    {
      if !(EmailFieldOk(email, isEmail) && email in passwords) {
        return Rejected(Invalid({EmailField}));
      }
      SendKeepsEmailsUnique(records, email, drawn, now);
      records := DeleteFor(records, email);
      records := records + [Issued(email, drawn, now)];
      r := Ok(SentMessage);
    }

    /** forgotPassword: the legacy entry point, identical to sendOtp. */
    method ForgotPassword(email: string, isEmail: string -> bool, drawn: nat, now: int) returns (r: Response)
      requires Valid()
      requires drawn <= MaxOtp
      modifies this`records
      ensures Valid()
      ensures r.Ok? <==> EmailFieldOk(email, isEmail) && email in passwords
      ensures r.Ok? ==> r.message == SentMessage && records == AfterSend(old(records), email, drawn, now)
      ensures r.Rejected? ==> r.failure == Invalid({EmailField}) && records == old(records)
    {
      r := SendOtp(email, isEmail, drawn, now);
    }

    /** verifyOtp: a read-only query. It succeeds exactly when the request is
        well formed and some record matches email and code exactly and
        expires strictly after now. */
    method VerifyOtp(email: string, otp: string, isEmail: string -> bool, now: int) returns (r: Response)
      requires Valid()
      ensures VerifyFailures(email, otp, isEmail) != {} ==> r == Rejected(Invalid(VerifyFailures(email, otp, isEmail)))
      ensures VerifyFailures(email, otp, isEmail) == {} ==>
        (r.Ok? <==> exists k :: 0 <= k < |records| && Matches(records[k], email, otp, now))
      ensures r.Ok? ==> r.message == VerifiedMessage
      ensures r.Rejected? && VerifyFailures(email, otp, isEmail) == {} ==> r.failure == OtpInvalidOrExpired
    {
      var failures := VerifyFailures(email, otp, isEmail);
      if failures != {} {
        return Rejected(Invalid(failures));
      }
      var found := FirstMatch(records, email, otp, now);
      if found.None? {
        return Rejected(OtpInvalidOrExpired);
      }
      r := Ok(VerifiedMessage);
    }

    /** resetPassword: validation first (a weak or unconfirmed password
        consumes nothing), then the same lookup as verifyOtp, then the new
        hash is stored and the matched record deleted. */
    method ResetPassword(email: string, otp: string, password: string, confirmation: string,
                         isEmail: string -> bool, uncompromised: string -> bool,
                         hash: string -> string, now: int) returns (r: Response)
      requires Valid()
      modifies this
      ensures Valid()
      ensures ResetFailures(email, otp, password, confirmation, isEmail, uncompromised) != {} ==>
        && r == Rejected(Invalid(ResetFailures(email, otp, password, confirmation, isEmail, uncompromised)))
        && records == old(records) && passwords == old(passwords)
      ensures ResetFailures(email, otp, password, confirmation, isEmail, uncompromised) == {}
              && FirstMatch(old(records), email, otp, now).None? ==>
        r == Rejected(OtpInvalidOrExpired) && records == old(records) && passwords == old(passwords)
      ensures ResetFailures(email, otp, password, confirmation, isEmail, uncompromised) == {}
              && FirstMatch(old(records), email, otp, now).Some? ==>
        && r == Ok(ResetMessage)
        && passwords == old(passwords)[email := hash(password)]
        && records == RemoveAt(old(records), FirstMatch(old(records), email, otp, now).value)
      ensures r.Ok? ==> forall t, code :: FirstMatch(records, email, code, t).None?
    {
      var failures := ResetFailures(email, otp, password, confirmation, isEmail, uncompromised);
      if failures != {} {
        return Rejected(Invalid(failures));
      }
      var found := FirstMatch(records, email, otp, now);
      if found.None? {
        return Rejected(OtpInvalidOrExpired);
      }
      var i := found.value;
      assert records[i] in records;
      RemoveKeepsEmailsUnique(records, i);
      forall t, code ensures FirstMatch(RemoveAt(records, i), email, code, t).None? {
        ConsumedCodeIsGone(records, email, otp, now, code, t);
      }
      passwords := passwords[email := hash(password)];
      records := RemoveAt(records, i);
      r := Ok(ResetMessage);
    }
  }

  /** The scenario of a full reset: a code issued at t0, verified and used
      before it expires, cannot be used a second time. */
  method ResetScenario(users: map<string, string>, email: string, isEmail: string -> bool,
                       uncompromised: string -> bool, hash: string -> string,
                       drawn: nat, t0: int, password: string)
    requires email in users && EmailFieldOk(email, isEmail)
    requires drawn <= MaxOtp
    requires ServerPasswordRule(password, uncompromised)
  {
    var store := new OtpStore(users);
    var sent := store.SendOtp(email, isEmail, drawn, t0);
    assert sent.Ok?;
    var code := OtpCode(drawn);
    IssuedCodeWindow([], email, drawn, t0, t0 + 1, code);
    var v1 := store.VerifyOtp(email, code, isEmail, t0 + 1);
    assert v1.Ok?;
    var v2 := store.VerifyOtp(email, code, isEmail, t0 + 1);
    assert v2.Ok?;
    var reset := store.ResetPassword(email, code, password, password, isEmail, uncompromised, hash, t0 + 2);
    assert reset.Ok?;
    assert store.passwords[email] == hash(password);
    var again := store.ResetPassword(email, code, password, password, isEmail, uncompromised, hash, t0 + 3);
    assert again == Rejected(OtpInvalidOrExpired);
  }
}
