/** The client-side password rules shared by the sign-up and forgot-password
    pages: five flags, the "all five hold" test, the five-segment strength
    meter and the order in which a submitted form is refused. */
module PasswordStrength {
  import opened Common
  import PasswordReset

  /** The character class of /[!@#$%^&*(),.?":{}|<>]/. */
  const SymbolChars := "!@#$%^&*(),.?\":{}|<>"

  const RequirementsMessage := "Please fulfill all password requirements."
  const MismatchMessage := "Passwords do not match"

  predicate HasListedSymbol(s: string) { exists k :: 0 <= k < |s| && s[k] in SymbolChars }

  /** The `validation` state object. */
  datatype Validation = Validation(length: bool, uppercase: bool, lowercase: bool, number: bool, symbol: bool)

  /** validatePassword: each flag is one regular-expression test. */
  function Validate(pass: string): (v: Validation)
    ensures v.length <==> Utf16Length(pass) >= 8
    ensures v.uppercase <==> exists k :: 0 <= k < |pass| && 'A' <= pass[k] <= 'Z'
    ensures v.lowercase <==> exists k :: 0 <= k < |pass| && 'a' <= pass[k] <= 'z'
    ensures v.number <==> exists k :: 0 <= k < |pass| && '0' <= pass[k] <= '9'
    ensures v.symbol <==> exists k :: 0 <= k < |pass| && pass[k] in SymbolChars
  {
    Validation(Utf16Length(pass) >= 8, HasUpper(pass), HasLower(pass), HasDigit(pass), HasListedSymbol(pass))
  }

  /** isPasswordValid: `Object.values(validation).every(Boolean)`. */
  predicate IsPasswordValid(v: Validation) {
    v.length && v.uppercase && v.lowercase && v.number && v.symbol
  }

  function Count(b: bool): nat { if b then 1 else 0 }

  /** `Object.values(validation).filter(Boolean).length`. */
  function ValidCount(v: Validation): (n: nat)
    ensures n <= 5
    ensures n == 5 <==> IsPasswordValid(v)
    ensures n == 0 <==> !v.length && !v.uppercase && !v.lowercase && !v.number && !v.symbol
  {
    Count(v.length) + Count(v.uppercase) + Count(v.lowercase) + Count(v.number) + Count(v.symbol)
  }

  /** The meter's colours: bg-zinc-200, bg-red-500, bg-yellow-500, bg-emerald-500. */
  datatype Color = Gray | Red | Yellow | Green

  /** Segment `step` (1..5) of the meter for `count` satisfied rules. */
  function SegmentColor(count: nat, step: nat): (c: Color)
    requires 1 <= step <= 5
    ensures c != Gray <==> count >= step
    ensures c == Red ==> count <= 2
    ensures c == Yellow ==> 3 <= count <= 4
    ensures c == Green ==> count >= 5
  {
    if count < step then Gray
    else if count <= 2 then Red
    else if count <= 4 then Yellow
    else Green
  }

  /** The five segments, left to right. */
  function Meter(v: Validation): (m: seq<Color>)
    ensures |m| == 5
    ensures forall k :: 0 <= k < 5 ==> m[k] == SegmentColor(ValidCount(v), k + 1)
  {
    var n := ValidCount(v);
    [SegmentColor(n, 1), SegmentColor(n, 2), SegmentColor(n, 3), SegmentColor(n, 4), SegmentColor(n, 5)]
  }

  /** The meter fills from the left with as many segments as rules hold,
      all of one colour, and it shows green exactly when the password is
      valid, in which case every segment is green. */
  lemma MeterReadsValidity(v: Validation)
    ensures forall k :: 0 <= k < 5 ==> (Meter(v)[k] != Gray <==> k < ValidCount(v))
    ensures forall j, k :: 0 <= j < 5 && 0 <= k < 5 && Meter(v)[j] != Gray && Meter(v)[k] != Gray ==> Meter(v)[j] == Meter(v)[k]
    ensures (exists k :: 0 <= k < 5 && Meter(v)[k] == Green) <==> IsPasswordValid(v)
    ensures IsPasswordValid(v) ==> Meter(v) == [Green, Green, Green, Green, Green]
  {
    var m := Meter(v);
    if IsPasswordValid(v) {
      assert m[0] == Green;
    }
  }

  /** The guard of handleRegister and handleResetPassword: the strength check
      first, then the confirmation; None lets the request go out. */
  function PasswordFormError(v: Validation, password: string, confirmation: string): (r: Option<string>)
    ensures r.None? <==> IsPasswordValid(v) && password == confirmation
    ensures !IsPasswordValid(v) ==> r == Some(RequirementsMessage)
    ensures IsPasswordValid(v) && password != confirmation ==> r == Some(MismatchMessage)
  {
    if !IsPasswordValid(v) then Some(RequirementsMessage)
    else if password != confirmation then Some(MismatchMessage)
    else None
  }

  /** Every listed symbol is printable ASCII that is neither a letter nor a
      digit, so it is a symbol to the server too. */
  lemma ListedSymbolsAreServerSymbols(c: char)
    requires c in SymbolChars
    ensures PasswordReset.IsAsciiSymbol(c)
  {
  }

  /** A password the page accepts, as a password input delivers it (without
      line feeds), meets every part of the server's strength rule except
      perhaps the length: the page counts UTF-16 units, mb_strlen counts
      characters. Within the Basic Multilingual Plane the two agree, and the
      whole rule holds. */
  lemma ClientRuleImpliesServerStrength(p: string)
    requires IsPasswordValid(Validate(p))
    requires '\n' !in p
    ensures PasswordReset.ServerStrength(p) <==> |p| >= 8
    ensures AllInBmp(p) ==> PasswordReset.ServerStrength(p)
  {
    var k :| 0 <= k < |p| && p[k] in SymbolChars;
    ListedSymbolsAreServerSymbols(p[k]);
    PasswordReset.MixedCaseWithoutLineFeed(p);
  }

  /** The length gap made concrete: two emoji count four UTF-16 units, so the
      page takes this six-character password, and min(8) refuses it. */
  lemma AstralPasswordPassesOnlyThePage()
    ensures IsPasswordValid(Validate("\U{1F600}\U{1F600}Aa1!"))
    ensures !PasswordReset.ServerStrength("\U{1F600}\U{1F600}Aa1!")
  {
    var p := "\U{1F600}\U{1F600}Aa1!";
    assert Utf16Length(p) == 8 by {
      assert p[1..][1..][1..] == "a1!";
      assert AllInBmp("a1!");
    }
    assert HasUpper(p) by { assert IsAsciiUpper(p[2]); }
    assert HasLower(p) by { assert IsAsciiLower(p[3]); }
    assert HasDigit(p) by { assert IsAsciiDigit(p[4]); }
    assert HasListedSymbol(p) by { assert p[5] == '!'; }
  }

  /** The line feed is why the lemma above needs its second premise: the
      page's five tests ignore it, mixedCase does not. */
  lemma LineFeedPassesOnlyThePage()
    ensures IsPasswordValid(Validate("abc1!xyz\nQ"))
    ensures !PasswordReset.ServerStrength("abc1!xyz\nQ")
  {
    var p := "abc1!xyz\nQ";
    assert HasUpper(p) && HasLower(p) by { PasswordReset.LineFeedSplitsCases(); }
    assert HasDigit(p) by { assert IsAsciiDigit(p[3]); }
    assert HasListedSymbol(p) by { assert p[4] == '!'; }
    assert !PasswordReset.MixedCase(p) by { PasswordReset.LineFeedSplitsCases(); }
  }

  /** The converse fails: the server takes any ASCII punctuation as a
      symbol, the page only its twenty listed ones, so "Abcdef1-" passes the
      server's strength rule and is refused by the page. */
  lemma ServerAcceptsUnlistedSymbol()
    ensures PasswordReset.ServerStrength("Abcdef1-")
    ensures !IsPasswordValid(Validate("Abcdef1-"))
  {
    var p := "Abcdef1-";
    assert IsAsciiUpper(p[0]) && IsAsciiLower(p[1]) && IsAsciiDigit(p[6]);
    assert PasswordReset.IsAsciiSymbol(p[7]);
    assert forall k :: 0 <= k < |p| ==> p[k] !in SymbolChars;
  }
}
