# Wrapped: password reset, model rules and client forms in Dafny

This project models the logic of a Laravel + Next.js "year in review" application:

- **Password reset by one-time code.** `PasswordReset` models NewPasswordController over two tables:
  - the codes table, `(email, otp, expires_at)` rows;
  - the users' password hashes.

  `sendOtp` replaces an email's codes with one fresh six-digit code that lives ten minutes. `verifyOtp` is a read-only lookup. `resetPassword` repeats the lookup, stores the new hash and deletes the code, so each code is single-use.
- **Derived model behaviour.**
  - `Integrations`: encrypted OAuth tokens, token expiry, hidden attributes, one credential set per user and provider.
  - `WrappedStories`: slug and timestamp defaults on create, the public URL, and the view and share counters.
  - `AnalyticsSnapshots`: a checksum computed only when absent.
  - `Achievements`: badge display names, from a table or from a `ucwords(str_replace('_', ' ', …))` fallback.
- **Client forms.**
  - `PasswordStrength`: the five password rules and the five-segment meter, shared by the sign-up and forgot-password pages.
  - `EmailFormat`: the email regular expression.
  - `ForgotPasswordPage`: the three-step email → code → password machine, the code input's sanitiser and the error messages.
  - `SignupPage` and `LoginPage`: their guards, in order, and their status → message mapping.
- **The landing page's carousel.** `FeatureCarousel` models next/previous modulo three.

Time is a number of seconds, and `now` is a parameter. The following are parameters rather than definitions, and the model states only what it relies on from them:

- the random draw (`random_int`, `Str::random`);
- `Hash::make`;
- `Crypt` encryption, with a decrypt∘encrypt round trip;
- `json_encode` and SHA-256;
- Laravel's `email` rule;
- the breached-password lookup (`uncompromised()`);
- the outcome of each API call a page makes.

Classes hold the state that the source updates in place:

- `OtpStore` (the two tables);
- `Integration`, `WrappedStory` and `AnalyticsSnapshot` (model instances);
- `ForgotPassword`, `Signup` and `Login` (React state fields);
- `FeatureStack` (the carousel index).

Each class's methods state the new state in terms of pure functions. The lemmas are proved about those functions.

## Model

| member | source | states |
|---|---|---|
| Common.OrElse | frontend/app/login/page.tsx:52 | `message \|\| fallback`: the message when it is non-empty, the fallback when it is missing or empty |
| Common.FillIfAbsent | backend/app/Models/WrappedStory.php:60-62 | a creating hook's default: a present value is kept, a missing one becomes the default; the result is always present |
| Common.ToUpperAscii | backend/app/Models/Achievement.php:69 | upper-cases exactly the ASCII lower-case letters (minus 32) and leaves every other character alone |
| Common.InsertUnique | backend/database/migrations/2026_01_13_000001_create_integrations_table.php:36 | an INSERT under a UNIQUE index: rejected iff some row has the same key; otherwise the row is appended and uniqueness is preserved |
| Common.ErrorMessageOr | frontend/app/forgot-password/page.tsx:94 | `err.response?.data?.message \|\| fallback`: no error iff the call succeeded; otherwise the server's non-empty message, else the fallback, which is never empty |
| PasswordReset.DecimalString | backend/app/Http/Controllers/NewPasswordController.php:29 | the integer's decimal digits: at least one, all digits, a single digit iff n < 10 |
| PasswordReset.PadLeft | backend/app/Http/Controllers/NewPasswordController.php:29 | str_pad with STR_PAD_LEFT: a string already wide enough is unchanged; otherwise it is prefixed with exactly the missing number of pad characters |
| PasswordReset.DecimalRoundTrip | backend/app/Http/Controllers/NewPasswordController.php:29 | the decimal string of n parses back to n |
| PasswordReset.DecimalLength | backend/app/Http/Controllers/NewPasswordController.php:29 | a number below 10^k has at most k digits, so a draw of at most 999999 never needs truncation |
| PasswordReset.OtpCode | backend/app/Http/Controllers/NewPasswordController.php:29 | every generated code is exactly six ASCII digits and parses back to the integer drawn (leading zeros included), so distinct draws give distinct codes |
| PasswordReset.FirstMatch | backend/app/Http/Controllers/NewPasswordController.php:57-60 | the lookup's `first()`: the index of the first record with the exact email, the exact code and `expires_at > now`; None iff no record matches |
| PasswordReset.DeleteFor | backend/app/Http/Controllers/NewPasswordController.php:26 | a record survives iff it was there and belongs to another email |
| PasswordReset.RemoveAt | backend/app/Http/Controllers/NewPasswordController.php:104 | deleting the matched record removes exactly that row: the rows before it keep their places, the rows after it move up by one, and the multiset of rows loses exactly that one record |
| PasswordReset.SendLeavesOneCode | backend/app/Http/Controllers/NewPasswordController.php:26-36 | after sendOtp(e), e's only record is the one just issued (its code, expiry now + 600); every other email's records are exactly as before |
| PasswordReset.SendKeepsEmailsUnique | backend/app/Http/Controllers/NewPasswordController.php:26-36 | sendOtp keeps at most one record per email |
| PasswordReset.IssuedCodeWindow | backend/app/Http/Controllers/NewPasswordController.php:35 | the issued code verifies at time t iff t < now + 600 (at exactly now + 600 it is rejected), and no other code verifies for that email |
| PasswordReset.ConsumedCodeIsGone | backend/app/Http/Controllers/NewPasswordController.php:104 | once the matched record is deleted, no code matches for that email at any time, so a second reset with the same code fails |
| PasswordReset.RemoveKeepsEmailsUnique | backend/app/Http/Controllers/NewPasswordController.php:104 | deleting a record keeps emails unique |
| PasswordReset.MixedCase | backend/app/Http/Controllers/NewPasswordController.php:82 | mixedCase(): some lower-case and some upper-case letter, in either order, with no line feed between them |
| PasswordReset.HasSymbol | backend/app/Http/Controllers/NewPasswordController.php:82 | symbols(): some printable ASCII character that is neither a letter nor a digit |
| PasswordReset.ServerStrength | backend/app/Http/Controllers/NewPasswordController.php:82 | min(8), mixedCase(), numbers() and symbols() all hold |
| PasswordReset.ServerPasswordRule | backend/app/Http/Controllers/NewPasswordController.php:82 | the strength rule and uncompromised() both hold |
| PasswordReset.MixedCaseWithoutLineFeed | backend/app/Http/Controllers/NewPasswordController.php:82 | for a password without a line feed, mixedCase() holds iff it has an upper-case and a lower-case letter |
| PasswordReset.LineFeedSplitsCases | backend/app/Http/Controllers/NewPasswordController.php:82 | "abc1!xyz\nQ" has letters of both cases, yet mixedCase() fails on it because of the line feed between them |
| PasswordReset.Required | backend/app/Http/Controllers/NewPasswordController.php:53-54 | `required` on a string: something is left after trim(), so a blank value counts as missing |
| PasswordReset.VerifyFailures | backend/app/Http/Controllers/NewPasswordController.php:52-55 | the email field fails iff it is blank or not an email; the code fails iff it is blank or its length is not 6 |
| PasswordReset.BlankCodeIsMissing | backend/app/Http/Controllers/NewPasswordController.php:54 | six spaces have the right size but fail `required`, so the code field is refused |
| PasswordReset.DigitCodeIsPresent | backend/app/Http/Controllers/NewPasswordController.php:54 | every six-digit code passes the code field's rules |
| PasswordReset.ResetFailures | backend/app/Http/Controllers/NewPasswordController.php:79-83 | the email and code fail as in verifyOtp; the password fails iff it is blank, unconfirmed, or breaks min(8)/mixedCase/numbers/symbols/uncompromised |
| PasswordReset.OtpStore.constructor | backend/app/Http/Controllers/NewPasswordController.php:22 | a store over the given users' hashes with no codes; the store invariant holds |
| PasswordReset.OtpStore.SendOtp | backend/app/Http/Controllers/NewPasswordController.php:19-45 | succeeds iff the email passes the email rule and names a user; the table becomes DeleteFor + the issued record; a rejection changes nothing; the store invariant is kept |
| PasswordReset.OtpStore.ForgotPassword | backend/app/Http/Controllers/NewPasswordController.php:114-117 | exactly sendOtp's contract |
| PasswordReset.OtpStore.VerifyOtp | backend/app/Http/Controllers/NewPasswordController.php:50-72 | changes nothing; a malformed request is rejected naming the failing fields; otherwise succeeds iff some record matches exactly with `expires_at > now`, else "invalid or expired" |
| PasswordReset.OtpStore.ResetPassword | backend/app/Http/Controllers/NewPasswordController.php:77-109 | validation failures and lookup failures change neither table; on success the password becomes hash(new), exactly the matched record is deleted, and no code for that email matches afterwards |
| Integrations.ParseProvider | backend/database/migrations/2026_01_13_000001_create_integrations_table.php:21 | the enum accepts exactly the four provider names |
| Integrations.ProviderRoundTrip | backend/database/migrations/2026_01_13_000001_create_integrations_table.php:21 | each provider's name parses back to that provider |
| Integrations.StoredAccessToken | backend/app/Models/Integration.php:63-66 | the access token is stored as its ciphertext (the definition; its partner is ReadAccessToken) |
| Integrations.ReadAccessToken | backend/app/Models/Integration.php:71-74 | the stored access token is decrypted (the definition; its partner is StoredAccessToken) |
| Integrations.StoredRefreshToken | backend/app/Models/Integration.php:79-82 | a value is stored iff it is truthy to PHP, and then as its ciphertext; null, "" and "0" are stored as null |
| Integrations.ReadRefreshToken | backend/app/Models/Integration.php:87-90 | a falsy stored value reads as null; a truthy one is decrypted |
| Integrations.AccessTokenRoundTrip | backend/app/Models/Integration.php:63-74 | with a sound crypter, reading back the stored access token for v gives v |
| Integrations.RefreshTokenRoundTrip | backend/app/Models/Integration.php:79-90 | a truthy refresh token reads back unchanged; a falsy one reads back as null |
| Integrations.TokenExpired | backend/app/Models/Integration.php:95-101 | no expiry never expires; otherwise expired iff the expiry is strictly before now |
| Integrations.ExpiryIsPermanent | backend/app/Models/Integration.php:100 | once expired, a token stays expired at every later time |
| Integrations.Serialized | backend/app/Models/Integration.php:39-42 | the tokens never appear in the serialised attributes; every other attribute appears with its value |
| Integrations.Integration.constructor | backend/app/Models/Integration.php:21-32 | create([...]) through the mutators: the access token is stored encrypted, the refresh token as StoredRefreshToken, the other fields as given |
| Integrations.Integration.SetAccessToken | backend/app/Models/Integration.php:63-66 | the stored access token is the ciphertext of the value; nothing else changes |
| Integrations.Integration.AccessToken | backend/app/Models/Integration.php:71-74 | with a sound crypter, the accessor returns whatever token was stored |
| Integrations.Integration.SetRefreshToken | backend/app/Models/Integration.php:79-82 | the stored refresh token is StoredRefreshToken of the value; nothing else changes |
| Integrations.Integration.RefreshToken | backend/app/Models/Integration.php:87-90 | null when nothing is stored; with a sound crypter, the token that was set if it was truthy, and null otherwise |
| Integrations.Integration.IsTokenExpired | backend/app/Models/Integration.php:95-101 | never expired without an expiry; otherwise expired iff the expiry is strictly before now |
| Integrations.InsertIntegration | backend/database/migrations/2026_01_13_000001_create_integrations_table.php:36 | rejected iff the user already holds that provider; otherwise appended, keeping one row per user and provider |
| WrappedStories.SlugOnCreate | backend/app/Models/WrappedStory.php:57-59 | a truthy slug is kept; null, "" or "0" is replaced by the random one |
| WrappedStories.SlugOnCreateSettles | backend/app/Models/WrappedStory.php:57-59 | after the hook the slug is truthy, and running the hook again changes nothing |
| WrappedStories.PublicUrl | backend/app/Models/WrappedStory.php:69-75 | a URL exists iff the story is public and the slug is truthy, and it is app_url + "/wrapped/" + slug |
| WrappedStories.PublicUrlRecoversSlug | backend/app/Models/WrappedStory.php:74 | the slug is recovered from the public URL, so equal URLs mean equal slugs |
| WrappedStories.WrappedStory.PublicUrlAttribute | backend/app/Models/WrappedStory.php:69-75 | a URL exists iff the story is public and its slug truthy, and the story's slug can be read back out of it |
| WrappedStories.WrappedStory.constructor | backend/app/Models/WrappedStory.php:20-30 | create([...]) over the fillable fields: every field as given, and a view or share count left out takes the column default 0 (migration 2026_01_13_000003, lines 23-24) |
| WrappedStories.WrappedStory.Creating | backend/app/Models/WrappedStory.php:52-63 | the slug becomes SlugOnCreate, generated_at is filled only if absent, and nothing else changes |
| WrappedStories.WrappedStory.IncrementViews | backend/app/Models/WrappedStory.php:80-83 | view_count goes up by exactly one; no other modelled field changes |
| WrappedStories.WrappedStory.IncrementShares | backend/app/Models/WrappedStory.php:88-91 | share_count goes up by exactly one; no other modelled field changes |
| WrappedStories.InsertStory | backend/database/migrations/2026_01_13_000003_create_wrapped_stories_table.php:32 | rejected iff the user already has a story that year or the non-null slug is taken; otherwise appended, keeping both unique indexes |
| AnalyticsSnapshots.CalculateChecksum | backend/app/Models/AnalyticsSnapshot.php:55-58 | the checksum is the SHA-256 of the JSON encoding (the definition; its property is ChecksumFollowsEncoding) |
| AnalyticsSnapshots.ChecksumFollowsEncoding | backend/app/Models/AnalyticsSnapshot.php:55-58 | data with the same JSON encoding gets the same checksum; this follows from the definition and is the only fact the model gives about it, since both the encoder and the hash are parameters |
| AnalyticsSnapshots.ChecksumOnCreate | backend/app/Models/AnalyticsSnapshot.php:68-70 | a truthy checksum is kept; a falsy one is computed from non-empty data; with empty data it stays as it was |
| AnalyticsSnapshots.ChecksumOnCreateIdempotent | backend/app/Models/AnalyticsSnapshot.php:68-70 | running the hook twice equals running it once |
| AnalyticsSnapshots.AnalyticsSnapshot.constructor | backend/app/Models/AnalyticsSnapshot.php:26-35 | a new snapshot holds the data, checksum and created_at it was given |
| AnalyticsSnapshots.AnalyticsSnapshot.Creating | backend/app/Models/AnalyticsSnapshot.php:63-75 | the checksum becomes ChecksumOnCreate, created_at is filled only if absent, and the data is untouched |
| Achievements.ReplaceChar | backend/app/Models/Achievement.php:69 | str_replace of one character: same length, each occurrence replaced, every other character kept |
| Achievements.UcWordsFrom | backend/app/Models/Achievement.php:69 | ucwords' single pass: same length; a character is upper-cased iff it starts the string or follows a delimiter |
| Achievements.UcWords | backend/app/Models/Achievement.php:69 | ucwords: same length; exactly the word-initial characters are upper-cased |
| Achievements.BadgeName | backend/app/Models/Achievement.php:67-70 | a known type gets its table name; an unknown one gets the fallback |
| Achievements.FallbackName | backend/app/Models/Achievement.php:69 | the fallback keeps the length, turns '_' into ' ', upper-cases each word's first letter and keeps every other character |
| Achievements.TableNamesHaveNoUnderscore | backend/app/Models/Achievement.php:51-62 | no display name in the table contains '_' |
| Achievements.BadgeNameHasNoUnderscore | backend/app/Models/Achievement.php:67-70 | no badge name contains '_', from the table or the fallback |
| Achievements.AwardBadge | backend/database/migrations/2026_01_13_000004_create_achievements_table.php:27 | rejected iff the user already holds that badge type; otherwise appended, keeping one badge per type |
| PasswordStrength.Validate | frontend/app/forgot-password/page.tsx:31-39 | the five flags are exactly: a JavaScript length (UTF-16 units) ≥ 8, some A-Z, some a-z, some 0-9, some character of `!@#$%^&*(),.?":{}\|<>` |
| Common.Utf16Length | frontend/app/forgot-password/page.tsx:32 | JavaScript's `length`: between the character count and twice it, and equal to the character count within the Basic Multilingual Plane |
| PasswordStrength.IsPasswordValid | frontend/app/forgot-password/page.tsx:47 | `Object.values(validation).every(Boolean)`: all five flags hold (the signup page's line 46 is the same) |
| PasswordStrength.ValidCount | frontend/app/forgot-password/page.tsx:309 | the count is at most 5; it is 5 iff isPasswordValid, and 0 iff no flag holds |
| PasswordStrength.SegmentColor | frontend/app/signup/page.tsx:182-190 | segment k is coloured iff count ≥ k; red only for counts ≤ 2, yellow only for 3-4, green only at 5 |
| PasswordStrength.Meter | frontend/app/signup/page.tsx:182-190 | five segments, segment k coloured as SegmentColor(count, k+1) |
| PasswordStrength.MeterReadsValidity | frontend/app/forgot-password/page.tsx:308-318 | the meter fills from the left with one segment per satisfied rule, all in one colour; some segment is green iff the password is valid, and then all five are |
| PasswordStrength.PasswordFormError | frontend/app/signup/page.tsx:53-63 | no refusal iff valid and confirmed; an invalid password gets the requirements message whatever the confirmation; the mismatch message only once the strength check passes |
| PasswordStrength.ListedSymbolsAreServerSymbols | frontend/app/forgot-password/page.tsx:37 | every listed symbol is printable non-alphanumeric ASCII |
| PasswordStrength.ClientRuleImpliesServerStrength | backend/app/Http/Controllers/NewPasswordController.php:82 | a password the pages accept, without a line feed as a password input delivers it, meets the server's min(8)/mixedCase/numbers/symbols rule iff mb_strlen counts at least 8 characters, which always holds within the Basic Multilingual Plane |
| PasswordStrength.AstralPasswordPassesOnlyThePage | backend/app/Http/Controllers/NewPasswordController.php:82 | two emoji plus "Aa1!" is 8 UTF-16 units, so the pages accept it, but only 6 characters, so min(8) refuses it |
| PasswordStrength.LineFeedPassesOnlyThePage | backend/app/Http/Controllers/NewPasswordController.php:82 | "abc1!xyz\nQ" passes the pages' five tests but fails the server's mixedCase(), so the line-feed premise above is needed |
| PasswordStrength.ServerAcceptsUnlistedSymbol | frontend/app/forgot-password/page.tsx:37 | the converse fails: "Abcdef1-" meets the server's rule and is refused by the pages |
| EmailFormat.ShapeMatchesPattern | frontend/app/login/page.tsx:31 | the character-level test (no whitespace, exactly one '@' not first, a '.' at least two after it and not last) accepts exactly the strings `^[^\s@]+@[^\s@]+\.[^\s@]+$` matches |
| ForgotPasswordPage.DigitsOf | frontend/app/forgot-password/page.tsx:245 | `replace(/\D/g, '')`: only digits, never longer than the input, and a character occurs in the result iff it is a digit occurring in the input |
| ForgotPasswordPage.DigitsOfConcat | frontend/app/forgot-password/page.tsx:245 | stripping distributes over concatenation, so the digits stay in input order |
| ForgotPasswordPage.DigitsOfChar | frontend/app/forgot-password/page.tsx:245 | a single character is kept iff it is a digit (with DigitsOfConcat this fixes the result on every input) |
| ForgotPasswordPage.DigitsOfDigits | frontend/app/forgot-password/page.tsx:245 | a string of digits is left unchanged |
| ForgotPasswordPage.SanitizeOtp | frontend/app/forgot-password/page.tsx:245 | only digits, at most 6, exactly the first min(6, #digits) digits of the input in order |
| ForgotPasswordPage.SanitizeOtpIdempotent | frontend/app/forgot-password/page.tsx:245 | sanitising twice equals sanitising once, and at most six digits pass through unchanged |
| ForgotPasswordPage.SanitizeKeepsIssuedCode | frontend/app/forgot-password/page.tsx:245 | every code the server issues passes through the input unchanged |
| ForgotPasswordPage.SendOtpError | frontend/app/forgot-password/page.tsx:66-72 | no error iff success; 429 → too-many-requests; no response → network; any other status → the server's message or the default; never empty |
| ForgotPasswordPage.Enabled | frontend/app/forgot-password/page.tsx:183-277 | each event comes from the form its step renders: a send only from the email form, a verify and "Try again" only from the code form |
| ForgotPasswordPage.After | frontend/app/forgot-password/page.tsx:63 | the setStep targets (line 91 for the verify, line 267 for "Try again"): an enabled event always changes the step, and only the verify reaches the password form |
| ForgotPasswordPage.Run | frontend/app/forgot-password/page.tsx:63 | no events leave the step as it is; an event its step does not render stops the run; otherwise the run continues from that event's target |
| ForgotPasswordPage.PasswordStepNeedsVerify | frontend/app/forgot-password/page.tsx:63-91 | a run that reaches the password form contains a successful verify, preceded by a successful send unless the run began at the code form |
| ForgotPasswordPage.PasswordStepNeedsBothCalls | frontend/app/forgot-password/page.tsx:63-91 | from the email form, the password form takes a successful send and, later, a successful verify |
| ForgotPasswordPage.PasswordStepIsFinal | frontend/app/forgot-password/page.tsx:100-135 | no event leaves the password form |
| ForgotPasswordPage.ForgotPassword.constructor | frontend/app/forgot-password/page.tsx:14-29 | the page starts on the email form with empty fields, no error and an invalid password |
| ForgotPasswordPage.ForgotPassword.HandleSendOtp | frontend/app/forgot-password/page.tsx:49-76 | a call goes out iff the email is non-empty and matches the pattern; otherwise the invalid-email error on the same form; after a call the error is SendOtpError, and the form moves to the code form iff the call succeeded; loading ends false |
| ForgotPasswordPage.ForgotPassword.HandleVerifyOtp | frontend/app/forgot-password/page.tsx:78-98 | a call goes out iff the code is six long (and it is all digits); otherwise the 6-digit error on the same form; the form moves to the password form iff the call succeeded; loading ends false |
| ForgotPasswordPage.ForgotPassword.HandleResetPassword | frontend/app/forgot-password/page.tsx:100-135 | strength first, then confirmation, and no call if either fails; a password sent meets the server's strength rule iff it has at least 8 characters, and always within the Basic Multilingual Plane; loading ends false |
| ForgotPasswordPage.ForgotPassword.OnEmailChange | frontend/app/forgot-password/page.tsx:205-208 | the email is the typed value and the error is cleared |
| ForgotPasswordPage.ForgotPassword.OnOtpChange | frontend/app/forgot-password/page.tsx:244-248 | the code is the sanitised value and the error is cleared |
| ForgotPasswordPage.ForgotPassword.OnPasswordChange | frontend/app/forgot-password/page.tsx:41-45 | the password is the value (an input's value holds no line feed) and the flags are Validate of it |
| ForgotPasswordPage.ForgotPassword.OnConfirmationChange | frontend/app/forgot-password/page.tsx:331 | the confirmation is the value |
| ForgotPasswordPage.ForgotPassword.TryAgain | frontend/app/forgot-password/page.tsx:267 | "Try again" returns the code form to the email form |
| SignupPage.Signup.constructor | frontend/app/signup/page.tsx:14-28 | the form starts empty, with no error and no rule satisfied |
| SignupPage.Signup.OnNameChange | frontend/app/signup/page.tsx:139 | the name is the value; the error is left as it is |
| SignupPage.Signup.OnEmailChange | frontend/app/signup/page.tsx:155 | the email is the value; the error is left as it is |
| SignupPage.Signup.OnPasswordChange | frontend/app/signup/page.tsx:40-44 | the password is the value (an input's value holds no line feed) and the flags are Validate of it |
| SignupPage.Signup.OnConfirmationChange | frontend/app/signup/page.tsx:209 | the confirmation is the value |
| SignupPage.Signup.HandleRegister | frontend/app/signup/page.tsx:48-81 | a call goes out iff the password is valid and confirmed; the requirements error comes before the mismatch error; after a call, the server's message or the default; a password sent meets the server's strength rule iff it has at least 8 characters, and always within the Basic Multilingual Plane; loading ends false |
| LoginPage.LoginError | frontend/app/login/page.tsx:45-53 | no error iff success; 422 → invalid credentials; 429 → too many attempts; no response → network; otherwise the server's message or the default; never empty |
| LoginPage.LoginFormError | frontend/app/login/page.tsx:25-35 | no refusal iff both fields are filled and the email matches; an empty field gets "fill in all fields" before the email is checked |
| LoginPage.ServerMessageShownOnlyForOtherStatuses | frontend/app/login/page.tsx:45-53 | a server message shows iff the status is neither 422 nor 429 and the server sent that message |
| LoginPage.Login.constructor | frontend/app/login/page.tsx:14-17 | both fields empty, no error |
| LoginPage.Login.HandleLogin | frontend/app/login/page.tsx:19-57 | a call goes out iff LoginFormError finds nothing; otherwise that error; after a call, LoginError; loading ends false on every path |
| LoginPage.Login.OnEmailChange | frontend/app/login/page.tsx:146-149 | the email is the value and any error is cleared |
| LoginPage.Login.OnPasswordChange | frontend/app/login/page.tsx:176-179 | the password is the value and any error is cleared |
| FeatureCarousel.JsRem | frontend/components/feature-stack.tsx:12 | JavaScript's `%`: the Euclidean remainder for a non-negative dividend, its negation for a negative one, strictly between -n and n |
| FeatureCarousel.NextIndex | frontend/components/feature-stack.tsx:11-13 | from a card index, the next card's index: one up, wrapping from the last card to the first |
| FeatureCarousel.PrevIndex | frontend/components/feature-stack.tsx:15-17 | from a card index, the previous card's index: one down, wrapping from the first card to the last |
| FeatureCarousel.PrevNeedsOffset | frontend/components/feature-stack.tsx:16 | without the `+ items.length`, the first card's predecessor would be -1 |
| FeatureCarousel.NextPrevInverse | frontend/components/feature-stack.tsx:11-17 | next then previous, and previous then next, restore the index |
| FeatureCarousel.FullTurnReturns | frontend/components/feature-stack.tsx:12 | three nexts return to the starting card |
| FeatureCarousel.ApplyLands | frontend/components/feature-stack.tsx:8-17 | any sequence of presses stays in [0, 3) and lands at (start + #next − #prev) mod 3 |
| FeatureCarousel.RenderedCardIsTheIndexedOne | frontend/components/feature-stack.tsx:38-40 | exactly one card is rendered, the one at `index`; an index off the ring would render none |
| FeatureCarousel.FeatureStack.Rendered | frontend/components/feature-stack.tsx:38-40 | the component renders the card at its index, and only that card |
| FeatureCarousel.FeatureStack.constructor | frontend/components/feature-stack.tsx:8 | the index starts at 0 |
| FeatureCarousel.FeatureStack.NextCard | frontend/components/feature-stack.tsx:11-13 | the index becomes NextIndex of the old one and stays in range |
| FeatureCarousel.FeatureStack.PrevCard | frontend/components/feature-stack.tsx:15-17 | the index becomes PrevIndex of the old one and stays in range |

## Left out

- Mail delivery (PasswordResetOtpNotification), the `throttle` rate limits, the route tables and the email-verification route are not modelled. They decide who may call the controller, not what it does to its tables.
- AuthController (register, login, logout) is not part of this model. It wraps framework calls whose code is not visible: `Auth::attempt`, sessions, transactions and events.
- `random_int`, `Str::random`, `Hash::make`, `Crypt`, `json_encode` and SHA-256 are parameters. Their results are what the model assumes of them, each stated where it is used:
  - `random_int(0, 999999)` draws at most 999999 (the `drawn <= MaxOtp` premise of SendOtp, AfterSend and the lemmas about them);
  - `Str::random(12)` returns twelve ASCII letters and digits (`IsRandomSlug`, a premise of Creating and SlugOnCreateSettles);
  - decryption undoes encryption, and a ciphertext is truthy (`Sound`, a premise of the token round trips);
  - a SHA-256 digest is truthy (the premise of ChecksumOnCreateIdempotent);
  - `Hash::make` and `json_encode` are left unconstrained.
- Laravel's `email` rule and the `uncompromised()` breached-password lookup are predicate parameters, left unconstrained. The lookup is a network call.
- PasswordReset.ServerStrength: Laravel's Unicode classes (\p{Lu}, \p{Ll}, \p{N} and \p{Z}|\p{S}|\p{P}) are read over ASCII only. Non-ASCII letters, digits and symbols are not counted. The line-feed rule of mixedCase's `.` is modelled.
- The pages' password inputs are taken to deliver values without line feeds, as a browser's password input does (it strips line breaks). The OnPasswordChange handlers require it, and the pages' invariants keep it.
- Timestamps are whole seconds. Carbon's sub-second precision and time zones are not modelled.
- Concurrent requests are not modelled. This covers two sendOtp calls racing on one email, and parallel counter increments. The database is left to settle them.
- WrappedStories.WrappedStory.IncrementViews: does not model the `updated_at` bump that Eloquent's increment() also performs, or the unsigned 32-bit overflow of the column, because the counters are unbounded naturals here.
- WrappedStories.WrappedStory.IncrementShares: does not model the `updated_at` bump of increment() or the unsigned 32-bit overflow of the column, for the same reason.
- Achievements.BadgeName: the model does not prove that the table's names agree with what the fallback would produce for the ten known types. Unfolding the string functions on those literals is beyond the solver's budget. The table lookup itself is modelled exactly.
- The request strings reach the controller as sent. Laravel's default TrimStrings and ConvertEmptyStringsToNull middleware, which trim them and turn "" into null before validation, are not modelled; `Required` applies the trim that `required` does itself.
- The pages' submit handlers are modelled as invoked. The browser's constraint validation that runs before them is not modelled. On forms without `noValidate` it blocks a submit with an empty `required` input or a malformed `type="email"` address. The sign-up form and the forgot-password page's code and password forms are such forms, so the model's handlers also cover submits the browser would have stopped.
- The pages' handlers run atomically. The outcome of each awaited call is a parameter, and no other event interleaves during the await. The `finally` that clears `loading` is the last step of each handler.
- `router.push`, the `setTimeout` redirect after a reset, the axios interceptor and `console.error` are not modelled.
- The password length test is modelled in UTF-16 units (`Utf16Length`). The other JavaScript lengths, of the six-digit code, are taken as `|s|`, which counts characters: the code input keeps only ASCII digits, where the two agree.
- `EmailFormat.IsJsSpace` lists JavaScript's \s set: the ASCII spaces, U+00A0, U+1680, U+2000-U+200A, U+2028, U+2029, U+202F, U+205F, U+3000 and U+FEFF.
- The feature carousel's card contents, animations and `Math.sin` waveform heights are presentation only and are not modelled.
- Relations (`belongsTo`, `hasMany`), casts, and foreign keys with their cascades are not modelled.
