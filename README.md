# neighborsos — a verified model of the request gates, the send-email route, the input sanitisers and the donation pages

neighborsos is a web site where charities post urgent needs and families to
sponsor, and neighbours pledge items or money. This project models its core
logic in Dafny and proves what that logic promises:

- **the early-access gates**: the edge interceptor in `middleware.ts`
  (exempt prefixes, session token, whitelist lookup, fail-closed redirect to
  `/coming-soon`), the path-only interceptor in `lib/middleware.ts`, the
  route filter both declare, and the client-side `ProtectedRoute` guard;
- **the send-email route**: the client address, the single-pass
  `sanitizeInput`, `isValidEmail`, and the ordered checks of `POST`;
- **the sanitisers** of `lib/sanitize.ts` (phone, zip code, email, number);
- **sign-up and password reset**: the password rules, the phone mask, the
  new charity record, the reset-link session check and the three-way render;
- **the urgent-needs page and the home page**: filtering, urgency colours,
  the claim arithmetic and its confirmation text, the quantity stepper, the
  zip field, the sort by distance, charity suggestions, the auto-scroll
  step, the tile heights and the accent colours. The home page reuses the
  claim update, stepper and zip field of the needs page, which the source
  duplicates line for line, and the comparator sort; its distance lookup
  differs (it falls back to looking the charity up by name, and sorts all
  current needs rather than the filtered list), as `HomeWithDistances`
  states;
- **adopt a family**: the listing, the pledge checks, the committed total and
  status, the funding percentage, remaining amount and colour, the friend
  invitations and the editing and reset of the sponsorship form.

Pure code (the gates, the sanitisers, the colour and arithmetic helpers) is
modelled as functions with lemmas. Code that changes React state step by
step (`ProtectedRoute`, the sign-up, reset and claim forms, the sponsorship
form, the scroll container) is modelled as classes whose methods state
their whole new state. The phone formatter's loop of appends, the filter and
the claim update's conditional field assignments are methods proved
against specification functions.

Every external service is an input of the model. An awaited call that may
throw is a `Call<T>` (`Threw` or `Returned(value)`). This covers the
Supabase auth and database calls, the rate limiter, the Resend mail API,
DOMPurify, the distance lookup and `parseFloat`.

JavaScript semantics are written out where they matter:
- `\s` is the JavaScript white-space set.
- `toLowerCase` is modelled for ASCII letters.
- `parseInt` reads an optional sign and a leading run of decimal digits after white space.
- Money is an exact `real`. A division by zero is modelled as the
  `Infinity`/`NaN` outcome the page would compute.

## Model

| member | source | states |
|---|---|---|
| EdgeGate.Middleware | middleware.ts:5-64 | an exempt pathname is always let through; a redirect always goes to the request URL with only the pathname changed; a non-exempt request passes iff the token resolves to an email on the early-access list, and every failure redirects |
| EdgeGate.ToComingSoon | middleware.ts:61-63 | the redirect target keeps origin, query and fragment and sets the pathname to `/coming-soon` |
| EdgeGate.PrefixesAreNotSegments | middleware.ts:9-18 | `/apiary`, `/administrator`, `/login-help` and `/favicon.png` are exempt, because the match is by prefix |
| EdgeGate.NoTokenRedirected | middleware.ts:23-25 | a non-exempt request with no or an empty session token is redirected |
| EdgeGate.FailClosed | middleware.ts:40-63 | a non-exempt request whose auth call or whitelist lookup throws, or whose user has no email, is redirected, never let through |
| EdgeGate.NoRedirectLoop | middleware.ts:12 | following a redirect reaches a request the gate lets through |
| EdgeGate.GrantAndRevoke | middleware.ts:44-53 | adding the resolved email to the list lets the request through; removing it redirects (exact match) |
| EdgeGate.Gate | middleware.ts:66-70 | requests outside the route filter pass untouched; the rest get the interceptor's decision |
| Http.AssetsNotMatched | middleware.ts:68 | `_next/static`, `_next/image` and `favicon.ico` paths are outside the route filter |
| Http.ImagesNotMatched | middleware.ts:68 | image files (`.png`, `.jpeg`) are outside the route filter |
| Http.ImagePathsNotMatched | middleware.ts:68 | every path ending in `.png`, `.jpg`, `.jpeg`, `.gif` or `.svg` is outside the route filter |
| Http.AssetTreesNotMatched | middleware.ts:68 | every path under `/_next/static` or `/_next/image` is outside the route filter |
| Http.PagesMatched | middleware.ts:68 | ordinary pages and the root are inside the route filter |
| PathGate.Middleware | lib/middleware.ts:4-24 | the request passes iff its pathname starts with `/admin`, `/login`, `/coming-soon` or `/api`; otherwise it is redirected to `/coming-soon` on the same origin |
| PathGate.ComingSoonUrl | lib/middleware.ts:23 | the redirect target is `/coming-soon` on the request's origin, without query or fragment |
| PathGate.DependsOnlyOnPathname | lib/middleware.ts:4-24 | two requests with the same pathname get the same verdict, and the same decision on the same origin |
| PathGate.AllowedHereAllowedByEdgeGate | lib/middleware.ts:8-20 | every path this gate lets through is exempt in `middleware.ts`, whatever the token and the whitelist |
| PathGate.NoRedirectLoop | lib/middleware.ts:13-15 | following the redirect reaches a request the gate lets through |
| ProtectedRoute.Guard.constructor | app/components/ProtectedRoute.tsx:9-10 | the guard starts loading, without access and without redirects |
| ProtectedRoute.Guard.CheckAccess | app/components/ProtectedRoute.tsx:13-48 | loading ends on every path; access is granted iff a user with an email is on the whitelist; otherwise exactly one redirect to `/coming-soon` is pushed |
| ProtectedRoute.Guard.Render | app/components/ProtectedRoute.tsx:53-68 | spinner iff loading; children iff loaded with access; nothing iff loaded without access |
| ProtectedRoute.Mount | app/components/ProtectedRoute.tsx:13-68 | after mounting, the children show iff the whitelist grants access, and otherwise nothing shows and one redirect happened |
| SendEmailRoute.FirstField | app/api/send-email/route.ts:10 | the first comma-separated field is the prefix up to the first comma |
| SendEmailRoute.GetClientIp | app/api/send-email/route.ts:5-18 | the trimmed first field of a non-empty `x-forwarded-for`, else a non-empty `x-real-ip`, else `unknown` |
| SendEmailRoute.LeadingCommaGivesEmptyAddress | app/api/send-email/route.ts:9-10 | a forwarded header starting with a comma yields the empty address |
| SendEmailRoute.MatchLength | app/api/send-email/route.ts:23-27 | a pattern match is a prefix of the text that contains the pattern's marker character |
| SendEmailRoute.ReplaceAll | app/api/send-email/route.ts:23-27 | one global replace with `''` yields a subsequence of its input |
| SendEmailRoute.ReplaceAllKeepsMarkerFree | app/api/send-email/route.ts:23-27 | text without the pattern's marker character is left unchanged |
| SendEmailRoute.SanitizeInputDeletesOnly | app/api/send-email/route.ts:21-28 | `sanitizeInput` only deletes: its output is a subsequence of its input and no longer |
| SendEmailRoute.SanitizeInputKeepsPlainText | app/api/send-email/route.ts:21-28 | text with no `<`, `:` or `=` is returned unchanged |
| SendEmailRoute.ValidEmailParts | app/api/send-email/route.ts:31-34 | an accepted address splits as local `@` domain `.` suffix with non-empty parts free of white space and `@` |
| SendEmailRoute.ShapeIsValidEmail | app/api/send-email/route.ts:31-34 | every address of that shape is accepted |
| SendEmailRoute.IsValidEmailMatchesRegex | app/api/send-email/route.ts:32 | the scanner accepts exactly the strings the email regex matches |
| SendEmailRoute.Post | app/api/send-email/route.ts:36-161 | a limiter that throws answers 500; a mail is sent only when the limiter admitted the request and every check passed: fields present, valid address, matching key if given, sanitised html within 50000, Resend key set; the mail handed over is the address with the sanitised subject and html, and the answer carries the provider's id and the limiter's remaining count |
| SendEmailRoute.RateLimitComesFirst | app/api/send-email/route.ts:42-61 | a refused limit answers 429 with the limiter's numbers whatever the body, and the reset and remaining headers read back as those numbers |
| SendEmailRoute.ChecksInOrder | app/api/send-email/route.ts:68-114 | each failure response happens iff every earlier check passed and this one failed: missing fields, invalid address, wrong key, too large, not configured |
| SendEmailRoute.DeliversSanitizedMail | app/api/send-email/route.ts:93-150 | once every check passes, the provider receives the address with the sanitised subject and html; a throw answers 500, a reply that is not ok passes its status on, an ok reply answers with its id and the limiter's remaining count |
| SendEmailRoute.AbsentKeyPasses | app/api/send-email/route.ts:85-91 | a request without a key never gets 401 |
| SendEmailRoute.SizeLimitOnSanitizedHtml | app/api/send-email/route.ts:94-103 | the size limit is judged on the sanitised html: raw html within the limit never fails it, and failing it means the sanitised html is over it |
| Text.Trim | app/api/send-email/route.ts:10 | `trim` returns the slice between leading and trailing white space, which neither starts nor ends with white space |
| Text.DigitsKeepsEveryDigit | app/needs/page.tsx:347 | `replace(/\D/g, '')` is the filter of the digits: it keeps every digit, as often as it occurs and in order, and nothing else |
| Text.ParseIntNatToString | app/api/send-email/route.ts:55-57 | reading back the decimal text of a count gives the count |
| Sanitize.SanitizeText | lib/sanitize.ts:7-19 | empty input gives `''`; otherwise exactly the purified text trimmed, which neither starts nor ends with white space |
| Sanitize.LowerKeepsValidEmail | lib/sanitize.ts:56 | lower-casing a valid address keeps it valid |
| Sanitize.SanitizeEmail | lib/sanitize.ts:44-57 | empty input gives `''`; it fails iff the cleaned text fails the email regex; otherwise it returns exactly the cleaned text lower-cased, which is still valid and already lower case |
| Sanitize.SanitizeEmailIdempotent | lib/sanitize.ts:44-57 | sanitising an accepted address again returns the same result (when DOMPurify leaves it alone), and the stored address passes the route's `isValidEmail` |
| Sanitize.SanitizeNumber | lib/sanitize.ts:62-78 | accepted iff within the given bounds, and then returned unchanged; below `min` and above `max` give their own errors |
| Sanitize.UnboundedNumberAccepted | lib/sanitize.ts:69-77 | omitted bounds impose nothing |
| Sanitize.PhoneFormat | lib/sanitize.ts:95 | ten digits format as `(ddd) ddd-dddd` whose digits are those ten |
| Sanitize.SanitizePhone | lib/sanitize.ts:83-96 | empty gives `''`; succeeds iff there are exactly ten digits, and then returns the formatted number carrying the input's digits in order |
| Sanitize.SanitizePhoneIdempotent | lib/sanitize.ts:83-96 | sanitising a sanitised phone number changes nothing |
| Sanitize.SanitizeZipCode | lib/sanitize.ts:101-113 | empty gives `''`; succeeds iff there are exactly five digits, and returns them |
| Sanitize.SanitizeZipCodeIdempotent | lib/sanitize.ts:101-113 | sanitising a sanitised zip code changes nothing |
| Signup.PasswordProblemOf | app/signup/page.tsx:25-35 | no problem iff the passwords match and have at least 8 characters; a mismatch is reported before the length |
| Signup.Substring | app/signup/page.tsx:156-162 | `substring` with its clamping of an end past the string |
| Signup.FormatPhoneInput | app/signup/page.tsx:151-166 | the formatter's successive appends build the phone mask of the input's digits |
| Signup.PhoneMaskKeepsDigits | app/signup/page.tsx:152-163 | the mask carries the first ten digits, in order, and no others |
| Signup.PhoneMaskFitsField | app/signup/page.tsx:169 | the mask is at most 14 characters, the field's `maxLength` |
| Signup.PhoneMaskOfNoDigits | app/signup/page.tsx:155-157 | input without digits gives `''` |
| Signup.PhoneMaskAgreesWithSanitizePhone | app/signup/page.tsx:155-163 | for ten digits the mask is exactly what `sanitizePhone` returns |
| Signup.PhoneMaskUsesTenDigits | app/signup/page.tsx:162 | digits past the tenth do not change the mask |
| Signup.PhoneMaskIdempotent | app/signup/page.tsx:151-166 | reformatting the formatter's own output leaves it unchanged |
| Signup.NewCharity | app/signup/page.tsx:50-59 | the inserted charity keeps the entered fields and is never verified |
| Signup.SignupForm.constructor | app/signup/page.tsx:8-16 | the form starts empty, not loading, with no error and no calls made |
| Signup.SignupForm.HandleSignup | app/signup/page.tsx:19-69 | a password problem sets its message and calls nothing; otherwise sign-up is requested; a failed sign-up or insert sets the error; success inserts an unverified charity and navigates; loading ends |
| Signup.SubmitOnce | app/signup/page.tsx:19-69 | sign-up is requested iff the password rules hold, and every stored charity is unverified |
| ResetPassword.ResetForm.constructor | app/reset-password/page.tsx:8-13 | the form starts validating, empty, without error or update |
| ResetPassword.ResetForm.CheckSession | app/reset-password/page.tsx:18-27 | validation ends; a missing session sets "Invalid or expired reset link"; nothing else changes |
| ResetPassword.ResetForm.HandleUpdatePassword | app/reset-password/page.tsx:32-63 | the password is updated only when the rules hold; a failure sets the error; success sets the message and schedules the redirect; loading ends either way |
| ResetPassword.ResetForm.Render | app/reset-password/page.tsx:65-95 | validating view iff validating; invalid-link view iff an error with an empty password; the form otherwise |
| ResetPassword.Mount | app/reset-password/page.tsx:18-95 | after the session check the page shows the invalid-link view iff there is no session |
| ResetPassword.SubmitOnValidLink | app/reset-password/page.tsx:32-95 | on a valid link an update happens iff the rules hold, and the form stays visible iff a password was typed |
| NeedsPage.CategoryOrOther | app/needs/page.tsx:68 | a missing or empty category becomes `other` |
| NeedsPage.FilterNeeds | app/needs/page.tsx:80-96 | an order-preserving subsequence holding exactly the needs matching the category and the query; `all` with an empty query keeps every need |
| NeedsPage.UrgencyBands | app/needs/page.tsx:244-249 | red iff at most 12 hours, orange iff 12–24, yellow iff 24–48, blue beyond; later deadlines are never more urgent |
| NeedsPage.BuildUpdate | app/needs/page.tsx:158-169 | the update object built step by step is the claim update |
| NeedsPage.ClaimOutcome | app/needs/page.tsx:158-169 | the stored quantity is `max(0, quantity − donated)`; the need is claimed by the donor iff donated ≥ quantity, and otherwise only the quantity changes |
| NeedsPage.ClaimsAddUp | app/needs/page.tsx:158-169 | two partial claims leave what one claim of their sum would |
| NeedsPage.StepperStaysInRange | app/needs/page.tsx:512 | decrement, increment and typed input keep the quantity within [1, available]; unparsable input gives 1 and in-range input is taken as typed |
| NeedsPage.ClaimModal.constructor | app/needs/page.tsx:15-19 | the modal starts closed with empty entries and quantity 1 |
| NeedsPage.ClaimModal.Open | app/needs/page.tsx:421-424 | opening selects the need and sets the quantity to 1 |
| NeedsPage.ClaimModal.DecreaseQuantity | app/needs/page.tsx:512 | the minus button decrements, never below 1, and keeps the quantity in range |
| NeedsPage.ClaimModal.IncreaseQuantity | app/needs/page.tsx:529 | the plus button increments, never above the need's quantity |
| NeedsPage.ClaimModal.TypeQuantity | app/needs/page.tsx:520-523 | typed input is clamped into range |
| NeedsPage.ClaimModal.Cancel | app/needs/page.tsx:566-571 | cancel closes the modal and clears the entries |
| NeedsPage.ClaimModal.HandleClaimItem | app/needs/page.tsx:153-242 | without email, name or selection nothing happens and the entries stay; otherwise the claim update is written; a failed write keeps the modal; success mails donor and charity and resets the modal |
| NeedsPage.ZipInput | app/needs/page.tsx:347 | the field holds the first min(5, n) of the n typed digits, and nothing else |
| NeedsPage.ZipInputIdempotent | app/needs/page.tsx:347 | retyping the field's content changes nothing |
| NeedsPage.WithDistances | app/needs/page.tsx:135-146 | each shown need gets its distance, and 999 when it has no zip |
| NeedsPage.Insert | app/needs/page.tsx:149 | inserting into a sorted list keeps it sorted and adds exactly one element |
| NeedsPage.SortByDistance | app/needs/page.tsx:149 | the result is ordered by non-decreasing distance and a permutation of the input |
| NeedsPage.SortByDistanceStable | app/needs/page.tsx:149 | the sort is stable: entries at the same distance keep their order |
| NeedsPage.HandleSortByDistance | app/needs/page.tsx:129-151 | refuses unless the zip has five characters; then a sorted permutation of the needs with their distances |
| NeedsPage.SortKeepsNeeds | app/needs/page.tsx:129-151 | the sorted list holds the same needs as the shown list, each with its own distance |
| NeedsPage.Distinct | app/needs/page.tsx:289 | `new Set` keeps the same members, without repeats, as a subsequence of the input in first-seen order |
| NeedsPage.CharityNames | app/needs/page.tsx:289 | the map over the needs: one name per need, the i-th being the i-th need's charity |
| NeedsPage.Suggestions | app/needs/page.tsx:289-293 | at most 8 distinct charity names, each containing the query case-insensitively, in first-seen order; a matching name is left out only when 8 names that come before it are offered |
| NeedsPage.FirstEightOfFilter | app/needs/page.tsx:289-293 | the first 8 of the distinct matching names are in first-seen order, and any matching name missing from them is preceded by all 8 |
| HomePage.ScrollContainer.constructor | app/page.tsx:68-74 | the container starts at the top, with content that fits |
| HomePage.ScrollContainer.Tick | app/page.tsx:68-74 | one step goes back to 0 at the bottom and otherwise advances by 1, keeping the view inside the content |
| HomePage.ScrollCycles | app/page.tsx:68-74 | from the top the container climbs one pixel per step to the bottom and then returns to 0 |
| HomePage.TileHeight | app/page.tsx:95 | every tile height comes from the 8-entry list |
| HomePage.TileHeightsCycle | app/page.tsx:95 | heights repeat with period 8 and every 8 consecutive tiles use all 8 heights |
| HomePage.AccentColor | app/page.tsx:286-293 | mint, navy and coral map to their gradients; anything else maps to the default |
| HomePage.ConfirmationMatchesClaim | app/page.tsx:249-251 | the text says fully fulfilled iff the claim marks the need claimed; otherwise it names the quantity still needed |
| HomePage.NewlinesToBreaks | app/page.tsx:193 | the replacement leaves no newline and leaves newline-free text alone |
| HomePage.NewlinesToBreaksConcat | app/page.tsx:193 | the replacement of a concatenation is the concatenation of the replacements |
| HomePage.NewlinesToBreaksChar | app/page.tsx:193 | a newline becomes `<br>` and every other character stays |
| HomePage.DefaultInstructionsOnOneLine | app/page.tsx:193 | the default instructions hold no newline |
| HomePage.Instructions | app/page.tsx:193 | a charity without an auto-response gets the default "will contact you within 24 hours" text; an auto-response gets its newlines replaced by `<br>`, and the result holds no newline |
| HomePage.HandleClaimItem | app/page.tsx:131-284 | without email, name or selection nothing happens; otherwise the needs-page claim update is written, and the confirmation shows unless the write fails; it is the confirmation text of the claim, saying fulfilled iff claimed |
| HomePage.HomeWithDistances | app/page.tsx:295-333 | each need gets the distance from its own zip, else the zip looked up by charity name, else 999 |
| HomePage.HandleSortByDistance | app/page.tsx:295-333 | refuses unless the zip has five characters; then a sorted permutation of the needs with their distances |
| HomePage.FallbackOnlyWhenZipMissing | app/page.tsx:306-320 | the lookup by charity name is used only when the need has no zip |
| AdoptAFamily.ListedFamilies | app/adopt-a-family/page.tsx:29 | the listing is an order-preserving subsequence holding exactly the families not fully adopted |
| AdoptAFamily.Remaining | app/adopt-a-family/page.tsx:376 | remaining is at least 0 and at least cost − committed, is 0 iff committed ≥ cost, and otherwise tops the total up to the cost |
| AdoptAFamily.PercentFunded | app/adopt-a-family/page.tsx:375 | for a positive cost the percentage is at most 100, at least 0 for a non-negative total, and 100 iff committed ≥ cost; a zero cost gives 100 or NaN |
| AdoptAFamily.StatusColor | app/adopt-a-family/page.tsx:306-311 | green iff committed ≥ cost, yellow iff at least half funded but not fully, purple iff under half |
| AdoptAFamily.FundingFiguresAgree | app/adopt-a-family/page.tsx:306-376 | nothing remaining, 100 percent and green coincide |
| AdoptAFamily.CheckPledge | app/adopt-a-family/page.tsx:37-43 | a pledge is accepted iff every field is filled and the amount parses to a positive number, which is the amount used |
| AdoptAFamily.Sponsored | app/adopt-a-family/page.tsx:62-71 | the total grows by the amount; the status becomes fully adopted iff nothing remains, else partially adopted, never available |
| AdoptAFamily.StillNeeded | app/adopt-a-family/page.tsx:146-149 | the donor mail names a positive remaining amount iff the family is not fully funded |
| AdoptAFamily.StillNeededOnlyWhenPartial | app/adopt-a-family/page.tsx:146-149 | the still-needed line appears iff the family became partially adopted |
| AdoptAFamily.PledgesAddUp | app/adopt-a-family/page.tsx:62-71 | successive pledges add up to their sum, and the family stays listed iff the total is under the cost |
| AdoptAFamily.PledgesOnlyIncrease | app/adopt-a-family/page.tsx:62 | positive pledges strictly raise the committed total |
| AdoptAFamily.Invitees | app/adopt-a-family/page.tsx:222-225 | only a split sponsorship invites friends: exactly the non-empty entries containing `@`, in list order, each as often as it was entered |
| AdoptAFamily.SponsorForm.constructor | app/adopt-a-family/page.tsx:7-16 | the form starts at its defaults: partial sponsorship and one empty friend entry |
| AdoptAFamily.SponsorForm.Select | app/adopt-a-family/page.tsx:500-501 | choosing a family pre-fills the amount with what remains |
| AdoptAFamily.SponsorForm.ChooseKind | app/adopt-a-family/page.tsx:587 | the radio buttons set only the sponsorship kind |
| AdoptAFamily.SponsorForm.EditFriend | app/adopt-a-family/page.tsx:669-673 | editing replaces only entry i |
| AdoptAFamily.SponsorForm.RemoveFriend | app/adopt-a-family/page.tsx:677-687 | removing deletes exactly entry i and is offered only with more than one entry, so the list never empties |
| AdoptAFamily.SponsorForm.AddFriend | app/adopt-a-family/page.tsx:692 | adding appends an empty entry |
| AdoptAFamily.SponsorForm.Cancel | app/adopt-a-family/page.tsx:731-739 | cancel resets the form to its defaults |
| AdoptAFamily.SponsorForm.Commit | app/adopt-a-family/page.tsx:45-303 | the adoption is recorded; a failed insert or update raises its own alert, mails nothing and leaves every entry as typed; otherwise the family gets the sponsored total, donor, charity and invitees are mailed and the form resets |
| AdoptAFamily.SponsorForm.HandleAdoptFamily | app/adopt-a-family/page.tsx:36-304 | a rejected pledge writes and sends nothing (only an amount alert); an accepted one is committed with the parsed amount, and a failed write alerts and keeps the entries |

## Left out

- The rate limiter of `lib/rate-limit.ts` is a configured third-party sliding window; its answer is an input of `SendEmailRoute.Post`.
- CSRF tokens (`lib/csrf.ts`, the token route and its hook) wrap a third-party library and do cookie and fetch I/O.
- `sanitizeHtml` and the inside of DOMPurify are foreign code; `sanitizeText` takes DOMPurify as a function parameter.
- Sanitize.SanitizeNumber: takes a number only; a string input goes through `parseFloat`, whose NaN and `isFinite` checks are floating-point parsing.
- SendEmailRoute.ReplaceAll: states deletion only, not that patterns are absent afterwards, since one replace pass can leave `javascript:` behind (`javajavascript:script:`).
- The Haversine distance and the zip-code API are one function parameter of the sort; network failure is its 999 result.
- Supabase auth and database calls and the Resend HTTP call are inputs (a result, or a thrown error); refetching the lists after a write is left out.
- The pages' `fetch('/api/send-email')` calls are taken to resolve. A rejected fetch, which the pages do not catch, would leave the form submitting and filled with no thank-you alert; that path is not modelled.
- SendEmailRoute.Post: the body's fields are strings. A non-string `subject` or `html` makes `sanitizeInput` throw, which the route's outer catch answers with 500 (`app/api/send-email/route.ts:93-94`, `154-159`); that path is not modelled.
- The database `order by` of the queries is left out: the `urgency_hours` order of the needs queries (`app/needs/page.tsx:56`, `app/page.tsx:109`, `260`, `346`) and the `urgency_date` order of the family listing (`app/adopt-a-family/page.tsx:30`); the lists are taken in the order the database returns.
- The HTML of the e-mails, `toLocaleDateString`, the ISO date in the 429 body and the text of the alerts are presentation.
- `setTimeout` and `setInterval` timing is left out; only the step of the scroll is modelled.
- `console` logging in `ProtectedRoute` is left out.
- `toLowerCase` is modelled for ASCII letters only; string lengths count characters, not UTF-16 code units.
- Money is exact arithmetic on reals; floating-point rounding of totals and percentages is left out.
- `parseInt` is modelled for decimal text; its reading of a `0x` prefix as hexadecimal is left out.
- The CRUD pages (`app/charities`, `app/charities/families`, `app/admin`) and the static pages are database glue or markup.
- The route filter is modelled as a case-sensitive match of its pattern (`middleware.ts:68`), so `/LOGO.PNG` is inside it; the framework's own matching flags are not part of this model.
- Plain field setters of the forms (`onChange` that stores the typed text) are left out.
