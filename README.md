# Account registration app: a Dafny model

The system is a brokerage onboarding web application. It has two halves:

- an Encore (TypeScript) backend of authentication endpoints:
  - mock login and registration;
  - the "remember me" cookie that `set-login-cookie` writes and `auto-login` reads back;
  - the cookie reset;
  - the IP-to-country lookup.
- a React frontend:
  - the registration, login and forgot-password forms;
  - the session and per-user form-progress contexts;
  - the route table;
  - a thirteen-screen onboarding wizard (`MultiStepContainer`) with its four-step progress bar (`Stepper`), its screen switch (`StepContent`) and the personal-details and residence screens.
  - three further components, `PersonalDetailsSteps`, `FinancialSteps` and `KnowledgeSteps`, that no other component mounts (StepContent renders single-question components instead); they are modelled on their own.

The model has one Dafny module per source file. Helper modules hold what several files share:

- `Wrappers`: `Option` and `Result`.
- `Text`: the JavaScript string operations used, namely `trim`, `split`, `startsWith`, `includes`, ASCII `toLowerCase` and decimal rendering.
- `FormValues`: form records as maps from field name to string or boolean, JavaScript truthiness, object spread and the error maps.
- `Base64`: section 4 of RFC 4648.
- `Utf8`: the encoding `Buffer.from(string)` performs and its decoding.
- `Bytes`, `Cookies` and `ApiErrors`: octets, the Set-Cookie attributes of section 4.1 of RFC 6265, and Encore's error codes.
- `ChoiceSteps`: the question-table shape that the financial and knowledge screens share.

How each part is written:

- Backend endpoints are functions. A `fetch` they make is a function parameter. "No upstream call" is stated as "the result does not depend on that parameter".
- Stateful React components and contexts are classes: the wizard, the session, the form-data store, the residence, personal-details, registration, login and forgot-password forms. Their `useState` values are fields.
  - Each handler is a method whose `ensures` ties the new state to a pure function of the old one.
  - The lemmas state what those functions guarantee.
  - An `async` handler is split at its `await`. `BeginSubmit` runs up to the request and returns it. `FinishSubmit` takes the request's outcome and runs the rest.
- Clocks (`Date.now()`, `new Date()`, the current year) are parameters. So are browser `localStorage` and cookies.

The verified properties include:

- Wizard: the index always stays inside the flow and the "highest step reached" watermark never decreases.
- Stepper: exactly one step is active and only reached steps can be clicked.
- Screen switch: it selects one component for each of the flow's ids, distinct components for distinct ids, and "Step not found" for every other id.
- Question tables: the financial table has a question for exactly the ids of main step 2 and the knowledge table for exactly those of main step 3; every other id is "Step not found".
- Form-data store: one user's operations never touch another user's stored record.
- Session: login authenticates only with all three tokens, register logs in with the email and password it registered, and logout always clears the session.
- Cookie codec: for a non-empty email without a colon and a non-empty password that does not start with a colon, decoding the cookie gives back the email and the password up to its first colon. An email that contains a colon comes back changed (`AutoLogin.ColonInEmailCorruptsSplit`).
- `auto-login`: success is characterised exactly, with the token and user it returns, and every failing branch is mapped to the error it answers with.
- Forms: every form's error map holds exactly the errors its rules raise, and an input clears exactly the errors it should.
- Forgot-password regex: it is shown to match unanchored.
- Route table: it is a total function of path, session and loading flag.

## Model

| member | source | states |
|---|---|---|
| ApiErrors.MessageOr | frontend/components/LoginForm.tsx:50 | the error's own message whenever it is non-empty, the fallback exactly when it is empty, so never empty when the fallback is not |
| LoginEndpoint.MockJwt | backend/auth/login.ts:24 | the token is `mock-jwt-token-` followed only by decimal digits, and those digits read back as the clock value it was minted at |
| LoginEndpoint.MockJwtInjective | backend/auth/login.ts:24 | tokens minted at different instants differ |
| LoginEndpoint.LoginOutcome | backend/auth/login.ts:16-32 | login succeeds exactly for test@example.com / password, with a fresh mock token and "Login successful"; an empty field is an invalid argument, "Email and password are required"; any other pair is unauthenticated, "Invalid email or password" |
| LoginEndpoint.Login | backend/auth/login.ts:16-32 | the mock login; specified by LoginEndpoint.LoginOutcome |
| LoginEndpoint.IntendedLogin | backend/auth/login.ts:23-28 | the corrected mock: the same decision as the mock, with the account's user and access token in a successful reply; specified by AuthSession.IntendedLoginAuthenticates |
| RegisterEndpoint.RegisterOutcome | backend/auth/register.ts:18-36 | registration succeeds exactly for a non-empty password and a non-empty email other than existing@example.com, with a fresh mock token; the taken email is already-exists; an empty field is an invalid argument |
| RegisterEndpoint.CountryAndCurrencyIgnored | backend/auth/register.ts:3-36 | changing the request's country and currency never changes the outcome |
| RegisterEndpoint.Register | backend/auth/register.ts:18-36 | the mock registration; specified by RegisterEndpoint.RegisterOutcome and RegisterEndpoint.CountryAndCurrencyIgnored |
| SetLoginCookie.CredentialsString | backend/auth/set-login-cookie.ts:24 | the credential string is the email, one colon at the email's length, and the password |
| SetLoginCookie.EncodeCredentials | backend/auth/set-login-cookie.ts:25 | the cookie value decodes, as base64, to exactly the UTF-8 bytes of the credential string |
| SetLoginCookie.SetLoginCookie | backend/auth/set-login-cookie.ts:20-40 | the reply succeeds with "Login cookie set successfully" and a `login_creds` cookie holding the encoded credentials, expiring 30 days (2592000000 ms) after now, httpOnly, secure, SameSite=Lax, path / |
| SetLoginCookie.SecretIsUnused | backend/auth/set-login-cookie.ts:4-40 | the cookie is the same whatever the encryption secret: the secret is declared and never read |
| SetLoginCookie.ValueRevealsCredentials | backend/auth/set-login-cookie.ts:22-25 | the cookie value decodes (base64, then UTF-8) to `email:password`: nothing is encrypted |
| ClearLoginCookie.ClearLoginCookie | backend/auth/clear-login-cookie.ts:15-37 | the reply succeeds with "Login cookie cleared successfully" and an empty `login_creds` cookie that expired at the epoch, httpOnly, secure, SameSite=Strict |
| ClearLoginCookie.ClearOverridesSet | backend/auth/clear-login-cookie.ts:19-26 | the cleared cookie has the name and path of the one set-login-cookie writes and expires before it, so it replaces it; only SameSite differs (Strict against Lax) |
| IpCountry.OrElse | backend/auth/ip-country.ts:22-25 | JavaScript logical or on an optional string: the string when it is present and non-empty, the fallback otherwise |
| IpCountry.FirstForwarded | backend/auth/ip-country.ts:22 | the address taken from X-Forwarded-For holds no comma and has no whitespace at either end |
| IpCountry.ClientIpChoice | backend/auth/ip-country.ts:22-25 | the client address is never empty and is the first non-empty of the trimmed first forwarded entry, X-Real-IP, X-Remote-Addr and 8.8.8.8, in that order |
| IpCountry.ForwardedFirstEntry | backend/auth/ip-country.ts:22 | only the first entry of a forwarded chain counts: everything after its first comma is ignored |
| IpCountry.AnswerShape | backend/auth/ip-country.ts:36-77 | every answer names a country (non-empty code and name); its address is the client's when the service answered OK with a JSON object, and 0.0.0.0 after any failure |
| IpCountry.ServiceCountryUsed | backend/auth/ip-country.ts:46-60 | the service's country is used exactly when it reports `success`, each missing field then falling back to US / United States; otherwise the answer is US / United States |
| IpCountry.AsksAboutClientIp | backend/auth/ip-country.ts:36 | the endpoint's answer depends on the service only through its reply about the chosen client address |
| IpCountry.ClientIp | backend/auth/ip-country.ts:22-25 | the client address; specified by IpCountry.ClientIpChoice |
| IpCountry.Answer | backend/auth/ip-country.ts:38-77 | the three result branches; specified by IpCountry.AnswerShape and IpCountry.ServiceCountryUsed |
| IpCountry.GetCountryByIp | backend/auth/ip-country.ts:20-78 | the endpoint; specified by IpCountry.AnswerShape and IpCountry.AsksAboutClientIp |
| AutoLogin.FirstTwoPieces | backend/auth/auto-login.ts:30 | neither of the two pieces taken from the split holds a colon |
| AutoLogin.Remap | backend/auth/auto-login.ts:102-106 | an error with a code is re-thrown unchanged, an error without one becomes "Auto-login service failed", so every error leaving the endpoint has a code |
| AutoLogin.BeforeColon | backend/auth/auto-login.ts:30 | the password as read back is a prefix of the stored one without a colon, and the whole password when it holds none |
| AutoLogin.NoCookieNoCall | backend/auth/auto-login.ts:24-26 | a missing or empty cookie fails with "No login credentials found" whatever upstream would answer, that is, without calling it |
| AutoLogin.EmptyHalfNoCall | backend/auth/auto-login.ts:32-34 | a decoded pair with an empty half fails with "Invalid credentials format" without calling upstream |
| AutoLogin.CookieText | backend/auth/auto-login.ts:29 | the value set-login-cookie writes is non-empty and decodes back to its credential string |
| AutoLogin.PairPieces | backend/auth/auto-login.ts:30 | splitting `email:password` with a colon-free email gives the email and the password up to its first colon |
| AutoLogin.CookieRoundTrip | backend/auth/auto-login.ts:24-34 | the cookie set-login-cookie writes for a non-empty colon-free email and a password not starting with a colon is read back as that email and the password up to its first colon |
| AutoLogin.CookieRoundTripExact | backend/auth/auto-login.ts:24-34 | with no colon in either half, the cookie is read back as exactly the pair that was stored |
| AutoLogin.TriplePieces | backend/auth/auto-login.ts:30 | with two colons, the destructured pair is what lies before the second colon |
| AutoLogin.ColonInEmailCorruptsSplit | backend/auth/auto-login.ts:30 | an email `a:b` comes back as email a and password b, not the stored password |
| AutoLogin.FailuresAreCoded | backend/auth/auto-login.ts:23-107 | every failure is unauthenticated or internal, and it is internal exactly when the credentials were read and upstream sent an OK reply whose body does not parse; that reply fails with "Invalid response format from auto-login service" |
| AutoLogin.ClassifyFailures | backend/auth/auto-login.ts:50-72 | a rejected fetch and a `null` body are errors without a code; a non-OK reply is "credentials may be invalid"; an OK reply whose body does not parse is the internal format error |
| AutoLogin.ClassifyDataFailures | backend/auth/auto-login.ts:75-84 | on a parsed OK body, a falsy `success`, a missing, non-array or empty `data` and a missing or empty token are "credentials may be invalid"; a `null` first entry is an error without a code |
| AutoLogin.FailureErrors | backend/auth/auto-login.ts:24-106 | a cookie that cannot be read fails with its guard's own error, missing credentials or bad format; after the request, a rejecting reply is "credentials may be invalid", the format error is re-thrown as it is, and every error without a code ends as "Auto-login service failed" |
| AutoLogin.SuccessCharacterized | backend/auth/auto-login.ts:61-96 | sign-in succeeds exactly when the cookie is read and upstream answers OK with a truthy `success` and a non-empty `data` array whose first element has an authentication token; that token is then both jwt and access token, and the user is the element's |
| AutoLogin.ClassifySuccess | backend/auth/auto-login.ts:61-92 | the same characterisation for the reply checks alone |
| AutoLogin.FetchFailureRemapped | backend/auth/auto-login.ts:50-54 | a rejected fetch (an error without a code) ends as "Auto-login service failed" |
| AutoLogin.DecodeCookieText | backend/auth/auto-login.ts:29 | the decoded cookie text; specified by AutoLogin.CookieText (canonical text decodes exactly) |
| AutoLogin.ReadCredentials | backend/auth/auto-login.ts:24-34 | the cookie and format checks before the fetch; specified by AutoLogin.NoCookieNoCall, AutoLogin.EmptyHalfNoCall and AutoLogin.CookieRoundTrip |
| AutoLogin.ClassifyReply | backend/auth/auto-login.ts:61-92 | the reply checks after the fetch; specified by AutoLogin.ClassifySuccess |
| AutoLogin.AutoLogin | backend/auth/auto-login.ts:20-108 | the endpoint; specified by AutoLogin.SuccessCharacterized, AutoLogin.FailuresAreCoded and AutoLogin.FetchFailureRemapped |
| Base64.SymbolValue | backend/auth/auto-login.ts:29 | the value read from a base64 symbol is the one whose symbol it is (Table 1 of RFC 4648) |
| Base64.SymbolRoundTrip | backend/auth/set-login-cookie.ts:25 | every 6-bit value's symbol is an alphabet symbol that reads back as that value |
| Base64.EncodeBlock | backend/auth/set-login-cookie.ts:25 | helper: three bytes become four symbols; which symbols is fixed by Base64.BlockRoundTrip and Base64.BlockFromDecode |
| Base64.Encode | backend/auth/set-login-cookie.ts:25 | the encoding is empty exactly for empty input |
| Base64.EncodeLength | backend/auth/set-login-cookie.ts:25 | the encoding has four symbols for every started group of three bytes |
| Base64.BlockRoundTrip | backend/auth/set-login-cookie.ts:25 | a full block of three bytes decodes back to those bytes, inside the text and as the final group |
| Base64.BlockFromDecode | backend/auth/auto-login.ts:29 | four symbols that decode are the encoding of the three bytes they decode to |
| Base64.DecodeEncode | backend/auth/auto-login.ts:29 | decoding the text set-login-cookie produces gives back exactly the bytes that were encoded, for every byte sequence |
| Base64.EncodeDecode | backend/auth/auto-login.ts:29 | whatever the strict decoder accepts is the encoding of what it decodes to: it accepts only canonical text |
| Base64.FinalFromDecode | backend/auth/auto-login.ts:29 | a final group that decodes (one, two or three bytes, padded with `=`) is the encoding of those bytes |
| Base64.Decode | backend/auth/auto-login.ts:29 | the strict decoder; specified by Base64.DecodeEncode and Base64.EncodeDecode |
| Base64.DecodeBlock | backend/auth/auto-login.ts:29 | helper: four alphabet symbols as three bytes, nothing for any other symbol; specified by Base64.BlockRoundTrip and Base64.BlockFromDecode |
| Base64.DecodeFinal | backend/auth/auto-login.ts:29 | helper: the last group, a full block or one or two bytes before `=` padding with zero unused bits; specified by Base64.BlockRoundTrip and Base64.FinalFromDecode |
| Utf8.EncodeChar | backend/auth/set-login-cookie.ts:25 | a character takes one to four bytes, one exactly when it is ASCII, and then that byte is its code |
| Utf8.DecodeOne | backend/auth/auto-login.ts:29 | decoding one character consumes at least one and at most the available bytes |
| Utf8.DecodeOneEncodeChar | backend/auth/auto-login.ts:29 | decoding the bytes of one character, whatever follows, gives the character back and consumes exactly its bytes |
| Utf8.DecodeEncode | backend/auth/auto-login.ts:29 | `toString('utf-8')` undoes `Buffer.from(string)` for every string |
| Utf8.EncodeAsciiChar | backend/auth/set-login-cookie.ts:25 | an ASCII character is encoded as the one byte of its code |
| Utf8.Encode | backend/auth/set-login-cookie.ts:25 | `Buffer.from(string)`; specified by Utf8.DecodeEncode and Utf8.EncodeChar |
| Utf8.Decode | backend/auth/auto-login.ts:29 | `toString('utf-8')`; specified by Utf8.DecodeEncode and Utf8.DecodeOneEncodeChar |
| Text.TrimStart | backend/auth/ip-country.ts:22 | the result is a suffix of the input, everything cut off is whitespace, and it does not start with whitespace |
| Text.TrimEnd | backend/auth/ip-country.ts:22 | the result is a prefix of the input, everything cut off is whitespace, and it does not end with whitespace |
| Text.IndexOf | backend/auth/auto-login.ts:30 | no position exactly when the character is absent; otherwise the position of its first occurrence |
| Text.Split | backend/auth/auto-login.ts:30 | splitting gives at least one piece and no piece holds the separator |
| Text.JoinSplit | backend/auth/auto-login.ts:30 | joining the pieces back with the separator gives the original string |
| Text.Join | backend/auth/auto-login.ts:30 | the reference inverse of `split`: the pieces joined back with the separator; paired with Text.Split by Text.JoinSplit |
| Text.SplitHead | backend/auth/ip-country.ts:22 | the first piece of `a sep rest` with a separator-free a is a, and the remaining pieces are those of rest |
| Text.SplitNoSeparator | backend/auth/auto-login.ts:30 | a string without the separator splits into itself alone |
| Text.AsciiLower | frontend/components/RegistrationForm.tsx:105 | lower-casing keeps the length and maps exactly the capitals A-Z to their small letters |
| Text.FoundAfter | frontend/components/RegistrationForm.tsx:105 | a capital-free ending is found in the lower case of any string it ends |
| Text.IntToDecimal | frontend/components/MultiStepContainer.tsx:69 | the decimal rendering is non-empty, starts with a minus sign exactly for negative numbers, and is one digit exactly for 0-9 |
| Text.NatToDecimal | backend/auth/login.ts:24 | the rendering of a natural number is all digits, one digit exactly below ten |
| Text.IsJsWhitespace | backend/auth/ip-country.ts:22 | the ECMAScript WhiteSpace and LineTerminator code points, which `trim` strips and `\s` matches; used by Text.TrimStart, Text.TrimEnd and ForgotPassword.LooksLikeEmailIffPattern |
| Text.Trim | backend/auth/ip-country.ts:22 | the result is the input with a run of leading whitespace and a run of trailing whitespace cut off and nothing else changed; it neither starts nor ends with whitespace, and is the input itself when it holds no whitespace |
| Text.TrimParts | backend/auth/ip-country.ts:22 | what `TrimStart` and then `TrimEnd` cut off is whitespace at the start and at the end of the input; used by Text.Trim |
| Text.TrimmedFrom | backend/auth/ip-country.ts:22 | the result is the input from a position on, cut short, with everything before that position and after the result whitespace; used by Text.Trim |
| Text.MissingCharNotIncluded | frontend/components/RegistrationForm.tsx:105 | a string lacking one of the searched string's characters does not include it |
| Text.LowerMissing | frontend/components/RegistrationForm.tsx:105 | a small letter absent from a string in both cases is absent from its lower case |
| Text.StartsWith | frontend/components/MultiStepContainer.tsx:39-43 | `startsWith` as a sequence prefix; used by Wizard.SaveRouting, Wizard.PrefixMeansMainStep and FinancialSteps.ConfigsCoverMainStep2 |
| Text.Includes | frontend/components/RegistrationForm.tsx:105 | `includes` as an occurrence at some position; specified by Text.FoundAfter and Registration.TakenMessageMatches |
| Text.DecimalRoundTrip | backend/auth/login.ts:24 | the digits read back as the number rendered |
| Text.DecimalValue | backend/auth/login.ts:24 | the number a string of decimal digits denotes; paired with Text.NatToDecimal by Text.DecimalRoundTrip |
| Wizard.FindPrefix | frontend/components/MultiStepContainer.tsx:69 | `findIndex` gives the first id starting with the prefix, or -1 exactly when none does |
| Wizard.CountPrefix | frontend/components/MultiStepContainer.tsx:15 | helper: the count is at most the number of ids; its value on the flow is fixed by Wizard.SubstepsMatchFlow and Wizard.CountSuffix |
| Wizard.FlowIdShape | frontend/components/MultiStepContainer.tsx:14 | the flow has thirteen ids, each a main-step digit 1-4, a dash and a sub-step digit |
| Wizard.MainStepOf | frontend/components/MultiStepContainer.tsx:59 | the main step parsed from a flow id is between 1 and 4 |
| Wizard.SubStepOf | frontend/components/MultiStepContainer.tsx:92 | the sub-step parsed from a flow id is one digit |
| Wizard.MainStepIsFirstPiece | frontend/components/MultiStepContainer.tsx:59 | the first piece of `split('-')` is the id's first character, and the id is the decimal main step, a dash and the sub-step digit |
| Wizard.MainStepRanges | frontend/components/MultiStepContainer.tsx:14-15 | indices 0-2 are main step 1, 3-8 step 2, 9-11 step 3 and 12 step 4, and the sub-step is the offset from the step's first index |
| Wizard.PrefixMeansMainStep | frontend/components/MultiStepContainer.tsx:69 | a flow id starts with `k-` exactly when its main step is k |
| Wizard.CountSuffix | frontend/components/MultiStepContainer.tsx:14-15 | counting a main step's ids from any index on gives the part of its block at or after that index |
| Wizard.SubstepsMatchFlow | frontend/components/MultiStepContainer.tsx:15 | `substepsPerStep[k]` is exactly the number of ids of main step k in the flow |
| Wizard.StepMapIsFirstSubstep | frontend/components/MultiStepContainer.tsx:23 | `stepMap[k]` is the first index whose id starts with `k-`, and that id is `k-0` |
| Wizard.NoIdsOutsideMainSteps | frontend/components/MultiStepContainer.tsx:69 | no flow id starts with `n-` for a number n outside 1..4 |
| Wizard.GoToStepTargetSpec | frontend/components/MultiStepContainer.tsx:68-69 | the jump target is the first sub-step of main step n for n in 1..4, and -1 (no jump) for every other number, including 0 where `stepMap[0]` is falsy |
| Wizard.SaveRouting | frontend/components/MultiStepContainer.tsx:33-49 | without a jwt nothing is saved; otherwise every id of main steps 1-3 goes to its own step endpoint with the data given, and verification sends nothing |
| Wizard.Max | frontend/components/MultiStepContainer.tsx:62 | `Math.max` on numbers: at least both arguments and equal to one of them |
| Wizard.InitialState | frontend/components/MultiStepContainer.tsx:18-20 | the starting state (no data, index 0, watermark 1) is valid |
| Wizard.InitializedSpec | frontend/components/MultiStepContainer.tsx:22-27 | an initial step 1-4 opens on its first sub-step; any other opens on index 0; the watermark becomes `max(1, initialStep)` uncapped; data is kept and the state is valid |
| Wizard.AdvancedSpec | frontend/components/MultiStepContainer.tsx:57-63 | next moves one sub-step forward except on the last, the watermark becomes the larger of itself and the new main step, and validity is kept |
| Wizard.JumpedSpec | frontend/components/MultiStepContainer.tsx:66-74 | goToStep ignores steps above the watermark or outside 1..4 and otherwise lands on the step's first sub-step; watermark and data never change |
| Wizard.SavedSpec | frontend/components/MultiStepContainer.tsx:29-31 | saving changes only the data and keeps the state valid |
| Wizard.ApplyKeepsValid | frontend/components/MultiStepContainer.tsx:29-74 | every handler keeps the state valid and never lowers the watermark |
| Wizard.RunKeepsValid | frontend/components/MultiStepContainer.tsx:29-74 | any sequence of saves, advances and jumps keeps the index in the flow, the watermark over the main step on screen, and never lowers the watermark |
| Wizard.Valid | frontend/components/MultiStepContainer.tsx:19-20 | the invariant of the two counters: the index lies in the flow, the watermark is at least 1 and covers the current main step; kept by Wizard.ApplyKeepsValid and Wizard.RunKeepsValid |
| Wizard.Apply | frontend/components/MultiStepContainer.tsx:29-74 | one handler call, `saveStepData`, `goToNextStep` or `goToStep`; specified by Wizard.ApplyKeepsValid |
| Wizard.Run | frontend/components/MultiStepContainer.tsx:29-74 | a sequence of handler calls; specified by Wizard.RunKeepsValid |
| Wizard.Advances | frontend/components/MultiStepContainer.tsx:51 | helper: n presses of next, as n actions each of which is `Next` |
| Wizard.AdvancesFromStart | frontend/components/MultiStepContainer.tsx:51-64 | n presses of next from the start reach index n with the watermark at that index's main step, data unchanged |
| Wizard.AdvancesFrom | frontend/components/MultiStepContainer.tsx:51-64 | from index j with the watermark at j's main step, k presses reach index j + k with the watermark at its main step |
| Wizard.StepperAgrees | frontend/components/MultiStepContainer.tsx:91-102 | the main step on screen is the stepper's active step, every step up to it is clickable, a click that passes the stepper lands on its first sub-step and a refused click changes nothing |
| Wizard.MountedState | frontend/components/MultiStepContainer.tsx:17-27 | the corrected mount: the state is valid, and with no initial step, read as step 1, it is the starting state (as written it is NaN, see WizardMount.MountAsWritten) |
| Wizard.MountedStateNavigable | frontend/components/MultiStepContainer.tsx:20-74 | mounted with the intended watermark, after any number of advances every main step up to the one on screen is clickable and clicking it returns to its first sub-step |
| Wizard.MultiStepContainer.constructor | frontend/components/MultiStepContainer.tsx:18-20 | the fields start as the starting state |
| Wizard.MultiStepContainer.ApplyInitialStep | frontend/components/MultiStepContainer.tsx:22-27 | the new state is the initial-step effect applied to the old |
| Wizard.MultiStepContainer.MountIntended | frontend/components/MultiStepContainer.tsx:22-27 | the corrected mount: the effect runs with a missing initial step read as 1 (as written it gives NaN, see WizardMount.MountAsWritten) |
| Wizard.MultiStepContainer.SaveStepData | frontend/components/MultiStepContainer.tsx:29-31 | the data becomes the old data merged with the new, nothing else changes |
| Wizard.MultiStepContainer.GoToNextStep | frontend/components/MultiStepContainer.tsx:51-64 | the save sent is the routing of the old step id and data, and the new state is the advanced old state |
| Wizard.MultiStepContainer.GoToStep | frontend/components/MultiStepContainer.tsx:66-74 | the new state is the jump applied to the old |
| Wizard.MultiStepContainer.CurrentStep | frontend/components/MultiStepContainer.tsx:91-92 | the id on screen, its main step (between 1 and the watermark) and its sub-step offset |
| Wizard.GoToStepTarget | frontend/components/MultiStepContainer.tsx:68-69 | the index `goToStep` jumps to; specified by Wizard.GoToStepTargetSpec |
| Wizard.SaveRoute | frontend/components/MultiStepContainer.tsx:33-49 | `saveCurrentStepToBackend`; specified by Wizard.SaveRouting |
| Wizard.InitialIndex | frontend/components/MultiStepContainer.tsx:23-24 | `stepMap[initialStep] or 0`; specified by Wizard.InitializedSpec |
| Wizard.Initialized | frontend/components/MultiStepContainer.tsx:22-27 | the initial-step effect; specified by Wizard.InitializedSpec |
| Wizard.Saved | frontend/components/MultiStepContainer.tsx:29-31 | `saveStepData`; specified by Wizard.SavedSpec |
| Wizard.Advanced | frontend/components/MultiStepContainer.tsx:57-63 | the state change of `goToNextStep`; specified by Wizard.AdvancedSpec |
| Wizard.Jumped | frontend/components/MultiStepContainer.tsx:66-74 | `goToStep`; specified by Wizard.JumpedSpec |
| WizardMount.JsMax | frontend/components/MultiStepContainer.tsx:26 | `Math.max` is NaN exactly when an argument is NaN, otherwise the larger value |
| WizardMount.AdvanceTimes | frontend/components/MultiStepContainer.tsx:51-64 | advancing keeps the index in the flow and never turns a NaN watermark back into a number |
| WizardMount.AppMountLocksStepper | frontend/App.tsx:42 | mounted as App mounts it, the watermark is NaN forever: no step can be clicked, every goToStep is ignored and no later step shows as visited |
| WizardMount.MountWithStepAgrees | frontend/components/MultiStepContainer.tsx:22-27 | when an initial step is given, the as-written mount gives the intended index and watermark |
| WizardMount.MountAsWritten | frontend/components/MultiStepContainer.tsx:22-27 | the mount as App.tsx performs it, with a NaN watermark when no initial step is given; specified by WizardMount.AppMountLocksStepper and WizardMount.MountWithStepAgrees |
| WizardMount.ToNumber | frontend/components/MultiStepContainer.tsx:26 | `undefined` turns into NaN where Math.max reads it; specified by WizardMount.AppMountLocksStepper and WizardMount.MountWithStepAgrees |
| WizardMount.JsAtMost | frontend/components/MultiStepContainer.tsx:67 | `n <= watermark` is false whenever the watermark is NaN; specified by WizardMount.AppMountLocksStepper |
| WizardMount.AdvancedAsWritten | frontend/components/MultiStepContainer.tsx:57-63 | `goToNextStep` on a possibly-NaN watermark; specified by WizardMount.AdvanceTimes |
| WizardMount.JumpedAsWritten | frontend/components/MultiStepContainer.tsx:66-74 | `goToStep` on a possibly-NaN watermark; specified by WizardMount.AppMountLocksStepper |
| WizardMount.StatusAsWritten | frontend/components/Stepper.tsx:26-31 | `getStepStatus` on a possibly-NaN watermark; specified by WizardMount.AppMountLocksStepper |
| Stepper.Click | frontend/components/Stepper.tsx:47-55 | a click reaches `onStepClick` exactly when the step is at most the watermark, and then with that step's number |
| Stepper.StepsNumbered | frontend/components/Stepper.tsx:19-24 | four steps, numbered 1 to 4 in order |
| Stepper.StatusCharacterized | frontend/components/Stepper.tsx:26-31 | completed exactly below the current step, active exactly at it, visited exactly above it up to the watermark, inactive above both |
| Stepper.EarlierStepsCompleted | frontend/components/Stepper.tsx:27 | the steps before the current one are completed whatever the watermark |
| Stepper.ActiveCount | frontend/components/Stepper.tsx:44-45 | helper: the count of active steps is at most the number of steps and zero exactly when no step is active; Stepper.ExactlyOneActive gives its value |
| Stepper.ExactlyOneActive | frontend/components/Stepper.tsx:26-45 | for a current step in 1..4 exactly one step is active, the current one |
| Stepper.StepStatus | frontend/components/Stepper.tsx:26-31 | `getStepStatus`; specified by Stepper.StatusCharacterized and Stepper.ExactlyOneActive |
| Stepper.IsClickable | frontend/components/Stepper.tsx:47 | `isClickable`; specified by Stepper.Click |
| StepContent.FlowIdsRender | frontend/components/StepContent.tsx:26-128 | each of the thirteen flow ids selects its own component, in flow order, never "Step not found" |
| StepContent.RenderInjective | frontend/components/StepContent.tsx:26-131 | distinct ids select distinct components unless both fall to "Step not found" |
| StepContent.RenderTotal | frontend/components/StepContent.tsx:26-131 | an id selects a component exactly when it is one of the flow's ids |
| StepContent.OnlyVerificationGetsKyc | frontend/components/StepContent.tsx:123-128 | only 4-0 is wired to `onInitiateKyc` (and gets no form data); every other flow id gets the form data, save and next callbacks |
| StepContent.Render | frontend/components/StepContent.tsx:26-131 | the `stepId` switch; specified by StepContent.FlowIdsRender, StepContent.RenderTotal and StepContent.RenderInjective |
| StepContent.WiringOf | frontend/components/StepContent.tsx:25-131 | the props each component is given: the KYC callback for the verification step, the form data, save and next for the others; specified by StepContent.OnlyVerificationGetsKyc |
| AppRoutes.ChildIndex | frontend/App.tsx:42-57 | a path names child route i exactly when it is `/en/apply/` followed by the i-th child path; none when no child path matches |
| AppRoutes.ChildIndexFrom | frontend/App.tsx:43-56 | the search from position `from` finds a matching child route at or after it, or there is none there |
| AppRoutes.ChildPath | frontend/App.tsx:42-56 | the full path of child route i, `/en/apply/` and its relative path; used by AppRoutes.ChildIndex and AppRoutes.SignedInTable |
| AppRoutes.LoadingShowsSpinner | frontend/App.tsx:28-35 | while the session is checked every path shows the spinner, signed in or not |
| AppRoutes.SignedInTable | frontend/App.tsx:40-59 | signed in, the thirteen child paths select their step pages in flow order under the wizard, `/en/apply` selects the index redirect to personal-details (history replaced), and every other path redirects to `/en/apply` without replacing history |
| AppRoutes.ChildPathsDistinct | frontend/App.tsx:44-56 | distinct child routes have distinct paths |
| AppRoutes.SignedOutTable | frontend/App.tsx:60-67 | signed out, only /login, /register and /forgot-password resolve to a page; every other path, the wizard's included, redirects to /register with history replaced |
| AppRoutes.RedirectsSettle | frontend/App.tsx:39-68 | following a redirect once reaches a route that is not a redirect |
| AppRoutes.ChildRoutesNotDrawn | frontend/App.tsx:42-57 | signed in, the base and child paths select the wizard with a child element; the wizard renders no outlet, so that child is never drawn |
| AppRoutes.WizardHasFormData | frontend/App.tsx:73-82 | whenever the wizard is selected, the form-data provider wraps the routes |
| AppRoutes.Resolve | frontend/App.tsx:25-71 | the route table: the spinner while loading, otherwise the signed-in or signed-out table; specified by AppRoutes.LoadingShowsSpinner, AppRoutes.SignedInTable, AppRoutes.SignedOutTable and AppRoutes.RedirectsSettle |
| AppRoutes.WrapsFormData | frontend/App.tsx:73-82 | `AppWrapper` wraps the routes in the form-data provider exactly when signed in; specified by AppRoutes.WizardHasFormData |
| ChoiceSteps.HandleOptionClick | frontend/components/steps/FinancialSteps.tsx:12-15 | a click saves one key, the field, set to the chosen value, and schedules one move to the next step |
| ChoiceSteps.Show | frontend/components/steps/FinancialSteps.tsx:70-74 | "Step not found" exactly when the id has no question |
| ChoiceSteps.ClickThenSave | frontend/components/steps/KnowledgeSteps.tsx:12-15 | were the component mounted with the wizard's `saveStepData` as `onSaveData`, a click would set the field to the chosen value, keep every other field, and not move the wizard |
| ChoiceSteps.DistinctOptionsSaveDistinctly | frontend/components/steps/FinancialSteps.tsx:80-84 | two buttons of a question with distinct values save different records |
| ChoiceSteps.ClickOption | frontend/components/steps/FinancialSteps.tsx:80-84 | the `onClick` of option i's button: `handleOptionClick` with that option's value and the question's field; specified by FinancialSteps.ClickSavesOneKey, KnowledgeSteps.ClickSavesOneKey and ChoiceSteps.DistinctOptionsSaveDistinctly |
| FinancialSteps.ConfigsCoverMainStep2 | frontend/components/steps/FinancialSteps.tsx:17-74 | a question is shown for exactly the flow ids of main step 2, asking for employment status, industry, annual income, available to invest, plan to invest and investment source in flow order; every other id is "Step not found" |
| FinancialSteps.FieldNamesDistinct | frontend/components/steps/FinancialSteps.tsx:17-68 | no two financial steps write the same field |
| FinancialSteps.OptionValuesDistinct | frontend/components/steps/FinancialSteps.tsx:17-68 | each financial question has at least one option and its option values are distinct |
| FinancialSteps.ClickSavesOneKey | frontend/components/steps/FinancialSteps.tsx:84 | each button of a financial step saves only its field, set to its own value, and schedules one `onNext` |
| FinancialSteps.Lookup | frontend/components/steps/FinancialSteps.tsx:70 | `stepConfigs[stepId]`: the question declared for the id, if any; specified by FinancialSteps.ConfigsCoverMainStep2 |
| FinancialSteps.Render | frontend/components/steps/FinancialSteps.tsx:70-74 | the question for the id or "Step not found"; specified by FinancialSteps.ConfigsCoverMainStep2 |
| KnowledgeSteps.ConfigsCoverMainStep3 | frontend/components/steps/KnowledgeSteps.tsx:17-49 | a question is shown for exactly the flow ids of main step 3, asking for professional experience, risk tolerance and trading objective in flow order; every other id is "Step not found" |
| KnowledgeSteps.FieldNamesDistinct | frontend/components/steps/KnowledgeSteps.tsx:17-43 | no two knowledge steps write the same field |
| KnowledgeSteps.OptionValuesDistinct | frontend/components/steps/KnowledgeSteps.tsx:17-43 | each knowledge question has at least one option and its option values are distinct |
| KnowledgeSteps.ClickSavesOneKey | frontend/components/steps/KnowledgeSteps.tsx:59 | each button of a knowledge step saves only its field, set to its own value, and schedules one `onNext` |
| KnowledgeSteps.Lookup | frontend/components/steps/KnowledgeSteps.tsx:45 | `stepConfigs[stepId]`: the question declared for the id, if any; specified by KnowledgeSteps.ConfigsCoverMainStep3 |
| KnowledgeSteps.Render | frontend/components/steps/KnowledgeSteps.tsx:45-49 | the question for the id or "Step not found"; specified by KnowledgeSteps.ConfigsCoverMainStep3 |
| FormDataStore.StorageKey | frontend/contexts/FormDataContext.tsx:76-79 | a key exactly when there is a non-empty user |
| FormDataStore.StorageKeyInjective | frontend/contexts/FormDataContext.tsx:78 | `form_data_<user>` keys of distinct users are distinct |
| FormDataStore.Stamped | frontend/contexts/FormDataContext.tsx:116-119 | the saved record is the form data with `lastUpdated` set to the time and every other field kept |
| FormDataStore.LoadedSpec | frontend/contexts/FormDataContext.tsx:82-109 | when authenticated a saved record replaces the form data, no entry keeps it, a corrupt entry is removed and nothing else in storage changes; otherwise the form data is emptied; loading ends either way |
| FormDataStore.SavedToStorageSpec | frontend/contexts/FormDataContext.tsx:112-126 | with a user and a non-empty record only that user's entry is written, with the stamped record; otherwise storage is unchanged |
| FormDataStore.UpdatedSpec | frontend/contexts/FormDataContext.tsx:129-151 | the update's fields win over the old ones, the rest stay, the merged record is persisted under the user's key only, and repeating the update changes nothing |
| FormDataStore.ClearedSpec | frontend/contexts/FormDataContext.tsx:154-165 | the record is emptied and only the user's entry is removed |
| FormDataStore.ClearThenAutoSave | frontend/contexts/FormDataContext.tsx:168-172 | the auto-save effect after a clear does not write the empty record back |
| FormDataStore.SaveThenLoad | frontend/contexts/FormDataContext.tsx:82-126 | loading after a save for the same user brings back the stamped record |
| FormDataStore.ApplyOpOwnKeyOnly | frontend/contexts/FormDataContext.tsx:76-172 | each store operation leaves every entry but its own user's as it was |
| FormDataStore.OtherUsersUntouched | frontend/contexts/FormDataContext.tsx:76-172 | any sequence of one user's operations leaves every other user's entry as it was |
| FormDataStore.RunOps | frontend/contexts/FormDataContext.tsx:76-172 | a sequence of one user's store operations; specified by FormDataStore.OtherUsersUntouched |
| FormDataStore.FormDataProvider.constructor | frontend/contexts/FormDataContext.tsx:72-73 | an empty record, loading, and the existing storage |
| FormDataStore.FormDataProvider.LoadEffect | frontend/contexts/FormDataContext.tsx:82-109 | the new state is the load of the old one |
| FormDataStore.FormDataProvider.SaveToStorage | frontend/contexts/FormDataContext.tsx:112-126 | the new state is the save of the old one |
| FormDataStore.FormDataProvider.UpdateFormData | frontend/contexts/FormDataContext.tsx:129-151 | the new state is the update of the old one |
| FormDataStore.FormDataProvider.ClearFormData | frontend/contexts/FormDataContext.tsx:154-165 | the new state is the clear of the old one |
| FormDataStore.FormDataProvider.AutoSaveEffect | frontend/contexts/FormDataContext.tsx:168-172 | the new state is the auto-save of the old one |
| FormDataStore.Loaded | frontend/contexts/FormDataContext.tsx:82-109 | the load effect; specified by FormDataStore.LoadedSpec |
| FormDataStore.SavedToStorage | frontend/contexts/FormDataContext.tsx:112-126 | `saveToStorage`; specified by FormDataStore.SavedToStorageSpec |
| FormDataStore.Updated | frontend/contexts/FormDataContext.tsx:129-151 | `updateFormData`; specified by FormDataStore.UpdatedSpec |
| FormDataStore.Cleared | frontend/contexts/FormDataContext.tsx:154-165 | `clearFormData`; specified by FormDataStore.ClearedSpec |
| FormDataStore.AutoSaved | frontend/contexts/FormDataContext.tsx:168-172 | the auto-save effect; specified by FormDataStore.ClearThenAutoSave and FormDataStore.SavedToStorageSpec |
| FormDataStore.ApplyOp | frontend/contexts/FormDataContext.tsx:76-172 | one store operation; specified by FormDataStore.ApplyOpOwnKeyOnly |
| AuthSession.LogoutRequest | frontend/contexts/AuthContext.tsx:81-86 | the upstream logout is called exactly when the session has a non-empty user and access token |
| AuthSession.MountRestoresNothing | frontend/contexts/AuthContext.tsx:26-33 | after mounting the provider is not loading and holds no session |
| AuthSession.LoggedInSpec | frontend/contexts/AuthContext.tsx:35-58 | login authenticates exactly when the reply carries a jwt, a user and an access token, and takes them from it; otherwise the session is unchanged and the backend error, or "Invalid login response", is re-thrown |
| AuthSession.RegisterFailureSkipsLogin | frontend/contexts/AuthContext.tsx:60-77 | a failed registration re-throws its error, changes nothing, and whatever login would answer does not matter |
| AuthSession.LoggedOutSpec | frontend/contexts/AuthContext.tsx:90-94 | logout always ends unauthenticated with no session data |
| AuthSession.LoginThenLogout | frontend/contexts/AuthContext.tsx:43-47 | a session a login created logs out upstream with the user and access token of that login |
| AuthSession.MockLoginNeverAuthenticates | frontend/contexts/AuthContext.tsx:42 | against the mock login endpoint, which returns only a jwt, login never authenticates, not even for its one good account |
| AuthSession.ClientView | backend/auth/login.ts:8-11 | what `login` reads of the mock endpoint's reply: the jwt, and no user or access token; specified by AuthSession.MockLoginNeverAuthenticates |
| AuthSession.IntendedLoginAuthenticates | frontend/contexts/AuthContext.tsx:42-53 | against a login reply that carries the user and access token, the mock account signs in with the minted token and those two values exactly when both are non-empty; every other pair is refused with the endpoint's own error and the session is unchanged |
| AuthSession.IntendedView | frontend/contexts/AuthContext.tsx:42-47 | the three fields `login` reads from the corrected reply; specified by AuthSession.IntendedLoginAuthenticates |
| AuthSession.Truthy | frontend/contexts/AuthContext.tsx:42 | a reply field is truthy when present and non-empty; specified by AuthSession.LoggedInSpec |
| AuthSession.Mounted | frontend/contexts/AuthContext.tsx:30-33 | the mount effect ends loading only; specified by AuthSession.MountRestoresNothing |
| AuthSession.InitialSession | frontend/contexts/AuthContext.tsx:26-28 | the `useState` initial values; specified by AuthSession.AuthProvider.constructor and AuthSession.MountRestoresNothing |
| AuthSession.AuthProvider.constructor | frontend/contexts/AuthContext.tsx:26-28 | unauthenticated, no session data, loading |
| AuthSession.AuthProvider.MountEffect | frontend/contexts/AuthContext.tsx:30-33 | only the loading flag ends |
| AuthSession.AuthProvider.Login | frontend/contexts/AuthContext.tsx:35-58 | the request sent carries the given email and password; the new state and the thrown error are those of the login function |
| AuthSession.AuthProvider.Register | frontend/contexts/AuthContext.tsx:60-77 | the registration request carries the given email, password and currency; login is requested, with the same email and password, exactly when registration succeeded; state and error are those of the register function |
| AuthSession.AuthProvider.Logout | frontend/contexts/AuthContext.tsx:79-95 | the upstream call is the one for the old session, and the session is cleared regardless |
| AuthSession.LoggedIn | frontend/contexts/AuthContext.tsx:35-58 | `login` after its backend call; specified by AuthSession.LoggedInSpec |
| AuthSession.Registered | frontend/contexts/AuthContext.tsx:60-77 | `register` after its backend calls; specified by AuthSession.RegisterFailureSkipsLogin |
| AuthSession.LoggedOut | frontend/contexts/AuthContext.tsx:90-94 | the `finally` of `logout`; specified by AuthSession.LoggedOutSpec |
| FormValues.Merge | frontend/components/MultiStepContainer.tsx:29-31 | the object spread: the new data's keys win, every other old key is kept, and the keys are the union |
| FormValues.MergeIdempotent | frontend/components/MultiStepContainer.tsx:30 | saving the same data twice is saving it once |
| FormValues.MergeTwice | frontend/components/MultiStepContainer.tsx:30 | two successive saves are one save of the later data spread over the earlier |
| FormValues.ClearError | frontend/components/steps/PersonalDetails.tsx:24-30 | the guarded delete removes only the named error: the name stays exactly when it was there with an empty message; every other error is kept with its message |
| FormRules.CheckedPrefix | frontend/components/steps/PersonalDetails.tsx:36-38 | one more `if (!data[field]) newErrors[key] = message` adds that rule's error exactly when its field is not filled |
| FormRules.RequiredErrorsSpec | frontend/components/steps/PersonalDetails.tsx:33-42 | with distinct keys, the errors hold one entry per missing or falsy required field, under its key with its message, and no other key |
| FormRules.RequiredErrorsPerRule | frontend/components/steps/PersonalDetails.tsx:36-38 | each rule's key is present exactly when its field is not filled, with that rule's message |
| FormRules.RequiredErrorsKeys | frontend/components/steps/PersonalDetails.tsx:34-38 | every key of the fresh error map is some rule's key |
| FormRules.ValidIffAllFilled | frontend/components/steps/PersonalDetails.tsx:41 | validation passes (no error keys) exactly when every required field is filled |
| FormValues.Truthy | frontend/components/RegistrationForm.tsx:65-69 | JavaScript truthiness of a form value: a non-empty string or `true`; used by FormRules.RequiredErrorsSpec |
| FormValues.Filled | frontend/components/RegistrationForm.tsx:65-69 | `!!formData[key]`, a missing key reading as `undefined`; used by FormRules.RequiredErrorsSpec and FormRules.ValidIffAllFilled |
| FormRules.InputChanged | frontend/components/steps/PersonalDetails.tsx:18-31 | the record gets the named field set and keeps every other field; the errors lose only that field's error |
| FormRules.RequiredErrors | frontend/components/steps/PersonalDetails.tsx:33-39 | the `newErrors` a run of required-field checks builds; specified by FormRules.RequiredErrorsSpec and FormRules.RequiredErrorsPerRule |
| PersonalDetails.ValidateSpec | frontend/components/steps/PersonalDetails.tsx:33-42 | first name, last name and phone are each flagged exactly when missing or empty, with their messages, nothing else is flagged, and validation passes exactly when all three are filled |
| PersonalDetails.RulesDistinct | frontend/components/steps/PersonalDetails.tsx:36-38 | the three checks use three different keys |
| PersonalDetails.OptionLists | frontend/components/steps/PersonalDetails.tsx:51-57 | days are 1..31, there are twelve months, and the years are 100 strictly descending values from the current year minus 18 down to minus 117 |
| PersonalDetails.Days | frontend/components/steps/PersonalDetails.tsx:51 | the day list; specified by PersonalDetails.OptionLists |
| PersonalDetails.Years | frontend/components/steps/PersonalDetails.tsx:56-57 | the year list with the 18-year offset; specified by PersonalDetails.OptionLists |
| PersonalDetails.PersonalDetailsForm.constructor | frontend/components/steps/PersonalDetails.tsx:11-12 | the local copy starts as the props' form data and there are no errors |
| PersonalDetails.PersonalDetailsForm.SyncFromProps | frontend/components/steps/PersonalDetails.tsx:14-16 | new props replace the local copy and leave the errors |
| PersonalDetails.PersonalDetailsForm.HandleInputChange | frontend/components/steps/PersonalDetails.tsx:18-31 | the new local copy and errors are the input change applied to the old ones, and the record saved is the new local copy |
| PersonalDetails.PersonalDetailsForm.ValidateStep | frontend/components/steps/PersonalDetails.tsx:33-42 | the errors become the required-field errors of the local copy and the result is true exactly when there are none |
| PersonalDetails.PersonalDetailsForm.HandleNext | frontend/components/steps/PersonalDetails.tsx:44-48 | `onNext` is called exactly when first name, last name and phone are all filled |
| PersonalDetailsSteps.ValidateSpec | frontend/components/steps/PersonalDetailsSteps.tsx:34-47 | on 1-0 validation passes exactly when first name, last name and phone are filled and flags only those; on 1-1 it passes exactly when the terms are agreed and otherwise reports only that; every other id always passes |
| PersonalDetailsSteps.Render | frontend/components/steps/PersonalDetailsSteps.tsx:64-384 | a section is drawn for 1-0, 1-1 and 1-2, and nothing (`null`) exactly for every other id |
| PersonalDetailsSteps.YearsSpec | frontend/components/steps/PersonalDetailsSteps.tsx:61-62 | the year list is 100 strictly descending years starting at the current year, without the 18-year offset of the stand-alone form |
| PersonalDetailsSteps.Years | frontend/components/steps/PersonalDetailsSteps.tsx:61-62 | the year list without the offset; specified by PersonalDetailsSteps.YearsSpec |
| PersonalDetailsSteps.RulesFor | frontend/components/steps/PersonalDetailsSteps.tsx:37-43 | the checks `validateStep` runs for each step id; specified by PersonalDetailsSteps.ValidateSpec |
| PersonalDetailsSteps.PersonalDetailsStepsForm.constructor | frontend/components/steps/PersonalDetailsSteps.tsx:11-13 | the step id is fixed, the local copy starts as the props' form data and there are no errors |
| PersonalDetailsSteps.PersonalDetailsStepsForm.SyncFromProps | frontend/components/steps/PersonalDetailsSteps.tsx:15-17 | new props replace the local copy and leave the errors |
| PersonalDetailsSteps.PersonalDetailsStepsForm.HandleInputChange | frontend/components/steps/PersonalDetailsSteps.tsx:19-32 | the new local copy and errors are the input change applied to the old ones, and the saved record is the new local copy |
| PersonalDetailsSteps.PersonalDetailsStepsForm.ValidateStep | frontend/components/steps/PersonalDetailsSteps.tsx:34-47 | the errors become the required-field errors of the checks for this step id and the result is true exactly when there are none |
| PersonalDetailsSteps.PersonalDetailsStepsForm.HandleNext | frontend/components/steps/PersonalDetailsSteps.tsx:49-53 | `onNext` is called exactly when this step's validation leaves no error |
| ResidenceAddress.InitialDataSpec | frontend/components/steps/ResidenceAddress.tsx:6-10 | the starting record holds residenceCountry Israel and two false flags, so it fails validation with exactly the terms error |
| ResidenceAddress.ValidateSpec | frontend/components/steps/ResidenceAddress.tsx:26-33 | validation fails exactly when the terms are not agreed, and then reports only "You must agree to the terms" |
| ResidenceAddress.ResidenceAddressForm.constructor | frontend/components/steps/ResidenceAddress.tsx:6-11 | the component starts from its fixed record with no errors |
| ResidenceAddress.ResidenceAddressForm.HandleInputChange | frontend/components/steps/ResidenceAddress.tsx:13-24 | the new record and errors are the input change applied to the old ones |
| ResidenceAddress.ResidenceAddressForm.ValidateStep | frontend/components/steps/ResidenceAddress.tsx:26-33 | the errors become the terms check's errors and the result is true exactly when there are none |
| ResidenceAddress.ResidenceAddressForm.HandleNext | frontend/components/steps/ResidenceAddress.tsx:35-39 | the screen navigates to /en/apply/public-official-status exactly when the terms are agreed, and never calls the wizard's `onNext` |
| ResidenceAddress.StepAsWritten | frontend/components/steps/ResidenceAddress.tsx:35-39 | one action the screens trigger as written keeps a wizard that never passed 1-1 on 1-0 or 1-1 with the watermark at 1 |
| ResidenceAddress.AllowedAsWritten | frontend/components/steps/ResidenceAddress.tsx:35-39 | on 1-1 the screen as written triggers no wizard action, so only stepper jumps remain; specified by ResidenceAddress.StepAsWritten |
| ResidenceAddress.StuckAtResidence | frontend/components/steps/ResidenceAddress.tsx:35-39 | started on 1-0 or 1-1, any run of the actions the screens trigger as written stays on 1-0 or 1-1 and never unlocks main step 2 |
| ResidenceAddress.RunAsWritten | frontend/components/steps/ResidenceAddress.tsx:35-39 | the runs of wizard actions the screens can trigger as written, where 1-1 triggers only stepper jumps; specified by ResidenceAddress.StuckAtResidence |
| ResidenceAddress.IntendedNext | frontend/components/steps/ResidenceAddress.tsx:35-39 | the intended handler calls `onNext` exactly when validation leaves no error |
| ResidenceAddress.IntendedNextAdvances | frontend/components/steps/ResidenceAddress.tsx:35-39 | with the intended handler, agreeing to the terms on 1-1 moves the wizard to 1-2 and leaves the watermark |
| Registration.ValidateSpec | frontend/components/RegistrationForm.tsx:62-73 | the form is valid exactly when email, password and both names are non-empty and the privacy policy is agreed; the privacy error sits under `privacy` with its message; no error is ever stored under the policy field, the marketing box or `general` |
| Registration.FiveRules | frontend/components/RegistrationForm.tsx:65-69 | the same statement for any list holding the five checks in this order |
| Registration.RulesDistinct | frontend/components/RegistrationForm.tsx:65-69 | the five checks use five different keys |
| Registration.MarketingIgnored | frontend/components/RegistrationForm.tsx:62-73 | whatever the marketing box holds, validation gives the same errors |
| Registration.RequiredErrorsFieldsOnly | frontend/components/RegistrationForm.tsx:65-69 | two records that agree on which checked fields are filled give the same errors |
| Registration.ErrorsAfterInput | frontend/components/RegistrationForm.tsx:52-60 | an input removes the field's own error (the policy box's is `privacy`) and `general`: each stays exactly when it was there with an empty message; every other error is kept |
| Registration.OwnErrorKey | frontend/components/RegistrationForm.tsx:54-58 | the error key a field's input clears, `privacy` for the policy box; specified by Registration.ErrorsAfterInput |
| Registration.MarketingClearsOnlyGeneral | frontend/components/RegistrationForm.tsx:52-60 | changing the marketing box clears `general` and nothing else |
| Registration.RequestFor | frontend/components/RegistrationForm.tsx:84-91 | the request carries the form's email, password and names, country id 479 and currency USD |
| Registration.TextOf | frontend/components/RegistrationForm.tsx:85-90 | a string field's text as the request carries it; specified by Registration.RequestFor |
| Registration.Endpoint | backend/auth/register.ts:3-8 | the fields of the request the register endpoint declares, the names being dropped; used by Registration.MockOutcome |
| Registration.FinishedSpec | frontend/components/RegistrationForm.tsx:93-113 | a reply with a token writes `jwt` and then, only when present, `user`, calls `onAuthSuccess` and keeps the errors; a reply without a token does nothing; an error whose message holds "already exists" in any letter case calls `onShowLogin` and keeps the errors; every other error becomes the only, non-empty, general error; nothing is stored without a token |
| Registration.MockOutcome | frontend/components/RegistrationForm.tsx:75-114 | against the mock register endpoint, a complete form with existing@example.com calls `onShowLogin` and any other complete form stores one token and calls `onAuthSuccess` |
| Registration.TakenMessageMatches | backend/auth/register.ts:26 | the mock's taken message is recognised by the client's "already exists" test |
| Registration.IsTakenMessage | frontend/components/RegistrationForm.tsx:105 | `toLowerCase().includes('already exists')` on the error message; specified by Registration.FinishedSpec and Registration.TakenMessageMatches |
| Registration.Present | frontend/components/RegistrationForm.tsx:93-95 | `if (response.jwt)` and `if (response.user)`: present and non-empty; used by Registration.FinishedSpec |
| Registration.LoginEndpointTokenNonEmpty | backend/auth/register.ts:30 | the mock token is never empty, so the client stores it |
| Registration.RegistrationForm.constructor | frontend/components/RegistrationForm.tsx:21-30 | four empty text fields, two unchecked boxes, no errors, not submitting |
| Registration.RegistrationForm.HandleInputChange | frontend/components/RegistrationForm.tsx:52-60 | the field is set over the old data and the errors are those after this field's input |
| Registration.RegistrationForm.ValidateForm | frontend/components/RegistrationForm.tsx:62-73 | the errors become the five checks' errors of the current data, the result is true exactly when there are none |
| Registration.RegistrationForm.BeginSubmit | frontend/components/RegistrationForm.tsx:75-91 | an invalid form sends nothing and shows its errors; a valid one is submitting, with the errors cleared, and sends the request built from its data |
| Registration.RegistrationForm.FinishSubmit | frontend/components/RegistrationForm.tsx:93-113 | the errors, storage writes and callback are those of the outcome, and submitting ends |
| Registration.Finished | frontend/components/RegistrationForm.tsx:93-113 | the part of `handleSubmit` after the `await`; specified by Registration.FinishedSpec |
| Registration.FinishedUnwired | frontend/App.tsx:62-64 | the part after the `await` with the form mounted without callback props, so that calling a callback throws a `TypeError`; specified by Registration.UnwiredSuccessShowsError |
| Registration.UnwiredSuccessShowsError | frontend/components/RegistrationForm.tsx:93-110 | mounted without props, a reply with a token makes the same storage writes and then shows the `TypeError`'s message as the only, general, error, for any non-empty message not saying "already exists" |
| Registration.UnsetMessageNotTaken | frontend/components/RegistrationForm.tsx:105 | V8's message for the absent callback, "onAuthSuccess is not a function", does not say "already exists" |
| Registration.NoYNotTaken | frontend/components/RegistrationForm.tsx:105 | a message with no `y` in either case does not say "already exists" |
| LoginForm.ErrorsAfter | frontend/components/LoginForm.tsx:46-51 | a settled login leaves the errors; a thrown error leaves only `general`, holding its message when non-empty and "Invalid email or password." when empty |
| LoginForm.MockSubmitMessage | frontend/components/LoginForm.tsx:40-55 | against the mock login endpoint the form always ends with a general error: "Invalid login response" for the good account, the missing-field message for an empty field, "Invalid email or password" otherwise |
| LoginForm.LoginFormState.constructor | frontend/components/LoginForm.tsx:17-22 | empty email and password, no errors, not submitting |
| LoginForm.LoginFormState.HandleInputChange | frontend/components/LoginForm.tsx:34-38 | the field is set, the email error goes on an email change and `general` on every change |
| LoginForm.LoginFormState.BeginSubmit | frontend/components/LoginForm.tsx:40-47 | with no client-side check, every submit is submitting with no errors and calls login with the current email and password |
| LoginForm.LoginFormState.FinishSubmit | frontend/components/LoginForm.tsx:48-54 | the errors are those after the outcome and submitting ends |
| ForgotPassword.NoBlankBetweenSpec | frontend/components/ForgotPasswordForm.tsx:40 | the recursive no-whitespace check agrees with its definition on the slice |
| ForgotPassword.LooksLikeEmailIffPattern | frontend/components/ForgotPasswordForm.tsx:40 | the search over `@` and `.` positions accepts exactly the strings in which `\S+@\S+\.\S+` matches somewhere |
| ForgotPassword.PatternMatches | frontend/components/ForgotPasswordForm.tsx:40 | the meaning of `/\S+@\S+\.\S+/.test`: three non-blank runs around `@` and `.` somewhere in the text; the reference for ForgotPassword.LooksLikeEmailIffPattern |
| ForgotPassword.LooksLikeEmail | frontend/components/ForgotPasswordForm.tsx:40 | the executable test, a search over `@` and `.` positions; specified by ForgotPassword.LooksLikeEmailIffPattern |
| ForgotPassword.UnanchoredExamples | frontend/components/ForgotPasswordForm.tsx:40 | the pattern is not anchored: surrounding text, blanks included, is accepted around an address, while `a@b` and `@b.c` are refused |
| ForgotPassword.EmailErrors | frontend/components/ForgotPasswordForm.tsx:35-46 | an empty email gets "Email is required", a non-matching one "Please enter a valid email address", a matching one no error; `email` is the only key |
| ForgotPassword.EmailOf | frontend/components/ForgotPasswordForm.tsx:38 | `formData.email`, empty when absent; used by ForgotPassword.ForgotPasswordForm.BeginSubmit |
| ForgotPassword.ErrorsAfterInput | frontend/components/ForgotPasswordForm.tsx:29-33 | an input removes the email error on an email change and `general` on every change: each stays exactly when it was there with an empty message; every other error is kept |
| ForgotPassword.ForgotPasswordForm.constructor | frontend/components/ForgotPasswordForm.tsx:12-17 | an empty email, no errors, neither submitting nor done |
| ForgotPassword.ForgotPasswordForm.Showing | frontend/components/ForgotPasswordForm.tsx:73 | the confirmation view is drawn exactly once the request succeeded |
| ForgotPassword.ForgotPasswordForm.HandleInputChange | frontend/components/ForgotPasswordForm.tsx:29-33 | the field is set and the errors are those after this field's input |
| ForgotPassword.ForgotPasswordForm.BeginSubmit | frontend/components/ForgotPasswordForm.tsx:48-59 | an email failing the check sends nothing and shows its error; one passing it is submitting with the errors cleared and is the email sent |
| ForgotPassword.ForgotPasswordForm.FinishSubmit | frontend/components/ForgotPasswordForm.tsx:61-70 | a reply with `success` shows the confirmation, one without changes nothing, an error becomes the only general error; submitting ends |

## Left out

- Encryption: `set-login-cookie` encrypts nothing (its comment says AES would be used "in production"), so there is no cipher to model. `SetLoginCookie.SecretIsUnused` states that the secret plays no part.
- `SetLoginCookie.SetLoginCookie`: the `catch` at backend/auth/set-login-cookie.ts:41-44 is not modelled; nothing in the `try` can throw for string inputs.
- `AutoLogin.AutoLogin`: when the cookie is not canonical base64, Node's lenient decoder still yields some bytes. Those bytes are an input (`lenient`), not computed.
- `Utf8.Encode`: JavaScript strings may hold lone UTF-16 surrogates, which `Buffer.from` encodes as EF BF BD. A Dafny `char` cannot hold one, so `Utf8.Encode` and `SetLoginCookie.EncodeCredentials` do not cover such strings.
- `Utf8.Decode`: a malformed byte sequence decodes to U+FFFD one byte at a time. The WHATWG "maximal subpart" grouping is not modelled. Well-formed input, which is all that set-login-cookie writes, decodes exactly.
- `Text.AsciiLower`: `toLowerCase` is modelled for the letters A-Z only. The "already exists" test compares against lower-case ASCII text, so this is all it needs.
- `AutoLogin`: the upstream CRM sign-in is the function parameter `upstream`, a reply of status, parse result and body fields. Request encoding, headers and logging are left out.
- `AutoLogin`: a failed auto-login does not clear the `login_creds` cookie, and the model carries no cookie in its reply. This matches the source.
- `IpCountry`: the geolocation service is the parameter `lookup`, from address to reply. Its URL and the network are left out.
- The CRM proxy endpoints, the forgot-password, logout, authenticate and countries endpoints, the onboarding save endpoints and KYC initiation are not part of this model. They are network clients or constant mocks. Their replies appear only as outcomes passed to the handlers that await them.
- `Wizard.MultiStepContainer.GoToNextStep`: the backend save (`saveStep1`-`saveStep3`) is returned as a value. The step advances whatever that call does, which is what the source's caught failure means.
- `initiateKyc` (frontend/components/MultiStepContainer.tsx:76-89) is not modelled beyond `StepContent.OnlyVerificationGetsKyc`. `initiateKyc` itself only calls a mock endpoint and shows an alert.
- `Wizard.MainStepOf` and `Wizard.SubStepOf`: `parseInt` is modelled for the one-digit pieces of the thirteen flow ids only.
- `Stepper.getProgressWidth` (frontend/components/Stepper.tsx:33-40) is floating-point percentage arithmetic and is not modelled.
- React scheduling: effects are methods that the caller invokes, and state setters take effect at once. The re-render between two setters and the rendered markup are left out.
- `FormDataStore.FormDataProvider.UpdateFormData`: the 100 ms `setTimeout` before the write is treated as immediate. The race between that timer and `clearFormData` is not modelled.
- `ChoiceSteps.HandleOptionClick`: the 200 ms `setTimeout(onNext)` is counted as one scheduled `onNext`; the timing is left out.
- `FormDataStore`: `localStorage` is a map from key to either a parsed record or an unparseable (`Corrupt`) entry. Stored JSON that parses to something other than an object is not modelled, and neither is the `JSON.stringify` text.
- `FormDataStore.Loaded`: an empty-string `localStorage` entry is skipped by `if (savedData)` (frontend/contexts/FormDataContext.tsx:88). The model's entries are `Saved` or `Corrupt` only, so such an entry is not modelled.
- `FormValues`: form values are strings or booleans, as the `FormData` type declares. Values of other JavaScript types are not modelled.
- `Registration.TextOf`: a field missing from the record is sent as the empty string where the source would send `undefined`. Validation rejects such a record before any request is built.
- Table lookups such as `stepConfigs[stepId]` and `stepMap[initialStep]` are modelled on the keys the tables declare. Inherited object keys such as `constructor` are not modelled.
- `AppRoutes`: paths match exactly. React Router's case-insensitive and trailing-slash matching are not modelled.
- `Registration.RegistrationForm.FinishSubmit`: the `localStorage.setItem` calls and the `onAuthSuccess`/`onShowLogin` callback are returned as values. What happens when the callback is absent is `Registration.FinishedUnwired` (see Findings); an absent `onShowLogin` throws out of the `catch`, which that function models only as leaving the errors as they were.
- `LoginForm.LoginFormState.FinishSubmit` and `ForgotPassword.ForgotPasswordForm.FinishSubmit`: the awaited call is an outcome parameter. The backend behind it is the mock login endpoint (see `LoginForm.MockSubmitMessage`), or for forgot-password it is not part of this model.
- Logging (`console.log`/`console.error`) and `alert` are left out everywhere.

## Findings

| source | as written | input that shows it | evidently intended | confidence | as-written member | corrected member |
|---|---|---|---|---|---|---|
| frontend/App.tsx:42 | the wizard is mounted without `initialStep`, so `Math.max(1, initialStep)` at frontend/components/MultiStepContainer.tsx:26 sets the watermark to NaN | sign in and open /en/apply: the watermark is NaN, every `n <= watermark` test fails, no stepper step is clickable and `goToStep` ignores every step, even after advancing | a missing initial step starts the watermark at 1, so reached steps stay clickable | not executed | WizardMount.AppMountLocksStepper | Wizard.MountedStateNavigable (with Wizard.MultiStepContainer.MountIntended) |
| frontend/components/steps/ResidenceAddress.tsx:35-39 | `handleNext` navigates to /en/apply/public-official-status and never calls `onNext`; the wizard renders no outlet for that route, so its index stays on 1-1 | on screen 1-1, tick the terms box and press Next: the wizard still shows 1-1 | a valid step calls `onNext` and the wizard moves to 1-2 | not executed | ResidenceAddress.StuckAtResidence | ResidenceAddress.IntendedNextAdvances |
| frontend/contexts/AuthContext.tsx:42 | `login` signs in only when the reply holds `jwt`, `user` and `access_token`, but the mock login endpoint (backend/auth/login.ts:8-11, 25-28) returns only `jwt` and `message`, so the else branch throws "Invalid login response" | on /login, sign in as test@example.com with password `password`: the form shows "Invalid login response" and the session stays signed out | the mock account signs in, its reply carrying a user and an access token beside the token | not executed | AuthSession.MockLoginNeverAuthenticates (with LoginForm.MockSubmitMessage) | AuthSession.IntendedLoginAuthenticates |
| frontend/App.tsx:62-64 | the login, registration and forgot-password forms are mounted without props, so `onAuthSuccess()` at frontend/components/RegistrationForm.tsx:98 calls `undefined`; the `TypeError` lands in the `catch` at lines 100-110 and becomes the general error | on /register, fill in the form validly with any email other than existing@example.com and submit: the token is stored, but the form stays up showing "onAuthSuccess is not a function" | a successful registration calls the success callback and keeps the form's errors | not executed | Registration.UnwiredSuccessShowsError (with Registration.UnsetMessageNotTaken) | Registration.FinishedSpec |
