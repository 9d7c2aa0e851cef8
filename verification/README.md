# SalesManager front end: validation, session store and route guard

This project models the core of the SalesManager point-of-sale web front end in Dafny and proves properties of that model. It covers three parts:

- **Validation composable** (`useValidation.js`). It checks e-mail addresses and Ecuadorian national identity numbers (*cédula*), and grades password strength. It also has the live input formatters (letters, integers, decimals, postal codes, fax numbers) and the optional phone and URL checks.
- **Session store** (`authStore.js`). It holds the bearer token, the user's e-mail and the user's roles, and mirrors them into the browser's key/value storage. It has the `isAuthenticated` and `isAdmin` getters. Its `login` action extracts the identity from the issued token, then either commits the session and picks a redirect, or clears everything and raises an error. It also has `logout` and `logoutCleanup`.
- **Router** (`router/index.js`). It has the route table, with paths joined and meta merged as the router library does. The records are tried in the order they are added (see "## Left out"). Before every navigation, a guard decides whether to let the navigation through or where to send it instead.

Modules:

| file | module | models |
|---|---|---|
| `Wrappers.dfy` | `Wrappers` | `Option` and `Result` |
| `Validation.dfy` | `Validation` | `src/composables/useValidation.js` |
| `RoleJson.dfy` | `RoleJson` | how the role list is stored (`JSON.stringify` of an array of strings) and read back (`JSON.parse`) |
| `Auth.dfy` | `Auth` | `src/stores/authStore.js` |
| `Router.dfy` | `Router` | `src/router/index.js` |

Things the code uses but does not compute become parameters of the model:

- the authentication server's answer;
- what the token decoder gives;
- the verdict of the URL parser.

Storage is a `map<string, string>`. Each formatter's input field is an `InputField` object whose `value` the formatter rewrites.

## Model

| member | source | states |
|---|---|---|
| Validation.EmailValidIffPattern | src/composables/useValidation.js:9-14 | The address check accepts exactly the strings matching `^[^\s@]+@[^\s@]+\.[^\s@]+$`, in both directions. Empty input is rejected. |
| Validation.IsValidEmail | src/composables/useValidation.js:9-14 | Empty input is invalid. An accepted address has at least five characters and no whitespace. `EmailValidIffPattern` gives the exact set. |
| Validation.ValidateCedula | src/composables/useValidation.js:22-55 | The loop keeps the running sum equal to the weighted sum of the first i digits. The result is true iff all of these hold: 10 ASCII digits, province 1..24, third digit at most 5, and a tenth digit equal to the check digit. |
| Validation.CheckDigit | src/composables/useValidation.js:44-45 | The check digit is below 10 and brings the weighted sum to a multiple of 10. |
| Validation.SingleDigitErrorDetected | src/composables/useValidation.js:36-48 | Changing any single digit of a valid number always makes it invalid. |
| Validation.CedulaCompletion | src/composables/useValidation.js:30-48 | Take a nine-digit prefix with an admissible province and third digit. Exactly one tenth digit completes it: the check digit. |
| Validation.CedulaAccepted | src/composables/useValidation.js:22-55 | 1710034065 is accepted: the weighted sum is 25, so the check digit is 5. |
| Validation.CedulaRejected | src/composables/useValidation.js:25-34 | These are rejected: a wrong tenth digit, 11 digits, a letter, province 25, third digit 7. |
| Validation.PasswordStrength | src/composables/useValidation.js:61-106 | Empty input gives score 0, no label, "danger" and no `isSecure`. Otherwise the score counts the criteria met and is capped at 2 below length 6; the label and colour follow the score; `isSecure` means score at least 3 and length 6..8. |
| Validation.ScoreBounds | src/composables/useValidation.js:68-75 | The score is at most 5, and at most 2 below length 6. It is 0 exactly for the empty password. |
| Validation.SecureMeansTwoClasses | src/composables/useValidation.js:97-100 | A secure password has length 6..8 and at least two of the four character classes. Anything longer than 8 is never secure. |
| Validation.GradeBands | src/composables/useValidation.js:77-95 | The colour is "danger", "warning", "info" or "success" exactly for score bands 0, 1-2, 3 and 4-5. |
| Validation.PasswordExamples | src/composables/useValidation.js:61-102 | Scores and verdicts for four sample passwords: 8 characters can be secure, 9 never are. |
| Validation.Filter | src/composables/useValidation.js:115 | The regex replace with a negated class keeps only admitted characters and never lengthens the input. |
| Validation.Truncate | src/composables/useValidation.js:116-118 | `substring(0, maxLength)` applied only above the cap gives a prefix of length min(\|s\|, max(maxLength, 0)). |
| Validation.FormatLaws | src/composables/useValidation.js:113-193 | Every filtering formatter has these properties: its output holds only admitted characters, stays within the cap, is a prefix of the filtered input, and reformatting the output changes nothing. |
| Validation.FormatOnlyLetters | src/composables/useValidation.js:113-121 | The field's new value and the return value are ASCII letters, `\s` whitespace and ñÑáéíóúÁÉÍÓÚ, cut to `maxLength` (default 25). |
| Validation.FormatOnlyInteger | src/composables/useValidation.js:126-134 | The field's new value and the return value are the digits, cut to `maxLength` (default 6). |
| Validation.FormatPostalCode | src/composables/useValidation.js:162-170 | The field's new value and the return value are the ASCII letters and digits, cut to 10. |
| Validation.FormatFax | src/composables/useValidation.js:184-193 | The field's new value and the return value are the characters of `[0-9()-. ]`, cut to 15. |
| Validation.FaxCharsSpelledOut | src/composables/useValidation.js:187 | The fax class admits digits and `()*+,-. `, because `)-.` is a range. |
| Validation.FaxExample | src/composables/useValidation.js:187 | "a*b,c" formats to "*,". |
| Validation.DropLastExtraDot | src/composables/useValidation.js:142 | With two or more dots, the greedy `/(\..*)\./g` removes exactly one dot. Otherwise it changes nothing. |
| Validation.DropLastExtraDotAt | src/composables/useValidation.js:142 | The dot it removes is the last one. |
| Validation.Split | src/composables/useValidation.js:144 | `split('.')` gives one more piece than there are dots, and no piece holds a dot. |
| Validation.JoinSplit | src/composables/useValidation.js:144-154 | `join` undoes `split`. |
| Validation.SplitJoin | src/composables/useValidation.js:144-154 | `split` undoes `join` of dot-free pieces. |
| Validation.LimitParts | src/composables/useValidation.js:146-152 | The integer part is cut to its first 6 characters and a second part, if any, to its first 2. Any further pieces are kept as they are, and the number of pieces is unchanged. |
| Validation.FormatDecimal | src/composables/useValidation.js:139-157 | The field's new value and the return value are the filtered, dot-trimmed, split, limited and re-joined input. |
| Validation.DecimalLaws | src/composables/useValidation.js:139-157 | The output holds only digits and dots. Its integer part has at most 6 characters and its next part at most 2. |
| Validation.DecimalTwoDotsParts | src/composables/useValidation.js:142-154 | For any clean input `a.b.c` with exactly two dots, the second dot is removed, so the value is `a` and `bc` joined by one dot, with each part cut to its limit. |
| Validation.DecimalSecondDotDropped | src/composables/useValidation.js:142-154 | "12.345.6" gives "12.34". |
| Validation.DecimalIntegerPartCut | src/composables/useValidation.js:146-148 | "1234567.89" gives "123456.89". |
| Validation.DecimalThreeDotsKeepExtraDot | src/composables/useValidation.js:142 | "1.2.3.4" gives "1.2.34", and formatting that again gives "1.23". With three dots a dot survives, so the formatter is not idempotent. |
| Validation.IsValidPhone | src/composables/useValidation.js:175-179 | Valid iff the field is empty or holds exactly ten digits among any other characters. |
| Validation.IsValidUrl | src/composables/useValidation.js:198-206 | An empty field is valid. A non-empty one is valid iff the URL parser accepts it. |
| RoleJson.Serialize | src/stores/authStore.js:67 | `JSON.stringify` of the role list is bracketed text, and "[]" exactly for no roles. |
| RoleJson.ParseRoles | src/stores/authStore.js:11 | Accepted text starts with '['. "[]" reads as no roles. |
| RoleJson.RolesRoundTrip | src/stores/authStore.js:11 | Reading the stored text of any role list gives the list back. The text is what line 67 writes; line 11 reads it. |
| RoleJson.ParseEscaped | src/stores/authStore.js:67 | Any escaped string followed by a closing quote reads back as that string. |
| RoleJson.HexRoundTrip | src/stores/authStore.js:67 | The `\u00XX` digits read back as the value written. |
| Auth.AttemptLogin | src/stores/authStore.js:21-81 | Failure iff the request is rejected or the token is missing or empty. The error is the server's message if it sent one, else the fallback message. On success: the session holds the issued token and is authenticated; the roles follow the claim (array, single string, or "Usuario"); the e-mail is the first truthy of the email claim, the sub claim and the credentials; a decode failure gives "Usuario" and the credentials' e-mail. |
| Auth.IsAuthenticated | src/stores/authStore.js:15 | `!!state.token`: the token is present and non-empty. |
| Auth.IsAdmin | src/stores/authStore.js:17 | The roles contain "Admin". |
| Auth.Restore | src/stores/authStore.js:8-12 | The initial state. Token and e-mail are read with `\|\| null`. Missing or empty roles text reads as no roles. Otherwise the text is parsed, and the result is a failure exactly when `RoleJson.ParseRoles` fails. That covers malformed text, on which the source throws, and also well-formed JSON outside the compact array form, on which the source does not throw. |
| Auth.ReadItem | src/stores/authStore.js:9-10 | `getItem(key) \|\| null` gives a value iff the key is present and non-empty. |
| Auth.Committed | src/stores/authStore.js:65-67 | Commit writes the three keys: the token, the e-mail ("undefined" when missing) and the roles as JSON. Every other key is kept. |
| Auth.Cleared | src/stores/authStore.js:92-94 | Cleanup removes exactly the three session keys and keeps every other key. |
| Auth.RestoreAfterCommit | src/stores/authStore.js:8-12 | On the next start the store reads back a committed session: token, roles, and the e-mail when it was truthy. |
| Auth.RestoreAfterCleared | src/stores/authStore.js:8-12 | After cleanup the next start is signed out, with no token, no e-mail and no roles. |
| Auth.ClearedAfterCommit | src/stores/authStore.js:65-67 | Cleanup undoes a commit completely, is idempotent, and leaves none of the three keys. |
| Auth.AuthStore.constructor | src/stores/authStore.js:8-12 | The initial state is what storage holds. The storage itself is unchanged. |
| Auth.AuthStore.LogoutCleanup | src/stores/authStore.js:88-95 | The state is signed out, and storage loses exactly the three keys. |
| Auth.AuthStore.Logout | src/stores/authStore.js:83-86 | Cleanup, then "/login". |
| Auth.AuthStore.Login | src/stores/authStore.js:21-81 | On success: the fields and the three keys hold the session `AttemptLogin` gives, and the redirect is "/app/admin" iff its roles contain "Admin", else "/app/pos". On failure: signed out, storage cleared, and the error message. |
| Auth.ClearedIdempotent | src/stores/authStore.js:92-94 | Cleaning up twice leaves storage as cleaning up once. |
| Auth.LoginThenCleanup | src/stores/authStore.js:21-95 | A store started from storage, then one login whatever its outcome, then cleanup: storage ends as the original minus the three keys. |
| Router.JoinPath | src/router/index.js:36-57 | An absolute child path stands alone. An empty one is the parent's own path, so the '' child of "/app" is "/app". Any other is appended to the parent's with one slash. |
| Router.MergeMeta | src/router/index.js:38-56 | A child sees its own meta fields and inherits its parent's where it sets none. |
| Router.FlattenedTable | src/router/index.js:15-64 | The flattened table, in the order the model tries its routes: home ("/") before its layout; the "/app" redirect, "/app/pos" and "/app/admin" before the "/app" layout; the catch-all last. Meta is merged down from parent to child. |
| Router.DistinctPathsNeverShareAMatch | src/router/index.js:15-64 | Two table routes with different paths, the catch-all aside, never match the same path, so the order they are tried in does not change which one a path finds. |
| Router.RouteFlags | src/router/index.js:38-56 | POS and Admin inherit `requiresAuth` from "/app". Only Admin carries `requiresAdmin`. Home and Login carry neither. |
| Router.FirstMatch | src/router/index.js:15-64 | The route found is in the table and matches the path. A path matched by the last route always finds one. |
| Router.FirstMatchIsFirst | src/router/index.js:15-64 | The search finds a route iff some route matches. What it finds is the matching route at the lowest position: no earlier route matches. |
| Router.Matches | src/router/index.js:15-64 | The catch-all matches every path, and every route matches its own path. Any other match differs from the route's path by at most one trailing slash. |
| Router.Resolve | src/router/index.js:42-63 | A resolved route is in the table and does not itself redirect. |
| Router.AppRedirectsToPos | src/router/index.js:42-45 | "/app" and "/app/" resolve to the POS route. |
| Router.UnknownGoesHome | src/router/index.js:60-63 | Any path no listed route matches is caught and resolves to Home. |
| Router.ResolvesEverywhere | src/router/index.js:15-64 | Every path resolves. |
| Router.Decide | src/router/index.js:75-96 | Rule 1: an admin-only target with a non-admin session goes to POS. Rule 2: a protected target with a signed-out session goes to Login. Rule 3: a signed-in session asking for Login or Home goes to "/app/pos". It proceeds iff no rule applies. |
| Router.Guard | src/router/index.js:75-96 | The guard with the store's getters. A route it lets through has each flag it carries met: `requiresAuth` by a signed-in session, `requiresAdmin` by an admin. |
| Router.GuardOnNamedRoutes | src/router/index.js:75-96 | The decision for each named route and each combination of the two getters. A non-admin asking for Admin goes to POS even when signed in. A signed-in admin asking for Home is sent to "/app/pos" too. |
| Router.GuardReadsOnlyGetters | src/router/index.js:75-96 | The decision depends on the session only through `isAuthenticated` and `isAdmin`. |
| Router.Named | src/router/index.js:80-86 | A named redirect goes to the route of that name, which does not itself redirect. |
| Router.Settle | src/router/index.js:75-96 | A navigation that settles ends on a route the guard lets through. |
| Router.SettlesAtLanding | src/router/index.js:75-96 | From any route of the table, re-running the guard on each redirect settles within two redirects, on the route `Landing` gives. |
| Router.NavigateLands | src/router/index.js:15-96 | A navigation to any path settles within two redirects, on the route `Landing` gives for the resolved target. A signed-out session never reaches a protected route. |
| Router.TwoRedirectsNeeded | src/router/index.js:80-86 | The two-redirect bound is reached: a signed-out session asking for Admin goes to POS, then to Login. |
| Router.LoginRedirectProceeds | src/stores/authStore.js:70-74 | The redirect a successful login asks for is let through at once, ending on Admin or POS. |
| Router.LogoutLandsOnLogin | src/stores/authStore.js:83-86 | After logout, the navigation to "/login" is let through. |

## Left out

- `src/services/apiService.js` and `src/main.js` are not part of this model. The server's answer to the login request is a parameter: a token, or a rejection with an optional message.
- Token decoding is an input. It either fails, or gives the role claim (array, string or anything else) and the optional `email` and `sub` claims. Signature checks and expiry are not modelled.
- `Validation.IsValidUrl`: the URL parser (`new URL`) is a parameter. The model does not say which strings it accepts.
- Router side effects (`router.push`, `next()`) are modelled as returned values. Console logging is left out.
- Pinia reactivity is left out. So are `computed` re-evaluation, `async`/`await` and interleaving of concurrent logins.
- Failures other than the server's rejection and a missing token are not modelled. For example, a storage write that throws is not modelled.
- Lengths count characters, whereas JavaScript `length` counts UTF-16 code units. The two agree for all characters in the Basic Multilingual Plane.
- `RoleJson.ParseRoles` reads only the compact form that `JSON.stringify` writes. Whitespace between tokens and non-string elements are not accepted.
- `Auth.AuthStore.constructor` requires stored roles that `RoleJson.ParseRoles` reads, so that `Auth.Restore` gives a session. On malformed text the store's initialisation throws, because line 11 does not guard `JSON.parse`. For well-formed JSON outside the compact form, see the `Auth.Restore` line below.
- `Auth.Restore` gives no session for well-formed JSON role text outside the compact array form, such as `null`, `"Admin"` or `[ "Admin"]`, although `JSON.parse` at authStore.js:11 reads it without throwing. The store only ever writes the compact form (line 67), which `RoleJson.RolesRoundTrip` shows is read back.
- `Auth.IsAdmin` leaves out the `Array.isArray(state.userRoles) &&` test of authStore.js:17. In the model the roles are always a list, so the test always holds. A stored non-array value such as `"Admin"`, which that test keeps from counting as admin, is one of the inputs excluded above.
- `Auth.Truthy`: claims and credentials are modelled as optional strings. A non-string claim value is not modelled.
- `Router.Matches` compares paths exactly, up to one trailing slash. The router library's case-insensitive matching, URL decoding, query strings and hashes are left out.
- `Router.FirstMatch` and `Router.FirstMatchIsFirst`: the router library sorts its routes by a path score, so it tries "/app/pos" and "/app/admin" before "/", "/login" and "/app". The model does not rank routes. It tries them in the order the records are added: each record's children before the record, and the catch-all last. For this table the two orders find the same route for every path. `Router.DistinctPathsNeverShareAMatch` shows that routes with different paths, the catch-all aside, never match the same path. Among routes that share a path, both orders put the child first.
- `Router.Resolve` and `Router.Settle` take a bound on redirects: one for resolving a path, two for guard redirects. The table needs no more than that, as `ResolvesEverywhere` and `NavigateLands` show.

Where the code's own comments say something else, the model follows the code:

- The letters formatter keeps every `\s` whitespace character (tab, newline, no-break space and so on). The comment at useValidation.js:111 says "letras y espacios".
- The fax class `[0-9()-. ]` contains the range `)`..`.`, so it also admits `*`, `+` and `,`. The comment at useValidation.js:186 speaks only of numbers and formatting characters.
- The decimal formatter's dot clean-up removes only the last dot. With three or more dots a dot survives (`DecimalThreeDotsKeepExtraDot`). The comment at useValidation.js:141 says every dot but the first goes.

Other behaviour the model keeps as written:

- Rule 3 of the guard sends every signed-in user asking for Login or Home to "/app/pos", admins included.
- Malformed stored roles make the store's initialisation throw. They are not treated as absent.
- A missing e-mail is stored as the text "undefined".
