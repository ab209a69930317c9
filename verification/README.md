# ikodio-property: decision logic of the booking web app, in Dafny

This project models the small pure decisions inside the property-rental web app's pages, hooks and route handlers. Each one becomes a total Dafny function over plain values, with its promises proved:

- **Route guard** (`Middleware`). The request middleware classifies a pathname against fixed public, user and tenant prefix tables. It then either lets the request through or redirects to `/login-user` or `/login-tenant`, carrying the requested path as `callbackUrl`.
- **Payment page** (`PaymentPage`). Covers four pieces:
  - the payment-deadline countdown (hours, minutes and seconds, or "Expired", after which the timer stops);
  - the JPG/PNG, 1 MiB check on a payment-proof file;
  - the manual upload flow;
  - the confirmation poll after a gateway payment: at most 10 polls 2 s apart, then a fallback refetch.
- **Price calendar** (`PriceCalendar`). Covers:
  - the priority-ordered classification of a day cell: disabled, selected, in the chosen stay, peak, available;
  - click enabling and the peak star;
  - the strict in-range test on ISO date strings;
  - when the selected-dates bar shows, relative to the range highlight;
  - previous/next month navigation, using JavaScript `Date` month roll-over.
- **Property listing** (`PropertiesPage`). Covers the "starting from" minimum room price, the search/city/sort/page state machine with its loading and empty-result states, the query parameters sent to the listing API, and the pagination buttons.
- **Authentication** (`AuthConfig`, over the user table in `Users`). Covers:
  - the ordered checks of the user and tenant credential sign-ins;
  - the social sign-in upsert;
  - the `jwt` and `session` callbacks.
- **Tenant registration** (`RegisterTenant`). The `POST` handler covers validation, duplicate e-mail rejection, the new TENANT row with its one-hour verification expiry, and the 200/400/500 answers.

`Strings` holds the string semantics the source relies on. It has `startsWith`, unanchored matching, JavaScript's relational order on strings (`LexLess`, with irreflexivity, asymmetry, transitivity and totality proved) and decimal rendering with its parse-back round trip. `Wrappers` holds `Option`.

Inputs that the source takes from the outside world become parameters:
- the clock (the deadline distance at each tick, `now`);
- whether a day is past;
- the server's replies (a sequence with one reply per poll);
- bcrypt (`passwordMatches`);
- database-assigned ids and the verification token;
- the parsed and validated request body;
- which awaited calls throw (`Faults`).

JavaScript's falsy `null` / `undefined` / `""` are all written `""` for strings.

## Model

| member | source | states |
|---|---|---|
| Middleware.Guard | src/middleware.ts:42-54 | A public path or a present session cookie always passes. A redirect happens exactly when the path is not public, there is no session, and the path is a user or tenant route. The target is `/login-tenant` exactly for tenant routes, otherwise `/login-user`, and `callbackUrl` is the requested path. |
| Middleware.Middleware | src/middleware.ts:4-55 | The guard as written. A path starting with any public prefix yields Next without consulting cookies. A redirect needs no session and a protected route, goes to the tenant login exactly for tenant routes, and carries the original pathname. |
| Middleware.RootedPathsArePublic | src/middleware.ts:8-32 | Because `'/'` is a public prefix, every path beginning with `/` is public and passes whatever the cookies, so the redirect branch is unreachable for such paths. |
| Middleware.ProfileIsNotGuarded | src/middleware.ts:39-51 | Concrete case: `/profile` is a user route, an empty cookie jar has no session, and the guard still answers Next. |
| Middleware.PrefixMatchingIsLoose | src/middleware.ts:39-43 | Route membership is plain prefix matching: `/tenantX` is a tenant route, `/profileX` a user route, and `/profile` is not a tenant route. |
| Middleware.MiddlewareCorrected | src/middleware.ts:8-51 | The guard with `'/'` matched exactly. Public paths pass, and any redirect carries the requested path. |
| Middleware.CorrectedGuardsProtectedRoutes | src/middleware.ts:39-51 | Under the corrected public test, a request redirects exactly when it has no session cookie of either name and the path is a user or tenant route. The target is the tenant login for tenant routes and the user login otherwise, with `callbackUrl` = path. |
| Middleware.CorrectedGuardsProfile | src/middleware.ts:45-50 | Concrete case: without cookies, the corrected guard sends `/profile` to `/login-user` with callbackUrl `/profile`. |
| PaymentPage.Tick | src/hooks/usePaymentPage.ts:33-46 | The countdown is expired exactly when the distance to the deadline is negative, so a distance of 0 is not expired. Otherwise minutes and seconds are each below 60. |
| PaymentPage.TickReconstructs | src/hooks/usePaymentPage.ts:44-46 | For distance ≥ 0: h·3600000 + m·60000 + s·1000 ≤ distance < that + 1000. The display is the distance rounded down to a whole second. |
| PaymentPage.Text | src/hooks/usePaymentPage.ts:37-48 | The shown text is `Expired` exactly for an expired tick. A remaining time renders as text starting with a digit. |
| PaymentPage.TextInjective | src/hooks/usePaymentPage.ts:44-48 | The text `${h}h ${m}m ${s}s` determines the time: two ticks with the same text show the same hours, minutes and seconds, so no two times share a display. |
| PaymentPage.Run | src/hooks/usePaymentPage.ts:31-51 | Over the distances read at successive ticks, the timer ends expired exactly when some distance is negative. It stops at the first negative one, whose text is `Expired`. Every earlier tick was non-negative and showed its own `${h}h ${m}m ${s}s` text. Without expiry every tick's text is shown. |
| PaymentPage.RunStopsAtExpiry | src/hooks/usePaymentPage.ts:37-41 | Once expired, later ticks change nothing, because the interval is cleared. |
| PaymentPage.ValidateFile | src/hooks/usePaymentPage.ts:98-108 | A file is accepted exactly when its type contains `image/jpeg`, `image/jpg` or `image/png` anywhere and its size is at most 1048576 bytes. A wrong type is reported before the size, whatever the size. |
| PaymentPage.ValidateFileEdges | src/hooks/usePaymentPage.ts:99-107 | Exactly 1048576 bytes is accepted and 1048577 is rejected for size. `application/pdf` is rejected for type even when also too big. `image/pngx` is accepted because the match is unanchored. |
| PaymentPage.ManualUpload | src/hooks/usePaymentPage.ts:69-96 | The upload is sent exactly when the file check accepts. A refused file shows the check's message. The booking is refetched exactly when the server accepted, and then no error shows. A server error shows its `error` field or `Upload failed`, and a thrown error shows its message. |
| PaymentPage.RefusedFileIgnoresReply | src/hooks/usePaymentPage.ts:69-70 | A file the check refuses never reaches the server: the outcome is the same whatever the server would have answered, and the booking is not refetched. |
| PaymentPage.AcceptedFileErrorIffServerRefuses | src/hooks/usePaymentPage.ts:77-92 | For an accepted file, no error shows exactly when the server accepted the upload. A server error always shows a non-empty message, falling back to `Upload failed`. |
| PaymentPage.HandlePaymentSuccess | src/hooks/usePaymentPage.ts:118-162 | Between 1 and 10 polls run, and the loop stops at the first CONFIRMED or COMPLETED reply. Failed and thrown replies count as not confirmed. A 2 s pause follows each unconfirmed poll. The fallback refetch runs exactly when none of the 10 confirmed. |
| PriceCalendar.ClassifyDay | src/components/PropertyDetail/PriceCalendar.tsx:128-172 | A day is enabled exactly when it is not past and has an available price entry. Exactly one style is chosen, with priority disabled > selected > in range > peak > available, and the initial white style is never the final style. The star shows exactly for an available peak day that is not an endpoint. |
| PriceCalendar.OnDayClick | src/components/PropertyDetail/PriceCalendar.tsx:160-161 | A click passes the date on exactly when the cell is not disabled. |
| PriceCalendar.EndpointsNeverInRange | src/components/PropertyDetail/PriceCalendar.tsx:131-133 | The check-in and check-out days themselves are never in range, because the comparison is strict. |
| PriceCalendar.InRangeMeansOrderedStay | src/components/PropertyDetail/PriceCalendar.tsx:132-133 | If any day is in range, check-in sorts before check-out and the day is neither endpoint. |
| PriceCalendar.ReversedStayIsEmpty | src/components/PropertyDetail/PriceCalendar.tsx:132-133 | When check-out sorts before check-in, no day is in range. |
| PriceCalendar.IsoDateOrder | src/components/PropertyDetail/PriceCalendar.tsx:128-133 | For four-digit-year dates rendered `YYYY-MM-DD`, string order is chronological order and string equality is date equality. |
| PriceCalendar.InRangeIsBetweenDates | src/components/PropertyDetail/PriceCalendar.tsx:128-133 | A day's string is in range exactly when the date lies strictly after check-in and strictly before check-out. |
| PriceCalendar.RangeHighlightNeedsBar | src/components/PropertyDetail/PriceCalendar.tsx:131-180 | A cell drawn in the stay's range means both dates are chosen, so the selected-dates bar shows with it. While the bar is hidden, no cell of any day is drawn in range. |
| PriceCalendar.NewDate | src/components/PropertyDetail/PriceCalendar.tsx:43-49 | `new Date(year, monthIndex)` yields a month in 0..11 whose month count is year·12 + monthIndex. Years 0..99 are read as 1900..1999. |
| PriceCalendar.MonthStepsInverse | src/components/PropertyDetail/PriceCalendar.tsx:43-49 | After year 100, Next and Previous move exactly one month and undo each other. |
| PriceCalendar.TwoDigitYearJump | src/components/PropertyDetail/PriceCalendar.tsx:43-49 | Below year 100 the two-digit-year rule shows through: Next from December 99 gives January 2000. |
| PropertiesPage.MinPrice | src/app/properties/page.tsx:78-81 | An empty room list gives 0. Otherwise the result is some room's base price and is at most every room's base price. |
| PropertiesPage.Pagination | src/app/properties/page.tsx:155-258 | The strip is drawn exactly when the page is not loading, the last answer listed at least one property, and totalPages > 1. Previous is enabled exactly when page ≠ 1, and Next exactly when page ≠ totalPages. |
| PropertiesPage.Step | src/app/properties/page.tsx:43-140 | Changing search, city or sort resets the page to 1. City `all` becomes the empty filter and any other value passes through. Previous/Next move by exactly −1/+1, only when drawn and enabled. A user event starts loading exactly when it changes the fetch effect's inputs, and changes nothing else. An answered fetch records the page count and result size and ends loading. A failed fetch only ends loading. The page never drops below 1. |
| PropertiesPage.ClicksStayInBounds | src/app/properties/page.tsx:237-258 | Starting from 1 ≤ page ≤ totalPages, Previous and Next keep the page within 1..totalPages. |
| PropertiesPage.ClickHidesPagerUntilLoaded | src/app/properties/page.tsx:43-48 | A click that moves the page starts a fetch, which hides the strip until the answer arrives. |
| PropertiesPage.EmptyPageStrandsVisitor | src/app/properties/page.tsx:162-169 | When the last answer listed nothing, no buttons are drawn, so Previous and Next cannot move the page. Only a filter change, which resets to page 1, leaves the empty page. |
| PropertiesPage.EmptyLastPageExample | src/app/properties/page.tsx:155-241 | Concrete case: page 3 of 3 comes back empty, the page stays 3, and Previous is not drawn. |
| PropertiesPage.InitialStateHidesPager | src/app/properties/page.tsx:35-41 | On mount the page is on page 1, loading, with no search or city and sorted by `createdAt`, so no pagination is drawn and the first query carries neither search nor city. |
| PropertiesPage.CityChoiceRoundTrip | src/app/properties/page.tsx:112-117 | Choosing any non-empty city value shows that same value back in the select. |
| PropertiesPage.QueryParams | src/app/properties/page.tsx:50-56 | The parameters always start with page and limit `12` and end with sortBy. search and city appear exactly when non-empty. No other key appears. |
| PropertiesPage.QueryParamsRoundTrip | src/app/properties/page.tsx:50-56 | `URLSearchParams.get` on these pairs returns the page number (which parses back to the page), limit `12` and sortBy. search and city are found exactly when they are non-empty. |
| Users.LookupIsRoleScoped | src/lib/auth/auth.config.ts:36-41 | A lookup as USER and a lookup as TENANT never both find a row for one address. In a well-formed table, a row found carries the address and the role asked for. |
| AuthConfig.Authorize | src/lib/auth/auth.config.ts:31-72 | Covers both credential providers (lines 31-72 and 81-122). A missing e-mail or password fails with `Email dan password harus diisi` before any lookup. Success needs the provider's role, a password, verification and a matching password, and returns id, email, name, role, image = profileImage and isVerified. The checks run in order: not found, social-only account, unverified, wrong password. Not-found and wrong-password give the same message. |
| AuthConfig.CredentialsAreRoleScoped | src/lib/auth/auth.config.ts:86-91 | The two credential providers never both accept one login. A tenant sign-in always yields role TENANT. |
| AuthConfig.SocialProvider | src/lib/auth/auth.config.ts:132-144 | Each of `google`, `facebook`, `twitter` maps to the provider with that name, and a social account is never recorded as EMAIL. The GOOGLE fallback cannot be reached from `signIn`, whose guard at line 127 admits only those three names. |
| AuthConfig.SocialProviderRoundTrip | src/lib/auth/auth.config.ts:132-136 | Every social provider's name is one of the three accepted names and maps back to that provider, so the map is a bijection between them. |
| AuthConfig.SignIn | src/lib/auth/auth.config.ts:126-160 | Returns true whenever it returns. A social profile without an e-mail makes the lookup throw, so that sign-in is refused and nothing is written. Only google, facebook and twitter touch the table, and only the visitor's row changes. An unknown e-mail gets a verified USER row with the mapped provider. An existing unverified row becomes verified and keeps its old picture when the new one is empty. A verified row is untouched. |
| AuthConfig.SignInPreservesWellFormed | src/lib/auth/auth.config.ts:138-157 | Social sign-in keeps every row under its own e-mail address. |
| AuthConfig.SignInIdempotent | src/lib/auth/auth.config.ts:138-157 | A second social sign-in with the same profile changes nothing. |
| AuthConfig.Jwt | src/lib/auth/auth.config.ts:161-168 | After a credential sign-in, the token gets the user's id, role and isVerified. After a social sign-in, the user object comes from the provider profile, so the token gets its id and `undefined` for role and isVerified. Without a user the token is unchanged. The token's own claims are kept. |
| AuthConfig.SessionOf | src/lib/auth/auth.config.ts:169-176 | When both a token and `session.user` exist, the token's id, role and isVerified are copied onto the user. Otherwise the session is unchanged. Name, e-mail, image and expiry are kept. |
| AuthConfig.SocialSessionLacksRole | src/lib/auth/auth.config.ts:138-176 | After a first social sign-in, the table holds a verified USER row, yet the session carries no role and no verification flag. |
| AuthConfig.SocialSignInNeedsEmail | src/lib/auth/auth.config.ts:127-130 | A social profile without an e-mail is refused and the table is unchanged. |
| AuthConfig.SignedInSessionShowsUser | src/lib/auth/auth.config.ts:161-176 | After a successful credential sign-in, `jwt` followed by `session` shows the row's id, the provider's role and isVerified = true. |
| RegisterTenant.Post | src/app/api/auth/register-tenant/route.ts:7-71 | The status is always 200, 400 or 500, and only 200 is success. A schema failure answers 400 with the first issue's message and touches nothing. A taken e-mail answers 400 `Email sudah terdaftar` and the table is unchanged. The only possible change is one new unverified TENANT/EMAIL row with the validated e-mail, name and phone, and with verificationExpiry = now + 3600000. Success echoes id, e-mail and name. 500 comes exactly from a thrown error, including a missing first issue. |
| RegisterTenant.MailFailureKeepsAccount | src/app/api/auth/register-tenant/route.ts:35-53 | When the mail send throws after the create, the answer is 500 but the tenant row stays. |
| RegisterTenant.RegisterTwiceRefused | src/app/api/auth/register-tenant/route.ts:21-30 | Registering the same e-mail again right after a success answers 400 and leaves the table as it was. |
| RegisterTenant.PostPreservesWellFormed | src/app/api/auth/register-tenant/route.ts:35-45 | Registration keeps every row under its own e-mail address. |
| RegisterTenant.NewTenantCannotSignIn | src/app/api/auth/register-tenant/route.ts:35-45 | A freshly registered tenant has no password, so the tenant credential sign-in refuses it with `Akun ini menggunakan social login`. |

## Findings

| source | as written | input that shows it | evidently intended | confidence | as-written member | corrected member |
|---|---|---|---|---|---|---|
| src/middleware.ts:9 | `'/'` is in the public list and public routes are matched with `startsWith`, so every real pathname is public. The user and tenant pages are never redirected to a login page. | pathname `/profile`, no cookies: the guard answers Next | `'/'` public only as the exact home page. Protected pages without a session redirect to their login page. | high (not executed) | Middleware.ProfileIsNotGuarded | Middleware.CorrectedGuardsProtectedRoutes |

## Left out

- The `matcher` pattern in src/middleware.ts:57-61 is left out. It is framework routing configuration that decides which requests reach the guard at all.
- The redirect URL is left as a structured value (login path, callbackUrl). Resolving it against the request URL and form-encoding the query are left out.
- React state, effects, toasts, routing and rendering are left out. Timers become explicit inputs: one deadline distance per tick, and one reply per poll. The 2 s `setTimeout` becomes a counted pause.
- `fetchBooking` and its redirect to `/transactions` on failure are left out. The upload and the poll only record whether a refetch happens.
- PaymentPage.HandlePaymentSuccess requires at least 10 replies, one for each poll the loop may run. That is the abstraction of `fetch`; the source places no such demand.
- Whether a day is past comes in as an input. It depends on the local clock and time zone. The `toISOString` date string is modelled only for four-digit-year dates (`IsoDate`).
- PriceCalendar.IsoDate is the UTC calendar date of the cell, not its local date. The cells are local midnights, so east of UTC every key names the previous calendar day. The time-zone shift itself is left out. For dates picked in this calendar, the order lemmas still hold, because the click handler in src/app/properties/[id]/page.tsx:379-384 keys them the same way as the cells. Dates set from the price checker, the compare feature or the booking dialog come from components that are not part of this model. Whether they are keyed the same way is not known. If they are local dates, then east of UTC the highlight is one day off.
- JavaScript compares strings by UTF-16 code unit, while `LexLess` compares Dafny characters (Unicode scalar values). The two agree on the ASCII date strings the calendar compares.
- The month/day grid (`getDaysInMonth`) and the date-selection handler live in src/app/properties/[id]/page.tsx. That file is not part of this model. The calendar takes days and chosen dates as inputs.
- The room selector buttons are left out: they only pass the room id on.
- Price formatting, `averageRating.toFixed`, CSS classes and `formatDate` are left out as number and text rendering.
- `Math.min` over JavaScript numbers is modelled on integers. Prices are whole rupiah.
- The NextAuth provider wiring and the cookie and session settings are configuration. bcrypt is the parameter `passwordMatches`. Database-assigned ids, the verification token and the mail body are inputs or left out.
- AuthConfig.Authorize models both credential providers (src/lib/auth/auth.config.ts:31-72 and 81-122) as one function parameterised by the role they look up. Their code is otherwise identical.
- The zod schema is not part of this model. The body's JSON parse and the schema result are one input.
- Columns that the create call does not set use assumed schema defaults: not verified, no password, no picture. The Prisma schema is not part of this model.
- AuthConfig.SignIn models only the throw caused by a missing e-mail. Database failures in `findUnique`, `create` or `update` are left out, and so is a `create` refused for a missing name, because the Prisma schema is not part of this model.
- PropertiesPage.Step treats each answer as belonging to the current filters. Two fetches in flight at once, answering out of order, are left out.
- Server-side availability, nightly pricing and payment expiry are not in these files and are not modelled.
- src/components/PropertyDetail/ConfirmationDialog.tsx, src/components/PropertyDetail/PropertySidebar.tsx and src/app/tenant/reports/sales/page.tsx are presentation and composition. They are not modelled.
