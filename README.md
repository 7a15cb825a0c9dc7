# HealthLink in Dafny

HealthLink is a Next.js application for finding hospitals and clinics nearby, checking symptoms with a
language model, and booking queue tokens. This project models the decision logic of its core and proves
properties about it:

- **Facility search over Overpass.** The search box around a centre and the ordered fallback over three
  equivalent endpoints. Raw OpenStreetMap elements are normalised into facility records, which are then
  de-duplicated by a lower-cased composite key.
- **The find-hospitals page.** The state of the page and its search, which is widened once when nothing is
  found. Also re-centring on a typed city, the one-time location prompt, and booking.
- **Geocoding.** Nominatim reverse and forward look-ups. Two Google geocoding API routes and the client
  helper use first-match and last-match scans of address components.
- **The symptom checker.** Translation with a fallback and generation with one retry on rate limiting. The
  model's answer is read in three stages, then back-translated element by element.
- **Page logic.** The nearby-hospitals filter, the mock token generator, and the two hospital cards.
- **The account and booking routes.** These run over the MongoDB collections (`users`, `tokens`,
  `hospitals`), together with credential sign-in, its callbacks, and the route guard.

External services are parameters of the model, and the model decides how each result is used:

| service | how the model sees it |
|---|---|
| `fetch` | its outcome, given as a value or as a function of the endpoint |
| Translator | `(text, target) -> translation or failure` |
| Gemini SDK | `(prompt, attempt) -> outcome` |
| `JSON.parse` | `text -> object or failure` |
| `bcrypt` | the hash as a value and `compare` as a predicate |
| `Math.cos` | a function into the non-zero reals |
| `Math.random` | a real in [0, 1) |
| `new Date()` | an integer |

The collections are sequences of documents in insertion order. A document's `_id` is its position, which is
unique because nothing deletes documents.

The modules follow the source files. There is one module per core file, and a few shared modules:

- `Common` holds optional values and JavaScript truthiness.
- `Strings` holds ASCII `toLowerCase`, `trim`, `join`, `String(n)` and `parseInt`.
- `Sequences` holds order-preserving sublists.
- `Http` holds JSON replies and upstream outcomes.
- `GoogleGeocode` holds the Google response shape and the two scans.
- `Store` holds documents, look-up by email, `$set` and the password projection.

## Model

| member | source | states |
|---|---|---|
| Overpass.BBoxFromCenter | utils/overpass.ts:18-26 | For a positive radius, south < lat < north. When cos(lat) > 0, west < lon < east. The box is 2r/111 degrees high and centred on (lat, lon). |
| Overpass.Normalize | utils/overpass.ts:63-86 | Every record has `id = String(el.id)`, status Available, and a non-empty name. |
| Overpass.NormalizeAddress | utils/overpass.ts:66-77 | The address is absent iff none of house number, street, suburb, city and state has a non-empty value. Otherwise it is exactly those values, in that order, joined by ", ". |
| Overpass.NormalizeFallbacks | utils/overpass.ts:65-73 | A non-empty name is kept; a missing or empty one becomes "Unnamed Facility". City and state are the `addr:city` and `addr:state` tags as given. The area is suburb, else neighbourhood, else city. The phone is `phone`, else `contact:phone`, else absent. lat/lon come from the element, else from its centre, else are absent. |
| Overpass.KeyParts | utils/overpass.ts:14-16 | The key is the lower-cased name, address and city joined by "\|", with a missing part being "". |
| Overpass.KeyIgnoresCase | utils/overpass.ts:14-16 | Records whose name, address and city agree up to letter case share a key. |
| Overpass.DedupIsSubsequence | utils/overpass.ts:88-93 | The de-duplicated list is an order-preserving sublist of the input. |
| Overpass.DedupKeepsKeys | utils/overpass.ts:88-93 | Every key of the input occurs in the output. |
| Overpass.DedupKeysUnique | utils/overpass.ts:88-93 | No two output records share a key. |
| Overpass.DedupFirstWins | utils/overpass.ts:88-93 | Each output record is the first input record with its key. |
| Overpass.CaseVariantsCollapse | utils/overpass.ts:14-16 | Two records differing only in letter case of name, address or city collapse to the first. |
| Overpass.DedupOfNormalized | utils/overpass.ts:63-93 | Each result is the normalisation of some element (its id, status Available). The list is no longer than the element list. |
| Overpass.SelectResponse | utils/overpass.ts:44-59 | Endpoints are tried in order. The first OK, readable response is used and no later endpoint is asked. If none succeeds, every endpoint was tried and there is no body. |
| Overpass.FetchHospitalsByBBox | utils/overpass.ts:34-94 | The result is the de-duplicated normalisation of the first accepted response's elements. If no endpoint is accepted, the result is []. |
| Overpass.NormalizeElements | utils/overpass.ts:61-86 | The `out.push` loop builds the element-wise normalisation. |
| Overpass.DedupByKey | utils/overpass.ts:88-93 | The `Map` loop yields the first-wins de-duplication, and its key set is the keys seen so far. |
| Location.ReverseGeocode | utils/location.ts:9-27 | The result is null iff the request fails, is not OK, or its body cannot be read. Otherwise the input lat/lon are echoed. The city is the first non-empty of city, town, village and suburb. State and address are non-empty values or null. |
| Location.ReorderBBox | utils/location.ts:51-60 | A box exists iff the raw array has exactly four entries. [s, n, w, e] becomes south, west, north, east. |
| Location.GeocodeCity | utils/location.ts:39-72 | The result is null unless the response is OK and a non-empty array. Otherwise the fields come from the first hit, the city is the query, and the box is the reordered one. |
| Location.GeocodeUsesFirstItem | utils/location.ts:47-48 | Hits after the first make no difference. |
| GoogleGeocode.FirstCity | app/api/geocode/route.ts:17-23 | The first-match scan yields null iff no component is a locality or second-level area. Otherwise it yields the name of the earliest such component. |
| GoogleGeocode.StrictFirstCity | app/api/reverse-geocode/route.ts:22-30 | Without `?.`, the scan throws iff a component lacking `types` comes before every city-like one. Otherwise it finds the same city as the first-match scan. |
| GoogleGeocode.LastWithType | utils/getAddressFromCoords.ts:20-29 | The loop without `break` yields the name of the last component of the type, or null if there is none. |
| GoogleGeocode.FirstAndLastDiffer | utils/getAddressFromCoords.ts:22-25 | With two localities listed, the first-match scan takes the first and the loop without `break` takes the second. |
| ReverseGeocodeRoute.Get | app/api/reverse-geocode/route.ts:3-35 | Missing lat/lng gives 400, then a missing key gives 500; neither makes a request. After the request: a failure gives 500, a non-OK response 502, and no results `{city: null}`. Missing components or `types` give 500. Otherwise the city is the first match. |
| ReverseGeocodeRoute.CityIsFirstMatch | app/api/reverse-geocode/route.ts:21-31 | With all `types` present, the reply is 200 with the first-match city, or null when there are no results. |
| GeocodeRoute.Get | app/api/geocode/route.ts:3-28 | A missing q gives 400, then a missing key gives 500, with no request. A failure gives 500 and a non-OK response 502. No first result gives a null body. A missing `geometry.location` gives 500. Otherwise lat/lng are those of the location, a missing coordinate left out, and the city is the first match. |
| GeocodeRoute.LocatedResultAnswers | app/api/geocode/route.ts:14-24 | A first result with a location answers 200 with that location's coordinates, even when one of them is missing. The city is null or the name of a city-like component. |
| AddressFromCoords.GetAddress | utils/getAddressFromCoords.ts:9-34 | With no key the result is null and no fetch is made. A failed, non-OK or unreadable answer gives null. With no result, address, city and state are null and lat/lng are echoed. Otherwise city and state are the last locality and first-level area, and address is `formatted_address ?? null`. |
| SymptomChecker.TranslateText | app/api/symptom-checker/route.ts:14-22 | The result is the translation, or the input unchanged when the translator throws. |
| SymptomChecker.FindRetryInfo | app/api/symptom-checker/route.ts:33-35 | The result is the first error detail whose type mentions RetryInfo. |
| SymptomChecker.RetryDelay | app/api/symptom-checker/route.ts:33-35 | When the first RetryInfo detail has a non-empty `retryDelay`, the result is that delay. When there is no such detail, or its delay is missing or empty, the result is "10s". |
| SymptomChecker.DelayMs | app/api/symptom-checker/route.ts:36 | A NaN or zero parse gives 10000 ms; otherwise the result is 1000 × the leading integer. It is never 0. |
| SymptomChecker.DelayOfSeconds | app/api/symptom-checker/route.ts:33-36 | A delay string of "<n>s" with n > 0 gives n × 1000 ms. |
| SymptomChecker.DefaultDelay | app/api/symptom-checker/route.ts:33-36 | The default "10s" gives 10000 ms. |
| SymptomChecker.ZeroDelay | app/api/symptom-checker/route.ts:36 | A delay whose integer part is 0 ("0s", "0.5s") falls back to 10000 ms. |
| SymptomChecker.SafeGenerate | app/api/symptom-checker/route.ts:25-46 | There are exactly two calls iff the first fails with status 429. The second call's outcome, success or error, is final. Any other first outcome is returned or rethrown untouched. |
| SymptomChecker.RateLimitWaitsRequestedDelay | app/api/symptom-checker/route.ts:25-46 | A 429 whose first RetryInfo detail asks for "<n>s" (n > 0) is retried once, after n × 1000 ms. |
| SymptomChecker.BraceSpan | app/api/symptom-checker/route.ts:80-81 | A match exists iff some `{` precedes some `}`. It runs from the first `{` to the last `}`. |
| SymptomChecker.Interpret | app/api/symptom-checker/route.ts:77-89 | Readings are tried in order: the whole text, then the brace span, then `{rawResponse: text}`. Reading never fails. A parsed answer keeps its other keys, such as `confidence`. The fallback has none. |
| SymptomChecker.Prompt | app/api/symptom-checker/route.ts:50-61 | The prompt is exactly the fixed head, then the symptoms verbatim, then the fixed tail. |
| SymptomChecker.ErrorMessage | app/api/symptom-checker/route.ts:126-131 | The result is the error's non-empty message, else "Server error". |
| SymptomChecker.TranslateAll | app/api/symptom-checker/route.ts:113-122 | Lists are translated element by element, so length is preserved. A missing list is []. |
| SymptomChecker.BackTranslate | app/api/symptom-checker/route.ts:111-123 | The condition, when present, becomes its translation. The first-aid and doctor-advice lists become the element-by-element translations of the lists, with a missing list as []. `rawResponse` and the other keys, such as `confidence`, are kept untranslated. |
| SymptomChecker.Post | app/api/symptom-checker/route.ts:93-133 | An unreadable body gives 500. Missing symptoms give 400, with no translation or generation. Otherwise the symptoms are translated first, and generation is retried only on 429. A generation error gives 500 with its message. Otherwise the reply is the analysis with all its keys, back-translated only when the lower-cased language (default "English") is not "english". |
| SymptomChecker.EnglishAnyCase | app/api/symptom-checker/route.ts:95-111 | Any letter case of "English", or no language at all, means only the one input translation. |
| SymptomChecker.BackTranslateElementwise | app/api/symptom-checker/route.ts:113-117 | The i-th tip of the answer is the translation of the i-th tip. |
| SymptomChecker.FailingTranslatorKeepsText | app/api/symptom-checker/route.ts:111-123 | With a translator that always fails, back-translation only fills in missing lists as []. |
| NearbyHospitals.Filtered | app/nearby-hospitals/page.tsx:84-88 | A facility is shown iff it is in the list and passes both the specialty and the emergency filter. |
| NearbyHospitals.FilteredIsSubsequence | app/nearby-hospitals/page.tsx:84-88 | The filtered list keeps the original order. |
| NearbyHospitals.AllShowsEverything | app/nearby-hospitals/page.tsx:85-86 | "all"/"all" shows the whole list. |
| NearbyHospitals.ShownOfferSpecialty | app/nearby-hospitals/page.tsx:85 | For a specialty other than "all", every facility shown offers it. |
| NearbyHospitals.EmergencyChoice | app/nearby-hospitals/page.tsx:86 | "yes" keeps only emergency facilities and "no" only the others. |
| NearbyHospitals.UnknownEmergencyShowsNothing | app/nearby-hospitals/page.tsx:86 | Any other emergency value shows nothing. |
| NearbyHospitals.FilteredKeeps | app/nearby-hospitals/page.tsx:84-88 | A facility both filters accept, added at the end of the list, is added at the end of the result. |
| NearbyHospitals.FilteredSkips | app/nearby-hospitals/page.tsx:84-88 | A facility a filter rejects, added at the end of the list, leaves the result unchanged. |
| NearbyHospitals.EmergencyOfFive | app/nearby-hospitals/page.tsx:86 | Of five facilities where the first, third and fifth have emergency service, "yes" keeps exactly those three, in order. |
| NearbyHospitals.EmergencyFacilities | app/nearby-hospitals/page.tsx:19-88 | On the page's own list, "yes" shows City General Hospital, Metro Health Center and Advanced Surgical Institute, in that order. |
| NearbyHospitals.FiltersCompose | app/nearby-hospitals/page.tsx:84-88 | The result is the specialty filter's result narrowed by the emergency filter. |
| HospitalCard.Render | components/HospitalCard.tsx:18-60 | The status defaults to Available. The address line is shown iff address, city or state is set, and it is their join. Call links to `tel:<phone>` iff there is a phone. Book is never disabled and hands the card's data to `onBook` when one is given. |
| HospitalCard.AddressLineShownIffNonEmpty | components/HospitalCard.tsx:26-29 | The joined line is non-empty iff one of the three parts is set. |
| HospitalCard.AddressLineHasParts | components/HospitalCard.tsx:29 | Every part that is set is among the parts the line joins. |
| FindHospitalCard.AddressTextAsWritten | components/find-hospitals/HospitalCard.tsx:20-22 | The address text as the card builds it (see Findings). |
| FindHospitalCard.StateAloneHasLeadingComma | components/find-hospitals/HospitalCard.tsx:20-22 | A state with neither address nor city is shown as ", <state>". |
| FindHospitalCard.AddressText | components/find-hospitals/HospitalCard.tsx:20-22 | The intended text is empty iff nothing is set. |
| FindHospitalCard.StateAloneIsState | components/find-hospitals/HospitalCard.tsx:20-22 | In the intended text, a state alone is just the state. |
| FindHospitalCard.AsWrittenAgreesOtherwise | components/find-hospitals/HospitalCard.tsx:20-22 | The written and intended texts agree except for a state with neither address nor city. |
| FindHospitalCard.Render | components/find-hospitals/HospitalCard.tsx:9-71 | Book is disabled iff the status is not Available, and Available styling applies iff it is. The rating shows iff it is a number; reviews show iff both are numbers; the fee shows iff it is a number. The badges are the specialties. Call links to `tel:<contact>`. |
| TokenPage.TokenDraw | app/token/page.tsx:23 | A draw in [0, 1) gives a token number in [1, 100]. |
| TokenPage.WaitDraw | app/token/page.tsx:24 | A draw in [0, 1) gives a wait in [5, 34]. |
| TokenPage.TokenLabel | app/token/page.tsx:23 | The token reads "A-" followed by the decimal number. |
| TokenPage.TokenLabelInjective | app/token/page.tsx:23 | Different numbers give different tokens. |
| TokenPage.Page.constructor | app/token/page.tsx:16-18 | Nothing is generated yet and both texts are empty. |
| TokenPage.Page.Status | app/token/page.tsx:82-131 | The panel shows the placeholder until a token exists. After that it shows the token and wait beside the constants "City General Hospital", "A-43" and "4th in line". |
| TokenPage.Page.GenerateToken | app/token/page.tsx:20-28 | After generation, the token is "A-n" with n in [1, 100], the wait is "m minutes" with m in [5, 34], and the panel is switched on. |
| Store.FindByEmail | app/api/auth/signup/route.ts:18 | `findOne({email})` gives the first document with that email, or none iff no document has it. |
| Store.SetFields | app/api/user/update-profile/route.ts:19-24 | `$set` takes every given field and keeps every other field. |
| Store.UpdateByEmail | app/api/user/update-profile/route.ts:17-29 | Only the first matching document changes. Without a match nothing changes. |
| Store.UpdateKeepsLookup | app/api/user/complete-profile/route.ts:16-24 | An update that leaves `email` alone finds the same document again. |
| Store.WithoutPassword | app/api/user/profile/route.ts:15-18 | The projection drops `password` and keeps every other field unchanged. |
| Signup.NewUser | app/api/auth/signup/route.ts:28-35 | The new record has exactly `_id`, name, email, the hashed password, `profileCompleted = false`, and both timestamps set to the time of insertion. |
| Signup.InsertKeepsEmailsUnique | app/api/auth/signup/route.ts:18-35 | Inserting a user whose email is not taken keeps emails unique. |
| Signup.Post | app/api/auth/signup/route.ts:5-51 | An unreadable body gives 500. A missing field gives 400. An unreachable database gives 500. A taken email gives 400. In all these cases `users` is unchanged. Otherwise exactly one record is appended and the reply is 201 with its id. Emails stay unique. Other collections never change. |
| Auth.Authorize | lib/auth.ts:14-33 | Every path is stated. Missing email or password throws "Missing email or password.". An unreachable database throws. An unknown email throws "No user found with this email.". A stored password that is not a string throws, and a rejected one throws "Invalid password.". Otherwise the user signs in with the stored id, name and email, and `profileCompleted` is the stored value when truthy, else false. |
| Auth.SignInIffAccepted | lib/auth.ts:14-33 | Sign-in succeeds iff both credentials are given, the database answers, a user has that email, and `compare` accepts the password against that user's stored string hash. |
| Auth.UnknownOrWrongIsRefused | lib/auth.ts:20-25 | An unknown email, or a password the hash rejects, throws. An unknown email throws "No user found with this email.". |
| Auth.Token.Jwt | lib/auth.ts:47-55 | On sign-in the user's four fields are copied into the token. Otherwise the token is unchanged. |
| Auth.SessionCallback | lib/auth.ts:57-65 | With a token and a session user, the four fields are copied. Without a token nothing changes. |
| UpdateProfile.Changes | app/api/user/update-profile/route.ts:19-24 | Every body field is set, and `updatedAt` is always the server time, overriding the body. |
| UpdateProfile.AbsentFieldsKept | app/api/user/update-profile/route.ts:17-24 | Fields absent from the body keep their stored values. |
| UpdateProfile.EmailCanBeTaken | app/api/user/update-profile/route.ts:17-29 | With no field whitelist, users with distinct emails can end up sharing one. |
| UpdateProfile.Post | app/api/user/update-profile/route.ts:6-49 | No session email gives 401. An unreadable body or an unreachable database gives 500. No matching user gives 404. Changing `_id` is refused with 500. In all these cases `users` is unchanged. Otherwise the first match gets the `$set` and is returned without its password. |
| CompleteProfile.Completion | app/api/user/complete-profile/route.ts:19-22 | The update sets exactly `profileCompleted = true` and `updatedAt`. |
| CompleteProfile.Post | app/api/user/complete-profile/route.ts:6-34 | No session email gives 401 and an unreachable database 500, with nothing changed. Otherwise the first match is completed, and "Profile completed" is the reply whether or not a user matched. |
| CompleteProfile.CompletionIdempotent | app/api/user/complete-profile/route.ts:16-24 | Completing twice finds the same record, leaves the flag true, and touches no other record. |
| CompleteProfile.ReadAfterComplete | app/api/user/complete-profile/route.ts:16-26 | Reading the profile after completing it answers 200 with `profileCompleted` true. |
| Profile.Get | app/api/user/profile/route.ts:6-35 | No session email gives 401. An unreachable database gives 500. An unknown email gives 404. A found user gets 200 with the stored record minus `password`, with all other fields unchanged. |
| BookToken.NewToken | app/api/book-token/route.ts:12 | The token holds exactly `_id`, the three given fields, and `createdAt`. |
| BookToken.Post | app/api/book-token/route.ts:4-17 | An unreadable body gives 500. A falsy userId, hospital or city gives 400, with a non-object body counting as `{}`. An unreachable database gives 500. In all these cases `tokens` is unchanged. Otherwise exactly one token is appended and its id returned. Other collections never change. |
| HospitalsRoute.InCityAll | app/api/hospitals/route.ts:11-13 | The result is exactly the stored hospitals of that city. |
| HospitalsRoute.InCityAllIsSubsequence | app/api/hospitals/route.ts:11-13 | They come in stored order. |
| HospitalsRoute.Take | app/api/hospitals/route.ts:14 | The limit keeps a prefix of at most n items. |
| HospitalsRoute.Get | app/api/hospitals/route.ts:5-20 | A missing city gives 400 before the database is used, and an unreachable database gives 500. Otherwise the reply is the first min(50, n) of the n hospitals of that city, in stored order. |
| Middleware.Authorized | middleware.ts:9-17 | A token always authorises. Public paths are always authorised. Any other path is authorised iff a token is present. |
| Middleware.Admitted | middleware.ts:22-28 | Paths outside the matcher are never blocked. |
| Middleware.GuardedNeedToken | middleware.ts:11-28 | No matcher path is public, so each is admitted iff a token is present. |
| FindHospitalsPage.BookingPayload | app/find-hospitals/page.tsx:140 | The booking posts exactly `userId: "anonymous"`, the facility's name and the current city. |
| FindHospitalsPage.BookingAcceptedIffCity | app/find-hospitals/page.tsx:135-141 | A booking for a named facility passes the booking route's check iff the city is non-empty. |
| FindHospitalsPage.Page.constructor | app/find-hospitals/page.tsx:89-93 | All state starts empty. The location prompt opens iff the stored flag is absent. |
| FindHospitalsPage.Page.SearchBox | app/find-hospitals/page.tsx:38-41 | A box exists iff both coordinates exist, and it is the 8 km box around them. |
| FindHospitalsPage.Page.FetchHospitals | app/find-hospitals/page.tsx:43-59 | With no box nothing happens. Otherwise the 8 km box is searched, and the 12 km box exactly once more iff the first result is empty. A thrown search leaves []. The loading flag ends cleared. No other state changes. |
| FindHospitalsPage.Page.CityInputChanged | app/find-hospitals/page.tsx:62-86 | Blank input or a failed look-up leaves the location alone. Otherwise the city is the trimmed query, and the centre is the box midpoint, or the hit's point when there is no box. |
| FindHospitalsPage.CityCentre | app/find-hospitals/page.tsx:70-80 | With a box, the centre is its midpoint and lies inside the box. Without one, it is the hit's point. |
| FindHospitalsPage.Page.Recentre | app/find-hospitals/page.tsx:67-80 | The hit's city and state become current. The centre moves to the hit's box midpoint, or to its point when it has no box. Nothing else changes. |
| FindHospitalsPage.Page.LiveLocation | app/find-hospitals/page.tsx:100-121 | The state change is `Located`. Without geolocation nothing changes. A refusal only clears the loading flag. A position is adopted. A reverse-geocoding result fills city (or ""), state and address, marks the location detected, and copies a non-empty city into the input. The loading flag ends cleared. The prompt and the facility list are untouched. |
| FindHospitalsPage.Page.AllowLocation | app/find-hospitals/page.tsx:123-128 | The flag is stored and the prompt closes. Every other field then changes exactly as `LiveLocation` specifies (`Located`). |
| FindHospitalsPage.Page.DenyLocation | app/find-hospitals/page.tsx:130-133 | The flag is stored and the prompt closes. Nothing else changes. |
| FindHospitalsPage.Page.HandleBook | app/find-hospitals/page.tsx:135-150 | The booking payload is posted. Success is reported only for an OK response. |

## Left out

- Network, URLs and headers: requests, query strings, `encodeURIComponent`, the Overpass query text and the request headers are not modelled. Each upstream answer is a parameter of the model.
- Overpass.BBoxFromCenter: `Math.cos(lat·π/180)` is a parameter into the non-zero reals, and arithmetic is on reals, not doubles.
- Location.GeocodeCity: `parseFloat` is taken as already applied; coordinates arrive as reals.
- Findings are not executed here; numbers show nothing about double rounding.
- Timing is not modelled: the 200 ms debounce, the retry wait (`SymptomChecker.SafeGenerate` returns the delay instead of waiting), `Promise.all` concurrency, and React's scheduling of effects.
- FindHospitalsPage.Page.LiveLocation: setting `cityInput` re-runs the city effect in the page. The model does not chain that call, nor the `lat`/`lon` effect that calls `FetchHospitals`. Each is a separate method.
- FindHospitalsPage.Page.FetchHospitals: the search is a parameter standing for `fetchHospitalsByBBox`, so that a thrown search can be expressed. The search itself is `Overpass.FetchHospitalsByBBox`.
- SymptomChecker.Post: a model answer that parses to something other than an object (`null`, a number, an array) is not modelled. A missing `condition` is not passed to the translator; it stays missing.
- SymptomChecker.Post: the answer's other keys are modelled as string values only; other JSON values under them are not modelled.
- SymptomChecker.Post: this handler and the routes treat request fields as strings, not arbitrary JSON values. The module-load check for `GEMINI_API_KEY` and the constant `GET` greeting are not modelled.
- Auth.Authorize: a stored password that is not a string makes `bcrypt.compare` throw; its message is abstracted as "Illegal arguments". An unreachable database throws with a message the driver chooses ("Database unavailable" here).
- Signup.Post: `bcrypt.hash` is a parameter value, so "hashed, not plaintext" is not proved; the record stores whatever the hash yields. The check-then-insert race between concurrent signups is concurrency and is not modelled.
- MongoDB: ids are positions, and `ObjectId.toString()` is not modelled. Of the refusals `$set` can raise, only changing `_id` is modelled; dotted and `$` keys are not. Matching against array fields is not modelled. A database failure is the `online` flag.
- Strings: `toLowerCase` and `trim` are ASCII (plus no-break space and byte-order mark for `trim`). `parseInt` works on unbounded integers.
- Rendering: markup, styling and `toLocaleString` of the fee are not modelled. The cards are modelled as what they show and enable.
- Token page: browser `required` validation on the form is not modelled. Reschedule and Cancel have no handlers, so they change nothing.
- Middleware: the redirect next-auth makes for refused requests, and `:path*` beyond "the prefix or below it", are not modelled.
- utils/getCityFromCoords.ts, utils/getCoordsFromAddress.ts and the token-system pages are thin fetch and navigation wrappers. They are not part of this model.

## Findings

| source | as written | input that shows it | evidently intended | confidence | as-written member | corrected member |
|---|---|---|---|---|---|---|
| components/find-hospitals/HospitalCard.tsx:20-22 | ", " + state is appended whenever a state exists | no address, city "", state "Goa" shows ", Goa" | "Goa": the set parts separated by ", " | medium; not executed | FindHospitalCard.StateAloneHasLeadingComma | FindHospitalCard.StateAloneIsState |
