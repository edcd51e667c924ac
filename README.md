# Global Dorm App: a verified model of its core

Global Dorm is a room-listing app. Students register, log in, browse rooms,
filter them, and apply for a room or cancel an application. There is a
FastAPI/MongoDB backend and a React client. This Dafny project models the
parts of both that carry rules, and proves those rules.

Backend:

- **Rooms** (`rooms.dfy`): the `rooms` collection is a map from object id to
  document. It has create, list, get, a partial update and delete, with the
  source's error order. Invalid id gives 400. An update with no field gives
  400. A missing room gives 404.
- **Applications** (`applications.dfy`): the `applications` collection
  supports apply, list-mine, get and cancel. The class invariant is that a
  user holds at most one `"applied"` application per `room_id`. Every read
  and every cancel checks ownership.
- **Users** (`users.dfy`): the `users` collection is a sequence kept in
  insertion order. Register keeps emails unique. Login answers a single 401
  for both an unknown email and a wrong password.
- **TTL cache** (`cache.py`, modelled in `cache.dfy`): it maps a key to a
  `(timestamp, value)` entry. A read evicts an expired entry.
- **External services** (`external_services.dfy`): the geocode and
  room-distance endpoints read the cache first. They normalise the key, never
  cache a failure, and keep the invariant that each key prefix holds its own
  kind of value.
- **Shared helpers**: object ids (`bson.dfy`), Python string operations
  (`text.dfy`) and the HTTP error type (`http.dfy`).

Client:

- **Session store** (`auth_context.dfy`, over `local_storage.dfy`): the
  `user` state and the `jwt`/`username` storage keys. It has startup,
  login, register and logout; the backend's reply is an input.
- **Route guard and route table** (`route_guard.dfy`, `app_routes.dfy`):
  rendering a path under a session gives a screen.
- **Rooms page** (`rooms_page.dfy`): the search predicate, and the
  `appStatus`/`appIds` maps with the updates that apply and cancel make to
  them.
- **Applications page** (`applications_page.dfy`): the filter, the inputs,
  the cancel handler and the status pill.
- **Theme preference** (`dark_mode.dfy`).
- **Shared helpers**: JavaScript value rules such as truthiness, `||`, `??`,
  `<=` and `Number()` (`js.dfy`), and the client's JSON shapes
  (`client_json.dfy`).

Some functions are parameters of the model:

- The database assigns fresh object ids; each is a parameter the caller
  supplies (`newId`), required not to be in use.
- `datetime.utcnow()` and `time.time()` are the parameters `now` and
  `storedAt`.
- `get_current_user` gives the user's email, which is the handler's `user`
  parameter.
- bcrypt hashing and checking, and JWT creation, are the function
  parameters `hash`, `verify` and `mint`.
- The postcodes.io and OSRM calls are the function parameters `geocode` and
  `route`.
- On the client, the result of each `fetch` is a parameter (`reply`, `ok`).

The session store behaves as follows, and the model keeps each of these:

- Startup restores a user only when both `jwt` and `username` are non-empty.
  A stored token alone restores nobody.
- A successful login whose body has no `access_token` still stores the
  string `"undefined"` as `jwt`. The next startup read then restores that
  user (`AuthContext.LoginThenStartup`).
- A successful register or login whose body is not JSON rejects with the
  parse error (`SyntaxError`). It does not reject with a message built from
  `detail`.

The duplicate-application check compares `room_id` as submitted, while the
room lookup parses it case-insensitively. So the one-application invariant
holds per `room_id` string, not per room: `Applications.ApplyTwiceInTwoCases`
applies twice for one room, once in lower case and once in upper case, and
both applications are `"applied"`.

## Model

| member | source | states |
|---|---|---|
| Cache.TtlCache.constructor | Backend/app/services/cache.py:5 | the cache starts empty |
| Cache.Lookup | Backend/app/services/cache.py:14-23 | the value `get_cache` returns: the entry's value when the key holds an entry younger than the expiry, else `None` (its properties are the lemmas below) |
| Cache.AfterLookup | Backend/app/services/cache.py:20-22 | the dictionary after `get_cache`: an expired entry for the key is deleted, and nothing else changes |
| Cache.Store | Backend/app/services/cache.py:30 | the dictionary after `set_cache`: the key holds the value with the current time |
| Cache.TtlCache.Get | Backend/app/services/cache.py:7-23 | returns the value of a fresh entry; an expired entry is removed and gives `None`; nothing else changes |
| Cache.TtlCache.Set | Backend/app/services/cache.py:25-30 | the key now holds `(now, value)`; every other key is kept |
| Cache.SetThenGetFresh | Backend/app/services/cache.py:18-19 | a value set at `t` is returned by a read at `now` with `now - t < expire`, and that read removes nothing |
| Cache.ExpiredIsEvicted | Backend/app/services/cache.py:18-22 | once `now - timestamp >= expire`, the read gives `None` and removes exactly that key |
| Cache.AbsentIsMiss | Backend/app/services/cache.py:15-23 | a read of an absent key gives `None` and leaves the cache as it was |
| Cache.LookupFrame | Backend/app/services/cache.py:15-22 | a read changes no other key, and a hit changes nothing |
| Cache.LookupHitIff | Backend/app/services/cache.py:15-19 | a read hits exactly when the key holds an entry younger than the expiry, and it returns that entry's value |
| Cache.SetOverwrites | Backend/app/services/cache.py:30 | `set_cache` replaces an earlier entry with a new timestamp and keeps the other keys |
| Bson.Parse | Backend/app/api/rooms.py:48 | `ObjectId(s)` of a valid id is its lower-case form, position by position |
| Bson.IsValidObjectId | Backend/app/api/rooms.py:46 | `ObjectId.is_valid`: exactly 24 hexadecimal characters, in either letter case |
| Rooms.RoomSerializer | Backend/app/api/rooms.py:10-22 | the response has the document's id and every one of its fields, with `description` optional |
| Rooms.SerializerRoundTrip | Backend/app/api/rooms.py:10-22 | the document can be read back from its serialization |
| Rooms.RoomCollection.constructor | Backend/app/api/rooms.py:28 | the collection starts empty |
| Rooms.RoomCollection.CreateRoom | Backend/app/api/rooms.py:25-31 | inserts the room under the new id, changes nothing else, and returns it serialized |
| Rooms.RoomCollection.ListRooms | Backend/app/api/rooms.py:34-40 | returns every room of the collection serialized, each exactly once |
| Rooms.RoomCollection.GetRoom | Backend/app/api/rooms.py:43-51 | invalid id gives 400, a missing room 404, otherwise that room |
| Rooms.RoomCollection.UpdateRoom | Backend/app/api/rooms.py:54-73 | invalid id gives 400, then an empty update 400, then a missing room 404, with no change; otherwise only that room changes, by the supplied fields |
| Rooms.ApplyUpdate | Backend/app/api/rooms.py:60 | the document after `$set` of the fields that are not `None` |
| Rooms.ApplyUpdateFields | Backend/app/api/rooms.py:60 | a supplied field is written and an unsupplied one keeps its value; `description` cannot be cleared |
| Rooms.ApplyUpdateLaws | Backend/app/api/rooms.py:60-66 | an update with no field supplied is the identity, and applying an update twice equals applying it once |
| Rooms.RoomCollection.DeleteRoom | Backend/app/api/rooms.py:76-86 | invalid id gives 400, a missing room 404, otherwise exactly that room is removed |
| Applications.ApplicationSerializer | Backend/app/api/applications.py:12-19 | the response has the document's id and every one of its fields |
| Applications.HasApplied | Backend/app/api/applications.py:29-31 | the duplicate check: some application of the user for exactly that `room_id` string has status `"applied"` |
| Applications.NewApplication | Backend/app/api/applications.py:33-38 | the inserted document: the user, the submitted `room_id`, status `"applied"` and the current time |
| Applications.ApplicationCollection.constructor | Backend/app/api/applications.py:29 | the collection starts empty and satisfies the invariant |
| Applications.ApplicationCollection.ApplyForRoom | Backend/app/api/applications.py:22-43 | an unparsable room id gives 500, a missing room 404, an existing `"applied"` application 400, all with no change; otherwise one `"applied"` application is inserted; at most one `"applied"` application per user and room id holds after every outcome |
| Applications.CancelUnblocksReapply | Backend/app/api/applications.py:29-31 | after its `"applied"` application is cancelled, the user may apply for that room again |
| Applications.ApplyTwiceInTwoCases | Backend/app/api/applications.py:22-31 | two spellings of one room id that differ only in letter case both pass the duplicate check, so the user ends with two `"applied"` applications for one room |
| Applications.ApplicationCollection.GetMyApplications | Backend/app/api/applications.py:46-52 | returns exactly the applications the user owns, serialized, each once |
| Applications.ApplicationCollection.GetApplicationById | Backend/app/api/applications.py:55-64 | invalid id gives 400; a missing application or another user's gives 404; otherwise that application |
| Applications.ApplicationCollection.CancelApplication | Backend/app/api/applications.py:67-86 | the same 400/404, then 400 if already cancelled, all with no change; otherwise only that application's status becomes `"cancelled"`; the invariant holds afterwards |
| Users.FindByEmail | Backend/app/api/users.py:17 | gives the first document holding the email, or none when no document holds it |
| Users.UserCollection.constructor | Backend/app/api/users.py:14 | the collection starts empty, with unique emails |
| Users.UserCollection.Register | Backend/app/api/users.py:12-23 | a known email gives 400 with no change; otherwise the email is stored with `hash(password)` and only the email is returned; emails stay unique |
| Users.FindAfterAppend | Backend/app/api/users.py:17-23 | after appending a user with an email not yet present, the lookup finds exactly that user |
| Users.RegisteredUserIsFound | Backend/app/api/users.py:20-23 | the registered user is the one a later login checks, with the stored hash |
| Users.UserCollection.Login | Backend/app/api/users.py:26-36 | succeeds exactly when a user with that email exists and `verify` accepts the password; an unknown email and a wrong password give the same 401; a success returns a token minted for the submitted email with type `"bearer"`; nothing is written |
| Text.StripStart | Backend/app/api/external_services.py:18 | drops exactly the leading whitespace: a suffix of the input whose first character, if any, is not whitespace |
| Text.StripEnd | Backend/app/api/external_services.py:18 | drops exactly the trailing whitespace: a prefix of the input whose last character, if any, is not whitespace |
| Text.RemoveSpaces | Backend/app/api/external_services.py:18 | `replace(' ', '')`: a subsequence of the input with the same multiset of characters except that it has no space |
| Text.Upper | Backend/app/api/external_services.py:18 | `upper()`: the same length, each character upper-cased |
| Text.Lower | Frontend/src/pages/Rooms.jsx:80 | `toLowerCase()`: the same length, each character lower-cased |
| Text.Take | Frontend/src/pages/Applications.jsx:51 | `slice(0, 10)`: the prefix of at most that many characters |
| Text.RemoveSpacesAppend | Backend/app/api/external_services.py:18 | removing spaces distributes over concatenation |
| Text.RemoveSpacesStripStart | Backend/app/api/external_services.py:18 | removing spaces commutes with stripping the start |
| Text.RemoveSpacesStripEnd | Backend/app/api/external_services.py:18 | removing spaces commutes with stripping the end |
| Text.UpperStripStart | Backend/app/api/external_services.py:18 | upper-casing commutes with stripping the start |
| Text.UpperStripEnd | Backend/app/api/external_services.py:18 | upper-casing commutes with stripping the end |
| Text.UpperRemoveSpaces | Backend/app/api/external_services.py:18 | upper-casing commutes with removing spaces |
| Text.UpperAppend | Backend/app/api/external_services.py:18 | upper-casing distributes over concatenation |
| Text.UpperOfLower | Backend/app/api/external_services.py:18 | upper-casing after lower-casing equals upper-casing |
| Text.LowerOfUpper | Frontend/src/pages/Rooms.jsx:80 | lower-casing after upper-casing equals lower-casing |
| Text.Strip | Backend/app/api/external_services.py:18 | `strip()`: the slice between a whitespace-only prefix and a whitespace-only suffix, and neither end of the result is whitespace |
| Text.NormalisedStrip | Backend/app/api/external_services.py:18 | upper-casing and removing spaces after `strip()` equals stripping after them |
| Text.StripIdempotent | Backend/app/api/external_services.py:37 | stripping twice equals stripping once |
| ExternalServices.GeocodeKey | Backend/app/api/external_services.py:18 | the key has the `"geocode:"` prefix; what the normalisation achieves is stated by the three lemmas below |
| ExternalServices.GeocodeKeyNormalises | Backend/app/api/external_services.py:18 | two postcodes that agree after removing spaces and upper-casing share a key |
| ExternalServices.GeocodeKeyIgnoresCase | Backend/app/api/external_services.py:18 | the key ignores letter case |
| ExternalServices.GeocodeKeyIgnoresSpaces | Backend/app/api/external_services.py:18 | the key ignores a space anywhere |
| ExternalServices.DistanceKey | Backend/app/api/external_services.py:46 | the key has the `"distance:"` prefix; that it ignores padding is `DistanceKeyIgnoresPadding` |
| ExternalServices.DistanceKeyIgnoresPadding | Backend/app/api/external_services.py:37 | surrounding whitespace in the room id does not change the key |
| ExternalServices.KeysDisjoint | Backend/app/api/external_services.py:46 | geocode and distance entries never share a key |
| ExternalServices.PrefixesExclusive | Backend/app/api/external_services.py:18 | no key has both prefixes |
| ExternalServices.StoreKeepsMatch | Backend/app/api/external_services.py:29 | a write of the right kind of value for its key keeps the cache invariant |
| ExternalServices.AfterLookupKeepsMatch | Backend/app/api/external_services.py:19 | a cache read keeps the cache invariant |
| ExternalServices.HitMatchesKey | Backend/app/api/external_services.py:47-49 | a hit on a geocode key returns coordinates, and a hit on a distance key returns a route |
| ExternalServices.GeocodePostcode | Backend/app/api/external_services.py:15-30 | a hit returns the cached value and writes nothing; a missing coordinate gives 400 and writes nothing; otherwise the coordinates are cached and returned |
| ExternalServices.RoomToCampusDistance | Backend/app/api/external_services.py:33-76 | a stripped id that is not an object id gives 400 before the cache is read; a hit returns the cached value; a missing room gives 404, a missing coordinate 400 and a route with no distance 400, each without a write; otherwise the route is cached and returned |
| ExternalServices.RouteOnMiss | Backend/app/api/external_services.py:52-76 | on a miss: a missing room gives 404, a missing coordinate 400 and a route with no distance 400, each without a write; otherwise the route is cached under the key and returned |
| Js.Or | Frontend/src/pages/Rooms.jsx:64 | `a \|\| b` is `a` when `a` is a non-empty string, else `b` |
| Js.Coalesce | Frontend/src/pages/Rooms.jsx:81 | `a ?? b` is `a` when it is a number, and `b` when it is `null` or `undefined` |
| Js.Truthy | Frontend/src/contexts/AuthContext.jsx:22 | a string value is truthy exactly when it is present and non-empty |
| Js.LessEq | Frontend/src/pages/Rooms.jsx:81 | `a <= Number(b)`: false for `undefined` and for `NaN`; `null` compares as 0 |
| LocalStorage.Get | Frontend/src/contexts/AuthContext.jsx:20-21 | `getItem` finds a value exactly when the key is stored, and it is the stored value |
| LocalStorage.Storage.constructor | Frontend/src/contexts/AuthContext.jsx:20-21 | the storage holds the given items |
| LocalStorage.Storage.SetItem | Frontend/src/contexts/AuthContext.jsx:60-61 | the key now holds the value; every other key is kept |
| LocalStorage.Storage.RemoveItem | Frontend/src/contexts/AuthContext.jsx:69-70 | the key is gone; every other key is kept |
| Js.ToNumber | Frontend/src/pages/Rooms.jsx:81 | `Number(s)`: the empty string gives 0, and a number read from text with a leading `-` is at most 0, from any other text at least 0; the mantissa and exponent forms it reads are those of `Js.Decimal` and `Js.Exponent`, and its value is stated by the lemmas below: a sign by `Js.ToNumberOfSigned`, text without an exponent mark by `Js.UnsignedWithoutExponent`, a mantissa with an `e` or `E` exponent by `Js.ToNumberOfScientific` |
| Js.ToNumberOfSigned | Frontend/src/pages/Rooms.jsx:81 | a leading `+` leaves the number unchanged and a leading `-` negates it (text that is not a number stays not a number) |
| Js.ToNumberOfDecimalForm | Frontend/src/pages/Rooms.jsx:81 | digits, `.` and digits (not both empty) read as the whole part plus the fraction: `"12.5"` is 12 + 5/10 |
| Js.DecimalOfForm | Frontend/src/pages/Rooms.jsx:81 | the mantissa digits, `.` and digits is the whole part plus the fraction |
| Js.UnsignedWithoutExponent | Frontend/src/pages/Rooms.jsx:81 | text without an exponent mark reads as its mantissa |
| Js.Fraction | Frontend/src/pages/Rooms.jsx:81 | the digits after a `.` give a non-negative value |
| Js.FractionScales | Frontend/src/pages/Rooms.jsx:81 | the fraction of `b` is `b`'s digit value divided by `10^\|b\|`, and below 1 |
| Js.DigitsBelowPow10 | Frontend/src/pages/Rooms.jsx:81 | `n` digits have a value below `10^n` |
| Js.NatStringDigits | Frontend/src/pages/Rooms.jsx:81 | the decimal text of a natural number is all digits and has that value |
| Js.ToNumberOfNatString | Frontend/src/pages/Rooms.jsx:81 | `Number` reads back the decimal text of every natural number |
| Js.IndexOfAny | Frontend/src/pages/Rooms.jsx:81 | the position of the first exponent mark, or none when the text has none |
| Js.Decimal | Frontend/src/pages/Rooms.jsx:81 | a mantissa (digits with at most one `.`) reads as a non-negative value, and a digit string as its own value; the value of digits around a `.` is `Js.DecimalOfForm`'s |
| Js.Exponent | Frontend/src/pages/Rooms.jsx:81 | an exponent of digits, or of `+` and digits, reads as their value, and one of `-` and digits as the negated value |
| Js.ScaleNonNegative | Frontend/src/pages/Rooms.jsx:81 | scaling a non-negative mantissa by a power of ten keeps it non-negative |
| Js.ScaleOfNat | Frontend/src/pages/Rooms.jsx:81 | scaling a whole number by a non-negative power of ten gives the whole number `m * 10^k` |
| Js.ToNumberOfExponentForm | Frontend/src/pages/Rooms.jsx:81 | digits, `e` and digits read as the first digit string scaled by ten to the second |
| Js.ToNumberOfScientific | Frontend/src/pages/Rooms.jsx:81 | a mantissa without a sign or exponent mark, then `e` or `E`, then an exponent, reads as the mantissa's `Js.Decimal` value scaled by ten to the `Js.Exponent` value, and as not a number when either part is malformed |
| Js.ScientificShape | Frontend/src/pages/Rooms.jsx:81 | in `m`, a mark and `x`, the first exponent mark is the one after `m`, and cutting there gives back `m` and `x` |
| Js.UnsignedSplit | Frontend/src/pages/Rooms.jsx:81 | unsigned text whose first exponent mark is at `k` reads as the mantissa before it scaled by the exponent after it |
| Js.ScaleOfNegative | Frontend/src/pages/Rooms.jsx:81 | a negative exponent divides: scaling by ten to `-k` and multiplying by `10^k` gives back the mantissa |
| Js.ScientificWithFraction | Frontend/src/pages/Rooms.jsx:81 | `Number("1.5e3")` is 1500 |
| Js.ScientificWithNegativeExponent | Frontend/src/pages/Rooms.jsx:81 | `Number("1E-3")` is 0.001 |
| Js.ToNumberOfExponent | Frontend/src/pages/Rooms.jsx:81 | `Number` reads `"<m>e<k>"` as `m` scaled by `10^k` for all natural numbers `m` and `k` |
| AuthContext.FailureMessage | Frontend/src/contexts/AuthContext.jsx:56-57 | a non-empty `detail` is the message; any other message is the fallback, which keeps it non-empty |
| AuthContext.StartupUser | Frontend/src/contexts/AuthContext.jsx:20-24 | a user is restored exactly when both stored keys are non-empty, and it is named by `username` |
| AuthContext.StoredToken | Frontend/src/contexts/AuthContext.jsx:60 | `setItem` of a missing `access_token` stores the string `"undefined"` |
| AuthContext.LoggedInItems | Frontend/src/contexts/AuthContext.jsx:60-61 | after login `jwt` holds the stored token and `username` the email, and the other keys are the earlier ones |
| AuthContext.LoggedOutItems | Frontend/src/contexts/AuthContext.jsx:69-70 | after logout neither session key is stored, and every other key keeps its value |
| AuthContext.AuthProvider.constructor | Frontend/src/contexts/AuthContext.jsx:16 | `user` starts as `null` |
| AuthContext.AuthProvider.FromStorage | Frontend/src/contexts/AuthContext.jsx:16-24 | corrected: a lazy `useState` initialiser starts `user` as the user the mount effect would restore |
| AuthContext.AuthProvider.Startup | Frontend/src/contexts/AuthContext.jsx:19-25 | sets the stored user when there is one, and leaves `user` unchanged otherwise |
| AuthContext.AuthProvider.Register | Frontend/src/contexts/AuthContext.jsx:31-44 | changes no state; a failure rejects with `detail` or "Registration failed"; a success resolves to the body |
| AuthContext.AuthProvider.Login | Frontend/src/contexts/AuthContext.jsx:49-63 | a failure rejects with `detail` or "Login failed" and changes neither `user` nor storage; a success stores the token and the submitted email and sets `user` to that email |
| AuthContext.AuthProvider.Logout | Frontend/src/contexts/AuthContext.jsx:68-72 | removes both keys and sets `user` to `null` |
| AuthContext.LoginThenStartup | Frontend/src/contexts/AuthContext.jsx:60-62 | after a login with a non-empty email and token, the startup read restores that user |
| AuthContext.LogoutLaws | Frontend/src/contexts/AuthContext.jsx:68-72 | after logout, startup restores nobody, and logging out again changes nothing |
| AuthContext.SessionKeepsOtherKeys | Frontend/src/contexts/AuthContext.jsx:60-61 | login and logout leave every other storage key as it was |
| RouteGuard.ProtectedRoute | Frontend/src/components/ProtectedRoute.jsx:16-24 | with no user, a replacing redirect to "/login"; with a user, the children unchanged |
| RouteGuard.GuardIgnoresIdentity | Frontend/src/components/ProtectedRoute.jsx:17-23 | the decision depends only on whether a user is present |
| AppRoutes.Match | Frontend/src/App.jsx:18-48 | a path finds an element exactly when some route has that path, and the element found is that route's |
| AppRoutes.RouteTable | Frontend/src/App.jsx:18-48 | the five routes in order: "/", "/rooms" and "/applications" inside the guard, "/login" and "/register" on their own |
| AppRoutes.Render | Frontend/src/App.jsx:11-52 | the screen of a tree at a path: each provider supplies its `user` to the guards below it, and a layout draws its navbar and the first matching route |
| AppRoutes.AppScreens | Frontend/src/App.jsx:13-16 | every screen shows the navbar, and every guard has its provider |
| AppRoutes.ProtectedPaths | Frontend/src/App.jsx:20-43 | "/", "/rooms" and "/applications" redirect a signed-out user to "/login" and show a signed-in user their page |
| AppRoutes.PublicPaths | Frontend/src/App.jsx:46-47 | "/login" and "/register" show their page to everyone |
| AppRoutes.UnknownPaths | Frontend/src/App.jsx:18-48 | any other path matches no route |
| AppRoutes.ProviderIsNeeded | Frontend/src/App.jsx:13 | without the surrounding provider, a protected route could not render |
| AppRoutes.FirstRenderRedirects | Frontend/src/contexts/AuthContext.jsx:16-25 | as written: with a stored session, the first render of "/", "/rooms" or "/applications" by a freshly constructed provider redirects to "/login" |
| AppRoutes.FirstRenderWithStoredUser | Frontend/src/contexts/AuthContext.jsx:20-24 | corrected: with a stored session, the first render by the lazily initialised provider shows the page of that path |
| AppRoutes.InitialStatesAgreeAfterStartup | Frontend/src/contexts/AuthContext.jsx:16-25 | once the mount effect has run, the provider as written holds the same user the lazy initialiser starts with |
| Seqs.Filter | Frontend/src/pages/Rooms.jsx:79 | `filter` keeps exactly the elements that pass, in order, each with its multiplicity in the input |
| Seqs.FilterKeepsAll | Frontend/src/pages/Rooms.jsx:79 | when every element passes, `filter` returns the list itself |
| Seqs.FilterDropsAll | Frontend/src/pages/Rooms.jsx:79 | when no element passes, `filter` returns the empty list |
| RoomsPage.Search | Frontend/src/pages/Rooms.jsx:79-86 | the rooms passing all four filters, in their order: every result passes, and each passing room appears as often as in the input, each failing one not at all |
| RoomsPage.NoFiltersKeepAll | Frontend/src/pages/Rooms.jsx:79-86 | empty filter fields keep every room |
| RoomsPage.MatchesLocation | Frontend/src/pages/Rooms.jsx:80 | an empty query, or a case-insensitive substring of `location` or of `title` |
| RoomsPage.EffectivePrice | Frontend/src/pages/Rooms.jsx:81 | `price_per_month ?? price` |
| RoomsPage.MatchesPrice | Frontend/src/pages/Rooms.jsx:81 | an empty bound, or the effective price is at most `Number(maxPrice)` |
| RoomsPage.MatchesLanguage | Frontend/src/pages/Rooms.jsx:82 | an empty query, or a case-insensitive exact match with one of `languages`, missing languages being `[]` |
| RoomsPage.MatchesPostcode | Frontend/src/pages/Rooms.jsx:83 | an empty query, or a case-sensitive substring of a non-empty `postcode` |
| RoomsPage.LocationIgnoresCase | Frontend/src/pages/Rooms.jsx:80 | the location filter ignores the letter case of the query |
| RoomsPage.LowerAll | Frontend/src/pages/Rooms.jsx:82 | the languages, each lower-cased |
| RoomsPage.PriceBound | Frontend/src/pages/Rooms.jsx:81 | with a whole-number bound, a room passes exactly when `price_per_month ?? price` is a number at most the bound, or `null` |
| RoomsPage.PriceBoundOfValue | Frontend/src/pages/Rooms.jsx:81 | with a non-empty bound that `Number` reads as `v`, a room passes exactly when `price_per_month ?? price` is a number at most `v`, or `null` and `v` is at least 0 |
| RoomsPage.PriceBoundDecimal | Frontend/src/pages/Rooms.jsx:81 | a bound with a fraction, such as `"499.5"`, keeps a room exactly when its price is at most the whole part plus the fraction, or `null` |
| RoomsPage.PriceBoundWithExponent | Frontend/src/pages/Rooms.jsx:81 | a bound written `"<m>e<k>"` filters exactly as the bound written as the digits of `m * 10^k` |
| RoomsPage.ShownStatus | Frontend/src/pages/Rooms.jsx:62 | `"applied"` is shown as `"pending"`, and every other status as it is |
| RoomsPage.LastFor | Frontend/src/pages/Rooms.jsx:60-65 | the last application for a room, if any |
| RoomsPage.StatusMapsLastWins | Frontend/src/pages/Rooms.jsx:60-65 | a room has entries exactly when an application names it, and the last such application gives both entries |
| RoomsPage.BuildStatusMaps | Frontend/src/pages/Rooms.jsx:58-65 | the loop builds the two maps defined by the applications in order |
| RoomsPage.CancelTarget | Frontend/src/pages/Rooms.jsx:119-120 | the id to cancel exists exactly when a non-empty id is recorded for the room |
| RoomsPage.ApplicationControl | Frontend/src/pages/Rooms.jsx:269-293 | signed out, a prompt; signed in, Apply exactly when the status is absent, empty or `"cancelled"` |
| RoomsPage.StatusBadge | Frontend/src/pages/Rooms.jsx:138-144 | pending for `"pending"` and `"applied"`, its own pill for each of `"accepted"`, `"rejected"` and `"cancelled"`, and none for anything else |
| RoomsPage.ControlAfterUpdates | Frontend/src/pages/Rooms.jsx:271 | after a successful apply the room offers Cancel; after a successful cancel it offers Apply |
| RoomsPage.RoomsPage.constructor | Frontend/src/pages/Rooms.jsx:9-15 | empty filters, lists and maps, and no loading id |
| RoomsPage.RoomsPage.LoadRooms | Frontend/src/pages/Rooms.jsx:30-32 | both the room list and the displayed list become the fetched rooms |
| RoomsPage.RoomsPage.HandleFilterChange | Frontend/src/pages/Rooms.jsx:73-75 | only the named field changes |
| RoomsPage.RoomsPage.HandleSearch | Frontend/src/pages/Rooms.jsx:77-87 | the displayed list becomes the search over the rooms |
| RoomsPage.RoomsPage.HandleReset | Frontend/src/pages/Rooms.jsx:89-92 | all four fields become "" and every room is displayed |
| RoomsPage.RoomsPage.FetchStatus | Frontend/src/pages/Rooms.jsx:44-69 | with no user, both maps are emptied; a failed request leaves them; otherwise both are rebuilt from the applications |
| RoomsPage.RoomsPage.HandleApply | Frontend/src/pages/Rooms.jsx:95-113 | on success the room's status becomes `"pending"` and no other entry changes; `appIds` never changes; `loadingId` ends `null` |
| RoomsPage.RoomsPage.HandleApplyRecordingId | Frontend/src/pages/Rooms.jsx:95-113 | corrected: also records the new application's id for the room |
| RoomsPage.RoomsPage.HandleCancel | Frontend/src/pages/Rooms.jsx:115-136 | with no recorded id, no request is made; otherwise the id is sent and, on success, the room's status becomes `"cancelled"`; `loadingId` ends `null` |
| RoomsPage.ApplyThenCancel | Frontend/src/pages/Rooms.jsx:95-136 | after applying for a room without a recorded id, the page offers Cancel, but cancelling sends no request |
| RoomsPage.ReapplyThenCancel | Frontend/src/pages/Rooms.jsx:95-136 | after a re-apply, cancelling sends the id of the earlier application |
| RoomsPage.ApplyThenCancelRecordingId | Frontend/src/pages/Rooms.jsx:95-136 | with the corrected apply, cancelling sends the new application's id and marks the room cancelled |
| ApplicationsPage.RoomLabel | Frontend/src/pages/Applications.jsx:31-33 | the label is the first non-empty of `room.location`, `room.title` and `room_location`, else "" |
| ApplicationsPage.AppDate | Frontend/src/pages/Applications.jsx:51 | with a non-empty `created_at`, its first ten characters (all of it when shorter); without one, "" |
| ApplicationsPage.FilteredApplications | Frontend/src/pages/Applications.jsx:30-58 | the applications passing all three filters, in their order: every result passes, and each passing application appears as often as in the input, each failing one not at all |
| ApplicationsPage.NoFilterKeepsAll | Frontend/src/pages/Applications.jsx:30-58 | empty filter fields keep every application |
| ApplicationsPage.MatchesLocation | Frontend/src/pages/Applications.jsx:33-37 | an empty query, or a case-insensitive substring of the room label |
| ApplicationsPage.MatchesStatus | Frontend/src/pages/Applications.jsx:40-48 | an empty query, the status equal to the query ignoring case, or the query "pending" and the status `"pending"` or `"applied"` |
| ApplicationsPage.MatchesDate | Frontend/src/pages/Applications.jsx:50-55 | an empty query, or the application's date equal to it |
| ApplicationsPage.PendingQuery | Frontend/src/pages/Applications.jsx:40-48 | the query "pending" matches exactly the pending and the applied applications, in any letter case |
| ApplicationsPage.StatusIgnoresCase | Frontend/src/pages/Applications.jsx:40-41 | the status filter ignores the letter case of the query |
| ApplicationsPage.MissingDateFails | Frontend/src/pages/Applications.jsx:51-55 | an application without `created_at` fails every non-empty date query |
| ApplicationsPage.StatusBadge | Frontend/src/pages/Applications.jsx:94-100 | pending for `"pending"` and `"applied"`, its own pill for each of `"accepted"`, `"rejected"` and `"cancelled"`, and the raw text for anything else |
| ApplicationsPage.BadgesAgree | Frontend/src/pages/Applications.jsx:94-100 | where the rooms page draws a pill, this page draws the same one, and it falls back to raw text exactly where the rooms page draws none |
| ApplicationsPage.CancelOnlyWhenPending | Frontend/src/pages/Applications.jsx:190 | Cancel is offered exactly for the statuses drawn as pending |
| ApplicationsPage.ShowsCancel | Frontend/src/pages/Applications.jsx:190 | the Cancel button is drawn for `"pending"` and `"applied"` |
| ApplicationsPage.ApplicationsPage.constructor | Frontend/src/pages/Applications.jsx:9-12 | no applications, empty filter, no cancel in progress |
| ApplicationsPage.ApplicationsPage.LoadApplications | Frontend/src/pages/Applications.jsx:15-27 | with a user and a successful reply, the list becomes the reply; with no user or a failed request it is kept; the filter and `cancelId` never change |
| ApplicationsPage.ApplicationsPage.HandleInputChange | Frontend/src/pages/Applications.jsx:60-63 | only the named field changes |
| ApplicationsPage.ApplicationsPage.HandleClear | Frontend/src/pages/Applications.jsx:70-72 | all three fields become "" |
| ApplicationsPage.ApplicationsPage.HandleCancel | Frontend/src/pages/Applications.jsx:75-92 | the request names `app.id \|\| app._id`, and `cancelId` ends `null` on every outcome |
| ApplicationsPage.PathId | Frontend/src/pages/Applications.jsx:78 | the id placed in the cancel URL, `"undefined"` when the application has none |
| ApplicationsPage.FromBackend | Backend/app/api/applications.py:12-19 | the JSON of an application carries its id, room id and status, and neither `created_at` nor a room label |
| ApplicationsPage.DateQueryHidesBackendApps | Frontend/src/pages/Applications.jsx:51-55 | a non-empty date query hides every application the backend sends |
| ApplicationsPage.LocationQueryHidesBackendApps | Frontend/src/pages/Applications.jsx:31-37 | an application as the backend sends it has no room label, so a non-empty location query hides it |
| ApplicationsPage.AppliedDateFindsBackendApps | Frontend/src/pages/Applications.jsx:51-55 | corrected: filtering on `applied_at` finds each application by the day it was made |
| DarkMode.GetInitial | Frontend/src/hooks/useDarkMode.js:12-18 | with no window, light; stored "dark" gives dark and "light" gives light; anything else follows the system preference, light by default |
| DarkMode.ThemeValue | Frontend/src/hooks/useDarkMode.js:40 | "dark" exactly for dark, "light" otherwise |
| DarkMode.PersistPreference | Frontend/src/hooks/useDarkMode.js:39-41 | `theme` becomes "dark" or "light", and every other key is kept |
| DarkMode.PersistedThemeReadsBack | Frontend/src/hooks/useDarkMode.js:14-16 | the persisted value is read back as the same boolean, whatever the system prefers |

## Left out

- HTTP routing, CORS, the Motor/MongoDB client and every `fetch` are not modelled. Collections are maps or sequences. Backend replies are inputs.
- bcrypt (passlib) and JWT signing and decoding (python-jose) are not modelled. They are the function parameters `hash`, `verify` and `mint`. `get_current_user` is the `user` parameter.
- The postcodes.io and OSRM calls are the oracles `geocode` and `route`. Whether the endpoint calls them on a cache hit cannot be seen in the model. The contract states only that a hit's result does not depend on them.
- Async interleaving is not modelled. Each handler runs atomically, so a race between the duplicate check and the insert in `apply_for_room` is out of scope.
- MongoDB's natural order is not modelled. `ListRooms` and `GetMyApplications` promise each document exactly once, in no particular order.
- `float()` coercion of prices, the km and `toFixed` formatting, and floating point in general are not modelled. Prices and coordinates are `real`.
- Case mapping covers ASCII letters only, for Python's `upper()` and JavaScript's `toLowerCase()`.
- Bson.IsValidObjectId: it accepts exactly 24 hexadecimal characters. `bytes.fromhex`'s tolerance of inner whitespace is not modelled.
- Js.ToNumber: it reads an optional sign, digits with at most one `.`, and an optional `e`/`E` exponent; the empty string is 0. Hexadecimal, octal and binary forms, `Infinity` and surrounding whitespace count as `NaN` here. A `type="number"` input sanitises its value to a valid floating-point number, and such a value never has any of these forms.
- Pydantic validation is not modelled. That covers EmailStr normalisation and the rejection of malformed bodies before a handler runs.
- A non-string `detail` in an error body is not modelled. An example is FastAPI's validation-error list.
- A missing `status` or `room_id` in an application's JSON is not modelled. The backend always sends both.
- `AppRoutes.Match` matches paths exactly. It does not model react-router's case-insensitive matching or its acceptance of a trailing slash.
- Navbar, Login, Register, Home, RoomsFilter, RoomCard, DistanceDisplay, WeatherDisplay, GeocodeSearch, toasts and JSX markup are not modelled. Neither are the weather and distance refresh handlers of the rooms page or the `classList` toggling in `useDarkMode.js`.
- The loading and error flags of both pages, and the re-fetch after a cancel, are not modelled.
- The locust load tests and the Tailwind configuration are not modelled.

## Findings

| source | as written | input that shows it | evidently intended | confidence | as-written member | corrected member |
|---|---|---|---|---|---|---|
| Frontend/src/pages/Rooms.jsx:108 | a successful apply sets the room's status to pending but never records the new application's id in `appIds` | apply for a room with no earlier application, then press Cancel: "No application found to cancel." and no request; after a cancel and re-apply, Cancel sends the old, cancelled id, which the backend refuses with 400 | record the id returned by the POST, so Cancel targets the new application | high, not executed | RoomsPage.ApplyThenCancel | RoomsPage.ApplyThenCancelRecordingId |
| Frontend/src/pages/Applications.jsx:51 | the date filter reads `created_at`, which the backend's application JSON never has (it sends `applied_at`) | any application from the backend, with the date filter set to its day: it is hidden | filter on the date part of `applied_at` | medium, not executed | ApplicationsPage.DateQueryHidesBackendApps | ApplicationsPage.AppliedDateFindsBackendApps |
| Frontend/src/contexts/AuthContext.jsx:16 | `user` starts `null` and is restored from storage only in an effect after the first render | a signed-in user reloads "/rooms": the first render's guard redirects to "/login" | start from the stored session, for example with a lazy `useState` initialiser | medium, not executed | AppRoutes.FirstRenderRedirects | AppRoutes.FirstRenderWithStoredUser |

The location filter has the same gap: the backend sends no `room` object and no `room_location`, so `ApplicationsPage.LocationQueryHidesBackendApps` shows that any non-empty location query hides every application. Fixing it needs the backend to send a room label, which is outside the page, so no corrected member is given for it.
