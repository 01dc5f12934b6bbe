# Buddy client state, in Dafny

Buddy is a React client for browsing adoptable dogs. A signed-in visitor filters the catalogue by breed and location, sorts and pages it, and keeps favorites. This project models the client-side state behind that:

- **Session provider** (`Auth`). The signed-in user is kept in memory and under two storage keys. A session lasts one hour from sign-in, is never extended, and is dropped on sign-out, on a reload after expiry, or by a once-a-minute check.
- **Login form** (`Login`). Per-field validation uses JavaScript `trim`, UTF-16 `length` and the email regular expression. Submit collects the failing fields.
- **Favorites store** (`Favorites`). The store appends, filters by id and tests membership. It rewrites the whole list to storage after every change.
- **Heart toggle on a dog card** (`DogCard`).
- **Favorites view ordering** (`FavoritesSort`): a sorted copy by name, breed or age, with a ±1 direction modifier.
- **Search page** (`Search`). It holds the criteria (breed, page, sort) and derives the search request from them: 32 per page, a decimal offset, and the sort as `field:direction`. It also runs the two-step query and computes the page count.
- **Location helpers** (`SearchUtils`): group-by-city and the dog-to-city lookup.
- **City/state filter tab** (`LocationFilter`). It builds the request, with spaces in the city written as `+`, guards submit, and adds or removes a whole city's locations.
- **Filter dialog** (`FilterDialog`), which owns and forwards the selected locations.
- **Zip code tab** (`ZipCodeFilter`): the lookup rule and the "not found" alert.

Conventions:

- **State.** Components whose handlers update state are classes with `modifies` clauses. Each method is proved against a function of the old state. Pure derivations are functions with lemmas about them.
- **Browser storage.** `Storage.LocalStorage` is a class over a map from keys to the values the program writes.
- **Outside inputs.** The clock is a `now` parameter. Remote calls are parameters: the answer the service gives, or whether the call resolved. The locale string comparison is a `strCmp` function parameter. Its one requirement, `FlipsSign` (the sign flips when the arguments are swapped), is met by the code-point comparison `LexCompare`.

Two behaviours of the code that are easy to miss:

- **Duplicates.** `addFavorite` appends with no duplicate check, so the list is not a set: two adds make two entries (`Favorites.AddAppendsWithoutDedupe`). Ids stay unique only because the heart button removes a dog that is already a favorite (`DogCard.TogglePreservesUniqueIds`). For the same reason, add-then-remove restores the list only when the dog was not a favorite before.
- **Login path.** The login form sends its data to the login call directly, not through the session provider's `signIn`. A successful login from the form therefore stores no session.

## Model

| member | source | states |
|---|---|---|
| Favorites.Removed | src/providers/FavoritesProvider.tsx:22-24 | an entry survives removal exactly when it was there and its id differs; the list never grows |
| Favorites.Added | src/providers/FavoritesProvider.tsx:18-20 | adding puts the dog at the end, one entry longer, and keeps every earlier entry in place |
| Favorites.IsMember | src/providers/FavoritesProvider.tsx:26-28 | a dog is a favorite exactly when some position of the list holds an entry with its id |
| Favorites.InitialFavorites | src/providers/FavoritesProvider.tsx:9-12 | the initial list is the stored list under `buddy_favorites`, and empty when nothing is stored |
| Favorites.RemovedCounts | src/providers/FavoritesProvider.tsx:23 | removal drops every copy of entries with the id and keeps every other entry as often as it occurred |
| Favorites.RemovedConcat | src/providers/FavoritesProvider.tsx:23 | removal distributes over concatenation, so the survivors keep their order |
| Favorites.RemoveAbsentIsIdentity | src/providers/FavoritesProvider.tsx:22-24 | removing an id that no favorite has leaves the list unchanged |
| Favorites.MembershipAfterChange | src/providers/FavoritesProvider.tsx:18-28 | after add the dog's id is a member; after remove the id is not; other ids keep their membership |
| Favorites.AddAppendsWithoutDedupe | src/providers/FavoritesProvider.tsx:18-20 | add puts the dog at the end, keeps the earlier entries, and adds one more copy even if it was present |
| Favorites.AddThenRemoveRestores | src/providers/FavoritesProvider.tsx:18-24 | adding a non-favorite and then removing its id restores the list |
| Favorites.FavoritesProvider.constructor | src/providers/FavoritesProvider.tsx:9-16 | the provider starts from the stored list and the effect writes it back to storage |
| Favorites.FavoritesProvider.SyncStorage | src/providers/FavoritesProvider.tsx:14-16 | the storage effect writes the whole list under the favorites key and changes no other key |
| Favorites.FavoritesProvider.AddFavorite | src/providers/FavoritesProvider.tsx:18-20 | the list becomes the old list plus the dog, and storage holds the new list |
| Favorites.FavoritesProvider.RemoveFavorite | src/providers/FavoritesProvider.tsx:22-24 | the list becomes the old list without the id, and storage holds the new list |
| Favorites.FavoritesProvider.IsFavorite | src/providers/FavoritesProvider.tsx:26-28 | true exactly when some favorite has the id |
| DogCard.ToggleRemovesMember | src/features/search/components/DogCard.tsx:24-27 | pressing the heart of a favorite removes every entry with its id |
| DogCard.Toggled | src/features/search/components/DogCard.tsx:24-30 | one press flips the dog's membership: a favorite stops being one and a non-favorite becomes one |
| DogCard.ToggleAppendsNonMember | src/features/search/components/DogCard.tsx:27-29 | pressing the heart of a non-favorite appends it, and it becomes a favorite |
| DogCard.ToggleTwiceRestores | src/features/search/components/DogCard.tsx:24-30 | two presses starting from a non-favorite give back the original list |
| DogCard.RemovedKeepsUniqueIds | src/providers/FavoritesProvider.tsx:23 | removal never creates two entries with the same id |
| DogCard.TogglePreservesUniqueIds | src/features/search/components/DogCard.tsx:24-30 | the heart button keeps the favorites free of repeated ids |
| DogCard.ToggleFavorite | src/features/search/components/DogCard.tsx:21-30 | the store's list becomes the toggled list, and storage holds it |
| Auth.Rehydrate | src/features/auth/AuthProvider.tsx:14-29 | the initial user is the stored one exactly when both keys are present and the clock is before the expiry; an expired pair removes both keys and nothing else |
| Auth.AfterPersist | src/features/auth/AuthProvider.tsx:31-37 | the user is held and stored, the expiry is stored as now plus one hour, and other keys are untouched |
| Auth.AfterClear | src/features/auth/AuthProvider.tsx:39-43 | both session keys are removed, the user is forgotten, and other keys are untouched |
| Auth.AfterSignIn | src/features/auth/AuthProvider.tsx:45-53 | once login resolves, the user named by the credential's email is held and stored under `buddy_user`, with an expiry one hour ahead, and every other key is kept; a rejected login changes nothing |
| Auth.AfterSignOut | src/features/auth/AuthProvider.tsx:55-58 | once logout resolves, no user is held, both user keys are removed and every other key is kept; a rejected logout changes nothing |
| Auth.AfterCheck | src/features/auth/AuthProvider.tsx:62-67 | the check clears exactly when an expiry is stored and the clock has reached it, and otherwise changes nothing |
| Auth.CheckAfterClearingIsNoOp | src/features/auth/AuthProvider.tsx:62-67 | after a check that cleared, any later check has no effect |
| Auth.CheckIsIdempotent | src/features/auth/AuthProvider.tsx:62-67 | two checks at the same time act as one |
| Auth.ExpiryInstantIsExpired | src/features/auth/AuthProvider.tsx:18-26 | at exactly the expiry instant, a reload drops the user and the periodic check clears the session |
| Auth.SessionLifetime | src/features/auth/AuthProvider.tsx:31-37 | a session made at time t survives checks and reloads exactly before t plus one hour, and is cleared from then on |
| Auth.ReloadAfterSignIn | src/features/auth/AuthProvider.tsx:14-52 | after a resolved sign-in, a reload restores the user named by the credential's email exactly while less than an hour has passed |
| Auth.FiftyNineAndSixtyOneMinutes | src/features/auth/AuthProvider.tsx:33 | read 59 minutes after sign-in the user is active; checked 61 minutes after, the session is gone |
| Auth.AuthProvider.constructor | src/features/auth/AuthProvider.tsx:14-29 | mounting gives the rehydrated user and storage |
| Auth.AuthProvider.PersistUser | src/features/auth/AuthProvider.tsx:31-37 | the provider's state becomes the persisted session |
| Auth.AuthProvider.ClearStoredUser | src/features/auth/AuthProvider.tsx:39-43 | the provider's state becomes the cleared session |
| Auth.AuthProvider.SignIn | src/features/auth/AuthProvider.tsx:45-53 | the provider's state becomes the signed-in session when login resolves |
| Auth.AuthProvider.SignOut | src/features/auth/AuthProvider.tsx:55-58 | the provider's state becomes the cleared session when logout resolves |
| Auth.AuthProvider.CheckExpiry | src/features/auth/AuthProvider.tsx:62-67 | one interval tick applies the expiry check to the provider's state |
| Login.FormData.With | src/features/auth/LoginPage.tsx:71 | the named field takes the value and the other field is kept |
| Login.TrimStart | src/features/auth/LoginPage.tsx:46 | trimming the start yields a suffix, cuts only whitespace, and never starts with whitespace |
| Login.TrimEnd | src/features/auth/LoginPage.tsx:46 | trimming the end yields a prefix, cuts only whitespace, and never ends with whitespace |
| Login.Trim | src/features/auth/LoginPage.tsx:46 | `trim` keeps one contiguous piece of the value with only whitespace cut before and after it, and the piece neither starts nor ends with whitespace |
| Login.Utf16Length | src/features/auth/LoginPage.tsx:49 | the length counted in UTF-16 code units lies between the number of code points and twice that |
| Login.Utf16LengthBelowTwo | src/features/auth/LoginPage.tsx:49 | a non-empty string is shorter than 2 exactly when it is one character of the basic plane |
| Login.EmailScannerMatchesPattern | src/features/auth/LoginPage.tsx:58-59 | the scanning check accepts exactly the strings the email regular expression matches |
| Login.PatternIsNotBlank | src/features/auth/LoginPage.tsx:55-59 | a string the email pattern matches has no whitespace at either end and is not blank |
| Login.SurroundingSpaceIsInvalid | src/features/auth/LoginPage.tsx:58-59 | the pattern is matched against the untrimmed value, so a leading or trailing space makes it invalid |
| Login.ValidateName | src/features/auth/LoginPage.tsx:45-53 | "Name is required" exactly for an all-whitespace value, "at least 2 characters" exactly when the trimmed value is 1 code unit, and no error otherwise |
| Login.ValidateEmail | src/features/auth/LoginPage.tsx:54-63 | "Email is required" exactly for an all-whitespace value, "Invalid email address" exactly for a non-blank value the pattern rejects, and no error exactly when the pattern matches |
| Login.ValidateField | src/features/auth/LoginPage.tsx:43-67 | a field gets no message exactly when its own rule accepts the value: at least 2 code units after trimming for the name, the pattern for the email |
| Login.OneCharacterNameIsTooShort | src/features/auth/LoginPage.tsx:49-51 | one non-whitespace basic-plane character, with any padding, is too short |
| Login.CollectErrors | src/features/auth/LoginPage.tsx:84-90 | the collected errors are exactly the failing fields with their messages; none exactly when the form is valid |
| Login.LoginPage.constructor | src/features/auth/LoginPage.tsx:26-30 | the form starts empty with no errors |
| Login.LoginPage.HandleChange | src/features/auth/LoginPage.tsx:69-78 | the typed field and its error are set, and the other field and its error are kept |
| Login.LoginPage.HandleSubmit | src/features/auth/LoginPage.tsx:80-99 | the data is sent exactly when both fields validate; otherwise the errors become exactly the failing fields |
| Search.DecimalString | src/features/search/SearchPage.tsx:70 | the offset numeral is a non-empty string of digits with no leading zero |
| Search.DecimalRoundTrip | src/features/search/SearchPage.tsx:70 | reading the numeral back gives the number |
| Search.OffsetParam | src/features/search/SearchPage.tsx:70 | the offset is absent exactly on page 1 and below; past it, the canonical decimal numeral of (page − 1) × 32 (no leading zero), which reads back as that number |
| Search.SortParam | src/features/search/SearchPage.tsx:71 | the sort string `field:direction` is read back by the service as exactly that field and direction |
| Search.SortParamInjective | src/features/search/SearchPage.tsx:71 | two sort settings give the same sort string exactly when they are the same setting |
| Search.SearchParams | src/features/search/SearchPage.tsx:67-72 | no breed filter exactly for the empty breed, else exactly that breed; size 32; the page offset above; and the sort parsing back to the criteria |
| Search.RunDogsQuery | src/features/search/SearchPage.tsx:66-80 | a search error fails the query; no ids give no dogs and total 0 without the record fetch; otherwise exactly the returned ids are fetched, with the search's total |
| Search.EmptyResultShortCircuits | src/features/search/SearchPage.tsx:74-76 | with no ids the result does not depend on the record fetch and is empty with total 0 |
| Search.TotalPages | src/features/search/SearchPage.tsx:83-85 | the page count is the ceiling of total / 32, and 0 without results |
| Search.TotalPagesSmallTotals | src/features/search/SearchPage.tsx:83-85 | a total of 0 gives 0 pages and a total of 1 to 32 gives one page |
| Search.PaginationShownIff | src/features/search/SearchPage.tsx:83-103 | the pager appears exactly when the breed list has loaded (while it loads or after it fails the page shows only a message), the dog results are loaded, the grid is non-empty and more than 32 dogs match; the pager itself is at lines 190-239 |
| Search.SearchPage.constructor | src/features/search/SearchPage.tsx:39-42 | the criteria start as no breed, page 1, breed ascending |
| Search.SearchPage.OnBreedChange | src/features/search/SearchPage.tsx:133-136 | the breed changes, the page returns to 1, and the sort is kept |
| Search.SearchPage.OnSortFieldChange | src/features/search/SearchPage.tsx:156-159 | the sort field changes, the page returns to 1, and breed and direction are kept |
| Search.SearchPage.OnSortDirectionChange | src/features/search/SearchPage.tsx:176-179 | the direction changes, the page returns to 1, and breed and field are kept |
| Search.SearchPage.OnPageChange | src/features/search/SearchPage.tsx:235 | only the page changes |
| SearchUtils.CityGroup | src/features/search/lib/utils.tsx:4-10 | a city's group holds only input locations of that city |
| SearchUtils.Cities | src/features/search/lib/utils.tsx:4-10 | the group keys are listed without repetition |
| SearchUtils.CitiesInFirstOccurrenceOrder | src/features/search/lib/utils.tsx:4-10 | every listed key occurs in the input, and the keys are listed in the order of their first occurrence |
| SearchUtils.GroupLocations | src/features/search/lib/utils.tsx:3-13 | the reduce loop builds exactly the grouping: each city's group created on first sight, then pushed onto |
| SearchUtils.CityGroupMembers | src/features/search/lib/utils.tsx:5-8 | a location is in a city's group exactly when it is an input location of that city |
| SearchUtils.CityGroupConcat | src/features/search/lib/utils.tsx:8 | grouping distributes over concatenation, so a group keeps input order |
| SearchUtils.LocationInOwnGroup | src/features/search/lib/utils.tsx:4-9 | every location is in the group keyed by its own city |
| SearchUtils.GroupsAreNonEmptyAndUniform | src/features/search/lib/utils.tsx:5-8 | every group is non-empty and its members share the key's city |
| SearchUtils.KeysAreInputCities | src/features/search/lib/utils.tsx:3-13 | the keys are exactly the input cities, and the enumeration order lists each key once |
| SearchUtils.GroupSizesSumToInputLength | src/features/search/lib/utils.tsx:3-13 | the sizes of the cities' groups add up to the input length |
| SearchUtils.GroupingSizesSum | src/features/search/lib/utils.tsx:3-13 | the grouping's own group sizes add up to the input length |
| SearchUtils.DogCity | src/features/search/lib/utils.tsx:15-20 | the city of the first location with the dog's zip code, and none exactly when no location has it |
| FavoritesSort.Modifier | src/features/favorites/FavoritesView.tsx:16 | the direction modifier is +1 or −1 |
| FavoritesSort.DogCompare | src/features/favorites/FavoritesView.tsx:13-25 | the first dog sorts before the second exactly when its name, breed or age is smaller (ascending) or larger (descending), and the two tie exactly when the keys compare equal |
| FavoritesSort.SortBy | src/features/favorites/FavoritesView.tsx:13 | the sorted copy is a permutation of the input |
| FavoritesSort.SortedFavorites | src/features/favorites/FavoritesView.tsx:13-25 | the sorted copy holds exactly the favorites, each as often, at the same length |
| FavoritesSort.SortByOrders | src/features/favorites/FavoritesView.tsx:13 | for a comparator that flips sign, each output element compares at most 0 with the next |
| FavoritesSort.ComparatorFlipsSign | src/features/favorites/FavoritesView.tsx:16-22 | the dog comparator flips sign, for every field and direction, when the string comparison does |
| FavoritesSort.SortedFavoritesOrdered | src/features/favorites/FavoritesView.tsx:13-25 | neighbours in the sorted copy are in comparator order |
| FavoritesSort.AgeSortIsMonotone | src/features/favorites/FavoritesView.tsx:21-22 | by age the whole copy is non-decreasing ascending and non-increasing descending |
| FavoritesSort.StringSortOrder | src/features/favorites/FavoritesView.tsx:18-19 | by name or breed, neighbours compare at most 0 ascending and at least 0 descending |
| FavoritesSort.DefaultOrderIsByName | src/features/favorites/FavoritesView.tsx:10-11 | the view opens ordered by name, ascending |
| FavoritesSort.LexCompareFlipsSign | src/features/favorites/FavoritesView.tsx:19 | code-point comparison meets the comparator requirement placed on the string comparison |
| LocationFilter.Split | src/features/search/components/LocationFilterTab.tsx:96 | splitting gives at least one piece, and no piece holds the separator |
| LocationFilter.SplitJoinReplaces | src/features/search/components/LocationFilterTab.tsx:96 | splitting on one character and joining with another replaces each occurrence position by position |
| LocationFilter.JoinSplitRoundTrip | src/features/search/components/LocationFilterTab.tsx:96 | joining with the separator that was split on gives the string back |
| LocationFilter.CityParam | src/features/search/components/LocationFilterTab.tsx:96 | the city parameter is absent exactly for an empty city, and otherwise is the city with every space written as `+` |
| LocationFilter.LocationSearchFor | src/features/search/components/LocationFilterTab.tsx:94-99 | the request holds the encoded city, the state as a one-element list exactly when it is non-empty, and size 1000 |
| LocationFilter.LocationsAdded | src/features/search/components/LocationFilterTab.tsx:113-116 | adding gives the selection followed by the group, with no duplicate check |
| LocationFilter.LocationsRemoved | src/features/search/components/LocationFilterTab.tsx:118-123 | removal keeps exactly the selected locations not in the group |
| LocationFilter.LocationsRemovedCounts | src/features/search/components/LocationFilterTab.tsx:119-121 | each location outside the group keeps its multiplicity; those inside are dropped |
| LocationFilter.LocationsRemovedConcat | src/features/search/components/LocationFilterTab.tsx:119-121 | removal distributes over concatenation, so the survivors keep their order |
| LocationFilter.AddThenRemoveRestores | src/features/search/components/LocationFilterTab.tsx:113-123 | adding a group and removing it restores a selection that held none of it |
| LocationFilter.LocationFilterTab.constructor | src/features/search/components/LocationFilterTab.tsx:85-89 | the inputs start empty with no results |
| LocationFilter.LocationFilterTab.SetCity | src/features/search/components/LocationFilterTab.tsx:133 | typing sets the city only |
| LocationFilter.LocationFilterTab.SetState | src/features/search/components/LocationFilterTab.tsx:141 | choosing sets the state only |
| LocationFilter.LocationFilterTab.HandleSubmit | src/features/search/components/LocationFilterTab.tsx:106-111 | a search is issued exactly when the city or the state is non-empty, and it is the request for the current inputs |
| LocationFilter.LocationFilterTab.OnSearchSuccess | src/features/search/components/LocationFilterTab.tsx:100-103 | the results are stored grouped by city |
| FilterDialog.WithoutCity | src/features/search/components/FilterDialog.tsx:71 | keeps exactly the locations of other cities |
| FilterDialog.RemovingOwnGroupDropsCity | src/features/search/components/LocationFilterTab.tsx:118-123 | removing a selected city's own group drops exactly that city's locations, so matching by value or by identity agree |
| FilterDialog.RemovingCityDropsItsChip | src/features/search/components/FilterDialog.tsx:96-100 | after a city's chip is deleted, the chips are exactly those of the other cities |
| FilterDialog.FilterDialog.constructor | src/features/search/components/FilterDialog.tsx:46 | no location is selected at first |
| FilterDialog.FilterDialog.HandleLocationsChange | src/features/search/components/FilterDialog.tsx:65-68 | the new selection is kept and forwarded unchanged |
| FilterDialog.FilterDialog.HandleLocationRemove | src/features/search/components/FilterDialog.tsx:70-74 | every location of the city is dropped, the rest are kept, and that list is forwarded |
| FilterDialog.FilterDialog.DeleteBreedChip | src/features/search/components/FilterDialog.tsx:88-95 | deleting the breed chip hands the empty breed to the owner's breed callback and leaves the selection as it was |
| ZipCodeFilter.SelectionAfterLookup | src/features/search/components/ZipCodeFilterTab.tsx:20-28 | nothing is forwarded exactly when the lookup is empty or its first city is empty; otherwise all returned locations are appended |
| ZipCodeFilter.FoundCityIsGrouped | src/features/search/components/ZipCodeFilterTab.tsx:26 | after a successful lookup the found city has a chip holding the first returned location |
| ZipCodeFilter.ZipCodeFilterTab.constructor | src/features/search/components/ZipCodeFilterTab.tsx:15-16 | the input starts empty and the alert hidden |
| ZipCodeFilter.ZipCodeFilterTab.HandleSubmit | src/features/search/components/ZipCodeFilterTab.tsx:34-38 | submit looks up exactly the typed zip code, then clears the input |
| ZipCodeFilter.ZipCodeFilterTab.HandleTyping | src/features/search/components/ZipCodeFilterTab.tsx:48-51 | typing sets the input and hides the alert |
| ZipCodeFilter.ZipCodeFilterTab.OnLookupSuccess | src/features/search/components/ZipCodeFilterTab.tsx:20-28 | a not-found lookup raises the alert and forwards nothing; otherwise it forwards the selection plus the lookup and hides the alert |

## Left out

- **Serialisation.** JSON serialisation and `parseInt` are taken as exact inverses. A key holding something the program would not write there is read as absent. An expiry that does not parse (`NaN`) is not modelled.
- **Query caching.** The react-query cache, query keys, loading flags and retries are not modelled. Each query is one run of its function.
- **Other source.** The API wrappers (`src/api/*.ts`) are not modelled: each remote call is a parameter. Neither are the match dialog, the presentational components or the theme toggle. Location latitude and longitude are never used in logic and are omitted.
- **Dog ages.** Ages are integers; the JavaScript number type also allows fractional values.
- **Offset rendering.** The offset numeral is exact for every natural number. JavaScript's `toString` switches to exponent form from 1e21 on, which no page number reaches.
- **Key order.** Object key enumeration order in `groupLocations` is modelled as first-occurrence order. JavaScript lists integer-like keys (a city named "123") first, in numeric order.
- **Inherited keys.** `groupLocations` indexes a plain object literal. A city named after an inherited `Object.prototype` member (`constructor`, `toString`, `__proto__`) finds a value that is not an array, and `push` then throws. `SearchUtils.GroupLocations` treats every city name as an ordinary key and always returns a grouping.
- **Missing entries.** The zip-code tab reads `locations[0]?.city` and `getDogCity` reads `location?.zip_code`, so the source tolerates `null` entries in a location list. The model's lists hold locations only, so `ZipCodeFilter.LookupNotFound`, `ZipCodeFilter.ZipCodeFilterTab.OnLookupSuccess` and `SearchUtils.DogCity` do not cover a `null` entry.
- **Timer.** The once-a-minute `setInterval` that runs the expiry check, and its cleanup on unmount, are not modelled. `Auth.AuthProvider.CheckExpiry` is one tick.
- **Dialog wiring.** No component in this model mounts the filter dialog. What its owner does with the forwarded breed or locations is outside the dialog.
- **Identity.** `includes` in the location removal compares objects by identity; the model compares values. `FilterDialog.RemovingOwnGroupDropsCity` shows the two agree for the groups the tab actually passes.
- **Failed lookups.** The zip-code lookup's error handler only logs, and is not modelled.
- FavoritesSort.SortedFavoritesOrdered: states neighbour order under the comparator, not the stability that the platform sort also gives.
- FavoritesSort.StringSortOrder: `localeCompare` is the `strCmp` parameter, so the order is relative to that comparison. The parameter is only required to flip sign; locale collation itself is not modelled.
