# Brandshot front end: a verified model of its client-side logic

Brandshot is a web front end for generating brand images (logos and product
photos) from prompts. It keeps projects, user profiles, prompt presets and
generation records in a document store, and it keeps a local gallery of
generated images in the browser. This project models the parts of the front end
that decide something, and proves what they guarantee:

- **The local gallery** (`local_images.dfy`) is a class holding the persisted
  list of generations. Each generation owns an ordered list of images. The
  class has methods to save a generation, append images, list a project's
  generations newest first, flatten them into image rows newest first, and
  remove one image or one whole generation.
- **The dashboard filters** (`dashboard_filters.dfy`, `dashboard_header.dfy`)
  cover the defensive tag parser, the shared filter store whose setters each
  change one field, and the multi-select rule in which "All" means "no tag
  filter".
- **The payload sanitizer** (`firestore_clean.dfy`) removes `undefined` and
  `NaN` at every depth of a JSON-like value before the value is written.
- **The data-access decisions**:
  - `project_api.dfy`: project records and their defaults, the missing-index
    error classifier, and the client-side fallback listing;
  - `user_api.dfy`: user profile defaults and merges, normalisation of the
    OpenRouter key, and preset timestamps;
  - `generation_api.dfy`: the cap and the per-row defaults when listing a
    project's generations.

  In all three, the document store is a map from document id to document.
- **Small helpers**:
  - `text_sanitizer.dfy`: escaping text for JSON;
  - `auth_errors.dfy`: messages for authentication error codes;
  - `theme_provider.dfy`: the light/dark theme state;
  - `navbar.dfy`: active links, avatar initials, avatar routing and the
    mobile menu's open flag.

The shared modules are:

- `Wrappers`: `Option`;
- `Seqs`: filter, map, find-index, de-duplication, and a stable descending sort
  standing for `Array.prototype.sort`, which is stable since ECMAScript 2019;
- `JsString`: JavaScript `trim`, `includes`, `startsWith`, `split`/`join` and
  ASCII `toUpperCase`;
- `Json`: JavaScript values with `String(v)`, property lookup, object spread
  and `??`.

`Date.now()`, random ids, the ids the store assigns and the server timestamp
are parameters. So are the results of queries the code cannot see, and the
store's `JSON.parse`. The text of the code is followed throughout. In
particular, `normalizeTags([])` is `[]`, so the stored tag list can be empty
(`DashboardFilters.NormalizeTagsEmpty` says exactly when).

## Model

| member | source | states |
|---|---|---|
| LocalImages.GalleryStore.constructor | src/lib/localImages.ts:22-30 | the store starts from the persisted list (empty when nothing, or nothing readable, is stored) |
| LocalImages.GalleryStore.SaveGeneration | src/lib/localImages.ts:37-52 | exactly one record is appended at the end; it has `createdAt = now`, the given id or else the fresh one, the given images or else `[]`, and the input's project, prompt and mode |
| LocalImages.GalleryStore.AppendImages | src/lib/localImages.ts:55-61 | an unknown id changes nothing; otherwise only the first generation with that id changes, gaining the new images after its own, and the length is unchanged (no generation is created) |
| LocalImages.GalleryStore.ListGenerations | src/lib/localImages.ts:64-68 | the result is exactly the generations of the project, in non-increasing `createdAt` order |
| LocalImages.ProjectGenerationsSpec | src/lib/localImages.ts:64-68 | the listing is sorted newest first, is a permutation of the project's generations, and has exactly the stored generations of that project as members |
| LocalImages.ProjectGenerationsTiesKeepOrder | src/lib/localImages.ts:67 | two generations of the project with equal `createdAt` are listed in the order they were saved |
| LocalImages.SaveThenList | src/lib/localImages.ts:37-68 | after a save, the project's listing gains the new generation once, exactly once if its id is new, and every other project's listing is unchanged |
| LocalImages.Rows | src/lib/localImages.ts:83-91 | a generation contributes one row per image |
| LocalImages.FlattenMember | src/lib/localImages.ts:82-92 | a row is produced iff some generation holds its image and the row carries that generation's id, prompt, mode and `createdAt` |
| LocalImages.FlattenKeepsImageOrder | src/lib/localImages.ts:82-92 | the nested loops keep each generation's images in order |
| LocalImages.GalleryStore.ListImagesByProject | src/lib/localImages.ts:79-96 | the nested loops followed by the sort give the project's image rows newest first |
| LocalImages.ProjectImagesSpec | src/lib/localImages.ts:79-96 | one row per image of the project's generations, carrying its generation's metadata, in non-increasing `createdAt` order |
| LocalImages.ProjectImagesKeepAppendOrder | src/lib/localImages.ts:82-94 | the images of one generation appear in the grid in the order they were appended |
| LocalImages.ProjectImagesNewerFirst | src/lib/localImages.ts:94 | a row of a newer generation precedes a row of an older one |
| LocalImages.ProjectImagesExample | src/lib/localImages.ts:79-96 | G1 (100, [i1]) and G2 (200, [i2, i3]) list as [(G2, i2), (G2, i3), (G1, i1)] |
| LocalImages.GalleryStore.RemoveImage | src/lib/localImages.ts:99-105 | no match changes nothing; otherwise only the first generation matching both ids loses every image with that id, keeps all its other images, and all other generations are unchanged |
| LocalImages.GalleryStore.RemoveGeneration | src/lib/localImages.ts:108-113 | every generation matching both ids goes; all others remain, in their order |
| LocalImages.RemoveGenerationIdempotent | src/lib/localImages.ts:108-113 | removing a generation twice is removing it once |
| Seqs.FindIndex | src/lib/localImages.ts:57 | `-1` iff no element matches; otherwise the index of the first match |
| Seqs.Filter | src/lib/localImages.ts:66 | the result keeps exactly the matching elements, and is no longer than the input |
| Seqs.SortDescSorted | src/lib/localImages.ts:67 | the sort yields non-increasing keys and a permutation of its input |
| Seqs.SortDescStable | src/lib/localImages.ts:67 | for each key value, the elements with that key keep their input order |
| Seqs.SortDescKeepsOrder | src/lib/localImages.ts:67 | two elements with equal keys are ordered after the sort as before it |
| Seqs.SortDescOrdersKeys | src/lib/localImages.ts:94 | an element with a larger key precedes one with a smaller key |
| DashboardFilters.NormalizeTags | src/shared/dashboardFilters.ts:8-20 | an array gives its elements as strings, in order. A string parsing to an array gives that array's elements as strings. A string parsing to a non-empty string `s` gives `[s]`. An unparsable string gives its non-empty trim, or else `["All"]`. Anything else, including a string that parses to `""` or to a non-string, gives `["All"]`. |
| DashboardFilters.NormalizeTagsEmpty | src/shared/dashboardFilters.ts:8-20 | the result is empty iff the input is an empty array or a string that parses to one |
| DashboardFilters.NormalizeTagsOfTags | src/shared/dashboardFilters.ts:9 | a list of strings comes back unchanged |
| DashboardFilters.NormalizeTagsIdempotent | src/shared/dashboardFilters.ts:8-20 | normalising normalised tags changes nothing |
| DashboardFilters.FilterStore.constructor | src/shared/dashboardFilters.ts:33-37 | the initial state is query `""`, tags `["All"]`, no available tags, newest first |
| DashboardFilters.FilterStore.SetQuery | src/shared/dashboardFilters.ts:38 | sets the query and nothing else |
| DashboardFilters.FilterStore.SetTags | src/shared/dashboardFilters.ts:39-45 | stores the normalised value; an updater receives the normalised current tags, which are the current tags; nothing else changes |
| DashboardFilters.FilterStore.SetDateSort | src/shared/dashboardFilters.ts:46 | sets the date ordering and nothing else |
| DashboardFilters.FilterStore.SetAvailableTags | src/shared/dashboardFilters.ts:47 | stores each distinct tag once, in first-occurrence order, and nothing else changes |
| Seqs.Dedup | src/shared/dashboardFilters.ts:47 | same elements as the input, no repeats, in order of first occurrence |
| DashboardHeader.InitialHeader | src/components/dashboard/DashboardHeader.tsx:25-27 | the header starts with query `""`, tags `["All"]` and newest first, a valid selection |
| DashboardHeader.ToggleTag | src/components/dashboard/DashboardHeader.tsx:30-38 | always a valid selection (exactly `["All"]`, or non-empty without "All"); "All" resets; an absent tag is appended after the previous concrete tags; a present tag is removed everywhere, the other concrete tags stay, and an empty result becomes `["All"]` |
| DashboardHeader.ToggleKeepsOrder | src/components/dashboard/DashboardHeader.tsx:34 | removing a tag keeps the other selected tags in their order |
| DashboardHeader.ToggleTwiceRestores | src/components/dashboard/DashboardHeader.tsx:33-36 | toggling an unselected concrete tag on and off again restores the previous selection exactly |
| DashboardHeader.ToggleNoDuplicates | src/components/dashboard/DashboardHeader.tsx:33-36 | a selection without repeats stays without repeats |
| FirestoreClean.Clean | src/lib/firestoreClean.ts:2-28 | a non-object (including `null` and a top-level `NaN`) is returned unchanged; an array or object comes back of the same kind with no `undefined` or `NaN` at any depth |
| FirestoreClean.CleanItems | src/lib/firestoreClean.ts:8-10 | the cleaned elements hold no `undefined` or `NaN`, and there are no more of them than before |
| FirestoreClean.CleanFields | src/lib/firestoreClean.ts:14-27 | the cleaned entries hold no `undefined` or `NaN`, and there are no more of them than before |
| FirestoreClean.CleanFieldsCons | src/lib/firestoreClean.ts:15-25 | one loop step drops a rejected entry, or keeps it with its value cleaned |
| FirestoreClean.CleanArrayIsMapFilter | src/lib/firestoreClean.ts:8-10 | the array branch is map-clean followed by dropping `undefined` and `NaN`, so survivors keep their order |
| FirestoreClean.CleanObjectIsFilterMap | src/lib/firestoreClean.ts:14-27 | the object loop keeps exactly the entries whose value is neither `undefined` nor `NaN`, in order, each value cleaned |
| FirestoreClean.CleanFieldsKeys | src/lib/firestoreClean.ts:15-25 | cleaning introduces no key |
| FirestoreClean.CleanLookup | src/lib/firestoreClean.ts:15-25 | a key with an `undefined` or `NaN` value is gone; every other key, `null` included, reads its cleaned value |
| FirestoreClean.CleanOfStorable | src/lib/firestoreClean.ts:2-28 | a value with no `undefined` or `NaN` inside is left as it is |
| FirestoreClean.CleanItemsOfStorable | src/lib/firestoreClean.ts:8-10 | elements that are already clean are left as they are |
| FirestoreClean.CleanFieldsOfStorable | src/lib/firestoreClean.ts:14-27 | entries that are already clean are left as they are |
| FirestoreClean.CleanIdempotent | src/lib/firestoreClean.ts:2-28 | cleaning twice is cleaning once |
| FirestoreClean.CleanExample | src/lib/firestoreClean.ts:2-28 | `{name: "A", client: undefined, tags: [1, NaN, "x"]}` becomes `{name: "A", tags: [1, "x"]}` |
| Json.ToStr | src/shared/dashboardFilters.ts:9 | `String(v)` of a string is that string |
| Json.Coalesce | src/api/user.ts:49-52 | `v ?? d` replaces only a missing, `undefined` or `null` value |
| Json.Lookup | src/api/user.ts:49-52 | reading a property is absent iff the object lacks the key |
| Json.Put | src/api/user.ts:39-42 | the spread `{...obj, k: v}` reads `v` at `k`, leaves every other key as it was, and has exactly the old keys and `k` |
| Json.LookupAt | src/api/user.ts:47-55 | in an object literal with distinct keys, each key reads its own value |
| JsString.Trim | src/api/user.ts:64 | no white space at either end; empty iff the input is all white space |
| JsString.TrimMargins | src/api/user.ts:64 | the trimmed string is a slice of the input whose cut-off margins are all white space |
| JsString.TrimIdempotent | src/api/user.ts:63-79 | trimming a trimmed string changes nothing |
| JsString.Includes | src/api/project.ts:80 | true iff the substring occurs at some position |
| JsString.Split | src/components/Navbar.tsx:49 | at least one piece, none containing the separator |
| JsString.JoinSplit | src/components/Navbar.tsx:49 | joining the pieces of a split with the separator gives back the string |
| ProjectApi.IsMissingIndex | src/api/project.ts:78-82 | a non-string message never triggers the fallback; a string message with code "failed-precondition" always does; otherwise it is triggered iff the message includes "requires an index" |
| ProjectApi.MissingIndexExample | src/api/project.ts:78-82 | a message saying the query "requires an index" is recognised without any code |
| ProjectApi.ProjectStore.CreateProject | src/api/project.ts:21-49 | the written document and the returned project are the same record: client `""` and tags `[]` by default, `createdAt = updatedAt = now`, no generations, not archived, under the new id |
| ProjectApi.ProjectStore.FallbackList | src/api/project.ts:93-100 | exactly the stored projects of the owner with the given archived flag, each once, sorted by `updatedAt` descending with a missing `updatedAt` as 0 |
| ProjectApi.ProjectStore.ListProjectsByOwner | src/api/project.ts:57-106 | a successful primary query is returned in query order as id plus data; a missing-index error takes the fallback; any other error is rethrown unchanged |
| ProjectApi.ProjectStore.RenameProject | src/api/project.ts:108-113 | an existing project gets the new name and `updatedAt = now`, with nothing else changed; a missing one makes the update fail with nothing changed |
| ProjectApi.ProjectStore.ArchiveProject | src/api/project.ts:115-120 | an existing project gets the archived flag and `updatedAt = now`, with nothing else changed; a missing one makes the update fail with nothing changed |
| ProjectApi.ProjectStore.GetProject | src/api/project.ts:122-126 | `null` iff the id is absent; otherwise the id with its stored data |
| ProjectApi.ProjectStore.DeleteProject | src/api/project.ts:128-130 | exactly that id is removed |
| UserApi.AsDoc | src/api/user.ts:59 | the stored document has exactly the object's keys, each with the object's value |
| UserApi.StampedFields | src/api/user.ts:39-42 | a stamped patch has `updatedAt = now` whatever it carried; any other key is present iff the patch gives it a value other than `undefined` or `NaN`, and then holds that value cleaned |
| UserApi.UserStore.GetUserDoc | src/api/user.ts:26-31 | `null` without a document; otherwise the stored fields plus `uid`, where a stored `uid` wins |
| UserApi.UserStore.UpsertUserProfile | src/api/user.ts:33-60 | a new user gets only the cleaned base record; an existing user gets the cleaned, stamped data merged over the stored fields |
| UserApi.BaseRecordShape | src/api/user.ts:47-55 | the base record has the seven fields uid, email, displayName, photoURL, plan, createdAt and updatedAt, once each |
| UserApi.NewUserFields | src/api/user.ts:46-56 | a new user's document holds no field but the base fields |
| UserApi.NewUserStamps | src/api/user.ts:46-56 | a new user's document has the uid and `createdAt = updatedAt = now` |
| UserApi.NewUserDefaults | src/api/user.ts:49-52 | email and displayName become `""`, photoURL `null` and plan `"free"` when the data leaves them out or gives `undefined` or `null`. A `NaN` value drops the field. Any other supplied value is stored, cleaned. |
| UserApi.RowDocId | src/api/user.ts:95-98 | a preset row reads the document id as `id` unless its stored fields carry an `id`, and reads every stored field as stored |
| UserApi.ExistingUserMerge | src/api/user.ts:39-59 | after an upsert, `updatedAt = now`; a field the data sets takes its cleaned value; every other field keeps its stored value |
| UserApi.NormalizeKey | src/api/user.ts:63-64 | a key is kept iff it has non-white-space content, and it is then stored trimmed |
| UserApi.UserStore.SetOpenRouterKey | src/api/user.ts:62-70 | merges the normalised key (or `null`) and the timestamp into the user's document, creating it if needed |
| UserApi.ReadKey | src/api/user.ts:75-79 | present iff the document exists and holds a string key with non-white-space content, which is returned as stored |
| UserApi.UserStore.GetOpenRouterKey | src/api/user.ts:72-80 | returns the stored key read as above; a returned key is never blank |
| UserApi.KeyRoundTrip | src/api/user.ts:62-80 | reading the key after setting it gives the trimmed key, or nothing for a blank one |
| UserApi.UserStore.SetUserTheme | src/api/user.ts:125-128 | merges the theme into the user's document, creating it if needed |
| UserApi.UserStore.ListPresets | src/api/user.ts:82-99 | exactly the user's presets, restricted to the category only when a non-empty one is given, each once, newest `updatedAt` first |
| UserApi.UserStore.CreatePreset | src/api/user.ts:101-112 | stores the payload stamped with `createdAt` and `updatedAt = now` and cleaned, under the new id |
| UserApi.CreatedPresetTimestamps | src/api/user.ts:105-111 | a created preset has `createdAt = updatedAt = now`, whatever the payload carried |
| UserApi.UserStore.UpdatePreset | src/api/user.ts:114-122 | an existing preset gets the cleaned patch with `updatedAt = now`; a missing one makes the update fail with nothing changed |
| GenerationApi.CapOf | src/api/generation.ts:23 | the cap is 200 unless options give one |
| GenerationApi.RowOf | src/api/generation.ts:35-42 | the row has the doc id and the project id; missing prompt, mode, thumbUrl and createdAt become `""`, `"t2i"`, `""` and now; values present are kept |
| GenerationApi.ListGenerationsByProject | src/api/generation.ts:19-46 | at most `cap` rows, the first `cap` of the query in its order, each built by the row defaults and carrying the project id; a non-positive cap is rejected |
| TextSanitizer.ReplaceAll | src/components/TextSanitizer.ts:5-8 | a global replace leaves no occurrence when the replacement lacks the character, and introduces no other character |
| TextSanitizer.ReplaceAllAppend | src/components/TextSanitizer.ts:5-8 | a global replace works piecewise over a concatenation |
| TextSanitizer.Sanitize | src/components/TextSanitizer.ts:2-9 | empty input gives `""`, and the output holds no line feed and no carriage return |
| TextSanitizer.PassesOnChar | src/components/TextSanitizer.ts:4-8 | on one character, the four passes escape a backslash as two, a quote as backslash-quote, a line feed as a space, drop a carriage return, and keep anything else |
| TextSanitizer.SanitizeIsPerChar | src/components/TextSanitizer.ts:4-8 | the chain of replacements equals escaping each character on its own, so the backslash added before a quote is not doubled |
| TextSanitizer.PlainTextUnchanged | src/components/TextSanitizer.ts:4-8 | text without the four special characters comes back unchanged |
| AuthErrors.FriendlyAuthError | src/lib/authErrors.ts:1-23 | never empty; "Invalid credentials." iff the code is user-not-found, invalid-credential or wrong-password; the generic message iff the code is missing or unlisted; weak-password gives the 6-character hint |
| ThemeProvider.Flip | src/providers/ThemeProvider.tsx:75 | toggling always changes the theme |
| ThemeProvider.ReadInitialTheme | src/providers/ThemeProvider.tsx:36-44 | dark without a window; a stored "light" or "dark" wins; otherwise dark iff the dark preference matches, and light when it is unavailable |
| ThemeProvider.ThemeState.Mount | src/providers/ThemeProvider.tsx:51-55 | starts from the initial theme and applies it, so class and storage agree with it |
| ThemeProvider.ThemeState.ApplyTheme | src/providers/ThemeProvider.tsx:26-34 | the dark class is present iff the theme is dark, and the theme is stored |
| ThemeProvider.ThemeState.SetTheme | src/providers/ThemeProvider.tsx:53-74 | sets the theme; a change re-applies it; setting the same theme leaves class and storage alone |
| ThemeProvider.ThemeState.Toggle | src/providers/ThemeProvider.tsx:53-75 | flips the theme and applies the flipped one |
| ThemeProvider.ThemeState.OnPreferenceChange | src/providers/ThemeProvider.tsx:57-69 | with nothing stored, the theme follows the preference and is applied; with a stored value nothing changes |
| ThemeProvider.PreferenceIgnoredAfterMount | src/providers/ThemeProvider.tsx:53-69 | as written, a preference change after mounting never changes the theme |
| ThemeProvider.FollowingThemeState.Mount | src/providers/ThemeProvider.tsx:51-55 | corrected: mounting shows the initial theme without storing it |
| ThemeProvider.FollowingThemeState.SetTheme | src/providers/ThemeProvider.tsx:74 | corrected: an explicit choice sets and stores the theme |
| ThemeProvider.FollowingThemeState.Toggle | src/providers/ThemeProvider.tsx:75 | corrected: toggling flips, shows and stores the theme |
| ThemeProvider.FollowingThemeState.OnPreferenceChange | src/providers/ThemeProvider.tsx:57-69 | corrected: with nothing stored, the theme follows the preference and storage stays empty |
| ThemeProvider.PreferenceFollowedAfterMount | src/providers/ThemeProvider.tsx:57-69 | corrected: without a stored choice, every preference change is followed |
| ThemeProvider.ChoiceSurvivesPreferenceChange | src/providers/ThemeProvider.tsx:57-75 | corrected: once a theme is chosen, preference changes leave it alone |
| Navbar.IsActive | src/components/Navbar.tsx:39-40 | "/" is active only on "/"; any other link is active iff the path starts with it |
| Navbar.IsActivePrefixQuirk | src/components/Navbar.tsx:40 | the plain prefix test also activates "/generations" on "/generationsX" |
| Navbar.FirstChars | src/components/Navbar.tsx:50-51 | exactly one character per non-empty word, in order: the `i`-th character is the first character of the `i`-th non-empty word |
| Navbar.Take | src/components/Navbar.tsx:52 | the prefix of exactly `min(n, length)` characters |
| Navbar.InitialsOf | src/components/Navbar.tsx:49-53 | as many characters as non-empty words, up to two; the `i`-th is the upper-cased first character of the `i`-th non-empty space-separated word |
| Navbar.TwoWordInitials | src/components/Navbar.tsx:49-53 | two non-empty words without spaces, joined by one space, give their two first characters, upper-cased |
| Navbar.InitialsExample | src/components/Navbar.tsx:49-53 | "Ada Lovelace" shows "AL" |
| Navbar.InitialsOfEmpty | src/components/Navbar.tsx:49-51 | an empty name has no initials |
| Navbar.InitialsAsWritten | src/components/Navbar.tsx:48-53 | as written: at most two characters, the initials of the display name when it is non-empty |
| Navbar.NoNameGivesN | src/components/Navbar.tsx:48-53 | as written, a missing or empty display name shows "N" |
| Navbar.Initials | src/components/Navbar.tsx:48-53 | corrected: one or two characters; "NB" without a display name; otherwise the name's initials when it has any |
| Navbar.InitialsAgreeOnNamedUsers | src/components/Navbar.tsx:48-53 | for a name with initials, the corrected and as-written fallbacks agree |
| Navbar.AvatarTarget | src/components/Navbar.tsx:42-46 | "/signin" iff nobody is signed in, "/settings" iff someone is |
| Navbar.NavMenu.constructor | src/components/Navbar.tsx:15 | the menu starts closed |
| Navbar.NavMenu.OnKey | src/components/Navbar.tsx:21-23 | Escape closes the menu; other keys change nothing |
| Navbar.NavMenu.OnHamburger | src/components/Navbar.tsx:136 | the hamburger button negates the flag |
| Navbar.NavMenu.OnLinkClick | src/components/Navbar.tsx:185 | a menu link closes the menu |
| Navbar.NavMenu.OnOverlayClick | src/components/Navbar.tsx:224 | the overlay closes the menu |
| Navbar.NavMenu.OnAvatarClick | src/components/Navbar.tsx:42-46 | routes by sign-in state and always closes the menu |

## Left out

- Storage and the DOM are state fields or parameters; their I/O is not modelled. This covers `localStorage`, the JSON encoding of the gallery blob, the document class list and `document.body.style.overflow` (src/components/Navbar.tsx:28-30). Reading a blob that does not parse gives `[]`, which is the constructor's argument.
- `cryptoRandomId`, `Date.now()`, the ids the store assigns and `serverTimestamp()` are parameters, not modelled values.
- No query engine is modelled. The outcomes of the primary project query and of the generation query are inputs. The fallback and preset queries are modelled as enumerating the matching documents in an arbitrary order.
- `setDoc(..., { merge: true })` is modelled as overwriting top-level fields. A nested map merged field by field is not modelled.
- Numbers are integers, with `NaN` kept apart. Fractional numbers, infinities and `-0` are not modelled, so `String(n)` is exact only for integers.
- `ToUpperAscii` handles ASCII only, because Unicode case mapping is not modelled.
- A `char` is a Unicode scalar value, not a UTF-16 code unit. For text outside the Basic Multilingual Plane, the model differs from JavaScript's `length`, indexing and `slice`. For example, for a display name starting with an emoji, `s[0]` at src/components/Navbar.tsx:51 is a lone surrogate and `slice(0, 2)` counts code units. The model instead takes the whole emoji as one character.
- Console output (`console.warn`), routing side effects (the route is returned instead) and the asynchronous timing of requests are not modelled. The races between overlapping refreshes are concurrency.
- React scheduling is simplified: each effect runs right after the state change that triggers it. The theme context's default value and the removal of listeners on unmount are not modelled.
- The header's other handlers, its `setQuery` and `setDateSort` React state, only set one variable each. They are not modelled apart from the store's setters.
- ProjectApi.ProjectDoc: a typed record without an `id` field. A stored `id` field overriding the document id in `{ id: d.id, ...d.data() }` is not modelled for projects. It is modelled for users (`GetUserDoc`) and for preset rows (`UserApi.RowDocId`). `ListPresets` itself returns the id and the stored fields apart, as a `PresetRow`.
- UserApi.UserStore.ListPresets: presets whose `updatedAt` is not a number are ordered as 0. The store would instead exclude them or order them by value type.
- GenerationApi.ListGenerationsByProject: the input is taken to be already in the query's order, and nothing checks that the order is `createdAt` descending. A missing `createdAt` gets the default even though such a document would not match that ordering.
- GenerationApi.ListGenerationsByProject: a non-positive cap is modelled as a rejected query. A fractional cap is not modelled.
- ProjectApi.ProjectStore.ListProjectsByOwner: `archived` is always passed explicitly. Its default of `false` (src/api/project.ts:57) is not modelled.
- ProjectApi.ProjectStore.CreateProject: `newId` is not required to be fresh. That the store's ids do not collide is left to the store, and an existing id is overwritten.
- UserApi.UserStore.CreatePreset: `newId` is not required to be fresh. That the store's ids do not collide is left to the store, and an existing id is overwritten.
- LocalImages.GalleryStore.SaveGeneration: `freshId` is not required to differ from the stored ids. `cryptoRandomId` is random, and `SaveThenList` states the listing both with and without a repeated id.

## Findings

| source | as written | input that shows it | evidently intended | confidence | as-written member | corrected member |
|---|---|---|---|---|---|---|
| src/components/Navbar.tsx:48-53 | the fallback "NB" goes through the same split / first-character / slice pipeline as a real name, which leaves "N" | a signed-in user with no display name, or an empty one | the avatar shows "NB" when there is no name | high; not executed | Navbar.NoNameGivesN | Navbar.Initials |
| src/providers/ThemeProvider.tsx:53-65 | the effect that applies the theme on mount also stores it, so the listener's "nothing stored" test is false from then on and the listener never changes the theme | a first visit with nothing stored, then the system switches to dark | the page follows the system preference until the user picks a theme | medium; not executed | ThemeProvider.PreferenceIgnoredAfterMount | ThemeProvider.PreferenceFollowedAfterMount |
