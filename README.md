# Radio checkout ledger — a Dafny model

The application keeps an inventory of two-way radios and lends them to
users. Three HTTP routes store their data in JSON files (through lowdb):

- the radio inventory (`/api/admin/radios`). Its PUT also reports every
  check-out and check-in to the checkout log;
- the append-only checkout log (`/api/admin/checkout-log`);
- the user registry with its profile photo files (`/api/admin/users`). A
  separate route (`/api/admin/init-user-database`) rebuilds the registry
  from a folder of images.

A client library (`lib/api.ts`) and a set of React components drive these
routes. The components cover:

- the radio management page and its cards;
- the per-user checkout panel and the check-out form;
- the history table;
- the profile editor;
- the user card;
- the two user pickers.

This project models all of the above in Dafny:

- **Records** become datatypes (`Types`). JSON's "missing", "null" and
  "value" become `Option` and `Field` (`Json`). JavaScript truthiness is
  written out as `Truthy`, `TruthyField` and `IsTrue`.
- **Each route** becomes a class whose `data` field is lowdb's in-memory
  copy (`None` until the file is read). Its handlers are methods. Their
  postconditions give the reply (status and message) and the new store on
  every branch of the source, the error branches included.
- **The client helpers** are methods of `Api.Client`. They call the route
  models directly, in place of `fetch`.
- **Each component** becomes a class holding its React state. Each
  handler is a method whose postcondition states the new state, and the
  request body it returns when the handler sends one.
- **Pure computations** are functions with lemmas about them. These
  cover:
  - ID ordering and `parseInt`;
  - comment text and query strings;
  - file names derived from user names;
  - initials;
  - paging;
  - the check-out/check-in transition that PUT logs.

The central property is the one that ties the inventory to the ledger.
`RadiosRoute.RadioInventory.Put` appends to the log exactly
`LedgerAfter(…, Transition(stored user, requested user), …)`:

- `RadiosRoute.TransitionCases` gives both directions of "check-out
  logged iff" and "check-in logged iff";
- `RadiosRoute.LoggedEventMatchesState` shows that the event agrees with
  the state PUT leaves;
- `RadiosRoute.RepeatedPutLogsNothing` shows that a repeated PUT logs
  nothing;
- `RadiosRoute.Valid` (unique IDs and exclusive damage flags) holds
  across POST, PUT and DELETE.

Where the client does not drive the routes the way the
code evidently intends, the as-written behaviour is modelled and linked to
a corrected one (see "## Findings").

## Model

| member | source | states |
|---|---|---|
| Types.OperationNamed | types/types.ts:22-27 | a recognised operation string is exactly the name of the operation returned |
| Types.OperationNameRoundTrip | types/types.ts:22-27 | naming an operation and reading the name back gives the operation |
| Json.OrEmpty | app/api/admin/users/route.ts:89-90 | `s \|\| ''`: the string when truthy, `''` otherwise |
| CheckoutLogRoute.ForRadioExactly | app/api/admin/checkout-log/route.ts:29 | an entry is in the per-radio listing iff it is stored and about that radio |
| CheckoutLogRoute.ForRadioAfterAppend | app/api/admin/checkout-log/route.ts:29 | appending an entry extends its own radio's listing by it and leaves every other radio's listing unchanged |
| CheckoutLogRoute.ForRadio | app/api/admin/checkout-log/route.ts:29 | the entries with the radio ID, in stored order (definition; characterised by ForRadioExactly) |
| CheckoutLogRoute.Acceptable | app/api/admin/checkout-log/route.ts:38-40 | POST's validation: all three properties truthy (definition) |
| CheckoutLogRoute.CheckoutLogStore.constructor | app/api/admin/checkout-log/route.ts:10-12 | the store starts with the given file contents |
| CheckoutLogRoute.CheckoutLogStore.Init | app/api/admin/checkout-log/route.ts:15-19 | a missing store becomes the empty list, an existing one is kept |
| CheckoutLogRoute.CheckoutLogStore.Get | app/api/admin/checkout-log/route.ts:22-32 | a truthy `radioID` gives that radio's entries in stored order, otherwise every entry; `userID` is ignored |
| CheckoutLogRoute.CheckoutLogStore.Post | app/api/admin/checkout-log/route.ts:35-53 | a body missing any of the three fields gives 400 with no change; otherwise exactly one entry stamped `now` is appended and 200 |
| RadiosRoute.Transition | app/api/admin/radios/route.ts:101-110 | the event PUT reports: a check-out for a truthy requested user that differs from the stored one, else a check-in for the stored user when the request sets null and the stored user is not null (definition; characterised both ways by TransitionCases) |
| RadiosRoute.LedgerAfter | app/api/admin/radios/route.ts:22-42 | the log after PUT reports an event: one entry appended exactly when the reported user id is truthy, as the log route's POST accepts it (definition) |
| RadiosRoute.UpdatedRadio | app/api/admin/radios/route.ts:113-124 | the radio after PUT's field updates, in the route's order (definition; its properties are UpdatedFlagsExclusive, UpdatedKeepsUnsentFields and UpdateDoesNotPairCheckout) |
| RadiosRoute.NewRadio | app/api/admin/radios/route.ts:67-75 | the radio POST pushes: empty comments, both flags false, user and date null (definition; see NewRadioAvailable) |
| RadiosRoute.FullBody | lib/api.ts:435 | `JSON.stringify(radio)` as a request body: every property of the radio, absent ones left out (definition; used by updateRadio and the inventory reset) |
| RadiosRoute.Valid | app/api/admin/radios/route.ts:60-64 | the inventory invariant: distinct IDs, which POST's duplicate check keeps, and no radio with both damage flags set (definition; kept by AddKeepsValid, UpdateKeepsValid and RemoveKeepsValid) |
| RadiosRoute.ReassignLogsOnlyCheckOut | app/api/admin/radios/route.ts:101-110 | handing a radio from one user straight to another logs a check-out for the new user and no check-in |
| RadiosRoute.TransitionCases | app/api/admin/radios/route.ts:101-110 | both directions: check-out logged iff the requested user is truthy and differs; check-in logged iff the request sets null on a non-null stored user; each with the user id it reports |
| RadiosRoute.CheckInFromAbsentLogsNothing | app/api/admin/radios/route.ts:101-110 | clearing a radio whose stored user is absent reports a check-in with no user id, which the log refuses, so the log is unchanged |
| RadiosRoute.LoggedEventMatchesState | app/api/admin/radios/route.ts:101-124 | a logged check-out leaves a truthy user on the radio, a logged check-in leaves null |
| RadiosRoute.RepeatedPutLogsNothing | app/api/admin/radios/route.ts:101-124 | PUT is idempotent on the radio, and a repeated PUT logs nothing |
| RadiosRoute.UpdatedFlagsExclusive | app/api/admin/radios/route.ts:113-122 | setting Nonfunctional clears PartiallyDamaged; no PUT makes both flags true on a radio that did not have both |
| RadiosRoute.UpdatedKeepsUnsentFields | app/api/admin/radios/route.ts:113-124 | ID and Name never change; each property left out of the body keeps its value; user and date are taken from the body when sent |
| RadiosRoute.UpdateDoesNotPairCheckout | app/api/admin/radios/route.ts:123-124 | user and date are set independently: clearing only the user leaves the date |
| RadiosRoute.AddKeepsValid | app/api/admin/radios/route.ts:60-75 | appending a new radio whose ID is absent keeps unique IDs and exclusive flags |
| RadiosRoute.UpdateKeepsValid | app/api/admin/radios/route.ts:113-124 | updating one radio keeps the invariant |
| RadiosRoute.RemoveKeepsValid | app/api/admin/radios/route.ts:144-149 | removing one radio keeps the invariant and leaves none with its ID |
| RadiosRoute.RemoveUniqueLeavesNone | app/api/admin/radios/route.ts:144-149 | with unique IDs, after the splice no radio has the removed ID |
| RadiosRoute.NewRadioAvailable | app/api/admin/radios/route.ts:67-75 | a new radio is undamaged, not checked out, and has its user and date paired |
| RadiosRoute.RadioInventory.constructor | app/api/admin/radios/route.ts:10-12 | the store starts with the given file contents and log |
| RadiosRoute.RadioInventory.Init | app/api/admin/radios/route.ts:15-19 | a missing store becomes the empty list |
| RadiosRoute.RadioInventory.Get | app/api/admin/radios/route.ts:45-48 | the whole list, unfiltered |
| RadiosRoute.RadioInventory.Post | app/api/admin/radios/route.ts:51-80 | 400 for a falsy ID or Name before reading; 400 for a duplicate ID; otherwise the default radio is appended; the invariant is preserved |
| RadiosRoute.RadioInventory.LogCheckoutOperation | app/api/admin/radios/route.ts:22-42 | the log becomes what the log route's POST makes of the report |
| RadiosRoute.RadioInventory.LogTransition | app/api/admin/radios/route.ts:101-110 | the log grows by exactly the event `Transition` gives for the stored and requested users (see `TransitionCases`) |
| RadiosRoute.RadioInventory.ApplyBody | app/api/admin/radios/route.ts:113-124 | the field-by-field updates give exactly `UpdatedRadio`, whose properties `UpdatedKeepsUnsentFields` and `UpdatedFlagsExclusive` state |
| RadiosRoute.RadioInventory.Put | app/api/admin/radios/route.ts:83-131 | 400 for a falsy ID and 404 for an unknown one, both without logging; otherwise the transition is logged and the radio becomes `UpdatedRadio`; the invariant is preserved |
| RadiosRoute.RadioInventory.Delete | app/api/admin/radios/route.ts:134-153 | 400 / 404 / removal of the first radio with the ID; the invariant is preserved and no radio with the ID is left |
| UsersRoute.DropWhitespaceShape | app/api/admin/users/route.ts:38 | dropping leading white space leaves a suffix of the input that does not start with white space |
| UsersRoute.CollapseWhitespaceShape | app/api/admin/users/route.ts:38 | after `replace(/\s+/g, '_')` no white space remains, and a string without white space is unchanged |
| UsersRoute.CollapseGap | app/api/admin/users/route.ts:38 | a run of white space of any length between two words becomes a single `_` |
| UsersRoute.DerivedFileNameShape | app/api/admin/users/route.ts:38-39 | the file name ends in `.jpg` and holds no white space; for a name without white space it is the lower-cased name plus `.jpg` |
| UsersRoute.SameNameSameFile | app/api/admin/users/route.ts:38 | names equal but for case share a photo file |
| UsersRoute.DistinctNamesShareFile | app/api/admin/users/route.ts:38 | for any words `a` and `b` without white space, `a b` and `a  b` differ even ignoring case (so the duplicate check lets both in) yet map to the same file |
| UsersRoute.CollapseWhitespace | app/api/admin/users/route.ts:38 | `replace(/\s+/g, '_')` (definition; characterised by CollapseWhitespaceShape and CollapseGap) |
| UsersRoute.DerivedFileName | app/api/admin/users/route.ts:38-39 | the photo file of a name: lower-cased, white-space runs as `_`, `.jpg` appended (definition; characterised by DerivedFileNameShape) |
| UsersRoute.PhotoUrl | app/api/admin/users/route.ts:44 | the served URL `/images/<file>` (definition; read back by BasenameOfPhotoUrl) |
| UsersRoute.Basename | app/api/admin/users/route.ts:114 | `path.basename`: a suffix of the path with no `/` |
| UsersRoute.BasenameOfPhotoUrl | app/api/admin/users/route.ts:44 | the basename of `/images/<f>` is `f` |
| UsersRoute.Extname | app/api/admin/users/route.ts:198 | `path.extname`: empty, or a proper suffix starting with `.` |
| UsersRoute.ArchiveTarget | app/api/admin/users/route.ts:194-201 | the archive name: the file's own name, or `<base>-<timestamp><ext>` when the archive holds it (definition; see ArchiveTargetAvoidsSameName) |
| UsersRoute.AddOutcome | app/api/admin/users/route.ts:88-90 | add's photo: saved under the derived name when one is sent and the write succeeds, else no photo (definition) |
| UsersRoute.SaveStep | app/api/admin/users/route.ts:111-117 | update's save step: a JPEG data URL is written over the existing file, or the derived one, falling back to the old URL (definition) |
| UsersRoute.RenameStep | app/api/admin/users/route.ts:119-125 | update's rename step: on a name change with a photo, the old derived file, when present and the rename succeeds, becomes the new one (definition) |
| UsersRoute.UpdateOutcome | app/api/admin/users/route.ts:111-129 | both steps, then the fallback to the existing URL (definition; see UpdateOutcomeProperties and UpdateOutcomeRename) |
| UsersRoute.ArchiveTargetAvoidsSameName | app/api/admin/users/route.ts:194-201 | an archived name is never reused, a new name is kept, and the extension is kept either way |
| UsersRoute.UpdateOutcomeProperties | app/api/admin/users/route.ts:111-129 | update removes no file unless the name changes; a user with a photo keeps one; a request with neither photo nor new name changes nothing |
| UsersRoute.UpdateOutcomeRename | app/api/admin/users/route.ts:119-125 | a successful rename points the user at the renamed file, which exists, and the old file is gone |
| UsersRoute.AddKeepsNamesDistinct | app/api/admin/users/route.ts:83-99 | adding a name not equal but for case to any stored name keeps the names distinct |
| UsersRoute.UpdateMayDuplicateName | app/api/admin/users/route.ts:106-130 | update does not re-check names: a rename can make two names equal but for case |
| UsersRoute.UserRegistry.constructor | app/api/admin/users/route.ts:20-22 | the registry starts with the given file and photo folders |
| UsersRoute.UserRegistry.Init | app/api/admin/users/route.ts:25-29 | a missing store becomes the empty list |
| UsersRoute.UserRegistry.SavePhoto | app/api/admin/users/route.ts:32-49 | on success the file named by the overwrite name, or else the derived name, exists and its URL is returned; on failure null and no change |
| UsersRoute.UserRegistry.RenamePhoto | app/api/admin/users/route.ts:52-68 | when the old derived file exists and the rename succeeds, it becomes the new derived file; otherwise null and no change |
| UsersRoute.UserRegistry.Add | app/api/admin/users/route.ts:81-103 | a duplicate name gives 400 with no change; otherwise one user is appended (201) with the photo outcome, and names stay distinct |
| UsersRoute.UserRegistry.UpdatePhoto | app/api/admin/users/route.ts:111-125 | the URL and photo files after the save step and the rename step are exactly the update outcome |
| UsersRoute.UserRegistry.Update | app/api/admin/users/route.ts:105-134 | an unknown id gives 404 with no change; otherwise the user at that index gets the new name, photo outcome and time (200) |
| UsersRoute.UserRegistry.Post | app/api/admin/users/route.ts:71-138 | a falsy name gives 400 before reading; otherwise the add or update path on the store as read, as above |
| UsersRoute.UserRegistry.Get | app/api/admin/users/route.ts:141-165 | a truthy id gives that user or 404; otherwise every user |
| UsersRoute.UserRegistry.ArchivePhoto | app/api/admin/users/route.ts:183-207 | an existing photo file moves to its archive target; otherwise nothing changes |
| UsersRoute.UserRegistry.Delete | app/api/admin/users/route.ts:168-216 | 400 / 404 / the photo archived and the user at the id's index removed |
| InitUserDatabase.ImageExtLength | app/api/admin/init-user-database/route.ts:38 | the image extension found is 0, 4 or 5 characters and fits in the name |
| InitUserDatabase.IsImageFile | app/api/admin/init-user-database/route.ts:38 | the listing filter: the name ends with an image extension, in any case (definition) |
| InitUserDatabase.StripExtension | app/api/admin/init-user-database/route.ts:40 | the name without its image extension |
| InitUserDatabase.ReplaceFirstUnderscore | app/api/admin/init-user-database/route.ts:40 | only the first `_` becomes a space; everything else is unchanged |
| InitUserDatabase.Capitalize | app/api/admin/init-user-database/route.ts:43 | the first character is upper-cased and the rest kept |
| InitUserDatabase.CapitalizeWords | app/api/admin/init-user-database/route.ts:41-44 | split at spaces, each word capitalised, joined with spaces (definition; see CapitalizeTwoWords) |
| InitUserDatabase.DisplayName | app/api/admin/init-user-database/route.ts:40-44 | the name built from a file name (definition; characterised by DisplayNameUpToCase and DisplayNameOfUnderscoredPng) |
| InitUserDatabase.LowerCapitalize | app/api/admin/init-user-database/route.ts:43 | capitalising changes nothing up to case |
| InitUserDatabase.LowerJoinCapitalized | app/api/admin/init-user-database/route.ts:41-44 | capitalising each word and joining changes nothing up to case |
| InitUserDatabase.DisplayNameUpToCase | app/api/admin/init-user-database/route.ts:40-44 | the display name has the length of the stripped file name and equals it, with the first `_` made a space, up to case |
| InitUserDatabase.StripPng | app/api/admin/init-user-database/route.ts:40 | a `.png` name loses exactly its extension |
| InitUserDatabase.FirstUnderscoreOnly | app/api/admin/init-user-database/route.ts:40 | in `a_b` with no `_` in `a`, the result is `a b`: later `_` of `b` are kept |
| InitUserDatabase.CapitalizeTwoWords | app/api/admin/init-user-database/route.ts:41-44 | two words are each capitalised and joined with one space |
| InitUserDatabase.DisplayNameOfUnderscoredPng | app/api/admin/init-user-database/route.ts:40-44 | `a_b.png` is named `Capitalize(a) + " " + Capitalize(b)`, with any further `_` of `b` kept |
| InitUserDatabase.BuildUsers | app/api/admin/init-user-database/route.ts:36-57 | one user per image file in listing order, with its id, display name, `/images/<file>` photo and time |
| InitUserDatabase.UserPerImageFile | app/api/admin/init-user-database/route.ts:38-54 | both directions: a listed file gets a user with its photo iff it is an image file |
| InitUserDatabase.BackupFileName | app/api/admin/init-user-database/route.ts:18-19 | `users-backup-…json`, with no `:` or `.` in the timestamp part |
| InitUserDatabase.ImageFolder.constructor | app/api/admin/init-user-database/route.ts:13 | the public images folder starts with the given files |
| InitUserDatabase.InitUserDatabase | app/api/admin/init-user-database/route.ts:15-63 | the store is replaced by the built users, every image file is copied to the public folder, and the backup name is returned |
| Api.LeadingLetters | lib/api.ts:516-518 | the leading run of letters, ended by a non-letter |
| Api.LetterRunUnique | lib/api.ts:516-518 | a run of letters ended by a non-letter is the leading run |
| Api.MatchId | lib/api.ts:516-518 | `/^([a-zA-Z]*)(\d+)$/`: a match splits the ID into letters and at least one digit, and any such split is the one returned |
| Api.IdParts | lib/api.ts:516-518 | the letters and the digits of a matching ID, `("", "")` otherwise |
| Api.IdPartsOf | lib/api.ts:516-518 | an ID made of a letter run and a non-empty digit run splits into exactly those two |
| Api.RadioOrder | lib/api.ts:521-528 | `sortRadios`' comparator: IDs without a model first, then models alphabetically, then indexes numerically (definition; its properties are RadioOrderLexicographic, SameModelByIndex and RadioOrderConsistent) |
| Api.RadioOrderLexicographic | lib/api.ts:521-528 | the comparator is lexicographic on (model, index value) |
| Api.SameModelByIndex | lib/api.ts:521-528 | two IDs with the same letters are ordered by the numeric value of their digits, not their text (`TR2` before `TR10`) |
| Api.RadioOrderAntisymmetric | lib/api.ts:521-528 | the comparator is antisymmetric |
| Api.RadioOrderTransitive | lib/api.ts:521-528 | the comparator is transitive |
| Api.RadioOrderConsistent | lib/api.ts:521-528 | the comparator is a total preorder, so sorting by it is well defined |
| Api.SortRadios | lib/api.ts:513-530 | a permutation of the input, sorted by the comparator |
| Api.ComposeComment | lib/api.ts:398-401 | the existing comments, a newline, then the new line; the new line alone when there were none |
| Api.ComposeKeepsHistory | lib/api.ts:398-401 | earlier comments survive as a prefix and the new line ends the text |
| Api.DamageReport | lib/api.ts:364-367 | exactly the comment after the prefix `Damage Report: `: the prefix, then the comment, and nothing else |
| Api.NonfunctionalReport | lib/api.ts:376-383 | exactly the comment after the prefix `Nonfunctional Report: `: the prefix, then the comment, and nothing else |
| Api.FirstQuestionMark | lib/api.ts:179-188 | the first `?` of a built URL is the one after the path |
| Api.TrimStart | lib/api.ts:482-490 | the URL parser's leading trim: a suffix of the text, everything dropped is a C0 control or space, and what is kept does not start with one |
| Api.TrimEnd | lib/api.ts:482-490 | the URL parser's trailing trim: a prefix of the text, everything dropped is a C0 control or space, and what is kept does not end with one |
| Api.StripTabs | lib/api.ts:482-490 | the URL parser's removal of every ASCII tab and newline (definition; characterised by StripTabsMember and StripTabsAppend) |
| Api.StripTabsMember | lib/api.ts:482-490 | a character survives exactly when it was there and is not a tab or newline |
| Api.StripTabsAppend | lib/api.ts:482-490 | the removal works piece by piece, keeping the order |
| Api.TrimStartAppend | lib/api.ts:482-490 | the leading trim stops at the first character that is not a C0 control or space |
| Api.TrimEndAppend | lib/api.ts:482-490 | the trailing trim stops at the last character that is not a C0 control or space |
| Api.ParserInput | lib/api.ts:482-490 | what the URL parser behind `fetch` and `new URL` works on: trimmed at both ends, then without tabs and newlines (definition) |
| Api.ReceivedValue | lib/api.ts:482-490 | what the parser keeps of a value that ends the URL (definition; see ReceivedAfter) |
| Api.ReceivedAfter | lib/api.ts:482-490 | a prefix not ending in a C0 control or space is kept, less its tabs and newlines, before what is kept of the rest |
| Api.CleanParamUrl | lib/api.ts:482-490 | the parser's input for `path?key=value`: the cleaned path, the key, and what is kept of the value |
| Api.CleanUrl | lib/api.ts:482-490 | the parser's input for a URL whose middle holds no tab or newline and neither starts nor ends with a C0 control or space |
| Api.QueryOfUrl | app/api/admin/checkout-log/route.ts:24-25 | the query string of `path?key=value` is `key=` and what the parser keeps of the value, up to its fragment |
| Api.RawQuery | app/api/admin/checkout-log/route.ts:24-25 | the query of a cleaned URL: what follows the first `?` of the fragment-free URL (definition) |
| Api.WithoutFragment | lib/api.ts:179-188 | the URL is cut before its first `#`: the result is a `#`-free prefix, and a URL without `#` is kept whole |
| Api.QueryString | app/api/admin/checkout-log/route.ts:24-25 | the query string `new URL(...)` gives: the raw query of the parser's cleaned input (definition, used by `SearchParam`) |
| Api.FormDecode | app/api/admin/checkout-log/route.ts:24-25 | form decoding keeps the length and turns each `+` into a space and nothing else |
| Api.PairName | app/api/admin/checkout-log/route.ts:24-25 | the name of a pair, up to its first `=` (definition) |
| Api.PairValue | app/api/admin/checkout-log/route.ts:24-25 | the value of a pair, after its first `=`, empty without one (definition) |
| Api.FirstValue | app/api/admin/checkout-log/route.ts:24-25 | no value exactly when no pair's decoded name is the key |
| Api.SearchParam | app/api/admin/checkout-log/route.ts:24-25 | `searchParams.get(key)`: the decoded value of the first `&`-separated pair named `key` in the cleaned URL's query (definition; characterised by ParamRoundTrip) |
| Api.LogQueryOf | app/api/admin/checkout-log/route.ts:24-25 | the log route's query: exactly its `radioID` and its `userID` parameters |
| Api.ReadBack | lib/api.ts:481-490 | what an unencoded value ending the URL reads back as after `key=`: what the parser keeps of it, before any `#` or `&`, with `+` decoded (definition; characterised by ReadBackPlain, ReadBackTrimsEnd, ReadBackDropsTab and the two ReadBackStops lemmas) |
| Api.ReadBackPlain | lib/api.ts:481-490 | a value without `&`, `#`, `+`, tabs or newlines, and not ending in a C0 control or space, reads back unchanged |
| Api.ReadBackTrimsEnd | lib/api.ts:481-490 | a trailing C0 control or space is trimmed: `12 ` reads back as `12` |
| Api.ReadBackDropsTab | lib/api.ts:481-490 | a tab or newline inside the value is dropped: `A<tab>B` reads back as `AB` |
| Api.SinglePair | lib/api.ts:481-490 | the value, as the parser keeps it and before any `#`, holds no `&` (definition) |
| Api.ReadBackStopsAtAmpersand | lib/api.ts:481-490 | a value is cut at its first `&`: `a&b` reads back as `a` without its tabs and newlines, decoded |
| Api.ReadBackStopsAtHash | lib/api.ts:481-490 | a value is cut at its first `#`: `a#b` reads back as `a` without its tabs and newlines, decoded |
| Api.ParamRoundTrip | lib/api.ts:179-188 | a `key=value` parameter pasted unencoded after a path reads back through `new URL` and `searchParams.get` as `ReadBack(value)`; another key reads back as nothing when the value brings in no further pair |
| Api.QueryRoundTrip | lib/api.ts:179-188 | the log route's query of a built URL reads the parameter back as `ReadBack` of its value, and the other key as nothing unless the value brings in a further pair |
| Api.LogUrlRoundTrip | lib/api.ts:481-490 | the same for the checkout-log URL `getLogEntries` builds on a base URL without `?` or `#` |
| Api.QuerySuffix | lib/api.ts:482-488 | the query suffix `?radioID=<id>` or `?userID=<id>`, the id unencoded (definition, from `ParamKey` and the id) |
| Api.ParamKey | lib/api.ts:482-488 | the parameter name, `radioID` or `userID` (definition) |
| Api.ParamValue | lib/api.ts:482-488 | the id the parameter carries (definition) |
| Api.SuffixRoundTrip | lib/api.ts:482-488 | `ParamRoundTrip` for a suffix built as `QuerySuffix` builds it |
| Api.LogUrl | lib/api.ts:481-488 | the checkout-log URL with its query suffix (definition) |
| Api.UserUrl | lib/api.ts:53 | the URL `getUserById` fetches, the id unencoded (definition) |
| Api.UserUrlRoundTrip | app/api/admin/users/route.ts:143-144 | the users route reads the id of that URL back as `ReadBack(userID)` |
| Api.CheckBodiesLackName | lib/api.ts:291-295 | the check-out and check-in bodies carry no Name |
| Api.CheckOutBody | lib/api.ts:291-295 | the body `checkOutRadio` sends: the ID, the user and the date, and no Name (definition) |
| Api.CheckInBody | lib/api.ts:337-341 | the body `checkInRadio` sends: the ID with user and date null, and no Name (definition) |
| Api.FullPutRestores | app/api/admin/radios/route.ts:113-124 | a PUT of a radio's full body onto the stored radio gives exactly that radio |
| Api.ReplacementDropsFields | lib/api.ts:413-443 | the default radio `updateRadio` leaves differs from any radio with comments, damage or a user |
| Api.Client.constructor | lib/api.ts:7 | the client talks to the given routes |
| Api.Client.GetRadios | lib/api.ts:178-210 | for a radio ID, the first radio of the list whatever the ID; otherwise a sorted permutation of the list |
| Api.Client.FindRadio | lib/api.ts:178-210 | the first radio with the ID, or none exactly when no radio has it |
| Api.Client.AddRadio | lib/api.ts:218-240 | the success message exactly when the route POST adds the radio |
| Api.Client.DeleteRadio | lib/api.ts:247-269 | the success message exactly when the route DELETE removes the radio |
| Api.Client.CheckOutRadio | lib/api.ts:278-323 | as written: refused only when the first radio of the list is checked out; otherwise nothing changes and no log entry is added |
| Api.Client.CheckInRadio | lib/api.ts:330-355 | as written: nothing changes and no message is returned |
| Api.Client.CheckOutRadioFixed | lib/api.ts:278-323 | refused when the radio with the ID is checked out (unless forced); otherwise that radio gets the user and date and the check-out is logged |
| Api.Client.CheckInRadioFixed | lib/api.ts:330-355 | the radio with the ID has its user and date cleared and the check-in is logged |
| Api.Client.UpdateRadio | lib/api.ts:413-443 | as written: the radio is removed and re-added as a default radio at the end of the list |
| Api.Client.UpdateRadioFixed | lib/api.ts:413-443 | the radio with the ID becomes the PUT of its full body, in place, with the transition logged |
| Api.Client.AppendRadioComment | lib/api.ts:392-406 | as written: the first radio of the list is moved to the end as a default radio, so the comment is lost |
| Api.Client.AppendRadioCommentFixed | lib/api.ts:392-406 | the radio with the ID gets the composed comment; nothing else changes and nothing is logged |
| Api.Client.ReportDamage | lib/api.ts:364-367 | as written, through `appendRadioComment`: the first radio of the list is reset to a default radio and moved to the end, and the `Damage Report:` line is lost; an empty list changes nothing |
| Api.Client.ReportNonFunctional | lib/api.ts:376-383 | as written: the same outcome for the `Nonfunctional Report:` line |
| Api.Client.ReportDamageFixed | lib/api.ts:364-367 | as intended: the radio with the ID, and nothing else, gets a `Damage Report:` comment line; an unknown ID changes nothing; the log is untouched |
| Api.Client.ReportNonFunctionalFixed | lib/api.ts:376-383 | as intended: the radio with the ID gets a `Nonfunctional Report:` comment line; an unknown ID changes nothing |
| Api.Client.AddLogEntry | lib/api.ts:452-474 | an entry is appended exactly when all three fields are non-empty |
| Api.Client.GetLogEntries | lib/api.ts:481-504 | by radio: the entries of the radio ID as read back (the whole log when that is empty); by user: the whole log, because the route ignores `userID`, unless the user ID brings in a `radioID` pair through an `&` |
| Api.Client.GetUserById | lib/api.ts:51-64 | the first user whose id is the id as read back from the URL; None for 404 and for an id that reads back empty (the route then answers with the list, which has no `user`) |
| RadiosPage.LeadingRun | app/admin/radios/page.tsx:33 | the leading run satisfying the predicate, ended by a character that fails it |
| RadiosPage.ParseInt | app/admin/radios/page.tsx:33 | `parseInt` in base 10: white space skipped, an optional sign, the longest digit run; None for `NaN` (definition; see ParseDigits) |
| RadiosPage.PageOrder | app/admin/radios/page.tsx:33 | `parseInt(a.ID) - parseInt(b.ID)`, 0 for `NaN` (definition; see PageOrderConsistent) |
| RadiosPage.ParseDigits | app/admin/radios/page.tsx:33 | `parseInt` of a non-empty digit string is its value |
| RadiosPage.ParseNatToString | app/admin/radios/page.tsx:12 | `parseInt((i).toString())` is `i` |
| RadiosPage.PageOrderConsistent | app/admin/radios/page.tsx:33 | the page's comparator is a total preorder on radios whose IDs parse |
| RadiosPage.SortedIdsAscend | app/admin/radios/page.tsx:33 | in a list sorted by the page's order, numeric IDs never decrease |
| RadiosPage.SortById | app/admin/radios/page.tsx:33 | a permutation, sorted when every ID parses |
| RadiosPage.DefaultInventory | app/admin/radios/page.tsx:11-17 | 64 radios |
| RadiosPage.DefaultInventoryValid | app/admin/radios/page.tsx:11-17 | the default inventory has distinct IDs and exclusive flags |
| RadiosPage.DefaultInventorySorted | app/admin/radios/page.tsx:11-17 | radio `i` has the ID `i + 1`, so the list is sorted by the page's order |
| RadiosPage.DefaultRadio | app/admin/radios/page.tsx:11-17 | the i-th default radio: ID `i+1`, `ICOM`, empty comments, both flags false (definition) |
| RadiosPage.EditedChangesOnlyField | app/admin/radios/page.tsx:44-53 | an edit changes only its field, except that setting Nonfunctional clears PartiallyDamaged; ID and Name never change |
| RadiosPage.ApplyEditOnlyMatching | app/admin/radios/page.tsx:44-53 | every radio with the ID is edited, every other radio is kept, and the order is unchanged |
| RadiosPage.PageEditCanSetBothFlags | app/admin/radios/page.tsx:50 | the page alone can set both flags: PartiallyDamaged does not clear Nonfunctional |
| RadiosPage.Edited | app/admin/radios/page.tsx:46-51 | the radio with one field set, and PartiallyDamaged cleared when Nonfunctional is set to true (definition; see EditedChangesOnlyField) |
| RadiosPage.ApplyEdit | app/admin/radios/page.tsx:44-53 | `radios.map` editing the radios with the ID (definition; see ApplyEditOnlyMatching) |
| RadiosPage.SaveRestores | app/admin/radios/page.tsx:69-76 | saving a radio whose properties are all present makes the stored radio equal to it |
| RadiosPage.SaveBody | app/admin/radios/page.tsx:69-76 | the PUT body of `handleSaveChanges`: every property but the name (definition) |
| RadiosPage.AddBody | app/admin/radios/page.tsx:99 | the POST body of `handleAddNewRadio`: ID and Name (definition) |
| RadiosPage.LocalNewRadio | app/admin/radios/page.tsx:103 | the radio the page adds locally: empty comments, both flags false, no checkout properties (definition) |
| RadiosPage.DefaultPostsAcceptable | app/admin/radios/page.tsx:110-121 | each default radio's full POST body has a truthy ID and Name, and no two have the same ID, so each is accepted in turn |
| RadiosPage.DeleteLeavesOthers | app/admin/radios/page.tsx:92 | both directions: a radio survives the delete iff it was listed and has another ID |
| RadiosPage.Page.constructor | app/admin/radios/page.tsx:20-22 | the page starts with no radios and no changes |
| RadiosPage.Page.Load | app/admin/radios/page.tsx:25-40 | the fetched list as a permutation, sorted when every ID parses |
| RadiosPage.Page.HandleFieldChange | app/admin/radios/page.tsx:43-60 | the edit is applied to the radios with the ID, and the ID is marked changed |
| RadiosPage.Page.HandleSaveChanges | app/admin/radios/page.tsx:62-84 | an unknown ID sends nothing and changes nothing; otherwise the radio's body without its name is sent and the ID is unmarked |
| RadiosPage.Page.HandleDeleteRadio | app/admin/radios/page.tsx:86-93 | the ID is sent, and the list loses every radio with it |
| RadiosPage.Page.HandleAddNewRadio | app/admin/radios/page.tsx:95-107 | the ID and Name are sent, and the list gains the new radio, re-sorted |
| RadiosPage.Page.HandleInitializeInventory | app/admin/radios/page.tsx:110-121 | the list becomes the default inventory, and one POST of the whole default radio (`JSON.stringify(radio)`, comments and flags included) is sent per radio, in order |
| RadioCard.SelectValue | components/radio-card.tsx:171 | the empty option means null; any other value is kept and truthy |
| RadioCard.PartiallyDamagedEdits | components/radio-card.tsx:62-67 | checking clears Nonfunctional first, then PartiallyDamaged is set (definition; see PartiallyDamagedKeepsExclusive) |
| RadioCard.NonfunctionalEdits | components/radio-card.tsx:69-74 | checking clears PartiallyDamaged first, then Nonfunctional is set (definition; see NonfunctionalKeepsExclusive) |
| RadioCard.CheckOutEdits | components/radio-card.tsx:76-79 | the user, then the date of now for a truthy user and null otherwise (definition; see SelectPairsCheckout) |
| RadioCard.PartiallyDamagedKeepsExclusive | components/radio-card.tsx:62-67 | the radio gets the flag and never both flags; other radios are unchanged |
| RadioCard.NonfunctionalKeepsExclusive | components/radio-card.tsx:69-74 | the radio gets the flag and never both flags; other radios are unchanged |
| RadioCard.SelectPairsCheckout | components/radio-card.tsx:76-79 | a pick from the select leaves the chosen user and a date that is null exactly when the user is |
| RadioCard.EmptyUserIdUnpaired | components/radio-card.tsx:76-79 | called with `''` rather than null, the handler stores `''` with a null date, so the pair is broken |
| RadioCard.ResponseOf | app/api/admin/users/route.ts:150-162 | the users route never answers with a bare array |
| RadioCard.CheckedOutName | components/radio-card.tsx:57-59 | a name is shown exactly when the user is truthy and some loaded user has that id, and it is that user's name |
| RadioCard.NoUsersNoName | components/radio-card.tsx:57-59 | with no users loaded, no name is shown |
| RadioCard.Card.constructor | components/radio-card.tsx:30-31 | the card starts with no users, loading |
| RadioCard.Card.LoadUsers | components/radio-card.tsx:35-54 | as written: the list is taken only from an array answer, and loading ends |
| RadioCard.Card.FetchUsers | components/radio-card.tsx:35-54 | as written, against the users route: the list stays empty |
| RadioCard.Card.LoadUsersFixed | components/radio-card.tsx:35-54 | the list is read from the `users` property |
| RadioCard.Card.FetchUsersFixed | components/radio-card.tsx:35-54 | the list is every stored user |
| RadioCard.Card.HandlePartiallyDamagedChange | components/radio-card.tsx:62-67 | the page's list after the two edits, with the ID marked changed |
| RadioCard.Card.HandleNonfunctionalChange | components/radio-card.tsx:69-74 | the page's list after the two edits, with the ID marked changed |
| RadioCard.Card.HandleCheckOutChange | components/radio-card.tsx:76-79 | the page's list after the user and date edits |
| RadioCard.Card.HandleSelect | components/radio-card.tsx:171 | the select's value, with `''` meaning null, through the check-out handler |
| RadioCard.Card.HandleCommentsChange | components/radio-card.tsx:145 | the page's list after the comment edit |
| CheckoutDetails.DerivedListsExactly | components/user-radio-checkout-details.tsx:19-32 | both directions: a radio is listed as checked out iff its user is the selected id, and as available iff its user is falsy; no user gives empty lists |
| CheckoutDetails.DerivedListsDisjoint | components/user-radio-checkout-details.tsx:19-32 | no radio is in both lists |
| CheckoutDetails.CheckedOutList | components/user-radio-checkout-details.tsx:19-32 | with a user, the radios whose user is that user's id; none without (definition; characterised by DerivedListsExactly) |
| CheckoutDetails.AvailableList | components/user-radio-checkout-details.tsx:19-32 | with a user, the radios without a truthy user; none without (definition; characterised by DerivedListsExactly) |
| CheckoutDetails.PanelCheckOutLogsCheckOut | components/user-radio-checkout-details.tsx:86-94 | the panel's check-out body makes the radio route log a check-out for the user |
| CheckoutDetails.PanelCheckInLogsCheckIn | components/user-radio-checkout-details.tsx:43-50 | the panel's check-in body makes the radio route log a check-in for the stored user |
| CheckoutDetails.Details.constructor | components/user-radio-checkout-details.tsx:15-17 | the panel starts empty |
| CheckoutDetails.Details.Derive | components/user-radio-checkout-details.tsx:19-32 | both lists as derived from the user and the radios; the local log is kept |
| CheckoutDetails.Details.IsAlreadyCheckedOut | components/user-radio-checkout-details.tsx:109-111 | both directions: true iff some checked-out radio has the ID |
| CheckoutDetails.Details.HandleCheckIn | components/user-radio-checkout-details.tsx:35-55 | the radio leaves the checked-out list, one check-in is recorded, the clearing PUT is sent, and the cleared radio is listed as available |
| CheckoutDetails.Details.HandleCheckInAll | components/user-radio-checkout-details.tsx:57-68 | one check-in per listed radio, in order, and an empty list |
| CheckoutDetails.Details.HandleCheckout | components/user-radio-checkout-details.tsx:70-99 | with a selected user and an available radio: it moves lists, one check-out is recorded, and the PUT is sent; otherwise nothing |
| CheckoutDetails.Details.HandleCheckInThenCheckout | components/user-radio-checkout-details.tsx:101-107 | an unlisted radio changes nothing; with a user selected both bodies are sent, both events are recorded, the radio ends in the checked-out list and the available list loses it again; with none only the check-in body is sent, the radio becomes available and one check-in without a name is recorded |
| CheckoutForm.InfoOf | components/radio-checkout.tsx:45-48 | the radio's name, and its user exactly when truthy |
| CheckoutForm.Form.constructor | components/radio-checkout.tsx:18-21 | the form starts empty |
| CheckoutForm.Form.ClearForm | components/radio-checkout.tsx:96-101 | every field is cleared |
| CheckoutForm.Form.FetchRadioInfo | components/radio-checkout.tsx:42-82 | on each lookup outcome (failure, no radio, radio with or without a user) the info, holder name and error line it leaves |
| CheckoutForm.Form.SetRadioID | components/radio-checkout.tsx:30-39 | a non-empty ID is looked up; an empty one clears what was shown |
| CheckoutForm.Form.HandleCheckout | components/radio-checkout.tsx:84-94 | an empty or unknown ID sets the error; a checked-out radio is never handed on; otherwise the ID is handed on and the form cleared |
| CheckoutForm.Form.FetchRadioInfoFrom | components/radio-checkout.tsx:42-67 | against the client: the form shows the inventory's first radio whatever the ID; its holder is the name of the user `getUserById` finds for that radio's user, and no holder when the radio has no truthy user or the user is not found |
| LogView.NewestFirstConsistent | components/checkout-log.tsx:124 | newest-first is a total preorder |
| LogView.SortNewestFirst | components/checkout-log.tsx:124 | a permutation of the entries with none after an older one |
| LogView.NewestFirstDates | components/checkout-log.tsx:124 | an earlier row's date is not before a later row's |
| LogView.NewestFirst | components/checkout-log.tsx:124 | the newest-first comparator on ISO dates (definition; see NewestFirstConsistent) |
| LogView.TotalPages | components/checkout-log.tsx:145 | the page count is the least number of ten-entry pages holding every entry |
| LogView.PageSlice | components/checkout-log.tsx:140-143 | at most ten entries, the ones at the page's positions; non-empty iff the page starts inside the list |
| LogView.PageNonEmptyIffInRange | components/checkout-log.tsx:140-145 | a page holds entries iff its number is at most the page count |
| LogView.FirstPagesPrefix | components/checkout-log.tsx:140-143 | pages 1 to k together are the first 10·k entries |
| LogView.PagesCoverList | components/checkout-log.tsx:140-145 | all the pages in order are the whole list, each entry once |
| LogView.TitleAndColumnsDisagree | components/checkout-log.tsx:126-137 | with both a radio and a user, the title names the radio but the columns are the user's |
| LogView.TitleFor | components/checkout-log.tsx:126-130 | the title: the radio when there is one, else the user, else unchanged (definition) |
| LogView.ColumnsFor | components/checkout-log.tsx:137 | the by-user columns whenever a user is given, else the by-radio ones (definition) |
| LogView.View.constructor | components/checkout-log.tsx:112-116 | page 1, no logs, no error |
| LogView.View.Update | components/checkout-log.tsx:118-131 | no logs: the error line; otherwise a newest-first permutation; the title from the radio or the user |
| LogView.View.HandleNextPage | components/checkout-log.tsx:148-152 | advances exactly when not on the last page, and never past it |
| LogView.View.HandlePreviousPage | components/checkout-log.tsx:155-159 | goes back exactly when past page 1 |
| LogView.View.Render | components/checkout-log.tsx:133-198 | nothing exactly without a subject; with a subject the error line whenever an error is set, else a table of the current page with the subject's columns when that page has rows, else the empty line, which only comes past the last page |
| ProfileEditor.UserExists | components/user-profile-editor.tsx:43-52 | both directions: true iff another user has the name, ignoring case |
| ProfileEditor.DuplicateOf | components/user-profile-editor.tsx:47-49 | the duplicate test: the same name up to case, and not the edited user (definition; used by UserExists) |
| ProfileEditor.NewUserWarningMatchesRoute | components/user-profile-editor.tsx:47-49 | for a new user the warning appears iff the route's add would refuse the name |
| ProfileEditor.OwnNameIsNoDuplicate | components/user-profile-editor.tsx:47-49 | editing a user, its own name is no duplicate |
| ProfileEditor.SavePayload | components/user-profile-editor.tsx:59-69 | the name always; the photo iff non-empty; the id iff truthy |
| ProfileEditor.Editor.constructor | components/user-profile-editor.tsx:28-31 | the initial name and photo, no warning, no changes |
| ProfileEditor.Editor.Refresh | components/user-profile-editor.tsx:33-41 | the warning only for a new user with a duplicate name; changes iff the name or photo differ from the initial ones |
| ProfileEditor.Editor.SetUsername | components/user-profile-editor.tsx:112 | typing a name, then the effect |
| ProfileEditor.Editor.HandleImageCapture | components/user-profile-editor.tsx:87-89 | a null image becomes `''`, then the effect |
| ProfileEditor.Editor.HandleSave | components/user-profile-editor.tsx:54-85 | nothing is sent while the warning shows; otherwise the payload |
| UserCard.Initial | components/user-card.tsx:25 | the upper-cased first character, `''` for an empty word |
| UserCard.GetInitials | components/user-card.tsx:20-27 | `getInitials`: split at spaces, stopwords dropped, first characters upper-cased and joined (definition; characterised by InitialsBound, StopwordsOnlyNoInitials and InitialsOfKeptWords) |
| UserCard.JoinShortPieces | components/user-card.tsx:26 | joining one-character pieces gives at most one character each, none lower-case |
| UserCard.InitialsBound | components/user-card.tsx:20-27 | at most one initial per word, none a lower-case letter |
| UserCard.StopwordsOnlyNoInitials | components/user-card.tsx:21-24 | a name made only of stopwords, in any case, has no initials |
| UserCard.InitialsOfKeptWords | components/user-card.tsx:20-27 | when no kept word is empty, the initials are exactly the upper-cased first characters of the kept words, one per word, in order |
| UserCard.JoinSingles | components/user-card.tsx:26 | joining one-character pieces gives one character per piece, each piece's character at its position |
| UserCard.InitialsOnlyWithoutPhoto | components/user-card.tsx:109-114 | both directions: initials are shown iff there is no photo, and they are bounded by the word count |
| UserCard.AvatarInitials | components/user-card.tsx:109-114 | the fallback initials, only without a photo (definition; see InitialsOnlyWithoutPhoto) |
| UserSelector.MatchingUsers | components/user-selector.tsx:26-28 | no more users than given |
| UserSelector.MatchingUsersExactly | components/user-selector.tsx:27 | both directions: a user is listed iff its name contains the query, ignoring case |
| UserSelector.EmptyQueryListsAll | components/user-selector.tsx:44 | the empty query lists every user, in order |
| UserSelector.LongerQueryNarrows | components/user-selector.tsx:27 | typing more never lists a user that was not listed before |
| UserSelector.Selector.constructor | components/user-selector.tsx:20-23 | empty query, no selection, closed |
| UserSelector.Selector.FilteredUsers | components/user-selector.tsx:26-28 | exactly the users matching the query; everyone for the empty query |
| UserSelector.Selector.SetQuery | components/user-selector.tsx:102 | the query is the typed text |
| UserSelector.Selector.HandleUserSelect | components/user-selector.tsx:31-35 | the user is kept and raised, and the dialog closes |
| UserSelector.Selector.HandleClearSearch | components/user-selector.tsx:38-40 | the query is cleared |
| UserSelector.Selector.OpenModal | components/user-selector.tsx:43-46 | query cleared and dialog open; the selection is kept |
| UserSelector.Selector.OnOpenChange | components/user-selector.tsx:82-87 | closing never touches the selection; an open request changes nothing |
| UserSelect.Select.constructor | components/user-select.tsx:15-17 | empty, hidden, no selection |
| UserSelect.Select.HandleSearchChange | components/user-select.tsx:29-32 | the dropdown shows exactly while the term is non-empty |
| UserSelect.Select.HandleUserSelect | components/user-select.tsx:23-26 | the user is kept and the dropdown hidden |
| UserSelect.Select.Render | components/user-select.tsx:20-68 | the selected name iff a user is selected; hidden iff not visible; the matching users when some match; "No users found" iff visible and none match; never open on an empty term |

## Left out

- I/O: files, `fetch`, lowdb reads and writes, the image copies, the backup
  copy and its folder creation are not modelled. Ids (`uuidv4`), clocks
  (`new Date()`, `Date.now()`) and the success of a disk write or rename are
  parameters. A request body is a datatype, not parsed JSON.
- Exceptions: the routes' 500 answers and the components' `try`/`catch` are
  left out. Only `CheckoutForm` models a failed lookup.
- Concurrency: requests and React updates are modelled one at a time, in
  program order, each update seeing the state the previous one left. The
  following members hold only under that sequential reading:
  `RadioCard.PartiallyDamagedKeepsExclusive`,
  `RadioCard.NonfunctionalKeepsExclusive`, `RadioCard.SelectPairsCheckout`,
  `RadioCard.Card.HandlePartiallyDamagedChange`,
  `RadioCard.Card.HandleNonfunctionalChange`,
  `RadioCard.Card.HandleCheckOutChange` and `RadioCard.Card.HandleSelect`.
  In the running page the card's two consecutive `onFieldChange` calls in
  `components/radio-card.tsx:62-79` both start from the same `radios`
  value, so the second overwrites the first. Checking "partially damaged"
  on a nonfunctional radio then leaves both flags true, and so does the
  converse. A select then keeps the previous user (null for an available
  radio) while the date is set.
- `CheckoutDetails.Details.HandleCheckInThenCheckout`: the handler
  in `components/user-radio-checkout-details.tsx:101-107` is never called,
  because `RadioCheckout` takes only `onCheckout` and `resetTrigger`
  (`components/radio-checkout.tsx:13-16`). The model states what it would
  do if called. It also reads an `availableRadios` that has not yet been
  re-rendered, and the model uses the updated list.
- `Api.SearchParam`: the URL parser's clean-up of its input is modelled
  (C0 controls and spaces trimmed from both ends, then ASCII tabs and
  newlines removed, as the WHATWG URL Standard's basic URL parser does),
  and so are the fragment, the `&` pairs and `+` as a space.
  Percent-decoding (`%xx`) of names and values is not: a value with a `%`
  sequence reads back here as its raw text. The URL builders paste IDs
  without `encodeURIComponent`, as the source does.
- `Api.ParamRoundTrip`: the value is read back with the URL clean-up,
  `&`, `#` and `+` handled as `new URL` and `URLSearchParams` do, but not
  `%xx` sequences (see `Api.SearchParam`).
- `Api.QueryRoundTrip`: the same percent-decoding gap as
  `Api.ParamRoundTrip`.
- `Api.LogUrlRoundTrip`: the same percent-decoding gap as
  `Api.ParamRoundTrip`.
- `Api.UserUrlRoundTrip`: the same percent-decoding gap as
  `Api.ParamRoundTrip`.
- `Api.Client.GetLogEntries`: by user, the result is stated only when the
  user ID brings in no further pair through an `&`; such an ID could carry
  a `radioID` pair that the route would then act on.
- `Api.PlainBase`: the configured base URL is taken to hold no `?` and no
  `#`; with one, the queries would be read from a different place.
- `Promise.all`: `HandleInitializeInventory` model takes the POSTs in
  order.
- The rendering markup, CSS classes, dialogs, toasts and icons are left
  out. Only the data each component shows is modelled.
- `RadiosPage.ParseInt`: does not model `parseInt`'s `0x` prefix or
  digits beyond `\d`. Radio IDs are decimal.
- `Strings.Compare`: `localeCompare` is modelled as a comparison of
  Unicode scalar values, not a locale collation.
- Strings are sequences of Unicode scalar values. A character outside the
  Basic Multilingual Plane, such as an emoji in a user's name, is one
  `char` here and two UTF-16 code units in JavaScript. So
  `UserCard.Initial` and `UserCard.GetInitials` take the whole character
  where `word[0]` takes a lone surrogate, lengths count it once, and
  `Strings.Compare` orders it by scalar value rather than by code unit.
- `Strings.Lower`: upper and lower case are mapped for ASCII letters only.
- `LogView.NewestFirst`: ISO 8601 UTC dates of one width are compared as
  strings, in place of `new Date(...).getTime()`. The page number is not
  reset when the logs change (the source does not reset it either).
  `logs.sort` sorts the prop array in place, and the model returns a
  sorted copy.
- `InitUserDatabase.InitUserDatabase`: the file listing's order is taken as
  given. The store file is written through a fresh lowdb adapter, which
  the model treats as replacing the registry's data.
- `UsersRoute.UserRegistry.SavePhoto`: the base64 content is not modelled,
  only the file's existence.
- `UsersRoute.UserRegistry.ArchivePhoto`: the timestamped archive name is
  not itself checked for existence, as in the source.
- The user helpers of `lib/api.ts` (`getUsers`, `deleteUser`, `addUser`,
  `updateUser`) are outside this model. Only `getUserById` is modelled,
  because the check-out form uses it.
- The photo folder served under `/images/` and the `data/profile-images`
  folder the users route writes to are modelled as separate sets.
  Serving is not modelled.

## Findings

| source | as written | input that shows it | evidently intended | confidence | as-written member | corrected member |
|---|---|---|---|---|---|---|
| lib/api.ts:278-355 | `checkOutRadio` and `checkInRadio` send their update with `POST`, which the radio route reads as "create" and refuses for want of a `Name` | any radio ID and user ID: the route answers 400 "ID and Name are required." and nothing is checked out or in | send the update as `PUT`, which sets or clears the user and date and logs the event | high, not executed | Api.Client.CheckOutRadio, Api.Client.CheckInRadio, Api.CheckBodiesLackName | Api.Client.CheckOutRadioFixed, Api.Client.CheckInRadioFixed |
| lib/api.ts:200-201 | `getRadios({ radioID })` returns `data[0]` of the unfiltered list, since the route ignores query parameters | inventory `[A, B]`, asked for `B`: the answer is `A` | the radio whose ID was asked for | high, not executed | Api.Client.GetRadios, CheckoutForm.Form.FetchRadioInfoFrom | Api.Client.FindRadio |
| lib/api.ts:413-443 | `updateRadio` deletes the radio, re-adds it with ID and Name only, then POSTs the full radio, which is refused as a duplicate | any radio with comments, damage or a user: it comes back as a default radio moved to the end of the list | update the radio in place with one `PUT` of its properties | high, not executed | Api.Client.UpdateRadio, Api.ReplacementDropsFields | Api.Client.UpdateRadioFixed, Api.FullPutRestores |
| lib/api.ts:392-406 | `appendRadioComment`, and through it `reportDamage` and `reportNonFunctional`, composes the comment onto the first radio of the list whatever the ID, then loses it through `updateRadio` | inventory `[A, B]`, comment on `B`: `A` is reset and moved to the end, and no comment is kept | the comment appended to the named radio's comments | high, not executed | Api.Client.AppendRadioComment, Api.Client.ReportDamage, Api.Client.ReportNonFunctional | Api.Client.AppendRadioCommentFixed, Api.Client.ReportDamageFixed, Api.Client.ReportNonFunctionalFixed |
| components/radio-card.tsx:41-45 | the card keeps the fetched users only when the answer is an array, while the users route answers `{ users }` | any registry: the card's user list stays empty, so no holder name is ever shown | read the `users` property of the answer | high, not executed | RadioCard.Card.FetchUsers | RadioCard.Card.FetchUsersFixed |
