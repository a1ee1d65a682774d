# Admin console core, modelled in Dafny

This project models the decision and list logic of a Next.js admin console for a
streaming platform. It covers these parts:

- **Request gate** (`src/proxy.ts`). It runs before every page. It skips API and static
  paths and reads the `accessToken` cookie. Undecodable and expired tokens go back to the
  login page and the cookie is cleared. It checks the query parameters of the verification
  and reset pages. Signed-in users are sent away from the public pages, and only the
  `super_admin` role gets into the protected sections. Each redirect target is written as
  URL text with the request path put in unencoded, and the browser reads the next
  request's parameters back from that text as `searchParams` does, so a path holding `&`
  or `+` does not come back as it was.
- **Creator table** (`src/pages_temp/Creator/CreatorTable.tsx`). It turns the users API
  response into rows: status normalised, joining date taken from the hexadecimal timestamp
  that leads the ObjectId, total picked from four candidate fields. It has a search, an
  eight-way sort, and delete / block / unblock, with a step back to the previous page
  after deleting the last row. It also has the "showing X to Y" range and the page-number
  window.
- **Content table** (`src/Pages/Content/Content.tsx`). Covered: the comma-stripping
  `parseNumber`, the visibility filter, search and sort, and bulk delete / private /
  public over the selected videos.
- **Channel table** (`src/Pages/Creator/CreatorTable.tsx`). Covered: the
  `^([\d.]+)\s*([MKB]?)$` metric parser with K/M/B scaling, search, sort, and bulk
  delete / export.
- **Category table** (`src/Pages/Category/CategoryTable.tsx`). Covered: search, the photo
  upload handler, the add/edit dialog state, validated save (edit by `sl`, or append with
  `sl = String(length + 1)`) and the displayed page total.
- **Growth overview** (`src/pages_temp/DashboardHome/GrowthOverview.tsx`). Covered: the
  twelve-slot monthly chart built from `"YYYY-MM"` records with last-write-wins maps,
  the `StatBlock` growth indicator, and the fetch short-circuit.
- **Account forms** (`src/Pages/Admin/Settings/AdminSecurity.tsx`,
  `src/Pages/Admin/Settings/UpdateAdminProfile.tsx`, `src/auth/verify/OtpValidation.ts`).
  Covered: the change-password rules and submit checks, the profile schema and the form
  payload it sends, and the six-digit OTP schema.

The pieces shared by the pages are modelled once:

- the JavaScript string operations the pages use: ASCII case mapping, `trim`, `includes`,
  `length` in UTF-16 code units, and decimal `parseInt`/`Number`;
- a stable sort, as `Array.prototype.sort` has been since ES2019;
- the page-number window, which appears verbatim in three files.

Pure code is written as functions and lemmas. Each React component that keeps state is a
class:

- its `useState` variables are fields;
- its handlers are methods with `modifies` clauses;
- each method's new state is stated against the functions the lemmas are about.

The in-place `sort` on a copied array is an insertion sort over a Dafny `array`. It is
proved equal to the functional stable sort, and that sort is proved to be an ordered
permutation that keeps equal keys in their original order. Each page-number window is
built by a loop proved equal to `PageWindow`. The monthly maps are filled by a loop proved
equal to a last-write-wins function.

Inputs the code gets from its environment become parameters of the model:

- the JWT decoder becomes the `Cookie` datatype (`NoToken | Invalid | Decoded(role, exp)`);
- `Date.now()` becomes `now`;
- backend responses become a success flag or a response record;
- `confirm()` becomes a boolean;
- row selection becomes the list of selected rows;
- date parsing for sort keys becomes a function `dateOf`;
- `toISOString` becomes a function `isoDate`.

Modules: `Wrappers`, `Text`, `Lists`, `StableSort`, `Paging`, `RouteGate`, `CreatorUsers`,
`Content`, `Channels`, `Categories`, `Growth`, `AdminSecurity`, `AdminProfile`, `Otp`.

## Model

| member | source | states |
|---|---|---|
| RouteGate.Gate | src/proxy.ts:30-142 | skipped paths always pass; the cookie is cleared exactly when the path is not skipped and the token is undecodable or expired |
| RouteGate.SkippedShape | src/proxy.ts:34-39 | a skipped path starts `/a`, `/_` or `/fa`, so none of the gate's named pages is skipped |
| RouteGate.NotSkipped | src/proxy.ts:34-39 | a path whose opening characters rule out `/a`, `/_` and `/fa` is never skipped |
| RouteGate.NamedPathsNotSkipped | src/proxy.ts:34-41 | `/verification`, `/reset`, `/forget`, the public pages and `/dashboard` never take the skip branch |
| RouteGate.NoExpiryNeverExpires | src/proxy.ts:53 | a missing or zero `exp` is never treated as expired |
| RouteGate.ExpiredTokenRedirects | src/proxy.ts:53-65 | an expired token on any non-skipped path redirects to the login page with `session-expired` and clears the cookie, before any route rule |
| RouteGate.InvalidTokenRedirects | src/proxy.ts:67-80 | an undecodable token redirects to the login page with `invalid-token` and clears the cookie, before any route rule |
| RouteGate.LoginHref | src/proxy.ts:55 | the failure redirect renders as `/login?redirect=<path>&error=<code>` |
| RouteGate.VerificationRoute | src/proxy.ts:94-102 | `/verification` passes iff `email` is present and non-empty, whoever is signed in; otherwise `/forget?error=no-email` |
| RouteGate.ResetRoute | src/proxy.ts:105-114 | `/reset` passes iff both `token` and `email` are non-empty; otherwise `/forget?error=missing-params` |
| RouteGate.PublicRoute | src/proxy.ts:117-122 | on a public page a decoded user of any role goes to `/dashboard`, an anonymous visitor passes |
| RouteGate.ForgetPasses | src/proxy.ts:141 | `/forget` is on no list and passes once the token is acceptable |
| RouteGate.ProtectedIsUnlisted | src/proxy.ts:21-28 | no protected path is public, verification, reset or skipped, so the protected rule is reached |
| RouteGate.ProtectedRoute | src/proxy.ts:125-139 | protected paths: anonymous to `/login?redirect=<path>` with no error, wrong role to `/?error=unauthorized`, `super_admin` passes |
| RouteGate.PrefixWithoutBoundary | src/proxy.ts:22 | the prefix test has no segment boundary: `/dashboardX` is protected and an anonymous request is sent to log in |
| RouteGate.UnlistedPasses | src/proxy.ts:141 | every path on no list passes once the token is acceptable |
| RouteGate.QueryMap | src/proxy.ts:95 | the parameter map holds exactly the names that occur in the query |
| RouteGate.QueryMapFirst | src/proxy.ts:95 | `searchParams.get(name)` is the value of the first pair with that name, whatever later pairs say |
| RouteGate.ParseHrefPath | src/proxy.ts:54-56 | the URL parser reads a path free of `?` and `#` through to the text after it |
| RouteGate.QueryRoundTrip | src/proxy.ts:95 | the query text of plain pairs (names and values without `=`, `&`, `#`, `+` or `%`) splits back into exactly those pairs |
| RouteGate.HrefRoundTrip | src/proxy.ts:54-56 | a location whose path has no `?` or `#` and whose pairs are plain is read back from its URL text exactly as it was written |
| RouteGate.FollowReadsHref | src/proxy.ts:54-56 | following a redirect requests the path and the first-occurrence parameter map that the browser reads from the redirect's URL text |
| RouteGate.GateRedirectsReadBack | src/proxy.ts:54-138 | every redirect the gate makes is followed as its URL text reads |
| RouteGate.RedirectReadBack | src/proxy.ts:69-71 | the path is put into the URL unencoded, so the login page's `redirect` is the path up to its first `&`, with `+` read as a space and `%XX` escapes decoded |
| RouteGate.PlainReadBack | src/proxy.ts:69-71 | a path without `&`, `+` or `%` comes back as `redirect` unchanged |
| RouteGate.AmpersandCutsRedirect | src/proxy.ts:69-71 | a rejected token on `/a&b` comes back as `redirect=/a`: the rest of the path is lost |
| RouteGate.PlusBecomesSpace | src/proxy.ts:69-71 | a rejected token on `/a+b` comes back as `redirect=/a b` |
| RouteGate.NonAdminBounces | src/proxy.ts:117-138 | a live non-admin token bounces between `/` and `/dashboard` for ever, keeping its cookie: after n redirects it is at the start for even n and at the other end for odd n |
| RouteGate.BounceStep | src/proxy.ts:117-138 | one redirect of a live non-admin goes from `/` to `/dashboard` or back, with the parameters the gate put in the target and the same cookie |
| RouteGate.NonAdminNeverSettles | src/proxy.ts:117-138 | from `/` such a user is never let through, however many redirects are followed |
| RouteGate.AdminSettles | src/proxy.ts:117-139 | a `super_admin` at `/` is sent to `/dashboard` and let in there |
| RouteGate.RejectedTokenLandsOnLogin | src/proxy.ts:48-82 | a rejected token lands on `/login` without its cookie and the login page then passes; `redirect` is what the URL text gives, the path up to its first `&` form-decoded, which is the path itself when it has no `&`, `+` or `%` |
| Paging.BuildPageWindow | src/pages_temp/Creator/CreatorTable.tsx:481-511 | the push loop builds exactly `PageWindow(totalPages, currentPage)` |
| Paging.NumbersSplit | src/pages_temp/Creator/CreatorTable.tsx:486 | a run of page buttons `lo..hi` splits at any `m` into `lo..m` followed by `m+1..hi` |
| Paging.NumbersPush | src/pages_temp/Creator/CreatorTable.tsx:486 | pushing the next page onto a run extends it by exactly that page, as the loop's `push` does |
| Paging.WindowSmall | src/pages_temp/Creator/CreatorTable.tsx:485-486 | with at most 7 pages the window is exactly `1..totalPages` |
| Paging.WindowLarge | src/pages_temp/Creator/CreatorTable.tsx:487-509 | with more than 7 pages the window has 7 entries, starts at 1, ends at `totalPages` and holds the current page when it is in range |
| Paging.WindowIncreasing | src/pages_temp/Creator/CreatorTable.tsx:485-509 | the numbered entries strictly increase |
| Paging.WindowInRange | src/pages_temp/Creator/CreatorTable.tsx:485-509 | every numbered entry is between 1 and `totalPages` |
| Paging.WindowGaps | src/pages_temp/Creator/CreatorTable.tsx:485-509 | neighbouring numbers are consecutive; an ellipsis sits strictly inside, between two numbers at least two apart |
| Paging.CeilDivBounds | src/pages_temp/Creator/CreatorTable.tsx:389 | `Math.ceil(total / pageSize)` is the least page count whose pages cover the total |
| Paging.CeilDivSign | src/Pages/Content/Content.tsx:186 | no rows give 0 pages, some rows at least 1 |
| Paging.ShowingRangeOrdered | src/pages_temp/Creator/CreatorTable.tsx:466 | the "showing X to Y of T" range has X ≤ Y ≤ T |
| Paging.ShowingRangeOnPage | src/pages_temp/Creator/CreatorTable.tsx:466 | on an existing page X is the first row of the page and the range holds 1 to pageSize rows |
| StableSort.SortByPermutes | src/pages_temp/Creator/CreatorTable.tsx:353-383 | the sorted copy is a permutation of the filtered list |
| StableSort.SortByOrdered | src/pages_temp/Creator/CreatorTable.tsx:353-383 | the sorted copy is ordered by the key in the chosen direction |
| StableSort.SortByStable | src/pages_temp/Creator/CreatorTable.tsx:353-383 | rows with equal keys keep their relative order (stable sort) |
| StableSort.SortBySorted | src/pages_temp/Creator/CreatorTable.tsx:353-383 | sorting an already ordered list changes nothing |
| StableSort.InsertPermutes | src/pages_temp/Creator/CreatorTable.tsx:353-383 | inserting adds exactly the one element |
| StableSort.InsertOrdered | src/pages_temp/Creator/CreatorTable.tsx:353-383 | inserting into an ordered list keeps it ordered |
| StableSort.InsertStable | src/pages_temp/Creator/CreatorTable.tsx:353-383 | the inserted element goes after every element with an equal key |
| StableSort.WithKeyAppend | src/pages_temp/Creator/CreatorTable.tsx:353-383 | the rows with a given key split over a concatenation |
| StableSort.SortInPlace | src/pages_temp/Creator/CreatorTable.tsx:353-383 | the in-place sort leaves the array equal to the stable sort of its old contents |
| StableSort.InsertInPlace | src/pages_temp/Creator/CreatorTable.tsx:353-383 | one insertion step places `a[i]` into the sorted prefix and leaves the rest untouched |
| Lists.Filter | src/Pages/Category/CategoryTable.tsx:56-58 | `Array.prototype.filter`: keeps exactly the elements that satisfy the predicate |
| Lists.ReplaceNothing | src/pages_temp/Creator/CreatorTable.tsx:158-162 | when no element is selected the `map` gives back the same list |
| Lists.ReplaceIdempotent | src/pages_temp/Creator/CreatorTable.tsx:158-162 | applying the update twice is applying it once, when an updated element stays selected and updating it again leaves it as it is (as setting a status does) |
| Lists.ReplaceConcat | src/pages_temp/Creator/CreatorTable.tsx:158-162 | the `map` works element by element: on a concatenation it is the concatenation of the two results, so no element moves |
| Lists.FilterConcat | src/Pages/Content/Content.tsx:227-233 | filtering distributes over concatenation, so survivors keep their order |
| Lists.FilterKeepsAll | src/Pages/Creator/CreatorTable.tsx:237-239 | a filter every element passes returns the list unchanged |
| Text.LowerIdempotent | src/Pages/Category/CategoryTable.tsx:57 | lower-casing twice equals lower-casing once |
| Text.LowerNoCapitals | src/pages_temp/Creator/CreatorTable.tsx:342 | `toLowerCase` keeps the length, leaves no ASCII capital and keeps every character that is not one |
| Text.UpperNoSmall | src/Pages/Creator/CreatorTable.tsx:121 | `toUpperCase` keeps the length, leaves no ASCII small letter and keeps every character that is not one |
| Text.CaseRoundTrip | src/Pages/Creator/CreatorTable.tsx:121 | lower-casing an upper-cased text gives the lower-cased text, and the reverse |
| Text.Utf16LengthBounds | src/Pages/Admin/Settings/AdminSecurity.tsx:44 | `length` counts UTF-16 code units: at least the number of characters and at most twice it, and equal to it iff no character lies beyond U+FFFF |
| Text.TrimStartSpec | src/Pages/Creator/CreatorTable.tsx:121 | the leading-whitespace pass drops exactly the whitespace before the first other character |
| Text.TrimEndSpec | src/Pages/Creator/CreatorTable.tsx:121 | the trailing-whitespace pass drops exactly the whitespace after the last other character |
| Text.TrimSpec | src/Pages/Creator/CreatorTable.tsx:121 | `trim` removes exactly the leading and trailing whitespace: the result is a slice of the input with whitespace only outside it and none at its ends |
| Text.TrimNoop | src/Pages/Creator/CreatorTable.tsx:121 | text with no outer whitespace is left as it is |
| Text.ContainsIff | src/pages_temp/Creator/CreatorTable.tsx:349 | `includes` holds iff the query occurs at some position |
| Text.ContainsEmpty | src/pages_temp/Creator/CreatorTable.tsx:349 | every text includes the empty query |
| Text.DecimalRoundTrip | src/Pages/Category/CategoryTable.tsx:130 | `String(n)` read back as decimal digits gives n |
| Text.LeadingDigitsOf | src/Pages/Content/Content.tsx:122 | `parseInt` reads exactly the leading run of digits |
| CreatorUsers.IdSeconds | src/pages_temp/Creator/CreatorTable.tsx:83 | `parseInt(_id.substring(0, 8), 16)` is a number iff the id starts with a hexadecimal digit |
| CreatorUsers.IdSecondsValue | src/pages_temp/Creator/CreatorTable.tsx:83 | an id whose first eight characters start with 1 to 8 hex digits (fewer only when the id ends or a non-hex character follows) reads as those digits in base 16, most significant first, and the value is below 2^32 |
| CreatorUsers.NormalStatusNormal | src/pages_temp/Creator/CreatorTable.tsx:82 | a normalised status is non-empty and has no ASCII capital, so later comparisons with `blocked` and `active` ignore case; normalising it again changes nothing |
| CreatorUsers.Transform | src/pages_temp/Creator/CreatorTable.tsx:78-84 | every user becomes one row in order; the transform fails iff some id has no leading hex digit |
| CreatorUsers.FetchFailure | src/pages_temp/Creator/CreatorTable.tsx:95-103 | a failed response empties the list and zeroes the total |
| CreatorUsers.FetchNormalises | src/pages_temp/Creator/CreatorTable.tsx:78-85 | one row per user in order; each row keeps the user's id, role, email, followers, likes, views, channel name, username and `isBlocked`, has the normalised status, and the day and `joinedOn` date decoded from the id |
| CreatorUsers.FetchTotal | src/pages_temp/Creator/CreatorTable.tsx:87-94 | total is the first non-zero of `total`, `totalCount` and `pagination.total`; failing those `meta.total` whenever it is present, even 0; and the row count only when `meta.total` is absent, even if an earlier count was present but 0 |
| CreatorUsers.FetchBadId | src/pages_temp/Creator/CreatorTable.tsx:83 | an id without a leading hex digit makes the date conversion throw: empty list, total 0 |
| CreatorUsers.SearchKeeps | src/pages_temp/Creator/CreatorTable.tsx:341-351 | a user is kept iff the query is empty or occurs, ignoring case, in channel name, username, email or joining date |
| CreatorUsers.EmptySearchAgrees | src/pages_temp/Creator/CreatorTable.tsx:341 | the empty query would keep every user even without the guard |
| CreatorUsers.VisibleUsersSorted | src/pages_temp/Creator/CreatorTable.tsx:353-383 | the shown rows are a permutation of the search result, ordered and stable under the chosen key; an unknown option keeps the order |
| CreatorUsers.RemoveUserExact | src/pages_temp/Creator/CreatorTable.tsx:154 | delete keeps exactly the users with another `_id`, in order |
| CreatorUsers.SetBlockedOnlySelected | src/pages_temp/Creator/CreatorTable.tsx:156-169 | block/unblock sets status and `isBlocked` on the selected user only; every other user and field is unchanged |
| CreatorUsers.SetBlockedIdempotent | src/pages_temp/Creator/CreatorTable.tsx:156-169 | blocking (or unblocking) twice equals doing it once |
| CreatorUsers.StepBackKeepsPage | src/pages_temp/Creator/CreatorTable.tsx:176-178 | after a delete the table's page still exists unless no user is left, and deleting the only user of a later last page moves to the new last page |
| CreatorUsers.CreatorUsersPage.constructor | src/pages_temp/Creator/CreatorTable.tsx:53-65 | initial state: no users, loading, page 0 of size 5, sort `newold`, no dialog |
| CreatorUsers.CreatorUsersPage.FetchUsers | src/pages_temp/Creator/CreatorTable.tsx:68-105 | list and total become the fetch result; loading ends |
| CreatorUsers.CreatorUsersPage.OpenDialog | src/pages_temp/Creator/CreatorTable.tsx:120-124 | records the user and action and opens the dialog |
| CreatorUsers.CreatorUsersPage.HandleAction | src/pages_temp/Creator/CreatorTable.tsx:126-188 | without a selected user or on failure nothing changes; on success the list, total and page are updated as the action says and the dialog closes |
| CreatorUsers.CreatorUsersPage.FilteredData | src/pages_temp/Creator/CreatorTable.tsx:338-384 | the rows shown are the searched, stably sorted users |
| CreatorUsers.CreatorUsersPage.PageItems | src/pages_temp/Creator/CreatorTable.tsx:480-511 | the page buttons are the window for `ceil(total / pageSize)` pages around the current one |
| Content.RemoveCommas | src/Pages/Content/Content.tsx:122 | `replace(/,/g, '')` leaves no comma and only characters of the input |
| Content.RemoveCommasFilters | src/Pages/Content/Content.tsx:122 | `replace(/,/g, '')` is filtering out the commas: every other character is kept, in its order |
| Content.NoCommas | src/Pages/Content/Content.tsx:122 | text without commas is unchanged |
| Content.ParseIntDecimal | src/Pages/Content/Content.tsx:122 | a non-zero result needs a digit in the text |
| Content.ParseIntSigned | src/Pages/Content/Content.tsx:122 | `parseInt(..., 10)` skips leading white space, reads an optional `-` or `+`, and gives the signed value of the digit run that follows; no digits give NaN, which the model writes 0 |
| Content.DropComma | src/Pages/Content/Content.tsx:122 | removing commas from two comma-free texts joined by one comma gives the two texts joined |
| Content.ParseIntLeading | src/Pages/Content/Content.tsx:122 | `parseInt(..., 10)` of digits followed by a non-digit is the value of those digits |
| Content.ParseNumberDecimal | src/Pages/Content/Content.tsx:121-123 | a plain decimal reads back as itself |
| Content.ParseNumberGrouped | src/Pages/Content/Content.tsx:121-123 | `"1,234"` reads as 1234 |
| Content.ParseNumberStops | src/Pages/Content/Content.tsx:121-123 | `"3.4M"` reads as 3: the parse stops at the point |
| Content.ParseNumberNoDigits | src/Pages/Content/Content.tsx:121-123 | text without digits reads as 0 |
| Content.FiltersKeep | src/Pages/Content/Content.tsx:135-153 | a video is shown iff the filter is `all` or equals its visibility ignoring case, and the query is empty or matches; `all` with no query keeps everything |
| Content.SearchIgnoresUserName | src/Pages/Content/Content.tsx:144-151 | the uploader's name never affects the search |
| Content.FilterVisibilityCase | src/Pages/Content/Content.tsx:137 | the visibility filter ignores the case of the chosen value |
| Content.VisibleVideosSorted | src/Pages/Content/Content.tsx:156-178 | the shown rows are a permutation of the filtered rows, ordered and stable under the chosen key; an unknown option keeps the order |
| Content.DeleteSelectedExact | src/Pages/Content/Content.tsx:224-238 | a confirmed delete keeps exactly the videos matching no selected one, in order |
| Content.DeleteTakesDuplicates | src/Pages/Content/Content.tsx:227-233 | an unselected video with the same title, date, views and likes as a selected one is deleted too |
| Content.DeleteNothing | src/Pages/Content/Content.tsx:227-233 | deleting with nothing selected keeps every video |
| Content.SetVisibilityExact | src/Pages/Content/Content.tsx:241-268 | private/public sets the visibility of exactly the matching videos, changes nothing else, and is idempotent |
| Content.ContentPage.constructor | src/Pages/Content/Content.tsx:30-38 | initial state: the seed videos, page 0 of size 5, filter `all`, sort `newold`, nothing selected |
| Content.ContentPage.HandleAction | src/Pages/Content/Content.tsx:211-272 | with no selection nothing changes; otherwise delete (if confirmed), private or public update the list and clear the selection; the action box is reset |
| Content.ContentPage.FilteredData | src/Pages/Content/Content.tsx:131-181 | the rows shown are the filtered, searched, stably sorted videos |
| Content.ContentPage.PageItems | src/Pages/Content/Content.tsx:365-395 | the page buttons are the window for `ceil(rows / pageSize)` pages |
| Channels.MantissaPrefix | src/Pages/Creator/CreatorTable.tsx:122 | `[\d.]+` takes the longest run of digits and points |
| Channels.SplitMetricSound | src/Pages/Creator/CreatorTable.tsx:122 | a split text has the form mantissa, spaces, optional K/M/B |
| Channels.SplitMetricComplete | src/Pages/Creator/CreatorTable.tsx:122 | every text of that form is split into its mantissa and suffix |
| Channels.MantissaOf | src/Pages/Creator/CreatorTable.tsx:122 | the mantissa ends where the first non-mantissa character starts |
| Channels.SpacesThen | src/Pages/Creator/CreatorTable.tsx:122 | `\s*` before the suffix is skipped |
| Channels.ParseNumberMalformed | src/Pages/Creator/CreatorTable.tsx:121-124 | after trimming and upper-casing, a text not of the form gives 0 |
| Channels.ParseVia | src/Pages/Creator/CreatorTable.tsx:121-134 | a matched text is the mantissa scaled by its suffix |
| Channels.NormalisedScaled | src/Pages/Creator/CreatorTable.tsx:121 | trimming and upper-casing `m spaces c` only upper-cases the suffix |
| Channels.ParseNumberScaled | src/Pages/Creator/CreatorTable.tsx:126-134 | K scales by 1e3, M by 1e6, B by 1e9, in either case |
| Channels.ParseNumberPlain | src/Pages/Creator/CreatorTable.tsx:133 | with no suffix the value is the mantissa itself |
| Channels.ParseNumberExample | src/Pages/Creator/CreatorTable.tsx:121-134 | `"3.4 M"` reads as 3400000 |
| Channels.MantissaExample | src/Pages/Creator/CreatorTable.tsx:126 | `parseFloat("3.4")` is 3.4 |
| Channels.SearchKeeps | src/Pages/Creator/CreatorTable.tsx:147-159 | a channel is kept iff the query is empty or occurs, ignoring case, in name, username, joining date, followers, views or likes |
| Channels.VisibleChannelsSorted | src/Pages/Creator/CreatorTable.tsx:162-190 | the shown rows are a permutation of the search result, ordered and stable under the chosen key; an unknown option keeps the order |
| Channels.DeleteSelectedExact | src/Pages/Creator/CreatorTable.tsx:235-244 | a confirmed delete keeps exactly the channels whose id is not selected, in order |
| Channels.DeleteUnlisted | src/Pages/Creator/CreatorTable.tsx:237-239 | deleting ids absent from the list changes nothing |
| Channels.ChannelsPage.constructor | src/Pages/Creator/CreatorTable.tsx:30-37 | initial state: the seed channels, page 0 of size 5, sort `newold`, nothing selected |
| Channels.ChannelsPage.HandleAction | src/Pages/Creator/CreatorTable.tsx:223-252 | with no selection nothing changes; a confirmed delete removes the selected ids; export and delete clear the selection; the action box is reset |
| Channels.ChannelsPage.FilteredData | src/Pages/Creator/CreatorTable.tsx:143-193 | the rows shown are the searched, stably sorted channels |
| Channels.ChannelsPage.PageItems | src/Pages/Creator/CreatorTable.tsx:346-376 | the page buttons are the window for `ceil(rows / pageSize)` pages |
| Categories.SearchKeeps | src/Pages/Category/CategoryTable.tsx:54-59 | a category is kept iff its name contains the query ignoring case; an empty query keeps the list |
| Categories.EditExact | src/Pages/Category/CategoryTable.tsx:114-125 | an edit replaces name and photos on the entries with the edited `sl` only, and keeps every `sl` |
| Categories.AppendExact | src/Pages/Category/CategoryTable.tsx:127-135 | an add appends one entry whose `sl` reads as the new length |
| Categories.DecimalInjective | src/Pages/Category/CategoryTable.tsx:130 | distinct counts give distinct `sl` texts |
| Categories.AppendKeyed | src/Pages/Category/CategoryTable.tsx:127-135 | appending keeps the serials distinct |
| Categories.EditKeyed | src/Pages/Category/CategoryTable.tsx:114-125 | editing keeps the serials distinct |
| Categories.EditOne | src/Pages/Category/CategoryTable.tsx:114-125 | with distinct serials, an edit changes exactly the chosen entry |
| Categories.PageTotalBounds | src/Pages/Category/CategoryTable.tsx:309 | the shown page total is at least 1, is 1 with no rows, and is the least count of pages covering the rows otherwise |
| Categories.CategoryPage.constructor | src/Pages/Category/CategoryTable.tsx:35-51 | initial state: the seed categories, page size 6, closed dialog, empty form |
| Categories.CategoryPage.UploadPhoto | src/Pages/Category/CategoryTable.tsx:62-80 | with no file nothing changes; otherwise only the chosen photo and its file are set |
| Categories.CategoryPage.AddCategory | src/Pages/Category/CategoryTable.tsx:83-92 | edit mode off, form fields emptied, dialog open |
| Categories.CategoryPage.EditCategory | src/Pages/Category/CategoryTable.tsx:95-104 | edit mode on, form loaded from the category, dialog open |
| Categories.CategoryPage.SaveCategory | src/Pages/Category/CategoryTable.tsx:107-140 | an empty field changes nothing and keeps the dialog open; otherwise edit or append, close the dialog, and keep serials distinct |
| Growth.BeforeDashSpec | src/pages_temp/DashboardHome/GrowthOverview.tsx:64 | the first piece of `split("-")` is the dash-free prefix ended by the first dash or the end of the text |
| Growth.MonthPartSome | src/pages_temp/DashboardHome/GrowthOverview.tsx:64 | the second piece of `split("-")` exists iff the id has a dash |
| Growth.MonthPartOf | src/pages_temp/DashboardHome/GrowthOverview.tsx:64 | the month of `year-month...` is the text between the first two dashes |
| Growth.MonthOfId | src/pages_temp/DashboardHome/GrowthOverview.tsx:64 | the month part of `YYYY-MM` is `MM` |
| Growth.IntegerValueDigits | src/pages_temp/DashboardHome/GrowthOverview.tsx:65 | `Number` of a digit string is its decimal value |
| Growth.UnsignedDigits | src/pages_temp/DashboardHome/GrowthOverview.tsx:65 | an unsigned run of digits reads as its decimal value |
| Growth.SlotOfDigits | src/pages_temp/DashboardHome/GrowthOverview.tsx:64-65 | a record whose month part is a run of digits writes slot month - 1 |
| Growth.SlotOfMonth | src/pages_temp/DashboardHome/GrowthOverview.tsx:64-65 | `YYYY-MM` goes to slot MM - 1, whatever the year |
| Growth.SlotExample | src/pages_temp/DashboardHome/GrowthOverview.tsx:64-65 | `"2025-03"` goes to slot 2 |
| Growth.LastForIff | src/pages_temp/DashboardHome/GrowthOverview.tsx:63-66 | a slot is filled iff some record names it, and then holds the count of the last such record |
| Growth.LastForStep | src/pages_temp/DashboardHome/GrowthOverview.tsx:63-66 | one more record wins its own slot and leaves every other slot as it was |
| Growth.LastForSkip | src/pages_temp/DashboardHome/GrowthOverview.tsx:63-66 | records for other slots do not affect a slot |
| Growth.MonthlyData | src/pages_temp/DashboardHome/GrowthOverview.tsx:73-77 | the chart always has twelve entries |
| Growth.MonthlyDataSlots | src/pages_temp/DashboardHome/GrowthOverview.tsx:73-77 | entry i is labelled with the i-th month; in each of the two series it holds 0 without a record for that month and the last such record's count otherwise |
| Growth.StrayRecord | src/pages_temp/DashboardHome/GrowthOverview.tsx:64-77 | a record with no dash or a month outside 1..12 affects no slot |
| Growth.SeriesIndependent | src/pages_temp/DashboardHome/GrowthOverview.tsx:60-71 | the creator series and the stream series do not affect each other |
| Growth.FillMap | src/pages_temp/DashboardHome/GrowthOverview.tsx:63-66 | the `forEach` loop leaves a map holding exactly the last count for each slot |
| Growth.BuildMonthlyData | src/pages_temp/DashboardHome/GrowthOverview.tsx:56-78 | the imperative build equals the chart specification |
| Growth.StatBlocksTrend | src/pages_temp/DashboardHome/GrowthOverview.tsx:176-222 | the creator block shows growth iff last month's new creators are positive, the stream block iff last month's streams are; the growth shown is that count and each block shows its total |
| Growth.InitialNoGrowth | src/pages_temp/DashboardHome/GrowthOverview.tsx:86-91 | before a fetch succeeds both blocks show "No growth" |
| Growth.GrowthOverview.constructor | src/pages_temp/DashboardHome/GrowthOverview.tsx:85-91 | the chart starts empty and every stat at 0 |
| Growth.GrowthOverview.FetchGrowth | src/pages_temp/DashboardHome/GrowthOverview.tsx:97-124 | a failed or thrown fetch changes nothing; a successful one sets the stats and the chart |
| AdminSecurity.RuleErrors | src/Pages/Admin/Settings/AdminSecurity.tsx:143-149 | each field has an error iff its rule fails: current password required, new password of at least 8 UTF-16 units, confirmation equal to the new password |
| AdminSecurity.SubmitCheckAccepts | src/Pages/Admin/Settings/AdminSecurity.tsx:44-61 | a request is made iff the new password has at least 8 UTF-16 units, equals the confirmation and differs from the current one |
| AdminSecurity.SubmitCheckOrder | src/Pages/Admin/Settings/AdminSecurity.tsx:44-61 | short first, then mismatch, then reuse; only the first failing check is reported |
| AdminSecurity.AstralPassword | src/Pages/Admin/Settings/AdminSecurity.tsx:44 | four characters beyond U+FFFF are eight UTF-16 units and pass both length checks |
| AdminSecurity.RulesPreempt | src/Pages/Admin/Settings/AdminSecurity.tsx:42-61 | once the field rules pass, only the reuse check can still fail |
| AdminSecurity.RequestIgnoresConfirmation | src/Pages/Admin/Settings/AdminSecurity.tsx:64-67 | the request carries the current and new password; the confirmation is never sent |
| AdminSecurity.SecurityForm.constructor | src/Pages/Admin/Settings/AdminSecurity.tsx:27-37 | empty fields, no errors, all passwords hidden |
| AdminSecurity.SecurityForm.ToggleShow | src/Pages/Admin/Settings/AdminSecurity.tsx:131 | toggling flips the visibility of one field only |
| AdminSecurity.SecurityForm.Submit | src/Pages/Admin/Settings/AdminSecurity.tsx:42-79 | a request is sent iff the rules and checks pass; on success the form resets, otherwise it stays |
| AdminProfile.ProfileValidIff | src/Pages/Admin/Settings/UpdateAdminProfile.tsx:14-23 | accepted iff the name has 2 to 50 UTF-16 units, both inclusive, and the photo is absent, falsy or a file |
| AdminProfile.AstralName | src/Pages/Admin/Settings/UpdateAdminProfile.tsx:17-18 | one emoji beyond U+FFFF is a single character but two UTF-16 units, so it is a long enough name |
| AdminProfile.PayloadShape | src/Pages/Admin/Settings/UpdateAdminProfile.tsx:52-54 | the form data starts with `fullName`, and has `img` as its second and last entry iff a file was chosen |
| AdminProfile.ProfileForm.constructor | src/Pages/Admin/Settings/UpdateAdminProfile.tsx:28-38 | no photo, no preview, not loading |
| AdminProfile.ProfileForm.PhotoChange | src/Pages/Admin/Settings/UpdateAdminProfile.tsx:40-46 | choosing no file changes nothing; a file sets the photo and its preview |
| AdminProfile.ProfileForm.Submit | src/Pages/Admin/Settings/UpdateAdminProfile.tsx:48-70 | a valid form sends its payload with loading on, and loading is off afterwards |
| Otp.OtpValidIff | src/auth/verify/OtpValidation.ts:4-7 | a code is accepted iff it has exactly six characters, each `0`..`9` |
| Otp.EmptyRejected | src/auth/verify/OtpValidation.ts:6 | the empty code is rejected as missing |
| Otp.WrongLengthRejected | src/auth/verify/OtpValidation.ts:7 | five or seven digits are rejected with the six-digit message only |
| Otp.NonDigitRejected | src/auth/verify/OtpValidation.ts:7 | any non-digit character rejects the code |
| Otp.Padded | src/auth/verify/OtpValidation.ts:7 | a number padded to a width is that many digits |
| Otp.PaddedOfDigits | src/auth/verify/OtpValidation.ts:7 | a digit string is its own value padded to its length |
| Otp.OtpValidCodes | src/auth/verify/OtpValidation.ts:7 | the accepted codes are exactly the numbers below 1000000 padded to six digits |

## Left out

- JWT decoding is not modelled. The decoder is a foreign library, so the model takes its outcome as `Cookie`. Writing the cookie is likewise reduced to the `clearCookie` flag, and its security attributes are not modelled.
- `Date.now()` is the parameter `now`. Date parsing for the sort keys is the parameter `dateOf`, because JavaScript date-string parsing is implementation-defined. The ObjectId-to-ISO date conversion is the parameter `isoDate`.
- HTTP calls, toasts, `console` output, `confirm()`, `alert()` and `FileReader` are not modelled. Their results are inputs: success flags, response records, a boolean for `confirm`, and a data URL for the reader.
- The row-selection model of the table library is not modelled. Selected rows are passed in as a list. `rowSelection` is a set of indices that the actions only clear.
- `formatNumber` with `toFixed(1)`, and the other display formatting, are not modelled because they only format numbers for display.
- The random chart data of the non-temporary growth page is not modelled because it is random.
- The UI-only components and the sign-in forms other than the OTP schema are not modelled. They hold no decision logic beyond navigation.
- Numbers are exact integers and reals in the model, not IEEE doubles. Precision loss above 2^53 and rounding in `parseFloat` are not modelled.
- Channels.Metric: a mantissa made only of points (such as `"."`) is NaN in JavaScript, which makes the sort comparator inconsistent. The model sorts such values as 0.
- Growth.IntegerValue: `Number` is modelled for optional whitespace, an optional sign and decimal digits. Exponent, hexadecimal, binary, octal, `Infinity` and fractional forms count as no slot. In JavaScript some of them do name a slot: `"2025-1e1"` and `"2025-0xA"` write October's slot, and `"2025-0b11"` March's, where the model writes none. Months come from the backend as two decimal digits, so only such malformed ids differ.
- CreatorUsers.IdSeconds: the hexadecimal `parseInt` reads the leading hex digits of the first eight characters. Leading whitespace, a sign and a `0x` prefix are not modelled, because MongoDB ObjectIds never contain them. Ids are ASCII, so `substring` over UTF-16 units and the model's slice over characters agree.
- CreatorUsers.FetchTotal: it distinguishes "absent" from "present" totals. It does not distinguish `null` from `undefined`, which the `!== undefined` test would.
- AdminSecurity.SecurityForm.Submit: `onSubmit` only runs once the field rules pass. After that, its too-short and mismatch checks cannot fire, so the manual `setError` on the confirmation field is unreachable. The model proves this (`RulesPreempt`) instead of modelling that branch. Its toasts are not modelled.
- Case mapping covers ASCII letters only. Unicode case mappings beyond ASCII are not modelled. The whitespace set used by `trim`, `parseInt`, `Number` and `\s` is the full ECMAScript set of white space and line terminators.
- RouteGate.PercentDecode: only the escapes `%00` to `%7F` are decoded. Escapes of UTF-8 bytes, as in `/caf%C3%A9`, stay as they are in the model, while `searchParams` decodes them to `/café`.
- RouteGate.RejectedTokenLandsOnLogin: stated for request paths without `#`, as is `RedirectReadBack`. The URL parser percent-encodes `#` in a path, so a request's path never holds one.
- `new URL` also percent-encodes spaces, controls and non-ASCII characters of the query, and `searchParams` decodes them again. That encoding and decoding pair is not modelled.
- The profile schema's message says the name must be "less than 50 characters", but `max(50)` accepts 50. The model follows the code (`ProfileValidIff`).
