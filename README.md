# Lending marketplace: category table and page logic

This project models the decision logic of a lending marketplace. The marketplace has a Laravel backend and a Next.js frontend. Users publish listings for their items, request loans, message each other, and administrators manage categories and reports.

The backend part is the category controller. It keeps a table of categories that refer to their parent. It lists the roots with their children, shows one category with its items' active listings, and validates and stores new categories. It also updates existing categories, with no cycle check, and deletes them. The table is a class over a `map<int, Category>` with an auto-increment counter. Request fields are tri-state, because Laravel's `sometimes` and `nullable` rules tell an absent field apart from a `null` one.

The frontend part is the logic inside the pages, each modelled in its own module:

- **AdminCategoriesPage**: the preorder flattening of the category forest, written as a method with a loop. Also the parent drop-down, the edit form, the submit body and the nested rendering levels.
- **DashboardPage**: the loan groups and counters, and the date fallback.
- **LoansPage**: approve and reject, the status labels and when the action buttons show.
- **ListingsPage**, **FiltersPage**, **ReportsPage**: the search and filter predicates.
- **MyListingsPage**: deleting a listing.
- **MainPage**: the home page cards, icons and top-level categories.
- **NewListingPage**: the required-field check before creating a listing.
- **MessagesPage**: sending a message, the other participant, and the relative-time buckets.

Pages whose handlers change state in steps are classes. Those handlers are the approve/reject, delete, create and send handlers. The class fields hold the list state and the calls made. MessagesPage also records its alerts. A confirm dialog or an API outcome is a parameter of the handler.

Shared modules:

- **Wrappers**: `Option`.
- **Seqs**: `Filter`, plus subsequence and partition lemmas.
- **Text**: JavaScript's `includes`, `trim`, `toLowerCase`, `String(n)`, `parseInt` and `Number` on integer text.
- **ListingImages**: the two image fallbacks.

## Model

| member | source | states |
|---|---|---|
| CategoryController.StoreErrors | backend/app/Http/Controllers/CategoryController.php:37-41 | The title is rejected exactly when it is absent, null, blank or longer than 150 characters. The parent is rejected exactly when it is given and is not the id of an existing category. A null or absent parent passes. |
| CategoryController.UpdateErrors | backend/app/Http/Controllers/CategoryController.php:53-57 | An absent title passes (`sometimes`). A null, blank or over-long title is rejected. The parent rule is the same as in store: existence only. |
| CategoryController.NewCategory | backend/app/Http/Controllers/CategoryController.php:43 | The created row carries the validated title. It carries the description and parent when given and `None` otherwise. |
| CategoryController.Apply | backend/app/Http/Controllers/CategoryController.php:59 | An update writes only the fields sent. An absent field keeps its value, a null one clears it, and a given one replaces it. |
| CategoryController.ChildrenOf | backend/app/Http/Controllers/CategoryController.php:16 | The children of a category are exactly the rows whose parent is that category, unchanged. |
| CategoryController.Roots | backend/app/Http/Controllers/CategoryController.php:16 | The index holds exactly the rows with a null parent, each with its direct children. |
| CategoryController.InIndexIffDepthAtMostOne | backend/app/Http/Controllers/CategoryController.php:16 | A category appears in the index, as a root or as a root's child, exactly when it is a root or its parent is a root. |
| CategoryController.WithActiveListings | backend/app/Http/Controllers/CategoryController.php:25-27 | An item keeps exactly its listings whose status is "active", in order. |
| CategoryController.ItemsOf | backend/app/Http/Controllers/CategoryController.php:25-27 | The items of a category: an ordered subsequence of the items table holding exactly the items whose category key is that id. |
| CategoryController.Show | backend/app/Http/Controllers/CategoryController.php:23-30 | An unknown id gives not-found, and a known id always gives the category. The answer holds the category and its children. It also holds every item of the category, in table order and none other, each with exactly its active listings (`WithActiveListings`). |
| CategoryController.UpdateAcceptsSelfParent | backend/app/Http/Controllers/CategoryController.php:56-59 | Setting a category's parent to its own id passes validation and is written. |
| CategoryController.SelfParentLeavesIndex | backend/app/Http/Controllers/CategoryController.php:56-59 | After a category is made its own parent, it no longer appears anywhere in the index. |
| CategoryController.ParentSwapMakesCycle | backend/app/Http/Controllers/CategoryController.php:56-59 | Making a root the child of its own child passes validation. It creates a two-category cycle that vanishes from the index. |
| CategoryController.CategoryTable.constructor | backend/app/Http/Controllers/CategoryController.php:9 | The table starts empty with the counter at 1. |
| CategoryController.CategoryTable.Index | backend/app/Http/Controllers/CategoryController.php:14-18 | `index` answers 200 with `Roots` of the table: exactly the root rows, each with its own row data and with exactly its direct children, each child carrying its own row data. |
| CategoryController.CategoryTable.Store | backend/app/Http/Controllers/CategoryController.php:35-46 | Invalid input gives the error set and leaves the table unchanged. Valid input adds exactly one row under a fresh id and leaves the other rows unchanged. It answers 201. |
| CategoryController.CategoryTable.Update | backend/app/Http/Controllers/CategoryController.php:51-62 | An unknown id gives not-found. Invalid input changes nothing. Otherwise only that row changes, to the fields sent. |
| CategoryController.CategoryTable.Destroy | backend/app/Http/Controllers/CategoryController.php:67-72 | An unknown id gives not-found. A category still referenced by an item (`Referenced`) gives a server error and is kept, because items' category key is `onDelete('restrict')`. Otherwise exactly that row is removed and every other row is unchanged. |
| AdminCategoriesPage.PreorderAppend | frontend/app/dashboard/admin/categories/page.tsx:126-136 | Flattening a concatenated forest is the concatenation of the flattenings. |
| AdminCategoriesPage.PreorderAt | frontend/app/dashboard/admin/categories/page.tsx:126-136 | Every node comes right before its own subtree's flattening. Siblings keep their order. |
| AdminCategoriesPage.PreorderLength | frontend/app/dashboard/admin/categories/page.tsx:128-133 | The flattening is as long as the forest has nodes. |
| AdminCategoriesPage.PreorderHoldsReachable | frontend/app/dashboard/admin/categories/page.tsx:128-133 | A node is in the flattening exactly when it is reachable through `children`. |
| AdminCategoriesPage.ReachableTransitive | frontend/app/dashboard/admin/categories/page.tsx:128-133 | Descendants of reachable nodes are reachable. |
| AdminCategoriesPage.FlattenInto | frontend/app/dashboard/admin/categories/page.tsx:127-134 | The recursive `flatten`, which pushes onto `result` in a loop, appends exactly the preorder of its items. |
| AdminCategoriesPage.GetAllCategoriesFlat | frontend/app/dashboard/admin/categories/page.tsx:126-136 | The result is the preorder flattening. Its length is the number of nodes, and it holds exactly the reachable nodes. |
| AdminCategoriesPage.ParentOptions | frontend/app/dashboard/admin/categories/page.tsx:211-212 | The options are an ordered subsequence of the flattened list. They hold every category except the one being edited. |
| AdminCategoriesPage.DescendantsOffered | frontend/app/dashboard/admin/categories/page.tsx:211-212 | A descendant of the edited category is still offered as its parent. |
| AdminCategoriesPage.EditForm | frontend/app/dashboard/admin/categories/page.tsx:101-107 | The form takes the title, the description or "", and the parent id as text or "". |
| AdminCategoriesPage.SubmitRequest | frontend/app/dashboard/admin/categories/page.tsx:66-76 | An empty description or parent is left out of the body. A non-empty description is sent as typed. A non-empty parent is sent as `ParseInt` of the text, or as null when it does not parse. Digit text is sent as its decimal value. |
| AdminCategoriesPage.EditSubmitRoundTrip | frontend/app/dashboard/admin/categories/page.tsx:101-107 | Submitting an unchanged edit form sends back the category's own title and parent. |
| AdminCategoriesPage.NoParentChoiceKeepsParent | frontend/app/dashboard/admin/categories/page.tsx:69 | As written, choosing "no parent" for a category that has a parent leaves the parent in place. |
| AdminCategoriesPage.ClearedDescriptionKept | frontend/app/dashboard/admin/categories/page.tsx:68 | As written, emptying a description leaves the old description in place. |
| AdminCategoriesPage.SubmitRequestIntended | frontend/app/dashboard/admin/categories/page.tsx:66-70 | Corrected body: an empty parent or description is sent as null. Everything else is as before. |
| AdminCategoriesPage.NoParentChoiceMakesRoot | frontend/app/dashboard/admin/categories/page.tsx:66-70 | With the corrected body, "no parent" passes validation and makes the category a root, and an emptied description is cleared. |
| AdminCategoriesPage.RenderRowsFollowPreorder | frontend/app/dashboard/admin/categories/page.tsx:262-296 | `RenderRows`, the recursive rendering of the nested list, renders one row per flattened node, in preorder. No row is above the starting level, and exactly the rows with a positive level are indented. |
| AdminCategoriesPage.RenderRowsAt | frontend/app/dashboard/admin/categories/page.tsx:262-296 | Root k is drawn as its own row at the list's level, indented exactly when that level is positive. Its children's rows follow directly, drawn at level + 1 (line 293), and then come the roots after it. |
| AdminCategoriesPage.ChildRowsIndented | frontend/app/dashboard/admin/categories/page.tsx:262-296 | Rows drawn at a positive level, such as the rows of any category's children, are all at that level or deeper and all indented. |
| AdminCategoriesPage.PageView | frontend/app/dashboard/admin/categories/page.tsx:111-124 | Once loading is over, a user whose role is not 1 gets nothing rendered, and role 1 gets the page. |
| DashboardPage.IsActiveStatusExactly | frontend/app/dashboard/page.tsx:129-130 | `IsActiveStatus` (`isActiveStatus`): a status is active exactly when it is "requested", "approved" or "borrowed". |
| DashboardPage.DeriveUserGroups | frontend/app/dashboard/page.tsx:117-140 | A loan of the list is among the user's requests exactly when the user is its borrower. It is among the incoming requests exactly when the user owns its item and someone else borrows it. Both lists are ordered subsequences of the loans: they hold nothing else, in the fetched order. Each of the two lists goes to its active group exactly when a loan's status is active, and to history otherwise. The four groups are ordered subsequences of their parent list. |
| DashboardPage.UserGroupsPartition | frontend/app/dashboard/page.tsx:132-140 | The active and history groups partition the user's requests, and they also partition the incoming requests. Together they hold every loan of the list, and no loan is in both. |
| DashboardPage.IncomingDisjointFromMine | frontend/app/dashboard/page.tsx:117-127 | No incoming request has the user as borrower, so incoming requests and the user's requests share no loan. |
| DashboardPage.DeriveAdminGroups | frontend/app/dashboard/page.tsx:143-151 | An admin loan is pending exactly when its status is "requested". It is active exactly when the status is "approved" or "borrowed", and past exactly when the status is not active. Each group is an ordered subsequence of the admin's loans. |
| DashboardPage.AdminGroupsPartition | frontend/app/dashboard/page.tsx:143-151 | Pending, active and past admin loans are pairwise disjoint and together cover all admin loans. |
| DashboardPage.DeriveStats | frontend/app/dashboard/page.tsx:80-92 | The totals are the array lengths. Active listings are exactly the number of listings whose status is "active", and pending loans exactly the number of `/loans/mine` entries whose status is "requested" (`Count`). Each is at most its total, and a non-array fetch gives zero counts. |
| DashboardPage.StatsCountOneMoreListing | frontend/app/dashboard/page.tsx:80-92 | One more listing raises the active counter by one exactly when its status is "active". |
| Seqs.FilterLengthIsCount | frontend/app/dashboard/page.tsx:80-92 | A filter keeps as many elements as satisfy its predicate, so `filter(...).length` is the count. |
| DashboardPage.ListingsCardTitle | frontend/app/dashboard/page.tsx:217 | The title is the all-listings one exactly when the role is 1 (`isAdmin`). |
| DashboardPage.FormatDate | frontend/app/dashboard/page.tsx:153-158 | A null or empty value gives "-". An unparsable one is returned unchanged. Otherwise the date is rendered. |
| LoansPage.SetStatus | frontend/app/dashboard/users/loans/page.tsx:63-67 | The loan with that id gets the new status. Every other loan and the length are unchanged. |
| LoansPage.SetStatusKeepsIds | frontend/app/dashboard/users/loans/page.tsx:64-66 | The rewrite keeps every position's id and changes nothing but the status. |
| LoansPage.SetStatusLastWins | frontend/app/dashboard/users/loans/page.tsx:78-82 | A later rewrite of the same loan overrides an earlier one. |
| LoansPage.SetStatusCommutes | frontend/app/dashboard/users/loans/page.tsx:63-67 | Rewrites of different loans commute. |
| LoansPage.StatusLabel | frontend/app/dashboard/users/loans/page.tsx:158-183 | A mapped status gets its label. Any other status gets the "requested" label. |
| LoansPage.CancelledShownAsRequested | frontend/app/dashboard/users/loans/page.tsx:183 | "cancelled" is shown as awaiting approval. |
| LoansPage.ShowsActionsExactly | frontend/app/dashboard/users/loans/page.tsx:184-233 | `ShowsActions` (with `IsOwner`, `isOwner`): the buttons show exactly for a requested loan that has an item whose id equals the current user's id. They never show with no user or no item. |
| LoansPage.DecidedLoanLosesActions | frontend/app/dashboard/users/loans/page.tsx:233 | After approve or reject, that loan loses its buttons and the others keep theirs. |
| LoansPage.LoansPage.constructor | frontend/app/dashboard/users/loans/page.tsx:32-47 | The page starts with the fetched loans and no calls. |
| LoansPage.LoansPage.HandleApprove | frontend/app/dashboard/users/loans/page.tsx:58-71 | A declined confirm changes nothing and calls nothing. A failed call leaves the list unchanged. A successful call sets that loan to "approved". |
| LoansPage.LoansPage.HandleReject | frontend/app/dashboard/users/loans/page.tsx:73-86 | The same as approve, with "rejected". |
| ListingsPage.FilteredListings | frontend/app/listings/page.tsx:79-87 | The result is an ordered subsequence. A listing is kept exactly when it matches both the case-insensitive search and the category. |
| ListingsPage.EmptyQueryKeepsCategory | frontend/app/listings/page.tsx:81-82 | An empty query keeps exactly the listings the category allows. |
| ListingsPage.NoFilterKeepsAll | frontend/app/listings/page.tsx:79-87 | An empty query and no category keep every listing. |
| ListingsPage.UncategorisedDropped | frontend/app/listings/page.tsx:83-85 | With a category selected, listings without a category are dropped. |
| ListingsPage.SearchIgnoresQueryCase | frontend/app/listings/page.tsx:80-82 | Lower-casing the query does not change the result. |
| ListingsPage.StatusLabel | frontend/app/listings/page.tsx:203 | "active" is shown as available, and anything else as unavailable. |
| ListingImages.CardImage | frontend/app/listings/page.tsx:160-168 | The first image when there is one, otherwise the placeholder. |
| ListingImages.FirstImageOr | frontend/app/mainPage/page.tsx:88 | Never empty. The first image unless it is missing or empty, otherwise the placeholder. |
| ListingImages.FallbacksAgree | frontend/app/mainPage/page.tsx:88 | The two fallbacks differ only when the first image URL is empty. |
| FiltersPage.FilteredListings | frontend/app/dashboard/filters/page.tsx:52-63 | The result is an ordered subsequence, and a listing is kept exactly when all three conditions hold. The category must be "all" or equal, and the status "all" or equal. The maximum price must be empty or at least the fee. |
| FiltersPage.Reset | frontend/app/dashboard/filters/page.tsx:180-184 | Reset restores category "all", status "all" and an empty maximum price. |
| FiltersPage.ResetKeepsAll | frontend/app/dashboard/filters/page.tsx:180-184 | After a reset, every listing is kept. |
| FiltersPage.UnparsablePriceKeepsNothing | frontend/app/dashboard/filters/page.tsx:59-60 | A maximum price that is not a number keeps nothing. |
| FiltersPage.RenderedListings | frontend/app/dashboard/filters/page.tsx:195 | As written, the page renders the constant `listings` whatever the filters. |
| FiltersPage.RenderedIndependentOfFilters | frontend/app/dashboard/filters/page.tsx:195 | Any two filter states render the same list, and each of the page's listings is in it. |
| FiltersPage.RenderedEqualsFilteredOnlyWhenAllKept | frontend/app/dashboard/filters/page.tsx:195 | The rendering agrees with `filteredListings` exactly when the filters keep both listings. |
| FiltersPage.RenderedIgnoresFilters | frontend/app/dashboard/filters/page.tsx:195 | The game console is rendered under the camera filter that rejects it. |
| FiltersPage.RenderedListingsIntended | frontend/app/dashboard/filters/page.tsx:52-63 | Corrected rendering: exactly the listings the filters keep. With the initial filters, that is every listing. |
| FiltersPage.IntendedRenderingFiltersByCategory | frontend/app/dashboard/filters/page.tsx:53-54 | With the corrected rendering, the camera filter shows only the camera. |
| ReportsPage.FilteredReports | frontend/app/dashboard/admin/reports/page.tsx:22-27 | The result is an ordered subsequence. A report is kept exactly when its user, subject or status contains the search. |
| ReportsPage.EmptySearchKeepsAll | frontend/app/dashboard/admin/reports/page.tsx:24-26 | An empty search keeps every report. |
| ReportsPage.NoMatchWithoutFirstCharacter | frontend/app/dashboard/admin/reports/page.tsx:24-26 | A report none of whose fields holds the search's first character does not match. |
| ReportsPage.CapitalisedSearchFindsNothing | frontend/app/dashboard/admin/reports/page.tsx:22-27 | The comparison is case-sensitive: "Pending" finds no report. |
| ReportsPage.LowerCaseSearchFindsPending | frontend/app/dashboard/admin/reports/page.tsx:22-27 | "pending" finds exactly the two pending reports. |
| ReportsPage.StatusLabel | frontend/app/dashboard/admin/reports/page.tsx:75 | "pending" gets the pending label, and any other status the resolved one. |
| MyListingsPage.RemoveListing | frontend/app/dashboard/users/listings/page.tsx:60 | The result is an ordered subsequence with no listing of that id. Every other listing is kept. |
| MyListingsPage.RemoveAbsentIdKeepsAll | frontend/app/dashboard/users/listings/page.tsx:60 | Removing an id no listing has changes nothing. |
| MyListingsPage.RemoveIdempotent | frontend/app/dashboard/users/listings/page.tsx:60 | Removing the same id twice is removing it once. |
| MyListingsPage.RemoveCountsMatches | frontend/app/dashboard/users/listings/page.tsx:60 | The list shrinks by exactly the number of listings with that id. |
| MyListingsPage.Heading | frontend/app/dashboard/users/listings/page.tsx:53-98 | The header is the all-listings one exactly when the role is 1. |
| MyListingsPage.ShowsCreateLink | frontend/app/dashboard/users/listings/page.tsx:100-107 | The create link shows exactly when the role is not 1. |
| MyListingsPage.StatusLabel | frontend/app/dashboard/users/listings/page.tsx:181 | "active" is shown as active, and anything else as inactive. |
| MyListingsPage.CardImage | frontend/app/dashboard/users/listings/page.tsx:147-155 | The first image when there is one, otherwise the placeholder. |
| MyListingsPage.MyListingsPage.constructor | frontend/app/dashboard/users/listings/page.tsx:41 | The page starts with the fetched listings and no calls. |
| MyListingsPage.MyListingsPage.HandleDelete | frontend/app/dashboard/users/listings/page.tsx:55-64 | A declined confirm calls nothing and changes nothing. A failed call leaves the list unchanged. A success removes exactly the listings with that id. |
| MainPage.DisplayTitle | frontend/app/mainPage/page.tsx:87 | The listing title, else the item title, else "بدون عنوان". Never empty. |
| MainPage.ListingLinkInjective | frontend/app/mainPage/page.tsx:89 | Different ids give different `/listings/{id}` links. |
| MainPage.ToCardItem | frontend/app/mainPage/page.tsx:85-91 | The card keeps the id and the daily fee. Its link is `/listings/{id}`. Its title and image follow the fallbacks. |
| MainPage.ConvertToListingItems | frontend/app/mainPage/page.tsx:78-93 | At most six cards, one for each of the first six listings, in order. |
| MainPage.OnlyFirstSixMatter | frontend/app/mainPage/page.tsx:79 | Listings after the sixth do not change the cards. |
| MainPage.CardsTitledAndDistinctlyLinked | frontend/app/mainPage/page.tsx:85-91 | Every card has a title. Listings with distinct ids get distinct links. |
| MainPage.GetCategoryIcon | frontend/app/mainPage/page.tsx:99-110 | The six known names get their mapped icon, and any other name gets Activity. |
| MainPage.NonDefaultIconOnlyForKnownNames | frontend/app/mainPage/page.tsx:99-110 | Only the five non-sport names get an icon other than Activity. |
| MainPage.CategoryName | frontend/app/mainPage/page.tsx:165 | The title, else the name, else "". |
| MainPage.ParentCategories | frontend/app/mainPage/page.tsx:154-156 | The result is an ordered subsequence that keeps exactly the categories whose parent is missing, null or 0. |
| MainPage.ZeroParentShownAsTopLevel | frontend/app/mainPage/page.tsx:154-156 | A category with parent 0 is shown as top-level. |
| NewListingPage.DefaultForm | frontend/app/dashboard/users/listings/new/page.tsx:22-31 | The form opens empty, with status "active". |
| NewListingPage.RequiredMissing | frontend/app/dashboard/users/listings/new/page.tsx:58 | Submit passes exactly when item, title, daily fee, deposit and both dates are non-empty. |
| NewListingPage.DefaultFormRefused | frontend/app/dashboard/users/listings/new/page.tsx:22-31 | The opening form cannot be submitted. |
| NewListingPage.DescriptionAndStatusNotRequired | frontend/app/dashboard/users/listings/new/page.tsx:58 | Description and status do not affect the check. |
| NewListingPage.DatesNotCompared | frontend/app/dashboard/users/listings/new/page.tsx:58 | A form whose end date precedes its start date passes the check. |
| NewListingPage.BuildPayload | frontend/app/dashboard/users/listings/new/page.tsx:65-74 | Text fields are copied. Digit text in the item id, fee and deposit reaches the API as its value. |
| NewListingPage.PayloadReadsRenderedFee | frontend/app/dashboard/users/listings/new/page.tsx:69 | A fee typed as an integer's rendering reaches the API as that integer. |
| NewListingPage.FailureMessage | frontend/app/dashboard/users/listings/new/page.tsx:77 | The server's message, or the default error when it is empty. |
| NewListingPage.NewListingPage.constructor | frontend/app/dashboard/users/listings/new/page.tsx:17-31 | The page starts with the default form, no error, nothing sent. |
| NewListingPage.NewListingPage.HandleSubmit | frontend/app/dashboard/users/listings/new/page.tsx:54-81 | The error is cleared first. A form with a missing field gets the required-fields error and sends nothing. Otherwise the form is submitted exactly once, its body being `BuildPayload` of the form, and a success navigates while a failure shows its message. |
| MessagesPage.FindOther | frontend/app/dashboard/users/messages/page.tsx:107 | The first participant whose id differs from the user's. Nothing exactly when every participant is the user. |
| MessagesPage.GetOtherUser | frontend/app/dashboard/users/messages/page.tsx:105-108 | Nothing when participants or the user are missing, otherwise the first other participant. |
| MessagesPage.OtherUserIsNotSelf | frontend/app/dashboard/users/messages/page.tsx:105-108 | The other user shown is never the signed-in user. |
| MessagesPage.OtherUserOfPair | frontend/app/dashboard/users/messages/page.tsx:107 | In a two-person conversation, each side sees the other. |
| MessagesPage.IsOwn | frontend/app/dashboard/users/messages/page.tsx:206 | A message is own exactly when a user is signed in and is its sender. |
| MessagesPage.Minutes | frontend/app/dashboard/users/messages/page.tsx:114 | The whole minutes rounded down: `60000*m <= diff < 60000*(m+1)`. |
| MessagesPage.Bucket | frontend/app/dashboard/users/messages/page.tsx:110-119 | Under a minute, including negative differences, gives "now". Under an hour gives minutes (1 to 59), and under a day gives hours (1 to 23, `floor(m/60)`). Otherwise, or for an unreadable date, the date is shown. |
| MessagesPage.BucketBoundaries | frontend/app/dashboard/users/messages/page.tsx:117-119 | Exactly 60 minutes gives 1 hour, and exactly 1440 minutes gives the date. |
| MessagesPage.FutureMessageIsNow | frontend/app/dashboard/users/messages/page.tsx:116 | A negative difference reads "now". |
| MessagesPage.FormatTime | frontend/app/dashboard/users/messages/page.tsx:110-120 | Each bucket is written with its Persian text and number. The date bucket uses the locale date. |
| MessagesPage.MessagesPage.constructor | frontend/app/dashboard/users/messages/page.tsx:40-45 | The page starts with empty text, no conversation and no messages. |
| MessagesPage.MessagesPage.HandleSendMessage | frontend/app/dashboard/users/messages/page.tsx:86-103 | Blank text or no open conversation changes nothing. Otherwise the text is sent, and a failed send alerts and keeps the text. A successful send clears the text and reloads the messages. A failed reload alerts too. |

## Left out

- HTTP, the API client, `useEffect` fetching, routing, `localStorage` authentication, `confirm` and rendering are not modelled. Each API outcome and each confirm answer is a parameter of the handler that uses it.
- Laravel middleware is not modelled; a request reaches validation as sent. `required` is modelled with PHP's `trim` characters, and the `string` rule is captured by typing.
- The categories migration is not part of this model, so what deleting a parent does to its children is unknown. `CategoryTable.Destroy` removes the one row.
- Soft deletion, timestamps and the order of rows in `index` are not modelled. The index is keyed by id.
- Authorization ("Admin only") is route middleware and is not modelled.
- `JSON.parse` of `images_json` is not modelled: images are already a `seq<string>`.
- `toLocaleDateString`, `toLocaleString` and date parsing are not modelled. `DashboardPage.FormatDate` takes the parser and renderer as parameters, and `MessagesPage.FormatTime` takes the time difference and the locale date.
- `toLowerCase` is modelled for ASCII letters only, and `trim` for ASCII white space, the no-break space and the byte-order mark.
- NewListingPage.BuildPayload: `parseFloat` fractions and exponents are not modelled; the fee and deposit are read like `parseInt`.
- FiltersPage.FilteredListings: `Number` with a fraction or exponent is not modelled; `Number` reads integer text only.
- `parseInt` is modelled in base ten only.
- Lookups in `statusMap` and `categoryIcons` ignore inherited object keys such as "constructor".
- The loan lifecycle on the server (approve, reject, borrow, return) is not modelled. Only the page's list update is.
- LoansPage.LoansPage.HandleApprove, LoansPage.LoansPage.HandleReject and MyListingsPage.MyListingsPage.HandleDelete do not record the failure alerts (loans page.tsx:69 and :84, listings page.tsx:62). On failure they keep the list, and only the `alert` text goes unmodelled. MessagesPage is the only page whose alerts are recorded.
- LoansPage.ShowsActionsExactly: on a loan without an item, the source throws while rendering the card (`loan.listing.item.images_json`, loans page.tsx:186), before the buttons are reached. The model does not capture that crash: it renders the card and shows no buttons.
- The search inputs, form field edits and the "show form" toggles are plain state assignments and are not modelled.

## Findings

| source | as written | input that shows it | evidently intended | confidence | as-written member | corrected member |
|---|---|---|---|---|---|---|
| frontend/app/dashboard/admin/categories/page.tsx:68-69 | An empty parent choice or description is sent as `undefined`, so the field is dropped from the update body, and Laravel keeps the old value | Editing a category whose parent is 3, choosing "no parent" and saving | The field is sent as `null`, so the category becomes a root and the description is cleared | not executed | AdminCategoriesPage.NoParentChoiceKeepsParent | AdminCategoriesPage.NoParentChoiceMakesRoot |
| frontend/app/dashboard/filters/page.tsx:195 | The cards are rendered from `listings`, so the filters have no visible effect | Category set to "دوربین": the game console is still rendered | The cards are rendered from `filteredListings` | not executed | FiltersPage.RenderedIgnoresFilters | FiltersPage.IntendedRenderingFiltersByCategory |
