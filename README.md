# count88_admin list and form logic, in Dafny

count88_admin is the Next.js admin dashboard of an e-commerce shop. Each of its screens follows the same pattern:

- it fetches a collection from a REST backend;
- it derives a searched, filtered and sorted view of it;
- it runs handlers that patch the held snapshot or send a request.

This project models the logic of those screens in Dafny and proves what each one promises:

- the list views (queries, collections, orders, customers, categories, tags, users, products, coupons);
- the selection toggles of the add-product form (tags and shoe sizes);
- the add-product and add-coupon forms (validation, payload, messages);
- the category picker (response-shape normalisation and the lookup by id, then by name);
- the session cookie logic of `lib/auth.js`.

**Layout.** There is one module per source file. Each module has:

- pure functions for the memos and request builders;
- a class for the screen's state, whose methods are the handlers. Methods carry `modifies` and `old(...)` contracts that state the whole new state.

Four foundation modules hold what the screens share:

- `Wrappers`: JavaScript's `null`/`undefined` as `Option`, and a request's outcome as `Fetch.Outcome`.
- `Text`: concrete definitions of `toLowerCase`, `includes`, `trim`, `localeCompare` and `Number()`, with their properties.
- `Seqs`: `filter` and `find`.
- `Sorting`: `Array.prototype.sort`. The JavaScript sort is stable, so a comparator `cmp` determines the result. The model turns `cmp` into the relation `le(a, b) == (cmp(a, b) <= 0)` and defines the sort as a stable insertion sort over `le`. `Sorting.SortArray` sorts an `array` in place and is proved to give exactly that function. Where a screen sorts an array (collections, customers, users), the model sorts one too.

**Inputs.** Everything the screens get from outside becomes a parameter:

- a request's result is a `Fetch.Outcome`: either `Threw`, or a response with `res.ok` and its parsed body;
- a `window.confirm` answer is `confirmed`;
- a `Date.now()` id is `freshId`;
- the API base URL is `apiUrl`;
- `NODE_ENV === "production"` is `production`;
- the message of a thrown error is `thrown`;
- `typeof onChange === "function"` is `hasHandler`.

## Model

| member | source | states |
|---|---|---|
| Text.Lower | app/queries/page.jsx:41-43 | `toLowerCase` keeps the length, leaves no upper-case letter and keeps every other character |
| Text.LowerIdempotent | app/queries/page.jsx:41-43 | lowering twice is lowering once |
| Text.ContainsIff | app/queries/page.jsx:41-43 | `s.includes(t)` holds iff t occurs in s at some offset |
| Text.Trim | app/collections/page.jsx:41 | `trim` gives "" exactly for all-white strings; otherwise the result starts and ends with non-white; it is a block of s with only white outside it |
| Text.StrLeOrder | app/collections/page.jsx:47-50 | the string order standing for `localeCompare(a, b) <= 0` is total and transitive |
| Text.StrLeAntisymmetric | app/collections/page.jsx:47-50 | for the code-point stand-in only: distinct strings never compare equal both ways (locale collation can tie distinct strings, so this is not a property of `localeCompare`) |
| Text.ParseNum | app/products/addproducts/page.jsx:32-40 | `Number(s)` is 0 for a blank string and the decimal value for a string of digits |
| Seqs.Filter | app/queries/page.jsx:39-47 | `filter` keeps exactly the elements satisfying the predicate and grows nothing |
| Seqs.FilterMultiset | app/queries/page.jsx:39-47 | `filter` keeps each satisfying element as often as it occurs and drops the rest |
| Seqs.FilterSubsequence | app/queries/page.jsx:36-50 | `filter` keeps the original order |
| Seqs.FilterIdempotent | app/orders/page.jsx:35-48 | filtering twice with one predicate is filtering once |
| Seqs.FilterFuse | app/customers/page.jsx:68-80 | two filters in a row are one filter by the conjunction |
| Seqs.Find | components/add-product/CategorySelector.jsx:44-45 | `find` returns the first match, and returns none iff nothing matches |
| Sorting.Sort | app/collections/page.jsx:47-55 | the sort keeps the length of its input |
| Sorting.SortMultiset | app/collections/page.jsx:47-55 | the sort is a permutation of its input: each element occurs in the output as often as in the input |
| Sorting.SortSorted | app/collections/page.jsx:47-55 | for a consistent comparator the output is ordered |
| Sorting.SortStable | app/orders/page.jsx:51-55 | mutually tied elements keep their input order |
| Sorting.SortIdempotent | app/orders/page.jsx:51-55 | sorting a sorted list again changes nothing |
| Sorting.SortArray | app/collections/page.jsx:48 | sorting an array in place leaves exactly the sort of its old contents |
| Sorting.FlipDirection | app/categories/page.jsx:79 | the direction button turns "asc" into "desc" and everything else into "asc" |
| Sorting.FlipDirectionTwice | app/categories/page.jsx:79 | two presses restore "asc" or "desc" |
| QueriesPage.FilteredQueries | app/queries/page.jsx:36-50 | a query is in the view iff it matches the search (name, or a present email or message, lowered), when the term is not empty, and has the status, unless the filter is "All"; the view is a subsequence of `queries` and keeps every kept query as often as it occurs |
| QueriesPage.EmptySearchIsStatusFilter | app/queries/page.jsx:38-48 | an empty search does no text filtering; the view is the status-filtered list |
| QueriesPage.ReplaceById | app/queries/page.jsx:62-64 | the length is kept; each record with `_id == id` becomes the returned one and the others stay |
| QueriesPage.RemoveById | app/queries/page.jsx:83 | exactly the records with other ids stay, in order and with their multiplicities |
| QueriesPage.QueriesScreen.constructor | app/queries/page.jsx:8-14 | the initial state |
| QueriesPage.QueriesScreen.FetchQueries | app/queries/page.jsx:19-31 | any parsed body replaces the snapshot; a throw keeps it; loading ends |
| QueriesPage.QueriesScreen.HandleStatusChange | app/queries/page.jsx:53-72 | any response body is patched in by `_id`, whether or not the response is ok; a throw keeps the snapshot; `updating` ends false |
| QueriesPage.QueriesScreen.AskDelete | app/queries/page.jsx:182-185 | the row's delete button stores the id and opens the confirmation |
| QueriesPage.QueriesScreen.CancelDelete | app/queries/page.jsx:220 | Cancel closes the confirmation and keeps the id |
| QueriesPage.QueriesScreen.HandleDelete | app/queries/page.jsx:75-96 | with no truthy `deleteId` nothing changes; otherwise only an ok response removes the records, and `deleteId`, `confirmDelete` and `updating` are cleared in every outcome |
| CollectionsPage.SortRelation | app/collections/page.jsx:47-55 | exactly "az", "za", "latest" and "oldest" select a comparator, and each is a total preorder |
| CollectionsPage.Searched | app/collections/page.jsx:41-45 | a blank trimmed search keeps every collection; otherwise a collection is kept iff its lowered title contains the lowered, untrimmed search; order is kept, and each kept collection occurs as often as in the input |
| CollectionsPage.CollectionsView | app/collections/page.jsx:38-58 | `filtered` is a permutation of the searched list and has the same members |
| CollectionsPage.BlankSearchKeepsAll | app/collections/page.jsx:41-45 | a blank search gives a permutation of all collections |
| CollectionsPage.ViewOrdered | app/collections/page.jsx:47-55 | "az" gives non-decreasing titles, "za" non-increasing titles, "latest" non-increasing `createdAt`, "oldest" non-decreasing `createdAt` |
| CollectionsPage.UnknownSortKeepsOrder | app/collections/page.jsx:39-57 | any other sort value leaves the searched list in source order |
| CollectionsPage.SubmitRequest | app/collections/page.jsx:63-75 | a blank title sends nothing; a truthy `editingId` sends a PUT to `.../{id}/edit-name`, otherwise a POST to the collection URL; the body carries the untrimmed title |
| CollectionsPage.DeleteRequest | app/collections/page.jsx:86-89 | a DELETE of the record URL is sent iff the user confirmed |
| CollectionsPage.ToggleStatusRequest | app/collections/page.jsx:97-99 | a PATCH of `.../{id}/toggle-status` |
| CollectionsPage.RecordUrlsIdentifyTheRecord | app/collections/page.jsx:66-99 | the rename, toggle and delete URLs of a record start with the collection URL and a slash, and two ids give the same URL only when they are equal |
| CollectionsPage.CollectionsScreen.constructor | app/collections/page.jsx:6-12 | the initial state, with sort "latest" |
| CollectionsPage.CollectionsScreen.FetchCollections | app/collections/page.jsx:19-31 | a parsed body becomes both `collections` and `filtered`; a throw keeps them; loading ends |
| CollectionsPage.CollectionsScreen.RecomputeView | app/collections/page.jsx:38-58 | the effect stores `CollectionsView` of the current inputs, sorting an array copy in place |
| CollectionsPage.CollectionsScreen.HandleSubmit | app/collections/page.jsx:61-83 | sends `SubmitRequest`; when a request went out and did not throw, `title` is "" and `editingId` is null; otherwise the form is kept |
| CollectionsPage.CollectionsScreen.HandleEdit | app/collections/page.jsx:107-110 | `title := col.title`, `editingId := col._id`; nothing else changes |
| CollectionsPage.CollectionsScreen.CancelEdit | app/collections/page.jsx:153-156 | Cancel clears the title and the editing id |
| OrdersPage.Selected | app/orders/page.jsx:31-48 | an order is kept iff it matches the search (customer name, or some product name, lowered), when the term is not empty, and has the status, unless "All"; order is kept |
| OrdersPage.SelectedCounts | app/orders/page.jsx:35-48 | the filter steps keep each matching order as often as it occurs and drop every other order |
| OrdersPage.FilteredOrders | app/orders/page.jsx:31-58 | the memo is a permutation of exactly the orders satisfying both predicates |
| OrdersPage.OrdersSorted | app/orders/page.jsx:51-55 | "date" gives non-increasing `createdAt`; "amount" gives non-increasing `totalAmount` |
| OrdersPage.NoSortKeepsOrder | app/orders/page.jsx:31-57 | without "date" or "amount" the surviving orders keep their relative order |
| OrdersPage.SortKeepsTiesInOrder | app/orders/page.jsx:51-52 | orders with equal `createdAt` keep their filtered order under "date" |
| OrdersPage.FilteredOrdersIdempotent | app/orders/page.jsx:31-58 | recomputing the memo over its own result gives the same sequence |
| CustomersPage.Selected | app/customers/page.jsx:64-80 | a customer is kept iff it matches the search (name and email lowered, phone raw), when the term is not empty, and has the status, unless "All" |
| CustomersPage.SelectedIsOneFilter | app/customers/page.jsx:68-80 | the two steps equal one filter by the conjunction |
| CustomersPage.SortRelation | app/customers/page.jsx:83-91 | exactly "orders", "spent" and "registered" sort, each by a total preorder |
| CustomersPage.CustomersView | app/customers/page.jsx:64-94 | the memo is a permutation of the customers satisfying both predicates; its length is their number |
| CustomersPage.ViewMembers | app/customers/page.jsx:64-94 | the memo holds exactly the customers satisfying both predicates |
| CustomersPage.ViewSorted | app/customers/page.jsx:83-91 | every sort is descending: by `totalOrders`, by `totalSpent`, by registration date |
| CustomersPage.NoSortKeepsOrder | app/customers/page.jsx:82-93 | without a recognised key the filtered order is kept |
| CustomersPage.PhoneIsCaseSensitive | app/customers/page.jsx:70-73 | a phone "A" does not match the term "a", while a name "A" does |
| CustomersPage.CustomersScreen.constructor | app/customers/page.jsx:7-62 | the held array holds the initial customers |
| CustomersPage.CustomersScreen.FilteredCustomers | app/customers/page.jsx:64-94 | the memo is `CustomersView` of the array contents it starts from; with no search and no status filter the held array itself is reordered to the memo, otherwise it is untouched; its multiset never changes |
| CategoriesPage.NameOrder | app/categories/page.jsx:33-35 | the comparator is a total preorder in either direction |
| CategoriesPage.Selected | app/categories/page.jsx:23-31 | the search always runs: a category is kept iff its lowered name or some lowered subcategory contains the lowered term, and its name equals the filter unless "All"; order is kept, and each kept category occurs as often as in the input |
| CategoriesPage.FilteredCategories | app/categories/page.jsx:22-36 | the memo is a permutation of the selected categories |
| CategoriesPage.EmptySearchMatchesAll | app/categories/page.jsx:23-27 | an empty term matches every category |
| CategoriesPage.FilteredCategoriesSorted | app/categories/page.jsx:33-35 | names are non-decreasing for "asc" and non-increasing for any other order |
| CategoriesPage.CategoryOptions | app/categories/page.jsx:38 | "All" followed by every category name, in order |
| CategoriesPage.OptionsOfAppended | app/categories/page.jsx:38-43 | an appended category adds its name as the last option |
| CategoriesPage.AddSubcategory | app/categories/page.jsx:50-54 | every category named `selectedCategory` gains the subcategory at the end; all others are unchanged; the length is kept |
| CategoriesPage.AddSubcategoryKeepsOptions | app/categories/page.jsx:50-54 | adding a subcategory leaves the options unchanged |
| CategoriesPage.CategoriesScreen.constructor | app/categories/page.jsx:6-20 | the initial state, with the given categories |
| CategoriesPage.CategoriesScreen.HandleAddCategory | app/categories/page.jsx:41-45 | a blank name changes nothing; otherwise `{fresh id, trimmed name, []}` is appended to the untouched list and the input is cleared |
| CategoriesPage.CategoriesScreen.HandleAddSubcategory | app/categories/page.jsx:48-56 | with no selected category or a blank input nothing changes; otherwise `AddSubcategory` with the trimmed input applies and the input is cleared |
| CategoriesPage.CategoriesScreen.ToggleSortOrder | app/categories/page.jsx:79 | the sort button flips the direction |
| TagsPage.NameOrder | app/tags/page.jsx:31-35 | the comparator is a total preorder in either direction |
| TagsPage.Selected | app/tags/page.jsx:23-29 | a tag is kept iff its lowered name contains the lowered search and its name equals the filter unless "All"; order is kept, and each kept tag occurs as often as in the input |
| TagsPage.FilteredTags | app/tags/page.jsx:22-36 | the memo is a permutation of the selected tags |
| TagsPage.FilteredTagsSorted | app/tags/page.jsx:31-35 | names are non-decreasing for "asc" and non-increasing otherwise |
| TagsPage.TagOptions | app/tags/page.jsx:38 | "All" followed by every tag name, in order |
| TagsPage.AddTagError | app/tags/page.jsx:41-49 | a blank name gives "Tag name cannot be empty"; otherwise a name equal to an existing one, lowered, gives "Tag already exists"; otherwise there is no error |
| TagsPage.AddKeepsNamesUnique | app/tags/page.jsx:46-51 | adding an accepted tag keeps names unique up to case |
| TagsPage.RemoveById | app/tags/page.jsx:59 | exactly the tags with other ids stay, in order and each as often as it occurred |
| TagsPage.TagsScreen.constructor | app/tags/page.jsx:6-20 | the initial state, with the given tags |
| TagsPage.TagsScreen.HandleAddTag | app/tags/page.jsx:40-55 | a refused name only sets its error; an accepted one appends exactly one tag with the trimmed name, clears the input and the error and closes the dialog |
| TagsPage.TagsScreen.HandleDeleteTag | app/tags/page.jsx:57-61 | a confirmed delete removes exactly the tags with that id; an unconfirmed one changes nothing |
| TagsPage.TagsScreen.OpenDialog | app/tags/page.jsx:102 | the Add Tag button opens the dialog |
| TagsPage.TagsScreen.CancelDialog | app/tags/page.jsx:168-170 | Cancel closes the dialog and clears the error |
| TagsPage.TagsScreen.ToggleSortOrder | app/tags/page.jsx:91-92 | the sort button flips the direction |
| UsersPage.UserIdOrDash | app/users/page.jsx:28 | `u.userId \|\| "-"` is never empty: the id when truthy, else "-" |
| UsersPage.Normalize | app/users/page.jsx:26-29 | the length is kept; every `userId` becomes truthy, a falsy one becomes "-", and no other field changes |
| UsersPage.NormalizeIdempotent | app/users/page.jsx:26-29 | normalising twice is normalising once |
| UsersPage.Searched | app/users/page.jsx:45-54 | with a non-empty search a user is kept iff a present name, email or `userId`, lowered, contains the lowered term; a missing field never matches; order is kept, and each kept user occurs as often as in the input |
| UsersPage.SortRelation | app/users/page.jsx:56-81 | exactly the six sort keys select a comparator, each a total preorder |
| UsersPage.UsersView | app/users/page.jsx:44-84 | `filteredUsers` is a permutation of the searched users |
| UsersPage.UsersViewSorted | app/users/page.jsx:56-78 | name and email keys order that field ascending or descending; date keys order `createdAt` |
| UsersPage.UnknownSortKeepsOrder | app/users/page.jsx:79-81 | an unrecognised `sortBy` keeps the searched order |
| UsersPage.NormalizedUsersFindable | app/users/page.jsx:26-52 | after normalisation, every user matches a search for its own `userId` |
| UsersPage.UsersScreen.constructor | app/users/page.jsx:7-12 | the initial state, with sort "name-asc" |
| UsersPage.UsersScreen.FetchUsers | app/users/page.jsx:17-38 | an ok response stores the normalised users in both lists; a non-ok one sets "Failed to fetch users" and a throw sets its own message, the lists unchanged; loading ends |
| UsersPage.UsersScreen.RecomputeView | app/users/page.jsx:44-84 | the effect stores `UsersView`, sorting an array copy in place |
| ProductsPage.FilteredProducts | app/products/page.jsx:51-56 | a product is kept iff a present name, brand or category, lowered, contains the lowered term; order is kept, and each kept product occurs as often as in the input |
| ProductsPage.EmptySearchKeepsProductsWithAField | app/products/page.jsx:51-56 | an empty search keeps exactly the products having a name, a brand or a category |
| ProductsPage.RemoveById | app/products/page.jsx:43 | exactly the products with other ids stay, in order and each as often as it occurred |
| ProductsPage.ProductsScreen.constructor | app/products/page.jsx:10-12 | the initial state |
| ProductsPage.ProductsScreen.FetchProducts | app/products/page.jsx:16-31 | only an ok response replaces the list; loading ends |
| ProductsPage.ProductsScreen.HandleDelete | app/products/page.jsx:36-48 | without confirmation nothing is sent and nothing changes; a confirmed delete removes the product only on an ok response |
| CouponsPage.CodeOrder | app/coupons/page.jsx:23-27 | the comparator is a total preorder in either direction |
| CouponsPage.FilteredCoupons | app/coupons/page.jsx:16-28 | the memo is a permutation of the coupons whose lowered code, discount or expiry contains the lowered search |
| CouponsPage.FilteredCouponsSorted | app/coupons/page.jsx:23-27 | codes are non-decreasing for "asc" and non-increasing otherwise |
| CouponsPage.EmptySearchKeepsAll | app/coupons/page.jsx:17-21 | an empty search gives a permutation of all coupons |
| AddCouponPage.BuildPayload | app/coupons/add/page.jsx:24-35 | code, type, `Number(discountValue)`, expiry and `isActive` always come from the form; `maxDiscount` is present iff the type is "PERCENTAGE" and the field is non-empty, as `Number(maxDiscount)` |
| AddCouponPage.FlatHasNoMaxDiscount | app/coupons/add/page.jsx:33 | a FLAT payload never carries `maxDiscount` |
| AddCouponPage.SubmitMessage | app/coupons/add/page.jsx:46-61 | ok gives "Coupon added successfully!"; not ok gives the server message if truthy, else "Failed to add coupon"; a throw gives "Something went wrong"; success iff ok |
| AddCouponPage.AddCouponScreen.constructor | app/coupons/add/page.jsx:6-16 | the default form, not loading, no message |
| AddCouponPage.AddCouponScreen.HandleSubmit | app/coupons/add/page.jsx:18-65 | posts `BuildPayload(form)` and shows `SubmitMessage`; only an ok response resets the form to its defaults; loading is false in every case |
| AddProductPage.WithField | app/products/addproducts/page.jsx:18-21 | the named field takes the value and every other field is unchanged |
| AddProductPage.WithFieldUnchanged | app/products/addproducts/page.jsx:18-21 | writing a field's own value changes nothing |
| AddProductPage.ValidateProduct | app/products/addproducts/page.jsx:25-40 | in this order: an empty required field (status not checked) gives "Please fill all the fields"; a NaN or non-positive price gives the price error; a NaN or negative stock gives the stock error; when none applies, price > 0 and stock >= 0 |
| AddProductPage.DigitFormAccepted | app/products/addproducts/page.jsx:32-40 | a filled form with a positive integer price and an integer stock passes |
| AddProductPage.AddProductScreen.constructor | app/products/addproducts/page.jsx:8-16 | the empty form with status "Active", no error |
| AddProductPage.AddProductScreen.HandleChange | app/products/addproducts/page.jsx:18-21 | only the named field of `formData` changes |
| AddProductPage.AddProductScreen.HandleSubmit | app/products/addproducts/page.jsx:23-59 | a refused form keeps its data and shows the first failing check; an accepted one is reset with status "Active" and the error is cleared |
| CategorySelector.CategoriesFrom | components/add-product/CategorySelector.jsx:19-31 | an ok array body is taken as is; an ok `{data: array}` gives the inner array; every other shape, a non-ok response and a throw give [] |
| CategorySelector.SelectedCategory | components/add-product/CategorySelector.jsx:43-46 | the first category with that `_id`; failing that, the first with that name; null iff neither exists |
| CategorySelector.IdMatchWins | components/add-product/CategorySelector.jsx:43-46 | an id match takes precedence over a name match |
| CategorySelector.SelectValue | components/add-product/CategorySelector.jsx:80 | the select shows the selected category's id, or "" |
| CategorySelector.CategoryChange | components/add-product/CategorySelector.jsx:49-53 | `onChange` is called only when it is a function, with the chosen id's name (or "" for an unknown id) and an empty subcategory |
| CategorySelector.SubcategoryChange | components/add-product/CategorySelector.jsx:56-62 | `onChange` is called only when it is a function, with the selected category's name (or the raw prop) and the new subcategory |
| CategorySelector.PickThenSub | components/add-product/CategorySelector.jsx:49-62 | picking a listed category and then a subcategory reports that category's name both times |
| CategorySelector.CategorySelectorState.constructor | components/add-product/CategorySelector.jsx:11-12 | no categories, loading |
| CategorySelector.CategorySelectorState.FetchCategories | components/add-product/CategorySelector.jsx:15-35 | stores `CategoriesFrom(outcome)`; loading ends |
| Selection.Toggle | components/add-product/TagSelector.jsx:29-37 | membership of the item flips and no other membership changes; an absent item is appended; a present one loses every occurrence, the rest keep their order and counts |
| Selection.ToggleTwice | components/add-product/TagSelector.jsx:29-37 | toggling an absent item twice restores the list |
| Selection.ToggleDistinct | components/add-product/TagSelector.jsx:29-37 | a duplicate-free list stays duplicate-free |
| Selection.ToggleWithin | components/add-product/sizeSelector.jsx:6-16 | toggling an item of a pool keeps a selection within that pool |
| TagSelector.ToggleTag | components/add-product/TagSelector.jsx:29-37 | toggling by `tag.name`: that name's membership flips, others stay; absent is appended; present is removed everywhere |
| TagSelector.ToggleTagTwice | components/add-product/TagSelector.jsx:29-37 | toggling the same absent tag twice is a round trip |
| AddProductTags.Names | components/add-product/tags.jsx:52-56 | one name per fetched tag, in order |
| AddProductTags.ToggleTag | components/add-product/tags.jsx:29-37 | the list handed to `onChange`: the name's membership flips, others stay; absent is appended; present is removed everywhere |
| AddProductTags.ToggleTagTwice | components/add-product/tags.jsx:29-37 | a double toggle of an absent name is the identity |
| AddProductTags.ToggleKeepsFetchedNames | components/add-product/tags.jsx:52-56 | clicking fetched tags keeps the selection within the fetched names |
| SizeSelector.SizesAreUkThreeToNine | components/add-product/sizeSelector.jsx:6 | the sizes are the seven distinct strings "UK 3" to "UK 9", in order |
| SizeSelector.ToggleSize | components/add-product/sizeSelector.jsx:8-16 | a selected size is removed, an unselected one is appended; other memberships stay |
| SizeSelector.ToggleSizeValid | components/add-product/sizeSelector.jsx:6-16 | a duplicate-free selection of offered sizes stays one |
| SizeSelector.ToggleSizeTwice | components/add-product/sizeSelector.jsx:8-16 | two toggles from an unselected state restore the selection |
| Auth.SessionCookie | lib/auth.js:6-11 | value "valid", `httpOnly`, `maxAge` 86400, path "/", `secure` iff production |
| Auth.CookieStore.IsAuthenticated | lib/auth.js:21-23 | true iff the "session" cookie is present and its value is "valid"; a missing cookie is never authenticated |
| Auth.CookieStore.Login | lib/auth.js:3-15 | succeeds iff the user is "admin" with "password123"; success sets the session cookie and nothing else, and then `isAuthenticated` holds; failure returns "Invalid credentials" and leaves the store unchanged |
| Auth.CookieStore.Logout | lib/auth.js:17-19 | only the session cookie is deleted, and `isAuthenticated` is then false |
| Auth.LoginThenLogout | lib/auth.js:3-23 | after a login with the accepted credentials `isAuthenticated` answers true (`between`), and after the following logout it answers false |

## Behaviour worth noting

- The search string is never trimmed. The collections screen only tests `search.trim()` to decide whether to filter, and then matches the untrimmed string.
- The queries status update (`handleStatusChange`) patches the response body into the list whether or not `res.ok` holds.
- The queries and collections fetches store any parsed body, including the body of an error response.
- On the customers screen, with no search and status "All", the memo sorts the held `customers` array in place, so the held state is reordered.
- The collections submit, delete and toggle ignore the response status. The collections form is cleared whenever the request did not throw.

## Left out

- Network and browser I/O is out of scope: `fetch`, `res.json()`, `toast`, `console.error`, `alert`, `router.push` and the `confirm` dialog. Their results are parameters, listed above.
- React scheduling is not modelled. Each handler runs to completion. An effect runs when `RecomputeView` is called. Input setters such as `setSearch` are plain field assignments and have no methods. Concurrent or interleaved requests are not modelled.
- The fetch effect of the orders screen is left out. It stores the body the way the queries fetch does, so the orders screen is modelled by its memo only.
- The customers, categories, tags and coupons screens start from fixed demo lists. The constructors take the initial list as a parameter instead of spelling out the demo records.
- Rendering, styling, the loading and `updating` overlays, and the toast texts are not modelled.
- Text.Lower: folds only the ASCII letters A-Z. Unicode case mapping of `toLowerCase` is not modelled.
- Text.StrLe: `localeCompare` is taken as code-point lexicographic order. Locale collation is not modelled.
- Text.ParseNum: covers decimal literals with optional sign, point and surrounding white space, as exact reals. Exponents, hexadecimal, binary and octal literals, "Infinity" and floating-point rounding are not modelled.
- Dates are integer timestamps. Parsing date strings is not modelled. Neither is the NaN a comparator returns for an invalid date, which the JavaScript sort treats as "equal".
- UsersPage.UsersView: with a name or email sort key, a user without that field throws when it is the receiver of `localeCompare` (`a.name.localeCompare(...)`). When it is the argument, `localeCompare(undefined)` compares against the string "undefined". The model sorts such a user as if the field were "" in both positions.
- UsersPage.UsersScreen.FetchUsers: a body that is not an array makes `data.map` throw. The model takes the body as a list of users, so that path is missing.
- QueriesPage.QueriesScreen.FetchQueries: the body is typed as a list of queries. An error body such as `{message: ...}` stored on a non-ok response cannot be expressed, nor the TypeError the memo's `[...queries]` spread then raises.
- CollectionsPage.CollectionsScreen.FetchCollections: the body is typed as a list of collections. An error body stored on a non-ok response cannot be expressed, nor the TypeError the effect's `[...collections]` spread then raises.
- ProductsPage.ProductsScreen.FetchProducts: the body is typed as a list of products. An ok response whose body is not an array cannot be expressed, nor the `.filter` TypeError the memo then raises.
- AddCouponPage.BuildPayload: `expiryDate` is kept as the form string rather than `new Date(...)`. The null that `JSON.stringify` writes for NaN or for an invalid date is not modelled.
- CollectionsPage.CollectionsScreen.HandleSubmit: the `fetchCollections()` that follows a save, delete or toggle is a separate `FetchCollections` call.
