# Equipment management: access control, validation and repositories in Dafny

This project models the server core of a browser-based equipment and inventory
management system. The server has session-authenticated CRUD over equipment,
categories, users, shopping carts and product images. The model also covers the
three client pages whose logic is more than DOM work: registration, the product
browser and the dashboard statistics.

What is modelled:

- **Validation layer.** `EquipmentModel`, `UserModel` and `CategoryModel` hold the
  per-entity `validate` functions. Each takes an untrusted JSON body and returns
  either an error message (the field errors joined by spaces) or the sanitised,
  HTML-escaped field map. Every field rule is also stated as a predicate
  (`IsAcceptable`). Validation succeeds exactly when the input satisfies it.
- **Repositories.** Each table is a class: a `seq` of rows and the next auto-increment
  id, with an invariant `Valid()` (ids below the counter, unique ids and unique keys).
  The classes are `EquipmentTable`, `UserTable`, `CategoryTable`, `ImageTable` and
  `Cart`. Each query is a function on the rows. Each statement that writes is a
  method whose `ensures` gives the new table by a function of the old one. Lemmas
  relate those functions: after an update, lookups find the new row and the others
  are unchanged; deletion removes only one row; there is at most one primary image
  per product; the cart count rises by the added quantity.
- **Access control and request handlers.** The models cover the five routers
  (`api/*.php`), the controllers, and `api/cart.php`, `api/profile.php` and
  `api/users.php`. Each handler is a pure `…Check` function that returns the first
  failing guard's response, in the source's order, or the validated data. A method
  does the write and builds the response. A guarded failure never changes a table.
- **Uploads.** `ImageUploadController` covers the per-file checks in the source's
  order, including the inclusive 5 MB limit. It also covers the batch loop where
  only the first upload may become primary, and the response: 400 when every file
  failed, and warnings when some failed. Files on disk are a `FileStore` class
  holding a set of paths.
- **Client pages.** `RegisterPage` has the registration checks. It includes a
  decision procedure for the e-mail regular expression, proved equal to the
  pattern's meaning. `ProductsPage` is the category and search filter.
  `Dashboard` is the status tally behind the stat cards.
- **PHP and JavaScript primitives** the core depends on are written out:
  - `Text`: `trim`, `strlen` as a UTF-8 byte count, `stripos` and `str_contains`, the `(int)` cast, and JavaScript `trim` and `length`;
  - `Html`: `htmlspecialchars`, with its inverse and a round-trip lemma;
  - `Calendar`: `strtotime` followed by `date('Y-m-d')`, as a check that the Gregorian date exists;
  - `Uploads`: `basename`.

Effects the code reaches outside PHP are parameters of the model:
- a `Caller` record carries the session, the admin gate's outcome and the signed-in user id;
- `emailOk` stands for `filter_var`, `verify` and `hash` for bcrypt, and `env` for the upload environment.

A database exception that the code catches is a `DbError` result of the table method
that can raise it. Every such method's ensures states when it arises (a duplicate key
or a foreign key still in use). Throws that the source catches only as `Throwable`
are the 500 response `AuthConfig.ServerError`.

### Behaviour of the code as written

Some of the code's behaviour differs between handlers doing the same job, or is
not what its own messages suggest. The model follows the code:

- A client calling `GET /api/equipment?id=…` always gets 403, although the
  branch at `test/src/controllers/EquipmentController.php:49-54` is meant to let a
  client read a row assigned to them. `findById` selects no `assigned_to` column,
  so `$item['assigned_to']` is always null (`EquipmentController.Show`).
- `requireJSON` (`test/config/auth.php:31-36`) is case-sensitive and answers a
  mismatch with 415. `api/cart.php` and `api/profile.php` do their own check with
  `stripos` instead: it ignores case, and a mismatch is a 400
  (`test/api/cart.php:91-92`, `AuthConfig.ContentTypeGate`).
- Adding an unavailable or missing product to the cart gives 400 "Failed to add item
  to cart" (`test/api/cart.php:123-126`). The controllers answer a write that
  conflicts with existing rows (a duplicate name, serial or username) with 409
  (`test/src/controllers/CategoryController.php:56`, `test/api/users.php:88`).
- Equipment rows have a flat `category` string from a fixed list and no `notes`
  (`test/src/models/EquipmentModel.php:27-36`). The admin listing `findAll` selects no
  `category_id`, so on those rows the product page's category filter shows nothing
  once a category is chosen (`ProductsPage.CategoryFilterOnIndexRows`). The rows a
  client sees come from `findByAssignedTo`, which is not part of this model.
- A `PUT /api/users?id=…` body without `role` demotes the user to `client`, since
  `validate` fills in the default role on update too (`UsersApi.UpdateWithoutRoleDemotes`).
- Saving a category, equipment item, user or profile without changing any value
  gives 500 "Update failed — no rows affected.": MySQL's `rowCount()` counts only
  changed rows.
- A profile `PUT` whose body is not an array (a JSON string, number, `true` or
  `null`) reaches a parameter typed `array` with that value. The `TypeError`
  escapes the `catch (Exception)`, and PHP ends the request with a 500. With
  `display_errors` off the response has an empty body (`ProfileApi.HandlePut`).
- In the profile update an e-mail of `"0"` counts as `empty()` and skips the format
  check (`ProfileApi.ZeroEmailIsAccepted`).
- The equipment serial check passes only letters, digits, `-` and `_`. A 4-byte
  UTF-8 character counts four towards every `strlen` limit, so each limit bounds
  bytes, not characters.

## Model

| member | source | states |
|---|---|---|
| AuthConfig.ErrorResponse | test/config/auth.php:39-46 | The error envelope has the given status and a body whose only key is `error`. |
| AuthConfig.Get | test/src/controllers/AuthController.php:22-23 | `$body[key] ?? default` is the member when the key is present and the default otherwise. |
| AuthConfig.RequireAuth | test/config/auth.php:24-28 | Rejects exactly the sessions without a user id, always with the same 401. |
| AuthConfig.RequireJson | test/config/auth.php:31-36 | Passes exactly when `application/json` occurs in the content type, case-sensitively; otherwise 415. |
| AuthConfig.ReadJsonBody | test/config/auth.php:49-59 | An empty body reads as the empty array. A non-empty body that `json_decode` does not make an array of is 400 "Malformed JSON body.". Otherwise the result is the decoded members. |
| AuthConfig.AdminJsonGate | test/src/controllers/EquipmentController.php:65-66 | The admin gate's response comes first, then the content-type gate's; it passes only when both pass. |
| AuthConfig.ContentTypeGate | test/api/cart.php:90-95 | The check of `api/cart.php` and `api/profile.php` (`test/api/profile.php:70-76`): passes exactly when the content type contains `application/json` ignoring case; otherwise 400, not 415. |
| AuthConfig.ServerError | test/api/auth.php:25-27 | A caught throwable is a 500 whose error is "Server error: " and the message. |
| AuthRouter.RouteOf | test/api/auth.php:14-24 | Login, logout, register and me are each reached by exactly one method/action pair; everything else is 404. |
| AuthController.LoginCheck | test/src/controllers/AuthController.php:18-40 | Guards in order: 415, body, 400 for an empty trimmed username or password, 401 for an unknown user or a rejected password. It succeeds exactly when `verify` accepts the password against the found row's hash, and returns that row. |
| AuthController.LoginUser | test/src/controllers/AuthController.php:50-54 | The user object returned has exactly `id`, `username` and `role`, with no password hash. |
| AuthController.Login | test/src/controllers/AuthController.php:18-56 | A failure returns the check's response and leaves the session untouched. A success stores the row's id, username and role in the session and answers 200. |
| AuthController.LoginHidesWhichPartFailed | test/src/controllers/AuthController.php:30-40 | A failing request with non-empty credentials gets the same response against any user table, so an unknown username cannot be told from a wrong password. |
| AuthController.Logout | test/src/controllers/AuthController.php:61-72 | Without a session: 401 and the session is unchanged. Otherwise the session is emptied and the answer is 200. |
| AuthController.Me | test/src/controllers/AuthController.php:78-91 | Reports `authenticated: false` exactly when no one is signed in. Otherwise it reports the session's id, username and role. |
| Calendar.DaysInMonth | test/src/models/EquipmentModel.php:99-105 | Between 28 and 31; February has 29 exactly in leap years. |
| Calendar.FormatDate | test/src/models/EquipmentModel.php:103 | `date('Y-m-d')` renders ten characters of the shape `dddd-dd-dd`. |
| Calendar.FormatThenRead | test/src/models/EquipmentModel.php:102-103 | Reading back the fields of a formatted date gives the year, month and day formatted. |
| Calendar.ReadThenFormat | test/src/models/EquipmentModel.php:102-103 | A string of the date shape is the formatting of its own fields. |
| Calendar.FormattedDateValid | test/src/models/EquipmentModel.php:99-105 | A formatted date passes the purchase-date check exactly when it names a real Gregorian day. |
| Calendar.February | test/src/models/EquipmentModel.php:99-105 | February 30 never passes; February 29 passes exactly in leap years. |
| Catalog.FindProduct | test/src/models/CartModel.php:35-40 | The product found has the requested id; none is found exactly when no product has it. |
| CartApi.CartGate | test/api/cart.php:17-25 | 401 without a session, else 403 for a non-client; passes exactly for a signed-in client. |
| CartApi.LinesJson | test/api/cart.php:75-80 | One JSON object per cart line, in the same order. |
| CartApi.HandleGet | test/api/cart.php:62-82 | `action=count` answers the user's total quantity. Otherwise the answer is the user's lines and their number. |
| CartApi.AddCheck | test/api/cart.php:87-112 | Guards in order: content type, body, missing `product_id`, quantity below 1. The quantity defaults to 1 and both values are `(int)` casts. It succeeds exactly when every guard passes. |
| CartApi.HandlePost | test/api/cart.php:87-127 | The outcome is `PostOutcome`. A failed check returns its response and changes nothing. An unavailable or missing product is 400 and changes nothing. Otherwise the rows are the add's result and the answer carries the user's new count. Other users' counts never change. |
| CartApi.AddedResponse | test/api/cart.php:116-122 | The success body carries the user's cart count after the add. |
| CartApi.AddItem | test/api/cart.php:114-126 | Succeeds exactly when the product exists and is Available; the cart then holds the merged row. |
| CartApi.UpdateCheck | test/api/cart.php:132-164 | Guards in order: missing id, content type, body, missing quantity, quantity below 1. It succeeds exactly when all pass, with `(int)` casts. |
| CartApi.HandlePut | test/api/cart.php:132-177 | The outcome is `PutOutcome`. A failed check returns its response and changes nothing. Otherwise only the caller's row with that id gets the new quantity, and the answer is "Cart updated". No id is taken, and no other user's count changes. |
| CartApi.HandleDelete | test/api/cart.php:182-222 | The outcome is `DeleteOutcome`. `action=clear` empties only the caller's cart. Otherwise a missing id is 400 and changes nothing, and a present one removes only the caller's row with that id; the answer carries the new count. |
| CartApi.Handle | test/api/cart.php:17-57 | The client gate comes first and changes nothing. An unknown verb is 405. GET answers the count or the lines and never changes the cart. POST, PUT and DELETE have the outcomes of their handlers for the signed-in user. Other users' counts never change. |
| CartModel.FindPair | test/src/models/CartModel.php:50-55 | The index of the user's row for the product; none exactly when that pair is not in the cart. |
| CartModel.CartCountOf | test/src/models/CartModel.php:165-178 | `COALESCE(SUM(quantity), 0)` over the user's rows: 0 for a user without rows. |
| CartModel.AddQuantity | test/src/models/CartModel.php:57-63 | Adds the quantity to the matching row only; every other row is unchanged. |
| CartModel.WithQuantity | test/src/models/CartModel.php:85-100 | Only the row with that id and owner takes the new quantity. |
| CartModel.Removed | test/src/models/CartModel.php:109-120 | Exactly the rows other than the user's row with that id remain. |
| CartModel.Cleared | test/src/models/CartModel.php:186-195 | Exactly the other users' rows remain. |
| CartModel.LineOf | test/src/models/CartModel.php:131-149 | A line exists exactly when the row's product and that product's category exist; it carries the row's id, quantity and product. |
| CartModel.JoinedLines | test/src/models/CartModel.php:128-157 | Exactly the lines of the user's rows whose product and category exist: every line comes from such a row and every such row gives its line. On rows with ascending ids the lines are in ascending row id. |
| CartModel.CartLines | test/src/models/CartModel.php:128-157 | The same lines as `JoinedLines`. On rows with ascending ids they are in strictly descending row id, as `ORDER BY c.added_at DESC` returns them. |
| CartModel.AddQuantityAbsent | test/src/models/CartModel.php:57-70 | With no row for the pair, the merge leaves the cart unchanged. |
| CartModel.AddQuantityCount | test/src/models/CartModel.php:57-63 | Merging into an existing row raises the user's count by exactly the quantity. |
| CartModel.AddQuantityOtherUser | test/src/models/CartModel.php:57-63 | Merging never changes another user's count. |
| CartModel.CountAppendRow | test/src/models/CartModel.php:64-69 | A new row adds its quantity to its owner's count and nothing to anyone else's. |
| CartModel.AddedCount | test/src/models/CartModel.php:32-75 | An add raises the user's count by the quantity, leaves every other count alone, and puts the pair in the cart. |
| CartModel.AddedKeepsPairsUnique | test/src/models/CartModel.php:50-70 | Because the code merges or inserts, the cart never holds two rows for one user and product. |
| CartModel.AddedKeepsInvariant | test/src/models/CartModel.php:32-75 | An add keeps ids unique and below the counter; the counter advances only when a row is inserted. |
| CartModel.MergeAt | test/src/models/CartModel.php:57-63 | The merge is an in-place update of the matching row's quantity. |
| CartModel.ClearedCount | test/src/models/CartModel.php:186-195 | After a clear, the user's count is 0 and every other user's is unchanged. |
| CartModel.RemovedOtherUser | test/src/models/CartModel.php:109-120 | The `user_id` condition means a removal never changes another user's count. |
| CartModel.WithQuantityOtherUser | test/src/models/CartModel.php:85-100 | The same holds for a quantity update. |
| CartModel.Cart.AddToCart | test/src/models/CartModel.php:32-75 | Returns true exactly when the product exists and is Available. On false nothing changes; on true the rows are the add's result. |
| CartModel.Cart.Put | test/src/models/CartModel.php:50-70 | Merges into the existing row or appends a row with the next id, keeping the table invariant. |
| CartModel.Cart.UpdateQuantity | test/src/models/CartModel.php:85-100 | Returns true exactly when the quantity is at least 1. A quantity below 1 changes nothing; otherwise only the matching row changes. |
| CartModel.Cart.RemoveFromCart | test/src/models/CartModel.php:109-120 | Always true; the rows become the removal's result. |
| CartModel.Cart.ClearCart | test/src/models/CartModel.php:186-195 | Always true; the user's rows go, no others. |
| CartModel.Cart.GetCartCount | test/src/models/CartModel.php:165-178 | Returns the user's total quantity and changes nothing. |
| CartModel.Cart.IsInCart | test/src/models/CartModel.php:204-216 | True exactly when some row has that user and product. |
| CartModel.Cart.GetCartItems | test/src/models/CartModel.php:128-157 | Changes nothing and returns `CartLines`: every line comes from one of the user's rows whose product and category exist, every such row gives its line, and the lines are newest first. |
| CategoriesRouter.RouteOf | test/api/categories.php:15-35 | The first matching arm wins: GET with or without an id, POST, PUT and DELETE with an id; anything else is 404. |
| CategoryController.ListJson | test/src/controllers/CategoryController.php:19-20 | One JSON object per category, in order. |
| CategoryController.Index | test/src/controllers/CategoryController.php:16-21 | 401 without a session. Otherwise all categories sorted by name, with their number. |
| CategoryController.Show | test/src/controllers/CategoryController.php:25-37 | 401, then 404 for an unknown id. Otherwise the row and its `product_count`, the number of products with that category id. |
| CategoryController.StoreCheck | test/src/controllers/CategoryController.php:41-57 | Guards in order: admin and content type, body, 422 with the validation message, 409 for a name in use. Success implies the input validated and the name is free. |
| CategoryController.InsertCategory | test/src/controllers/CategoryController.php:59-62 | Appends the validated category under the next id and answers 201 with the stored row. |
| CategoryController.Store | test/src/controllers/CategoryController.php:41-66 | A failed guard changes nothing; otherwise the category is inserted. |
| CategoryController.UpdateCheck | test/src/controllers/CategoryController.php:70-91 | Guards in order: admin and content type, 404, body, 422, and 409 for a name used by another category. |
| CategoryController.Update | test/src/controllers/CategoryController.php:70-103 | The rows become the update's result. An update that changes no value is 500 "no rows affected"; otherwise 200 with the new row. |
| CategoryController.DestroyCheck | test/src/controllers/CategoryController.php:107-121 | The admin gate, then 404, then 409 naming the number of products that still use the category. It passes exactly when the category exists and is unused. |
| CategoryController.InUseMessageNamesCount | test/src/controllers/CategoryController.php:118-120 | Different product counts give different 409 messages, so the message tells the count. |
| CategoryController.Destroy | test/src/controllers/CategoryController.php:107-133 | A failed guard changes nothing; otherwise exactly that category is deleted. |
| CategoryModel.NameErrors | test/src/models/CategoryModel.php:60-65 | No error exactly when the trimmed name is non-empty and at most 100 bytes. |
| CategoryModel.DescriptionErrors | test/src/models/CategoryModel.php:68-71 | No error exactly when the description is at most 1000 bytes; it may be empty. |
| CategoryModel.Errors | test/src/models/CategoryModel.php:56-75 | At most two messages, none exactly when the input is acceptable. |
| CategoryModel.Validate | test/src/models/CategoryModel.php:56-81 | Succeeds exactly when the input is acceptable. A failure's message is the errors joined by spaces; a success holds the escaped trimmed fields. |
| CategoryModel.ValidatedDecodes | test/src/models/CategoryModel.php:77-80 | The stored fields decode back to the trimmed input and contain no raw HTML specials. |
| CategoryModel.FindById | test/src/models/CategoryModel.php:27-36 | The row with that id when there is one; none exactly when none has it. |
| CategoryModel.FindByName | test/src/models/CategoryModel.php:39-48 | The same, by exact name. |
| CategoryModel.FindAll | test/src/models/CategoryModel.php:16-24 | `ORDER BY name`: the rows, sorted by name, as a permutation of the table. |
| CategoryModel.NameExists | test/src/models/CategoryModel.php:130-142 | True exactly when a row other than the excluded id has the name. |
| CategoryModel.CountProducts | test/src/models/CategoryModel.php:145-149 | The number of products with that category id; 0 exactly when none has it. |
| CategoryModel.Updated | test/src/models/CategoryModel.php:103-113 | Only the row with that id changes, and it takes the new name and description. |
| CategoryModel.Deleted | test/src/models/CategoryModel.php:121-125 | Exactly the other rows remain. |
| CategoryModel.FindAfterUpdate | test/src/models/CategoryModel.php:103-113 | After an update, the id finds the new values and every other id finds what it found before. |
| CategoryModel.CategoryTable.Create | test/src/models/CategoryModel.php:89-96 | A name in use is a duplicate-key error and changes nothing. Otherwise a row is appended under the next id and that id is returned. |
| CategoryModel.CategoryTable.Update | test/src/models/CategoryModel.php:103-113 | A missing id returns false and changes nothing. A name used by another row is a duplicate-key error and changes nothing. Otherwise the row is updated, and it returns whether any value changed. |
| CategoryModel.CategoryTable.Delete | test/src/models/CategoryModel.php:121-125 | A category still used by products is a foreign-key error and changes nothing. Otherwise the row is deleted, and it returns whether it existed. |
| Dashboard.CountStatuses | test/public/js/dashboard.js:56-57 | The counter object's keys are the four displayed statuses plus every status seen; each counter is the number of rows of that status. |
| Dashboard.RenderStats | test/public/js/dashboard.js:55-64 | The cards show the row count and the number of rows in each displayed status. |
| Dashboard.BumpTallies | test/public/js/dashboard.js:57 | One step of the loop extends the tally by one row. |
| Dashboard.DisplayedAtMostTotal | test/public/js/dashboard.js:59-63 | The four status cards add up to at most the total card. |
| Dashboard.DisplayedIsTotalForStoredRows | test/public/js/dashboard.js:59-63 | When every row has one of the table's four statuses, the cards add up to the total exactly. |
| Dashboard.StatsIgnoreOrder | test/public/js/dashboard.js:57 | The counts do not depend on the order rows arrive in. |
| EquipmentController.WithImages | test/src/controllers/EquipmentController.php:30-33 | One item per row, in order, each carrying its product's images. |
| EquipmentController.Visible | test/src/controllers/EquipmentController.php:21-28 | An admin sees every row, as a permutation of the table; anyone else sees the rows assigned to them. |
| EquipmentController.ForCategory | test/src/controllers/EquipmentController.php:176-181 | For a client: an in-order subsequence holding exactly the rows of the category assigned to them. For an admin: every row of the category. |
| EquipmentController.AttachImages | test/src/controllers/EquipmentController.php:30-33 | The loop builds exactly the image-carrying items. |
| EquipmentController.Index | test/src/controllers/EquipmentController.php:18-36 | 401 without a session. Otherwise the visible rows with their images, and their number. |
| EquipmentController.Show | test/src/controllers/EquipmentController.php:40-60 | 401, then 404. A client is always refused with 403. An admin gets the row with its images. |
| EquipmentController.StoreCheck | test/src/controllers/EquipmentController.php:64-80 | Guards in order: admin and content type, body, 422 with the validation message, 409 for a serial in use. Success implies the input validated and the serial is free. |
| EquipmentController.InsertItem | test/src/controllers/EquipmentController.php:82-86 | Appends the validated row under the next id and answers 201 with the row and no images. |
| EquipmentController.Store | test/src/controllers/EquipmentController.php:64-90 | A failed guard changes nothing; otherwise the item is inserted. |
| EquipmentController.UpdateCheck | test/src/controllers/EquipmentController.php:94-115 | Guards in order: admin and content type, 404, body, 422, and 409 for a serial held by another row. |
| EquipmentController.OwnSerialPassesUpdate | test/src/controllers/EquipmentController.php:112-115 | Keeping a row's own serial never triggers the 409. |
| EquipmentController.Update | test/src/controllers/EquipmentController.php:94-128 | The rows become the update's result. No changed value is 500 "no rows affected"; otherwise 200 with the row and its images. |
| EquipmentController.RemoveFiles | test/src/controllers/EquipmentController.php:143-149 | The file store loses exactly the listed paths. |
| EquipmentController.Destroy | test/src/controllers/EquipmentController.php:132-158 | The admin gate, then 404. Then the item, its image rows and their files go; other products' images and files stay. |
| EquipmentController.Statistics | test/src/controllers/EquipmentController.php:162-167 | Admin only; the answer is the statistics supplied for the table. |
| EquipmentController.ByCategory | test/src/controllers/EquipmentController.php:171-189 | 401 without a session. Otherwise the category's rows, narrowed for a client to those assigned to them, each with its images, and their number. |
| EquipmentModel.RequiredTextErrors | test/src/models/EquipmentModel.php:60-66 | No error exactly when the trimmed text is non-empty and within the byte limit. |
| EquipmentModel.CategoryErrors | test/src/models/EquipmentModel.php:68-72 | No error exactly when the category is one of the fixed list. |
| EquipmentModel.SerialErrors | test/src/models/EquipmentModel.php:82-90 | No error exactly when the serial is non-empty, at most 100 bytes, and made of letters, digits, `-` and `_`. |
| EquipmentModel.StatusErrors | test/src/models/EquipmentModel.php:92-96 | No error exactly when the status is one of the four. |
| EquipmentModel.DateErrors | test/src/models/EquipmentModel.php:98-105 | No error exactly when the purchase date names a real day. |
| EquipmentModel.Errors | test/src/models/EquipmentModel.php:57-109 | At most six messages, none exactly when the input is acceptable. |
| EquipmentModel.ValidateMeaning | test/src/models/EquipmentModel.php:57-119 | Validation succeeds exactly when the input is acceptable; a failure's message is the errors joined by spaces. |
| EquipmentModel.ValidatedIsStoredForm | test/src/models/EquipmentModel.php:111-118 | The stored text fields decode back to the trimmed input and hold no raw HTML specials. |
| EquipmentModel.StatusDefaultsToAvailable | test/src/models/EquipmentModel.php:93 | A body without a status validates as Available. |
| EquipmentModel.NonexistentDateRejected | test/src/models/EquipmentModel.php:102-105 | 2023-02-29 is rejected although it has the date shape. |
| EquipmentModel.FindById | test/src/models/EquipmentModel.php:39-49 | The row with that id; none exactly when none has it. |
| EquipmentModel.FindAll | test/src/models/EquipmentModel.php:27-36 | Newest first: the rows in reverse insertion order, a permutation of the table. |
| EquipmentModel.SerialExists | test/src/models/EquipmentModel.php:169-181 | True exactly when a row other than the excluded id has the serial. |
| EquipmentModel.OwnSerialNeverConflicts | test/src/models/EquipmentModel.php:169-181 | With unique serials, a row's own serial does not exist elsewhere. |
| EquipmentModel.Updated | test/src/models/EquipmentModel.php:141-155 | Only the row with that id changes, and it takes the new fields. |
| EquipmentModel.Deleted | test/src/models/EquipmentModel.php:160-164 | Exactly the other rows remain. |
| EquipmentModel.FindAfterUpdate | test/src/models/EquipmentModel.php:141-155 | After an update, the id finds the new fields and every other id is unchanged. |
| EquipmentModel.UpdatedKeepsIds | test/src/models/EquipmentModel.php:141-155 | Updating keeps the sequence of ids. |
| EquipmentModel.DeleteRemovesOnlyThatRow | test/src/models/EquipmentModel.php:160-164 | After a delete, the id finds nothing and every other id finds what it did before. |
| EquipmentModel.DeletedKeepsKeys | test/src/models/EquipmentModel.php:160-164 | Deleting keeps ids and serials unique. |
| EquipmentModel.EquipmentTable.Create | test/src/models/EquipmentModel.php:127-134 | A serial in use is a duplicate-key error and changes nothing. Otherwise the row is appended under the next id and that id is returned. |
| EquipmentModel.EquipmentTable.Update | test/src/models/EquipmentModel.php:141-155 | A missing id returns false and changes nothing. A serial held by another row is a duplicate-key error and changes nothing. Otherwise the row is updated, and it returns whether any value changed. |
| EquipmentModel.EquipmentTable.Delete | test/src/models/EquipmentModel.php:160-164 | The row goes, and it returns whether it existed. |
| EquipmentRouter.RouteOf | test/api/equipment.php:17-45 | The first matching arm wins. Statistics and by-category take their actions. GET is show with an id and lists without one; POST creates; PUT and DELETE with an id update and destroy. It is 404 exactly for every other request. |
| EquipmentRouter.Precedence | test/api/equipment.php:17-45 | For GET, `action=statistics` beats a category, and a category beats an id. PUT and DELETE with an id update or destroy whatever else is given. |
| Html.Escape | test/src/models/EquipmentModel.php:112 | `htmlspecialchars` output is at least as long as the input and contains no raw `<`, `>`, `"` or `'`. |
| Html.UnescapeEscape | test/src/models/EquipmentModel.php:112 | Decoding the escaped text gives the original back. |
| Html.EscapeInjective | test/src/models/EquipmentModel.php:112 | Different inputs never escape to the same text. |
| Html.EscapePlain | test/src/models/EquipmentModel.php:112 | Text without special characters is unchanged. |
| ImageUploadController.UploadErrorMessage | test/src/controllers/ImageUploadController.php:245-256 | "Unknown upload error" exactly for codes other than the seven named ones. |
| ImageUploadController.DotSuffix | test/src/controllers/ImageUploadController.php:155 | The text after the last dot, which contains no dot. |
| ImageUploadController.ExtensionOf | test/src/controllers/ImageUploadController.php:155 | The lowercased extension of the original name. |
| ImageUploadController.FileCheck | test/src/controllers/ImageUploadController.php:134-158 | Checks in order: upload error code, size over 5 MB, MIME type, extension. It passes exactly when all pass. |
| ImageUploadController.SizeLimitIsInclusive | test/src/controllers/ImageUploadController.php:141-143 | A file of exactly 5 MB passes the size check; one byte more fails. |
| ImageUploadController.Outcomes | test/src/controllers/ImageUploadController.php:56-67 | One outcome per file, in order. |
| ImageUploadController.OutcomeAt | test/src/controllers/ImageUploadController.php:56-67 | Entry k is the fate of file k, where only file 0 may be primary. |
| ImageUploadController.Messages | test/src/controllers/ImageUploadController.php:62-63 | Never more messages than outcomes. No message exactly when every outcome succeeded, and one per outcome exactly when every outcome failed. |
| ImageUploadController.BatchErrors | test/src/controllers/ImageUploadController.php:56-67 | At most one message per file, and none exactly when every file passes. |
| ImageUploadController.Records | test/src/controllers/ImageUploadController.php:198-208 | Record i of the first n is built from the i-th entry of each field array. |
| ImageUploadController.Normalized | test/src/controllers/ImageUploadController.php:190-211 | One record per file. The single file is a one-element list; record i of a multiple field is built from the i-th entry of each array. |
| ImageUploadController.NormalizeFilesArray | test/src/controllers/ImageUploadController.php:190-211 | Returns `Normalized`: record k is built from the k-th entry of each field array, or the single file is a one-element list. |
| ImageUploadController.ProcessUpload | test/src/controllers/ImageUploadController.php:134-185 | It fails exactly when the file's outcome is an error, with that message, and takes no id. A failed check or move changes neither the rows nor the directory. A failed insert removes the moved file and keeps the rows, except that a primary upload has already cleared the product's primaries. A success creates the row under the next id, stores the file under the upload path, and returns the new image. |
| ImageUploadController.StepEffect | test/src/controllers/ImageUploadController.php:56-66 | One file adds its failure message to the errors when it fails, and one upload, one row and one id when it passes. |
| ImageUploadController.RunErrors | test/src/controllers/ImageUploadController.php:52-67 | The errors the loop collects are exactly those of `BatchErrors`, in file order. |
| ImageUploadController.RunCounts | test/src/controllers/ImageUploadController.php:52-67 | Every file is an upload or an error. Each upload adds one row and takes one id. |
| ImageUploadController.StepPrimaries | test/src/controllers/ImageUploadController.php:57-60 | A primary row one file adds is that file's stored image, and only when the file was allowed to be primary and passed. |
| ImageUploadController.RunOnlyFirstPrimary | test/src/controllers/ImageUploadController.php:52-67 | A primary row the loop adds is file 0's image under the first id. It exists only when `is_primary` was asked for and file 0 was stored. |
| ImageUploadController.UploadOne | test/src/controllers/ImageUploadController.php:56-66 | The rows, the next id, the directory, the uploads and the errors after one file are those of `Step` on the state before it. |
| ImageUploadController.ProcessBatch | test/src/controllers/ImageUploadController.php:52-67 | The rows, the next id, the directory, the uploads and the errors after the loop are those of `Run` over the files, starting with no uploads and no errors. |
| ImageUploadController.Warnings | test/src/controllers/ImageUploadController.php:78-80 | The warnings are the error messages. |
| ImageUploadController.BatchResponse | test/src/controllers/ImageUploadController.php:69-82 | 400 exactly when every file failed; warnings are present exactly when some failed. |
| ImageUploadController.UploadCheck | test/src/controllers/ImageUploadController.php:29-47 | Guards in order: admin, a missing or non-positive product id, an unknown product, no files. It passes exactly when all pass. |
| ImageUploadController.Upload | test/src/controllers/ImageUploadController.php:29-83 | A failed guard returns its response and changes nothing. Otherwise the rows, the next id and the directory are those of `Run` over the normalised files, with only file 0 primary when `is_primary` is `"true"`. The errors are `BatchErrors` of those files, and the answer is the batch response. |
| ImageUploadController.Delete | test/src/controllers/ImageUploadController.php:87-103 | The admin gate, then 404. Then the file named by the path's basename goes and the row is deleted. |
| ImageUploadController.SetPrimary | test/src/controllers/ImageUploadController.php:107-117 | The admin gate, then 404. Then the image becomes its product's only primary. |
| ImageUploadController.GetByProduct | test/src/controllers/ImageUploadController.php:121-126 | 401 without a session. Otherwise the product's images, primary first, with their count; changes nothing. |
| ImagesRouter.RouteOf | test/api/images.php:14-35 | Upload is exactly POST with `action=upload`; delete is DELETE with an id; set-primary is PUT with an id and `action=primary`; the list is GET with `product_id`. Ids are `(int)` casts. |
| ImagesRouter.ActionIsRequired | test/api/images.php:14-35 | PUT and POST without their action are 404 whatever the other parameters. |
| ProductImageModel.ListToJson | test/src/models/ProductImageModel.php:16-25 | One JSON object per image row, in order. |
| ProductImageModel.FindById | test/src/models/ProductImageModel.php:28-37 | The image with that id; none exactly when none has it. |
| ProductImageModel.FindPrimary | test/src/models/ProductImageModel.php:40-49 | A primary image of the product; none exactly when it has none. |
| ProductImageModel.PrimaryFirst | test/src/models/ProductImageModel.php:21 | `ORDER BY is_primary DESC`: primary rows before the others, a permutation of the input. |
| ProductImageModel.FindByProductId | test/src/models/ProductImageModel.php:16-25 | The product's images, primary first, as a permutation of its rows. |
| ProductImageModel.FindByProductIdContents | test/src/models/ProductImageModel.php:16-25 | An image is listed exactly when it belongs to the product. |
| ProductImageModel.FindByProductIdCount | test/src/models/ProductImageModel.php:142-146 | The list has as many entries as the count query gives. |
| ProductImageModel.Paths | test/src/controllers/EquipmentController.php:144-149 | The stored file paths of the product's images, one per image. |
| ProductImageModel.CountByProductId | test/src/models/ProductImageModel.php:142-146 | The number of the product's images. |
| ProductImageModel.HasImages | test/src/models/ProductImageModel.php:149-151 | True exactly when the count is positive. |
| ProductImageModel.ClearPrimary | test/src/models/ProductImageModel.php:61-66 | The product's rows lose their primary flag; every other row is unchanged. |
| ProductImageModel.ClearPrimaryKeepsInvariant | test/src/models/ProductImageModel.php:61-66 | Clearing a product's primaries keeps the table invariant. |
| ProductImageModel.MarkPrimary | test/src/models/ProductImageModel.php:97-100 | Only the row with that id gains the primary flag. |
| ProductImageModel.CreatedPrimaryIsOnlyPrimary | test/src/models/ProductImageModel.php:57-74 | A new primary image is its product's only primary, and other products' rows are unchanged. |
| ProductImageModel.CreatedPlainChangesNothingElse | test/src/models/ProductImageModel.php:57-74 | A new non-primary image leaves every existing row as it was. |
| ProductImageModel.CreatedKeepsOnePrimary | test/src/models/ProductImageModel.php:57-74 | Creating keeps at most one primary image per product. |
| ProductImageModel.PrimarySetPointwise | test/src/models/ProductImageModel.php:82-102 | After set-primary, the chosen row is primary, the product's other rows are not, and other products' rows are unchanged. |
| ProductImageModel.PrimarySetIsOnlyPrimary | test/src/models/ProductImageModel.php:82-102 | Afterwards the chosen image is what the primary lookup finds. |
| ProductImageModel.PrimarySetKeepsOnePrimary | test/src/models/ProductImageModel.php:82-102 | Set-primary keeps at most one primary per product. |
| ProductImageModel.PrimarySetKeepsIds | test/src/models/ProductImageModel.php:82-102 | Set-primary keeps every row's id in place. |
| ProductImageModel.SubsequenceKeepsInvariant | test/src/models/ProductImageModel.php:110-137 | Any in-order selection of the rows keeps the table invariant: unique ids below the counter, at most one primary per product. |
| ProductImageModel.WithoutImage | test/src/models/ProductImageModel.php:116-117 | Exactly the rows other than that id remain. |
| ProductImageModel.WithoutProduct | test/src/models/ProductImageModel.php:133-134 | Exactly the other products' rows remain. |
| ProductImageModel.RemoveImage | test/src/models/ProductImageModel.php:110-120 | Removing an image keeps the table invariant; an unknown id removes nothing. |
| ProductImageModel.RemoveProductImages | test/src/models/ProductImageModel.php:126-137 | Removing a product's images keeps the table invariant; a product without images loses nothing. |
| ProductImageModel.NoImagesNothingRemoved | test/src/models/ProductImageModel.php:129-131 | A product without images loses nothing. |
| ProductImageModel.ImageTable.Create | test/src/models/ProductImageModel.php:57-74 | A primary image first clears the product's primaries. A refused insert returns no id and changes nothing else. Otherwise the image is appended under the next id, which is returned. |
| ProductImageModel.ImageTable.SetPrimary | test/src/models/ProductImageModel.php:82-102 | An unknown id returns false and changes nothing. Otherwise the rows become the set-primary result. |
| ProductImageModel.ImageTable.Delete | test/src/models/ProductImageModel.php:110-120 | Returns none exactly for an unknown id, and then nothing changes. Otherwise it returns the row's path and removes the row. |
| ProductImageModel.ImageTable.DeleteByProductId | test/src/models/ProductImageModel.php:126-137 | Returns the product's paths and removes exactly its rows. |
| ProductsPage.StringToNumber | test/public/js/products.js:198 | JavaScript `ToNumber`: a blank string is 0. |
| ProductsPage.RenderedIdMatches | test/public/js/products.js:198 | A select value is loosely equal to the category id it renders, whether the id arrives as a number or a string. |
| ProductsPage.Page.LoadProducts | test/public/js/products.js:69-95 | The page keeps the response's Available products in response order; a product is kept exactly when it is in the response and Available. |
| ProductsPage.Page.FilterProducts | test/public/js/products.js:190-212 | The list shown is an in-order subsequence of the loaded list. It holds exactly the loaded products passing both filters. Empty inputs show everything. |
| ProductsPage.CategoryFilterOnIndexRows | test/public/js/products.js:197-199 | Rows without `category_id` are never shown once a category is chosen. |
| ProfileApi.HandleGet | test/api/profile.php:44-61 | The signed-in user's public fields, or 404 when the row is gone. |
| ProfileApi.ProfileCheck | test/api/profile.php:90-125 | Guards in order: full name over 150 bytes, a bad e-mail format unless `empty()`, e-mail over 150 bytes, 400 when neither field is sent. A success patches only full name and e-mail, trimmed. |
| ProfileApi.ZeroEmailIsAccepted | test/api/profile.php:105-112 | The e-mail `"0"` passes without a format check. |
| ProfileApi.ProfileEditKeepsCredentials | test/api/profile.php:92-103 | A profile edit never touches username, password hash or role. |
| ProfileApi.ProfileUpdate | test/api/profile.php:90-142 | The outcome is `ProfileOutcome`. A failed check returns its response and changes nothing. Otherwise only the signed-in row is patched. An unchanged or missing row gives 500; a changed one answers 200 with its public fields. |
| ProfileApi.PatchReportsChange | test/api/profile.php:127-129 | The update reports success exactly when the patch changes the row. |
| ProfileApi.PasswordCheck | test/api/profile.php:147-179 | Guards in order: both passwords sent, the new one at least 6 bytes, 404 for a missing row, 400 when `verify` rejects the current password. A success yields the new password. |
| ProfileApi.PasswordChange | test/api/profile.php:147-194 | The outcome is `PasswordOutcome`. A failed check changes nothing. Otherwise only the signed-in row's hash becomes the hash of the new password. A hash equal to the old one gives 500; otherwise 200. |
| ProfileApi.PasswordPatchTouchesOnlyHash | test/api/profile.php:182-183 | The password change alters only the signed-in row's hash. |
| ProfileApi.HandlePut | test/api/profile.php:66-85 | The outcome is `PutOutcome`: the content-type gate, then a 500 with an empty body when the body is not an array. Then `action=password` has the outcome of the password change, and anything else that of the profile update. |
| ProfileApi.Handle | test/api/profile.php:14-39 | 401 without a session and 405 for an unknown verb, both changing nothing. GET answers the signed-in user's public fields or 404 and changes nothing. PUT has the outcome of `handlePut` for the signed-in user. |
| RegisterPage.ValidEmailMatches | test/public/js/register.js:82-85 | Every address the check accepts matches the regular expression. |
| RegisterPage.PatternMatchIsValid | test/public/js/register.js:82-85 | Every address the regular expression matches is accepted. |
| RegisterPage.ValidEmailMatchesPattern | test/public/js/register.js:82-85 | `isValidEmail` accepts exactly the strings `/^[^\s@]+@[^\s@]+\.[^\s@]+$/` matches. |
| RegisterPage.PaddedEmailIsRejected | test/public/js/register.js:82-85 | Leading or trailing blanks make an address invalid. |
| RegisterPage.HandleRegister | test/public/js/register.js:21-63 | Checks in order: passwords match, word-character username, password of 6 or more UTF-16 units, valid e-mail. It posts exactly when all pass, with the trimmed fields and the raw password. |
| RegisterPage.BlankUsernameIsRejected | test/public/js/register.js:24-40 | A username of blanks only is rejected as a bad username. |
| Text.TrimStart | test/src/models/EquipmentModel.php:61 | A suffix of the input that does not start with trimmed whitespace. |
| Text.TrimEnd | test/src/models/EquipmentModel.php:61 | A prefix of the input that does not end with trimmed whitespace. |
| Text.TrimByIsSlice | test/src/models/EquipmentModel.php:61 | `trim` is a contiguous slice with no whitespace at either end. |
| Text.TrimByIdempotent | test/src/models/EquipmentModel.php:61 | Trimming twice is trimming once. |
| Text.TrimByUntouched | test/src/models/EquipmentModel.php:61 | Text without whitespace at its ends is unchanged. |
| Text.TrimByEmpty | test/public/js/register.js:24 | Whitespace-only text trims to empty. |
| Text.ByteLength | test/src/models/EquipmentModel.php:64 | `strlen` on UTF-8: between one and four bytes per character. |
| Text.AsciiByteLength | test/src/models/EquipmentModel.php:64 | ASCII text has one byte per character. |
| Text.ByteLengthAppend | test/src/models/EquipmentModel.php:64 | Byte length adds over concatenation. |
| Text.Utf16Length | test/public/js/register.js:43 | JavaScript `length`: one or two UTF-16 units per character. |
| Text.AsciiLower | test/public/js/products.js:192 | Same length; only `A`-`Z` change. |
| Text.ContainsAt | test/config/auth.php:33 | `str_contains` holds exactly when the needle occurs at some index. |
| Text.ContainsIgnoreCaseIsLowerContains | test/api/cart.php:91 | `stripos` finds the needle exactly when the lowercased haystack contains the lowercased needle. |
| Text.NatToString | test/src/controllers/CategoryController.php:119 | The decimal rendering has only digits and no leading zero. |
| Text.NatToStringValue | test/src/controllers/CategoryController.php:119 | Reading the rendering back gives the number. |
| Text.NatToStringInjective | test/src/controllers/CategoryController.php:119 | Different numbers render differently. |
| Text.IntCast | test/api/equipment.php:18 | `(int)` is 0 when no sign or digit follows the leading whitespace. |
| Text.IntCastOfNatString | test/api/equipment.php:18 | Casting a decimal rendering gives the number back. |
| Uploads.Basename | test/src/controllers/ImageUploadController.php:97 | The part after the last `/`, which contains no `/`. |
| Uploads.BasenameAfterDirectory | test/src/controllers/ImageUploadController.php:97 | The basename of `dir/name` is `name` when `name` has no `/`. |
| Uploads.BasenameOfUploadPath | test/src/controllers/ImageUploadController.php:171 | The stored path `uploads/products/<file>` has basename `<file>`. |
| Uploads.FileStore.Put | test/src/controllers/ImageUploadController.php:165-167 | Adds exactly that path to the stored files. |
| Uploads.FileStore.RemoveIfExists | test/src/controllers/ImageUploadController.php:98-100 | Removes exactly that path, if present. |
| UserModel.UsernameErrors | test/src/models/UserModel.php:82-89 | No error exactly when the trimmed username is a non-empty word of at most 64 bytes. |
| UserModel.PasswordErrors | test/src/models/UserModel.php:92-97 | A password is required on create, optional on update; when given it needs at least 6 bytes. |
| UserModel.RoleErrors | test/src/models/UserModel.php:100-103 | No error exactly when the role, defaulting to `client`, is admin or client. |
| UserModel.FullNameErrors | test/src/models/UserModel.php:106-109 | No error exactly when the full name is at most 150 bytes. |
| UserModel.EmailErrors | test/src/models/UserModel.php:112-117 | No error exactly when the e-mail is at most 150 bytes and empty or accepted by `filter_var`. |
| UserModel.Errors | test/src/models/UserModel.php:78-121 | At most five messages, none exactly when the input is acceptable. |
| UserModel.Validate | test/src/models/UserModel.php:78-136 | Succeeds exactly when the input is acceptable; a success holds the escaped fields and the default role. |
| UserModel.PasswordHashPresence | test/src/models/UserModel.php:130-133 | A hash is stored exactly when a password was given, always on create. |
| UserModel.FindById | test/src/models/UserModel.php:34-43 | The row with that id; none exactly when none has it. |
| UserModel.FindByUsername | test/src/models/UserModel.php:19-28 | The same, by username. |
| UserModel.UsernameExists | test/src/models/UserModel.php:217-229 | True exactly when a row other than the excluded id has the username. |
| UserModel.FindAll | test/src/models/UserModel.php:48-56 | Newest first, one summary per row, with no password hash. |
| UserModel.ClientsByUsername | test/src/models/UserModel.php:61-70 | The client rows sorted by username, as a permutation of the clients. |
| UserModel.FindAllClients | test/src/models/UserModel.php:61-70 | Sorted by username. A user is listed exactly when they are a client, and the entries are a permutation of the clients' entries in table order. |
| UserModel.ClientEntriesPermutation | test/src/models/UserModel.php:61-70 | Two orderings of the same users give two orderings of the same client entries, so reordering by username keeps every entry. |
| UserModel.Patched | test/src/models/UserModel.php:158-192 | Each field set in the patch takes its value and the others keep theirs; the id never changes. |
| UserModel.EmptyPatchIsIdentity | test/src/models/UserModel.php:184-186 | An empty patch changes nothing. |
| UserModel.PatchIdempotent | test/src/models/UserModel.php:158-192 | Applying a patch twice is applying it once. |
| UserModel.PatchedRows | test/src/models/UserModel.php:158-192 | Only the row with that id is patched. |
| UserModel.Deleted | test/src/models/UserModel.php:199-203 | Exactly the other rows remain. |
| UserModel.PatchChangesFoundRow | test/src/models/UserModel.php:188-191 | With distinct ids, `rowCount() > 0` holds exactly when the patch changes the one row with that id. |
| UserModel.PatchedKeepsKeys | test/src/models/UserModel.php:158-192 | A patch whose username is free keeps ids and usernames unique. |
| UserModel.PublicFields | test/api/users.php:69 | The public object has exactly id, username, role, full name and e-mail; never `password_hash`. |
| UserModel.FindAfterPatch | test/src/models/UserModel.php:158-192 | After a patch, the id finds the patched row and every other id is unchanged. |
| UserModel.UserTable.Create | test/src/models/UserModel.php:144-151 | A username in use is a duplicate-key error and changes nothing. Otherwise the row is appended under the next id. |
| UserModel.UserTable.Update | test/src/models/UserModel.php:158-192 | An empty patch returns false and changes nothing, and so does a missing id. Otherwise the row is patched, and it returns whether the row changed. |
| UserModel.UserTable.Delete | test/src/models/UserModel.php:199-203 | The row goes, and it returns whether it existed. |
| UsersApi.RouteOf | test/api/users.php:17-43 | The first matching arm wins. `clients=1` selects the client list, an id selects show, update or delete, POST creates, and anything else is 404. |
| UsersApi.RoutePrecedence | test/api/users.php:17-43 | GET with an id is always show. PUT and DELETE without an id are 404. POST ignores the id. |
| UsersApi.SummariesJson | test/api/users.php:50-54 | One object per summary, in order. |
| UsersApi.ClientsJson | test/api/users.php:56-60 | One object per client entry, in order. |
| UsersApi.ListUsersHandler | test/api/users.php:50-54 | The admin gate; then all users newest first, with their number. |
| UsersApi.ListClientsHandler | test/api/users.php:56-60 | The admin gate; then the clients by username, with their number. |
| UsersApi.ShowUserHandler | test/api/users.php:62-71 | The admin gate, then 404; then the user's public fields. |
| UsersApi.CreateCheck | test/api/users.php:73-89 | Guards in order: admin and content type, body, 422, 409 for a username in use. A success has validated, and carries a password hash. |
| UsersApi.CreateUserHandler | test/api/users.php:73-99 | A failed guard changes nothing; otherwise the user is appended and answered with 201 and public fields. |
| UsersApi.InsertUser | test/api/users.php:91-95 | Appends the user under the next id and answers 201. |
| UsersApi.UpdateCheck | test/api/users.php:101-122 | Guards in order: admin and content type, 404, body, 422, 409 for a username on another user. |
| UsersApi.OwnUsernamePassesUpdate | test/api/users.php:119-122 | Keeping a user's own username never triggers the 409. |
| UsersApi.UpdateWithoutRoleDemotes | test/api/users.php:101-125 | An update whose body has no `role` leaves the user a client. |
| UsersApi.UpdateUserHandler | test/api/users.php:101-135 | A failed guard changes nothing. Otherwise only the user is patched; an unchanged row gives 500, else 200 with public fields. |
| UsersApi.ApplyUpdate | test/api/users.php:124-131 | Patches the user and answers by whether the row changed. |
| UsersApi.DeleteCheck | test/api/users.php:137-148 | The admin gate, then 404, then 409 for deleting one's own account. It passes exactly for an existing other user. |
| UsersApi.DeleteUserHandler | test/api/users.php:137-159 | A failed guard changes nothing. Otherwise exactly that user goes and the caller's own row is unchanged. |
| UsersApi.DeletedKeepsOthers | test/api/users.php:150-155 | Deleting one user leaves every other user's lookup as it was. |

## Left out

- AuthConfig.Body: a decoded JSON body is a map from member names to strings, so every member is assumed to be a JSON string. The handlers that read it are `AuthController.Login`, `CartApi.HandlePost` and `CartApi.HandlePut`, `ProfileApi.HandlePut`, `UsersApi.CreateUserHandler` and `UsersApi.UpdateUserHandler`, and the `validate` of `EquipmentModel`, `UserModel` and `CategoryModel` through their controllers. What this leaves out:
  - a member that is an array or object makes `trim` throw a `TypeError`, which ends the request with a 500;
  - `(int)` of a JSON `true` is 1, whereas `Text.IntCast` of the text `"true"` is 0;
  - a JSON list passes `is_array` and is read with the keys `0`, `1`, …, which no handler looks up, so it behaves like an empty object.
- CartModel.Cart.AddToCart: quantities are unbounded integers, and so are they in `CartModel.Cart.Put`, `CartApi.AddItem` and `CartApi.HandlePost`. In PHP the merged quantity `existing + quantity` (`test/src/models/CartModel.php:59`) becomes a float past `PHP_INT_MAX`, and a value past the `quantity` column's range is refused by MySQL in strict mode. Either way the `PDOException` is caught at `test/src/models/CartModel.php:71-74`, `addToCart` returns false, and `api/cart.php` answers 400 (`test/api/cart.php:123-126`). The model instead stores the exact sum and answers 200. Likewise `CartModel.Cart.UpdateQuantity` stores a quantity past the column's range, where `updateQuantity` catches the refusal and returns false (`test/src/models/CartModel.php:91-99`). The schema is not part of this model, so the column's width is unknown.
- Text.IntCast: only the integer prefix is modelled. PHP's rules for numeric strings with exponents, hexadecimal text and the 64-bit saturation of `(int)` are not.
- ProductsPage.StringToNumber: fractions, exponents, hexadecimal, `Infinity` and the other forms of JavaScript `ToNumber` fall under `NaN`. Product ids are integers, so the filter's outcome depends only on integer strings.
- Uploads.Basename: PHP's `basename` first drops trailing `/` characters, so `basename("a/b/")` is `b`, where the model gives the empty text. Stored paths never end in `/`.
- Text.AsciiLower: JavaScript `toLowerCase` and PHP `stripos` are modelled as ASCII case folding; Unicode case mapping is not modelled.
- ImageUploadController.NormalizeFilesArray: the `$_FILES` arrays are assumed to have equal lengths (`WellFormed`), as PHP always produces them.
- SQL string collation: strings compare by code point, not by the database collation. This covers `ORDER BY name` and `ORDER BY username`, the equality tests `WHERE name = ?`, `WHERE username = ?` and `WHERE serial_number = ?`, and the unique indexes on those columns, which under a case-insensitive collation would also treat `Drill` and `drill` as the same. `ORDER BY created_at DESC` is reverse insertion order, with no clock.
- Cart lines carry the product's id, status, category name and quantity. The product name, brand and serial number are not modelled, and the `primary_image` subquery is left out.
- JSON rows leave out `created_at` and `updated_at`, since timestamps are not modelled.
- Sessions, cookies, response headers and `session_regenerate_id` are represented only as the session map a handler reads and writes.
- bcrypt hashing and verification, `filter_var` and `finfo` MIME sniffing are parameters: `hash`, `verify`, `emailOk` and the file record's MIME type. `hash` is a deterministic function, whereas `password_hash(…, PASSWORD_BCRYPT)` draws a fresh salt on every call. In PHP a request that sends a password therefore always changes the row, so the 500 that `ProfileApi.PasswordChange` and `UsersApi.UpdateUserHandler` give when the new hash equals the old one practically never happens.
- `move_uploaded_file` is `FileStore.Put`. `unlink` is `FileStore.RemoveIfExists`.
- `generateUniqueFilename` (random bytes and time) and `ensureUploadDirectory` (creating the directory and its `.htaccess`) are parameters or omitted, since both are operating-system effects.
- The helpers `requireAdmin`, `isAdmin`, `isClient` and `getCurrentUserId` are not in the core. Their outcomes arrive in the `Caller` parameter.
- `EquipmentModel::findByAssignedTo`, `findByCategoryId`, `getStatistics` and `AuthController::register` are called by the core but defined outside it:
  - the assigned rows are a parameter of `EquipmentController.Visible`;
  - the category rows are a parameter of `EquipmentController.ByCategory`;
  - the statistics are a parameter of `EquipmentController.Statistics`;
  - the register route is modelled in `AuthRouter.RouteOf`, but its handler is not.
- The `PDOException` message text is not modelled. A database failure is a `DbError` that names its cause. Every `DbError` a table method returns is one its caller checked for beforehand (a duplicate key, a foreign key in use), so the controllers' `catch (PDOException …)` branches with their "Database error: " answer are not reached in the model. Failures from a value out of a column's range are not modelled at all; see `CartModel.Cart.AddToCart` below. The one database failure that is a parameter is the refused image INSERT (`FileEnv.insertError`).
- A refused image INSERT is modelled as taking no auto-increment id, although InnoDB may consume one.
- Exceptions the code catches as `Throwable` (bugs, a lost connection) are not modelled, apart from the profile `TypeError` and the 500 those handlers answer with.
- Deleting a user who still owns cart rows or is an equipment assignee is not checked against foreign keys.
- Concurrency between requests is not modelled: each request runs alone on the tables.
- The DOM, `fetch`, toasts and `renderTable` on the client pages are not modelled. `renderStats` is modelled on a map, so a status named like an `Object.prototype` key is not treated specially.
- `index.php`, `public/js/cart.js`, `public/js/profile.js`, `public/js/api.js`, `public/js/add.js`, `public/js/login.js`, the `setup_password` scripts and `config/db.php` are not part of this model. They are page wiring, setup scripts and connection configuration.
