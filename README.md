# WebTokoBaju in Dafny

WebTokoBaju is a clothing shop. It has two parts:

- a C# backend over MongoDB with users, activity logs, orders, sales statistics and promo codes;
- a React frontend with a cart kept in the browser, two checkout pages, a
  paginated catalogue, the customer's dashboard pages and the admin pages.

This project models both parts as values and small stateful classes, and proves
what each operation promises about them.

How the modules are laid out:

- **Stores are classes.** Each MongoDB collection is a class whose one `seq` field
  the service methods reassign: `PromosService.PromosCollection`,
  `OrdersService.OrdersCollection`, `UsersService.UsersCollection` and
  `ActivityLogService.LogsCollection`.
- **Controller actions are methods.** Each takes the stores it touches and returns
  an `Http.Response`.
- **React state that handlers change is a class.** The cart context
  (`CartContext.CartState`), the promo form of the checkout pages
  (`Checkout.PromoForm`), the catalogue pager (`ProductsPage.Pager`) and the
  address book (`UserAddresses.AddressBook`) are classes. Derived values are
  functions.
- **List updates are functions.** A list updater passed to `setState` is a
  function on sequences, with its effect and the invariant it keeps proved beside
  it.
- **Shared helpers.**
  - `Seqs` has first-match lookup, filter, map, sum, a stable descending sort and
    JavaScript's `slice`.
  - `Text` has ASCII trim, case mapping, substring search, split and join, and
    decimal digits.

Representations:

- Money is `real`. C# `decimal` and the JavaScript numbers are treated as exact.
- Instants are integer milliseconds since 1970-01-01T00:00Z. The browser's
  offset from UTC is a parameter of the promo form.
- The clock (`now`), new MongoDB ids (`freshId`) and `Date.now()` ids are parameters.

Behaviour of the code worth knowing before reading the contracts:

- **Promo codes are case-sensitive.** The promo code lookup compares codes exactly
  (`PromosService.cs:25-26`). The pages upper-case what the user types, but the
  server does not fold case, so a code stored with a lower-case letter can never
  be matched from the pages (`PromosService.CodeLookupCaseSensitive`).
- **The server's final total is not floored.** The final total the server returns
  from promo validation is `orderTotal - discount` with no floor at zero
  (`PromosController.cs:88`), and a percentage above 100 makes it negative
  (`PromosController.FinalTotalCanBeNegative`). Only the pages floor their own
  total.
- **The server does not check inputs.** Negative prices, quantities and discount
  values are accepted by the code as they are. No operation checks them, so the
  model checks none either.

## Model

| member | source | states |
|---|---|---|
| PromosService.IsPromoValid | WebTokoBaju/Backend/TokoBaju.Backend/Services/PromosService.cs:43-60 | a promo is valid exactly when it is active, `now` lies in its date window, it is under its usage limit (if any) and the order total reaches the minimum purchase |
| PromosService.DateWindowInclusive | WebTokoBaju/Backend/TokoBaju.Backend/Services/PromosService.cs:51 | both ends of the date window are accepted; one tick before the start or after the end is refused |
| PromosService.UsageLimitStrict | WebTokoBaju/Backend/TokoBaju.Backend/Services/PromosService.cs:54 | with a limit L, a used count of L-1 still qualifies and a used count of L does not |
| PromosService.NoLimitIgnoresCount | WebTokoBaju/Backend/TokoBaju.Backend/Services/PromosService.cs:54 | without a usage limit the used count has no effect on validity |
| PromosService.MinimumInclusive | WebTokoBaju/Backend/TokoBaju.Backend/Services/PromosService.cs:57 | an order total equal to the minimum purchase qualifies |
| PromosService.CalculateDiscount | WebTokoBaju/Backend/TokoBaju.Backend/Services/PromosService.cs:62-77 | a percentage discount is the percentage of the total, capped by the maximum discount when one is set; a fixed discount is the smaller of its value and the order total |
| PromosService.PercentageCapExample | WebTokoBaju/Backend/TokoBaju.Backend/Services/PromosService.cs:64-71 | 20 percent of 500000 with a cap of 50000 gives 50000 |
| PromosService.FixedCapExample | WebTokoBaju/Backend/TokoBaju.Backend/Services/PromosService.cs:73-76 | a fixed 100000 discount on an 80000 order gives 80000 |
| PromosService.PercentageCanExceedTotal | WebTokoBaju/Backend/TokoBaju.Backend/Services/PromosService.cs:64-71 | an uncapped percentage above 100 gives a discount larger than the order total |
| PromosService.PercentageWithinTotal | WebTokoBaju/Backend/TokoBaju.Backend/Services/PromosService.cs:64-71 | a percentage between 0 and 100 with a non-negative cap gives a discount between zero and the order total |
| PromosService.IncrementUsedCount | WebTokoBaju/Backend/TokoBaju.Backend/Services/PromosService.cs:37-41 | the first promo with the id has its used count raised by one; every other promo is unchanged, and an unknown id changes nothing |
| PromosService.IncrementAddsOneUse | WebTokoBaju/Backend/TokoBaju.Backend/Services/PromosService.cs:37-41 | over the whole collection, incrementing a stored promo adds exactly one use |
| PromosService.PromosCollection.constructor | WebTokoBaju/Backend/TokoBaju.Backend/Services/PromosService.cs:12-17 | the collection starts with the given promos |
| PromosService.PromosCollection.GetById | WebTokoBaju/Backend/TokoBaju.Backend/Services/PromosService.cs:22-23 | a promo is found exactly when one with that id is stored, and the one found has that id |
| PromosService.PromosCollection.GetByCode | WebTokoBaju/Backend/TokoBaju.Backend/Services/PromosService.cs:25-26 | a promo is found exactly when one with that code (compared exactly) is stored, and the one found has that code |
| PromosService.PromosCollection.Create | WebTokoBaju/Backend/TokoBaju.Backend/Services/PromosService.cs:28-29 | the promo is appended, with a fresh id when it had none |
| PromosService.PromosCollection.Update | WebTokoBaju/Backend/TokoBaju.Backend/Services/PromosService.cs:31-32 | the first promo with the id is replaced; an unknown id changes nothing |
| PromosService.PromosCollection.Remove | WebTokoBaju/Backend/TokoBaju.Backend/Services/PromosService.cs:34-35 | the first promo with the id is removed; an unknown id changes nothing |
| PromosService.PromosCollection.IncrementUsage | WebTokoBaju/Backend/TokoBaju.Backend/Services/PromosService.cs:37-41 | the store becomes the incremented list, and the total of used counts grows by one when the id is stored |
| PromosService.CodeLookupCaseSensitive | WebTokoBaju/Backend/TokoBaju.Backend/Services/PromosService.cs:25-26 | a lower-cased code does not find a promo stored under the upper-case code |
| PromosController.Post | WebTokoBaju/Backend/TokoBaju.Backend/Controllers/PromosController.cs:30-42 | a taken code gives BadRequest with "Kode promo sudah digunakan" and no change; otherwise the promo is stored with its id and returned as Created |
| PromosController.Update | WebTokoBaju/Backend/TokoBaju.Backend/Controllers/PromosController.cs:44-53 | an unknown id gives NotFound and no change; otherwise the stored promo is replaced by the body carrying the stored id, and NoContent |
| PromosController.Delete | WebTokoBaju/Backend/TokoBaju.Backend/Controllers/PromosController.cs:55-63 | an unknown id gives NotFound and no change; otherwise exactly one promo is removed, and NoContent |
| PromosController.ValidatePromo | WebTokoBaju/Backend/TokoBaju.Backend/Controllers/PromosController.cs:65-90 | NotFound exactly when no promo has the code; BadRequest exactly when the promo found is not valid; otherwise Ok with the promo's id, code, name, its discount and the total minus the discount |
| PromosController.FinalTotalCanBeNegative | WebTokoBaju/Backend/TokoBaju.Backend/Controllers/PromosController.cs:88 | a valid uncapped percentage promo above 100 makes the returned final total negative |
| PromosController.FixedFinalTotalNonNegative | WebTokoBaju/Backend/TokoBaju.Backend/Controllers/PromosController.cs:88 | for a fixed-amount promo the returned final total is never negative |
| OrdersService.SetStatus | WebTokoBaju/Backend/TokoBaju.Backend/Services/OrdersService.cs:39-43 | the first order with the id gets the new status and every other order is unchanged; an unknown id changes nothing |
| OrdersService.UserIds | WebTokoBaju/Backend/TokoBaju.Backend/Services/OrdersService.cs:58 | the distinct user ids are exactly those of the orders, and there are no more of them than orders |
| OrdersService.AddToGroups | WebTokoBaju/Backend/TokoBaju.Backend/Services/OrdersService.cs:62-69 | an item joins the group of its product name, adding its quantity and line revenue, or opens a new group at the end |
| OrdersService.GroupsDistinct | WebTokoBaju/Backend/TokoBaju.Backend/Services/OrdersService.cs:63 | the groups have pairwise distinct names |
| OrdersService.GroupsFromItems | WebTokoBaju/Backend/TokoBaju.Backend/Services/OrdersService.cs:63 | every group is named after some item |
| OrdersService.ItemsHaveGroups | WebTokoBaju/Backend/TokoBaju.Backend/Services/OrdersService.cs:63 | every item's product name has a group |
| OrdersService.GroupSumAt | WebTokoBaju/Backend/TokoBaju.Backend/Services/OrdersService.cs:64-69 | a group's sales and revenue are the sums over exactly the items with its name |
| OrdersService.TopProducts | WebTokoBaju/Backend/TokoBaju.Backend/Services/OrdersService.cs:70-71 | five products, or all of them when there are fewer groups, each group at most once, ordered by revenue from highest to lowest |
| OrdersService.TopProductsAreBest | WebTokoBaju/Backend/TokoBaju.Backend/Services/OrdersService.cs:62-72 | the top products are groups, and no group left out earns more than one kept in |
| OrdersService.Average | WebTokoBaju/Backend/TokoBaju.Backend/Services/OrdersService.cs:55 | the average times the count is the total when there are orders, and zero otherwise |
| OrdersService.SalesStatsOf | WebTokoBaju/Backend/TokoBaju.Backend/Services/OrdersService.cs:44-82 | revenue and order count over the orders not cancelled; new customers are the distinct user ids of those orders, never more than the orders; the average agrees with the revenue and the count; the top products are those of the lines of those orders |
| OrdersService.StatsOverValidOrders | WebTokoBaju/Backend/TokoBaju.Backend/Services/OrdersService.cs:51-54 | revenue and order count are taken over exactly the orders that are not Cancelled |
| OrdersService.CancelledIgnored | WebTokoBaju/Backend/TokoBaju.Backend/Services/OrdersService.cs:51 | inserting a Cancelled order anywhere leaves every statistic unchanged |
| OrdersService.OrdersCollection.constructor | WebTokoBaju/Backend/TokoBaju.Backend/Services/OrdersService.cs:12-21 | the collection starts with the given orders |
| OrdersService.OrdersCollection.GetById | WebTokoBaju/Backend/TokoBaju.Backend/Services/OrdersService.cs:26-27 | an order is found exactly when one with that id is stored, and the one found has it |
| OrdersService.OrdersCollection.Create | WebTokoBaju/Backend/TokoBaju.Backend/Services/OrdersService.cs:32-37 | the order is appended with creation time `now`, status Pending and a fresh id when it had none |
| OrdersService.OrdersCollection.UpdateStatus | WebTokoBaju/Backend/TokoBaju.Backend/Services/OrdersService.cs:39-43 | the store becomes the list with the first matching order's status set |
| OrdersService.OrdersCollection.Stats | WebTokoBaju/Backend/TokoBaju.Backend/Services/OrdersService.cs:44-82 | exactly the statistics of the stored orders, with new customers within orders within the store size and at most five top products |
| OrdersController.Post | WebTokoBaju/Backend/TokoBaju.Backend/Controllers/OrdersController.cs:49-65 | an order without items gives BadRequest and no change; otherwise the whole order is stored as sent, stamped Pending at `now` and given a fresh id when it had none, and that stored order is returned as Created |
| OrdersController.UpdateStatus | WebTokoBaju/Backend/TokoBaju.Backend/Controllers/OrdersController.cs:39-47 | an unknown id gives NotFound and no change; otherwise the status is set and NoContent |
| Cart.TotalPrice | WebTokoBaju/Backend/TokoBaju.Backend/Models/Cart.cs:16 | the sum of price times quantity over the items; its properties are the lemmas below |
| Cart.EmptyCartTotal | WebTokoBaju/Backend/TokoBaju.Backend/Models/Cart.cs:16 | an empty cart totals zero |
| Cart.AppendItemTotal | WebTokoBaju/Backend/TokoBaju.Backend/Models/Cart.cs:16 | adding an item adds its price times its quantity |
| Cart.TotalOrderIndependent | WebTokoBaju/Backend/TokoBaju.Backend/Models/Cart.cs:16 | two carts with the same items in any order have the same total |
| Cart.TotalNonNegative | WebTokoBaju/Backend/TokoBaju.Backend/Models/Cart.cs:16 | non-negative prices and quantities give a non-negative total |
| UsersService.UsersCollection.constructor | WebTokoBaju/Backend/TokoBaju.Backend/Services/UsersService.cs:12-21 | the collection starts with the given users |
| UsersService.UsersCollection.GetByEmail | WebTokoBaju/Backend/TokoBaju.Backend/Services/UsersService.cs:23-24 | a user is found exactly when one with that email is stored, and the one found has it |
| UsersService.UsersCollection.GetById | WebTokoBaju/Backend/TokoBaju.Backend/Services/UsersService.cs:32-33 | a user is found exactly when one with that id is stored, and the one found has it |
| UsersService.UsersCollection.Create | WebTokoBaju/Backend/TokoBaju.Backend/Services/UsersService.cs:26-27 | the user is appended with a fresh id when it had none; a new email then finds it, and an email already taken still finds the earlier user |
| UsersService.UsersCollection.Update | WebTokoBaju/Backend/TokoBaju.Backend/Services/UsersService.cs:35-36 | the first user with the id is replaced |
| ActivityLogService.LogsCollection.constructor | WebTokoBaju/Backend/TokoBaju.Backend/Services/ActivityLogService.cs:12-21 | the log starts with the given entries |
| ActivityLogService.LogsCollection.Log | WebTokoBaju/Backend/TokoBaju.Backend/Services/ActivityLogService.cs:23-35 | exactly one entry with the given fields and time `now` is appended, and earlier entries are kept |
| AuthController.OrUnknown | WebTokoBaju/Backend/TokoBaju.Backend/Controllers/AuthController.cs:70 | a missing id is logged as "Unknown" and a present one as itself |
| AuthController.UniqueEmailsAppend | WebTokoBaju/Backend/TokoBaju.Backend/Controllers/AuthController.cs:23-37 | appending a user whose email is not yet stored keeps emails unique |
| AuthController.Authenticate | WebTokoBaju/Backend/TokoBaju.Backend/Controllers/AuthController.cs:59-61 | login succeeds exactly when the first user with the email has the given password, and yields that user |
| AuthController.AuthenticateUnique | WebTokoBaju/Backend/TokoBaju.Backend/Controllers/AuthController.cs:59-61 | with unique emails, login succeeds exactly when some stored user has both the email and the password |
| AuthController.ShadowedAccountRefused | WebTokoBaju/Backend/TokoBaju.Backend/Controllers/AuthController.cs:59-61 | with duplicate emails, only the first account is ever checked: a matching second account is refused |
| AuthController.Register | WebTokoBaju/Backend/TokoBaju.Backend/Controllers/AuthController.cs:20-54 | a taken email gives BadRequest with "Email already registered" and no change; otherwise a Customer is stored and found by email, one Register entry is logged, and emails stay unique |
| AuthController.Login | WebTokoBaju/Backend/TokoBaju.Backend/Controllers/AuthController.cs:56-85 | Unauthorized with "Invalid email or password" exactly when authentication fails, logging nothing; otherwise the user's id, email, name and role, and one Login entry is logged |
| AuthController.SeedAdmin | WebTokoBaju/Backend/TokoBaju.Backend/Controllers/AuthController.cs:87-107 | an existing admin email gives BadRequest and no change; otherwise the admin account is stored; either way the admin email is then found, and emails stay unique |
| UsersController.MergeUpdate | WebTokoBaju/Backend/TokoBaju.Backend/Controllers/UsersController.cs:45-51 | the stored id is kept, an empty password keeps the stored one, and every other field comes from the body |
| UsersController.MergeUpdateIdempotent | WebTokoBaju/Backend/TokoBaju.Backend/Controllers/UsersController.cs:45-51 | merging a merged body again changes nothing |
| UsersController.Update | WebTokoBaju/Backend/TokoBaju.Backend/Controllers/UsersController.cs:35-58 | an unknown id gives NotFound and no change; otherwise the stored user is replaced by the merged body, and NoContent |
| UsersController.Credited | WebTokoBaju/Backend/TokoBaju.Backend/Controllers/UsersController.cs:66 | the wallet grows by the amount and nothing else changes |
| UsersController.TopUpAddsToTotal | WebTokoBaju/Backend/TokoBaju.Backend/Controllers/UsersController.cs:60-70 | crediting one stored user raises the sum of all wallets by exactly the amount |
| UsersController.TopUpWallet | WebTokoBaju/Backend/TokoBaju.Backend/Controllers/UsersController.cs:60-70 | an unknown id gives NotFound and no change; otherwise the new balance is returned, the user is credited, and the wallets' sum grows by the amount |
| CartContext.AddedTo | WebTokoBaju/Frontend/src/context/CartContext.jsx:19-31 | a line with the same product and size gains one unit and the others are kept; without one a line of quantity 1 is appended |
| CartContext.RemovedFrom | WebTokoBaju/Frontend/src/context/CartContext.jsx:33-35 | the lines kept are exactly those that do not match the product and size |
| CartContext.QuantitySet | WebTokoBaju/Frontend/src/context/CartContext.jsx:37-46 | a quantity below 1 changes nothing; otherwise the matching lines take the quantity, keys stay, and the other lines are unchanged |
| CartContext.AddKeepsWellFormed | WebTokoBaju/Frontend/src/context/CartContext.jsx:19-31 | adding keeps at most one line per product and size, each with a positive quantity |
| CartContext.AddPresentIsUpdate | WebTokoBaju/Frontend/src/context/CartContext.jsx:22-27 | when exactly one line matches, adding bumps that line and only it |
| CartContext.AddAbsentTotals | WebTokoBaju/Frontend/src/context/CartContext.jsx:29 | adding a new line raises the item count by one and the price total by the product's price |
| CartContext.AddPresentTotals | WebTokoBaju/Frontend/src/context/CartContext.jsx:22-27 | bumping a line raises the item count by one and the price total by that line's price |
| CartContext.AddRaisesTotals | WebTokoBaju/Frontend/src/context/CartContext.jsx:52-53 | every add raises the item count by one and the price total by the matching line's price, or by the product's price when there is none |
| CartContext.RemoveKeepsWellFormed | WebTokoBaju/Frontend/src/context/CartContext.jsx:33-35 | removing keeps the cart well formed |
| CartContext.RemoveOneLine | WebTokoBaju/Frontend/src/context/CartContext.jsx:33-35 | in a well-formed cart, removing a line's key removes exactly that line |
| CartContext.RemoveAbsent | WebTokoBaju/Frontend/src/context/CartContext.jsx:33-35 | removing a key no line has changes nothing |
| CartContext.QuantityKeepsWellFormed | WebTokoBaju/Frontend/src/context/CartContext.jsx:37-46 | setting a quantity keeps the cart well formed |
| CartContext.QuantitySetCount | WebTokoBaju/Frontend/src/context/CartContext.jsx:52 | setting a line to q changes the item count by q minus its old quantity |
| CartContext.ItemCount | WebTokoBaju/Frontend/src/context/CartContext.jsx:52 | the sum of the lines' quantities; see AddRaisesTotals, QuantitySetCount and CountAtLeastLines |
| CartContext.PriceTotal | WebTokoBaju/Frontend/src/context/CartContext.jsx:53 | the sum of price times quantity over the lines; see AddRaisesTotals |
| CartContext.CountAtLeastLines | WebTokoBaju/Frontend/src/context/CartContext.jsx:52 | in a well-formed cart the item count is at least the number of lines |
| CartContext.CartState.constructor | WebTokoBaju/Frontend/src/context/CartContext.jsx:8-12 | the cart starts with the saved lines |
| CartContext.CartState.AddToCart | WebTokoBaju/Frontend/src/context/CartContext.jsx:19-31 | the lines become the added list; a valid cart stays valid and counts one more item |
| CartContext.CartState.RemoveFromCart | WebTokoBaju/Frontend/src/context/CartContext.jsx:33-35 | the lines become the filtered list and validity is kept |
| CartContext.CartState.UpdateQuantity | WebTokoBaju/Frontend/src/context/CartContext.jsx:37-46 | the lines become the updated list, a quantity below 1 changes nothing, and validity is kept |
| CartContext.CartState.ClearCart | WebTokoBaju/Frontend/src/context/CartContext.jsx:48-50 | the cart is empty, valid, and both totals are zero |
| Checkout.CheckoutTotals | WebTokoBaju/Frontend/src/pages/Checkout.jsx:27-34 | tax is 11 percent of the subtotal; the pre-discount total adds shipping and tax; the discount is the applied promo's or zero; the final total is the difference, or zero when the discount covers it |
| Checkout.NoPromoTotal | WebTokoBaju/Frontend/src/pages/Checkout.jsx:27-34 | without a promo the total is 111 percent of the subtotal plus 25000; 150000 gives 191500 |
| Checkout.TaxIgnoresPromo | WebTokoBaju/Frontend/src/pages/Checkout.jsx:31-32 | tax and the pre-discount total do not depend on the promo |
| Checkout.DiscountLowersTotal | WebTokoBaju/Frontend/src/pages/Checkout.jsx:33-34 | a larger discount never gives a larger total, and a non-negative discount never beats no promo |
| Checkout.ErrorText | WebTokoBaju/Frontend/src/pages/Checkout.jsx:53-55 | the shown error is never empty and is the server's message when it sends one |
| Checkout.PromoForm.constructor | WebTokoBaju/Frontend/src/pages/Checkout.jsx:22-25 | no code, no applied promo, no error |
| Checkout.PromoForm.OnCodeInput | WebTokoBaju/Frontend/src/pages/Checkout.jsx:207 | the code becomes the upper-cased input, without lower-case letters, and the error is cleared |
| Checkout.PromoForm.ApplyPromo | WebTokoBaju/Frontend/src/pages/Checkout.jsx:36-59 | a blank code sends nothing and changes nothing; otherwise the code and subtotal are sent, an accepted reply applies the discount and a rejected one clears the promo and shows the error |
| Checkout.PromoForm.RemovePromo | WebTokoBaju/Frontend/src/pages/Checkout.jsx:61-65 | code, applied promo and error are all cleared |
| Checkout.PayloadFor | WebTokoBaju/Frontend/src/pages/Checkout.jsx:71-81 | the payload carries the items, the page's non-negative final total, the discount, the promo code exactly when one is applied, status Pending and the form's shipping fields |
| CheckoutPage.OrderPayloadOf | WebTokoBaju/Frontend/src/pages/Checkout.jsx:71-81 | the cart lines unchanged, the total of the cart's price total with tax, shipping and discount floored at zero, and the promo code when applied |
| DashboardCheckout.TwoDigits | WebTokoBaju/Frontend/src/pages/dashboard/DashboardCheckout.jsx:66 | the decimal digits padded to two with zeros; see TwoDigitsValue |
| DashboardCheckout.FormatTime | WebTokoBaju/Frontend/src/pages/dashboard/DashboardCheckout.jsx:63-67 | minutes and seconds, two digits each, joined by a colon; see FormatTimeReadsBack |
| DashboardCheckout.TwoDigitsValue | WebTokoBaju/Frontend/src/pages/dashboard/DashboardCheckout.jsx:66 | a number below 100 is written as two digits that read back as the number |
| DashboardCheckout.FormatTimeReadsBack | WebTokoBaju/Frontend/src/pages/dashboard/DashboardCheckout.jsx:63-67 | below 100 minutes the text is MM:SS whose two fields read back as the minutes and the seconds |
| DashboardCheckout.FormatTimeExamples | WebTokoBaju/Frontend/src/pages/dashboard/DashboardCheckout.jsx:63-67 | 1800 seconds read "30:00" and 1 second reads "00:01" |
| DashboardCheckout.PayloadItem | WebTokoBaju/Frontend/src/pages/dashboard/DashboardCheckout.jsx:131-139 | an item keeps the line's product id, name, price, quantity and image, and always carries a non-empty size, the line's own when it has one |
| DashboardCheckout.PayloadLinesTotal | WebTokoBaju/Frontend/src/pages/dashboard/DashboardCheckout.jsx:131-139 | the rebuilt items total the same as the cart |
| DashboardCheckout.OrderPayloadOf | WebTokoBaju/Frontend/src/pages/dashboard/DashboardCheckout.jsx:129-146 | one item per cart line, totalling the cart; the page's non-negative final total; the promo code exactly when one is applied; status Pending |
| CartPages.SummaryOf | WebTokoBaju/Frontend/src/pages/Cart.jsx:10-14 | the cart page's total equals the checkout's pre-discount total and is at least the shipping cost for a non-negative subtotal |
| CartPages.SummaryMatchesCheckout | WebTokoBaju/Frontend/src/pages/Cart.jsx:14 | for a non-negative subtotal the cart page's total equals the checkout's total without a promo |
| CartPages.SummaryHasNoFloor | WebTokoBaju/Frontend/src/pages/Cart.jsx:14 | the cart page does not floor its total; the checkout does |
| CartPages.DecreaseQuantity | WebTokoBaju/Frontend/src/pages/Cart.jsx:87 | the line's quantity is set one lower, nothing changes at quantity 1, and validity is kept |
| CartPages.IncreaseQuantity | WebTokoBaju/Frontend/src/pages/Cart.jsx:94 | the line's quantity is set one higher, validity is kept, and the item count grows by one |
| CartPages.RemoveLine | WebTokoBaju/Frontend/src/pages/Cart.jsx:108 | the line's key is removed, the line is gone, and validity is kept |
| UserAddresses.WithoutId | WebTokoBaju/Frontend/src/pages/dashboard/UserAddresses.jsx:56 | the addresses kept are exactly those with another id |
| UserAddresses.WithoutIdOne | WebTokoBaju/Frontend/src/pages/dashboard/UserAddresses.jsx:56 | with distinct ids, deleting an address's id removes exactly that address |
| UserAddresses.WithoutIdKeepsWellFormed | WebTokoBaju/Frontend/src/pages/dashboard/UserAddresses.jsx:53-58 | deleting keeps ids distinct and at most one default |
| UserAddresses.DefaultSet | WebTokoBaju/Frontend/src/pages/dashboard/UserAddresses.jsx:60-66 | each address is default exactly when it has the id, and an unknown id leaves no default |
| UserAddresses.DefaultSetExactlyOne | WebTokoBaju/Frontend/src/pages/dashboard/UserAddresses.jsx:61-64 | with distinct ids, choosing a stored address makes it the only default |
| UserAddresses.DefaultSetKeepsWellFormed | WebTokoBaju/Frontend/src/pages/dashboard/UserAddresses.jsx:60-66 | choosing a default keeps ids distinct and at most one default |
| UserAddresses.Submitted | WebTokoBaju/Frontend/src/pages/dashboard/UserAddresses.jsx:92-118 | editing replaces the edited address by the form; adding appends it with the fresh id, as default when it is the first; a default form clears every other default |
| UserAddresses.SubmittedKeepsWellFormed | WebTokoBaju/Frontend/src/pages/dashboard/UserAddresses.jsx:92-118 | with a fresh id that is not in use, submitting keeps ids distinct and at most one default |
| UserAddresses.SubmittedDefaultIsOnly | WebTokoBaju/Frontend/src/pages/dashboard/UserAddresses.jsx:97-113 | a new default address is the only default, and a default edit leaves exactly the edited address as default |
| UserAddresses.AddressBook.constructor | WebTokoBaju/Frontend/src/pages/dashboard/UserAddresses.jsx:26-30 | the book starts with the user's stored addresses |
| UserAddresses.AddressBook.Save | WebTokoBaju/Frontend/src/pages/dashboard/UserAddresses.jsx:68-90 | the new list is adopted only when the server stored it |
| UserAddresses.AddressBook.Delete | WebTokoBaju/Frontend/src/pages/dashboard/UserAddresses.jsx:53-58 | when confirmed and stored, the address is deleted; otherwise nothing changes; validity is kept |
| UserAddresses.AddressBook.SetDefault | WebTokoBaju/Frontend/src/pages/dashboard/UserAddresses.jsx:60-66 | when stored, the chosen address becomes the default; validity is kept |
| UserAddresses.AddressBook.Submit | WebTokoBaju/Frontend/src/pages/dashboard/UserAddresses.jsx:92-118 | nothing changes unless stored; once stored the book is the submitted list: an edit replaces the addresses with that id and an add appends the form under the fresh id, as default when the book was empty, with the other defaults cleared when the form is default; validity is kept |
| ProductsPage.ReverseInPlace | WebTokoBaju/Frontend/src/pages/Products.jsx:22 | the array's contents become their reverse, in place |
| ProductsPage.TotalPages | WebTokoBaju/Frontend/src/pages/Products.jsx:43 | the pages hold every product, one page fewer would not, and there are no pages exactly when there are no products |
| ProductsPage.PageItems | WebTokoBaju/Frontend/src/pages/Products.jsx:40-42 | at most nine products, and for page p from 1 up the products from position 9(p-1) to 9p, cut at the list's end |
| ProductsPage.PagesCoverAll | WebTokoBaju/Frontend/src/pages/Products.jsx:40-43 | all pages in order, put together, are the whole list |
| ProductsPage.RangeShown | WebTokoBaju/Frontend/src/pages/Products.jsx:135 | on an existing page the "showing a-b" range lies within 1 and the product count |
| ProductsPage.RangeCountsPage | WebTokoBaju/Frontend/src/pages/Products.jsx:135 | the shown range counts exactly the products on the page |
| ProductsPage.EmptyCatalogue | WebTokoBaju/Frontend/src/pages/Products.jsx:135 | with no products there are no pages, the range reads 1-0 and the next button is enabled |
| ProductsPage.Pager.constructor | WebTokoBaju/Frontend/src/pages/Products.jsx:37 | the pager starts on page 1 |
| ProductsPage.Pager.Paginate | WebTokoBaju/Frontend/src/pages/Products.jsx:45 | the current page becomes the chosen number |
| ProductsPage.Pager.Previous | WebTokoBaju/Frontend/src/pages/Products.jsx:202-204 | the page goes down by one unless on page 1, so it never drops below 1 |
| ProductsPage.Pager.Next | WebTokoBaju/Frontend/src/pages/Products.jsx:223-225 | the page goes up by one unless on the last page, so it stays within the pages |
| AdminProductForm.ParseSizes | WebTokoBaju/Frontend/src/pages/admin/AdminProductForm.jsx:73 | split at commas, trimmed, blanks dropped; see ParsedSizesClean and SizesRoundTrip |
| AdminProductForm.FormOf | WebTokoBaju/Frontend/src/pages/admin/AdminProductForm.jsx:44-52 | the product's fields, with the sizes joined by ", "; see EditUnchangedKeepsProduct |
| AdminProductForm.ParsedSizesClean | WebTokoBaju/Frontend/src/pages/admin/AdminProductForm.jsx:73 | every parsed size is non-empty, trimmed and without a comma |
| AdminProductForm.ParseField | WebTokoBaju/Frontend/src/pages/admin/AdminProductForm.jsx:73 | the text before the first comma gives one trimmed size, or none when blank, followed by the sizes of the rest |
| AdminProductForm.ParseLeadingSpace | WebTokoBaju/Frontend/src/pages/admin/AdminProductForm.jsx:73 | a leading space changes no size |
| AdminProductForm.SizesRoundTrip | WebTokoBaju/Frontend/src/pages/admin/AdminProductForm.jsx:51 | clean sizes joined with ", " for editing parse back to the same sizes |
| AdminProductForm.SubmitPayload | WebTokoBaju/Frontend/src/pages/admin/AdminProductForm.jsx:65-78 | the id is sent exactly in edit mode and is the route's, the sizes are the parsed clean list, and the other fields are the form's |
| AdminProductForm.EditUnchangedKeepsProduct | WebTokoBaju/Frontend/src/pages/admin/AdminProductForm.jsx:44-52 | loading a product with clean sizes into the form and submitting it unchanged sends the same sizes |
| AdminPromos.StatusLabel | WebTokoBaju/Frontend/src/pages/admin/AdminPromos.jsx:126-135 | Nonaktif when inactive, Terjadwal before the start, Expired after the end, and Aktif exactly when active within the window |
| AdminPromos.AktifMatchesServer | WebTokoBaju/Frontend/src/pages/admin/AdminPromos.jsx:126-135 | Aktif is the server's active-and-in-window test; every valid promo is Aktif; usage and minimum do not affect the label |
| AdminPromos.AktifButExhausted | WebTokoBaju/Frontend/src/pages/admin/AdminPromos.jsx:126-135 | a promo used up to its limit is still labelled Aktif although the server refuses it |
| AdminPromos.SentMaxDiscount | WebTokoBaju/Frontend/src/pages/admin/AdminPromos.jsx:56 | no maximum is sent exactly when the field is empty or holds a stored 0; otherwise its number is sent |
| AdminPromos.SentUsageLimit | WebTokoBaju/Frontend/src/pages/admin/AdminPromos.jsx:57 | no limit is sent exactly when the field is empty or holds a stored 0; otherwise its number is sent |
| AdminPromos.EditedMaxDiscount | WebTokoBaju/Frontend/src/pages/admin/AdminPromos.jsx:101 | editing shows an empty field exactly when the stored maximum is missing or 0 |
| AdminPromos.EditedUsageLimit | WebTokoBaju/Frontend/src/pages/admin/AdminPromos.jsx:102 | editing shows an empty field exactly when the stored limit is missing or 0 |
| AdminPromos.PromoDataOf | WebTokoBaju/Frontend/src/pages/admin/AdminPromos.jsx:49-61 | the maximum and limit are dropped exactly when empty or a stored 0; the dates are the form's minutes read as local time, so they fall on whole minutes, the browser's offset before the same text read as UTC; every other field is sent as entered |
| AdminPromos.UtcMinuteText | WebTokoBaju/Frontend/src/pages/admin/AdminPromos.jsx:99-100 | the text `startEdit` writes names the UTC minute holding the instant |
| AdminPromos.LocalInstant | WebTokoBaju/Frontend/src/pages/admin/AdminPromos.jsx:58-59 | `new Date(text)` reads the text as local time: a whole-minute instant the browser's offset before the text read as UTC |
| AdminPromos.StartEdit | WebTokoBaju/Frontend/src/pages/admin/AdminPromos.jsx:96-103 | the stored promo's fields are copied; the maximum and limit shown empty exactly when missing or 0; each date as the UTC minute holding it |
| AdminPromos.EditThenSave | WebTokoBaju/Frontend/src/pages/admin/AdminPromos.jsx:96-103 | opening a promo and saving it unchanged sends its fields back, except that a stored 0 maximum or limit comes back as none and each date is cut to its minute and moved back by the browser's offset |
| AdminPromos.ResaveShiftsDates | WebTokoBaju/Frontend/src/pages/admin/AdminPromos.jsx:99-100 | outside UTC every unchanged save moves whole-minute dates back by the offset, and a second save moves them back again |
| AdminPromos.ResaveAtUtcPlusSeven | WebTokoBaju/Frontend/src/pages/admin/AdminPromos.jsx:99-100 | a promo starting 2025-01-01T00:00:30Z saved unchanged at UTC+7 comes back starting 2024-12-31T17:00:00Z |
| AdminPromos.LocalMinuteText | WebTokoBaju/Frontend/src/pages/admin/AdminPromos.jsx:272-275 | the text a local date-time input shows names the local minute holding the instant |
| AdminPromos.StartEditLocal | WebTokoBaju/Frontend/src/pages/admin/AdminPromos.jsx:96-103 | the corrected `startEdit`: the same form, with each date shown as its local minute |
| AdminPromos.EditLocalThenSave | WebTokoBaju/Frontend/src/pages/admin/AdminPromos.jsx:96-103 | with the corrected `startEdit` an unchanged save only cuts the dates to the minute, in any time zone, and a second save changes nothing |
| AdminPromos.ZeroLimitLostOnResave | WebTokoBaju/Frontend/src/pages/admin/AdminPromos.jsx:57 | a promo with usage limit 0 is never valid on the server, and saving it unchanged makes it unlimited |
| AdminPromos.WithCode | WebTokoBaju/Frontend/src/pages/admin/AdminPromos.jsx:176 | the code becomes the upper-cased input without lower-case letters, and nothing else changes |
| AdminPromos.WithCodeStable | WebTokoBaju/Frontend/src/pages/admin/AdminPromos.jsx:176 | typing the shown code again changes nothing |
| OrderLists.NewestFirst | WebTokoBaju/Frontend/src/pages/admin/AdminOrders.jsx:14 | a permutation of the orders with creation times from newest to oldest |
| OrderLists.NewestFirstHead | WebTokoBaju/Frontend/src/pages/dashboard/DashboardProfile.jsx:18 | the first sorted order is one of the orders and none is newer |
| AdminOrders.StatusBadge | WebTokoBaju/Frontend/src/pages/admin/AdminOrders.jsx:38-47 | a status in the table gets its own style, and any other status gets Pending's |
| AdminOrders.PaidLooksPending | WebTokoBaju/Frontend/src/pages/admin/AdminOrders.jsx:46 | the status Paid is styled as Pending |
| AdminOrders.FilteredOrders | WebTokoBaju/Frontend/src/pages/admin/AdminOrders.jsx:49-56 | an order is shown exactly when it matches the search (name or id ignoring case, phone as typed) and the status filter |
| AdminOrders.ShowAll | WebTokoBaju/Frontend/src/pages/admin/AdminOrders.jsx:49-56 | an empty search with filter All shows every order in order |
| AdminOrders.FilterIsExactStatus | WebTokoBaju/Frontend/src/pages/admin/AdminOrders.jsx:54 | a filter other than All shows only orders with exactly that status |
| AdminOrders.FilteredKeepsOrder | WebTokoBaju/Frontend/src/pages/admin/AdminOrders.jsx:49 | filtering keeps the table's order |
| AdminDashboard.AsArray | WebTokoBaju/Frontend/src/pages/admin/AdminDashboard.jsx:35-36 | an array response is used as it is, and anything else as an empty list |
| AdminDashboard.TotalRevenue | WebTokoBaju/Frontend/src/pages/admin/AdminDashboard.jsx:38 | the sum of every order's total; see RevenueIncludesCancelled |
| AdminDashboard.RevenueIncludesCancelled | WebTokoBaju/Frontend/src/pages/admin/AdminDashboard.jsx:38 | the revenue card is the server's revenue plus the amounts of the cancelled orders |
| AdminDashboard.LinesOf | WebTokoBaju/Frontend/src/pages/admin/AdminDashboard.jsx:39 | an order counts its number of lines, and 1 when it has none |
| AdminDashboard.ItemsSold | WebTokoBaju/Frontend/src/pages/admin/AdminDashboard.jsx:39 | the orders' line counts summed; see ItemsSoldAtLeastOrders and ItemsSoldCountsLines |
| AdminDashboard.ItemsSoldAtLeastOrders | WebTokoBaju/Frontend/src/pages/admin/AdminDashboard.jsx:39 | items sold are at least the number of orders |
| AdminDashboard.ItemsSoldCountsLines | WebTokoBaju/Frontend/src/pages/admin/AdminDashboard.jsx:39 | an order with at most one line counts 1, however many units it holds |
| AdminDashboard.StatsOf | WebTokoBaju/Frontend/src/pages/admin/AdminDashboard.jsx:35-47 | the counts of both lists, the revenue, the first five orders and the items sold, which reach the order count; a non-array orders response gives zeros |
| DashboardShop.DefaultSize | WebTokoBaju/Frontend/src/pages/dashboard/DashboardShop.jsx:46 | the product's first size, or "M" when it has none |
| DashboardShop.IsInCart | WebTokoBaju/Frontend/src/pages/dashboard/DashboardShop.jsx:56-58 | true exactly when some line holds the product, in any size |
| DashboardShop.AddedIsInCart | WebTokoBaju/Frontend/src/pages/dashboard/DashboardShop.jsx:45-58 | after adding a product in any size it is in the cart |
| DashboardShop.InCartWhateverSize | WebTokoBaju/Frontend/src/pages/dashboard/DashboardShop.jsx:56-58 | a line in size L marks the product as in the cart though no line in the default size exists |
| DashboardShop.HandleAddToCart | WebTokoBaju/Frontend/src/pages/dashboard/DashboardShop.jsx:45-47 | the product is added under its default size, is then in the cart, and validity is kept |
| DashboardShop.FilteredProducts | WebTokoBaju/Frontend/src/pages/dashboard/DashboardShop.jsx:60-64 | a product is shown exactly when its name contains the search ignoring case and its category matches or the filter is All |
| DashboardShop.ShowAll | WebTokoBaju/Frontend/src/pages/dashboard/DashboardShop.jsx:60-64 | an empty search with category All shows every product |
| DashboardShop.FilteredKeepsOrder | WebTokoBaju/Frontend/src/pages/dashboard/DashboardShop.jsx:60 | filtering keeps the fetched order |
| DashboardProfile.ActiveOrders | WebTokoBaju/Frontend/src/pages/dashboard/DashboardProfile.jsx:43 | at most the number of orders, and all of them exactly when none has a finished status |
| DashboardProfile.EndedOrdersCountAsActive | WebTokoBaju/Frontend/src/pages/dashboard/DashboardProfile.jsx:43 | a Completed or Cancelled order is counted as active |
| DashboardProfile.OpenOrders | WebTokoBaju/Frontend/src/pages/dashboard/DashboardProfile.jsx:43 | the open orders are no more than the active count, which is no more than all orders |
| DashboardProfile.EndedOrdersNotOpen | WebTokoBaju/Frontend/src/pages/dashboard/DashboardProfile.jsx:43 | inserting a Completed or Cancelled order anywhere does not change the open count |
| DashboardProfile.LastOrder | WebTokoBaju/Frontend/src/pages/dashboard/DashboardProfile.jsx:48 | none exactly when there are no orders, and otherwise the first |
| DashboardProfile.LastOrderIsNewest | WebTokoBaju/Frontend/src/pages/dashboard/DashboardProfile.jsx:18-48 | over the sorted list the last order is one of the user's orders and no order is newer |
| DashboardProfile.RecentHistory | WebTokoBaju/Frontend/src/pages/dashboard/DashboardProfile.jsx:189 | at most five orders, the first ones of the list |

## Left out

- Persistence is left out. MongoDB, its drivers and the browser's `localStorage`
  are replaced by `seq` fields and constructor arguments. Serialising the cart
  to JSON is not modelled.
- Generated values are parameters. New ObjectIds, `Date.now()` ids, the UTC clock,
  `Guid.NewGuid()` in the login token and the random virtual-account number are
  either parameters or not modelled.
- The HTTP layer is left out. This covers route constraints such as `{id:length(24)}`,
  model binding, JSON casing and the CreatedAtAction location header. The
  client and server name some fields differently: the client reads
  `discountAmount` while the server sends `discount`. Each side is modelled on
  its own terms.
- C# `int` fields are unbounded Dafny `int`: 32-bit overflow is not modelled.
  This covers `CartItem.Quantity`, `Promo.UsedCount` and `UsageLimit`, and the
  sales and count fields of the statistics. The checked LINQ sum of quantities
  (`OrdersService.cs:67`) would throw `OverflowException` past 2^31-1, and the
  `Inc` on `UsedCount` (`PromosService.cs:39`) grows an Int32 field; neither
  limit is part of the model.
- Floating point is not modelled. Money is exact `real`, and `0.11` is 11/100.
  Currency and date formatting by locale is left out.
- `parseFloat` and `parseInt` are not modelled. The product and promo forms hold
  numbers already parsed.
- A field's `|| 0` fallback (`totalAmount || 0`, `stock || 0`) and NaN are not
  modelled. The server always sends these fields as numbers.
- Absent JavaScript values are the empty string. A null password, a missing cart
  size, an absent order id, an absent editing id and an absent route id are all
  modelled as "". A missing `items` list in an order post is the empty list,
  which takes the same BadRequest branch.
- OrderLists.NewestFirst: the model sorts stably, as `Array.prototype.sort` must
  since ECMAScript 2019: the insertion step places an element after those with
  an equal key. This holds by construction only; no lemma states that orders
  created at the same instant keep their list order. The descending sort in
  `Seqs` is an insertion sort, not the browser's algorithm.
- The image placeholder in the catalogue is not modelled. Neither are the admin
  dashboard's chart figures or the product detail page.
- AuthController.SeedAdmin: the BadRequest body is a bare string in the code. It is
  modelled as the message.
- OrdersController.Post: the BadRequest body for an order without items is also a
  bare string (`OrdersController.cs:55`). It is modelled as the message too.
- PromosService.PromosCollection.Create, OrdersService.OrdersCollection.Create and
  UsersService.UsersCollection.Create append the body even when it carries an id
  that is already stored. MongoDB refuses such an insert with a duplicate-key
  error and stores nothing; the model does not capture that error.
- AdminPromos.StartEdit: the date texts follow `toISOString` only for years 0
  to 9999, and the browser's offset is one fixed number, so a daylight-saving
  change between two dates is not modelled.
- AdminOrders.StatusBadge: keys inherited from JavaScript's object prototype, such
  as `constructor`, are not modelled.
- PromosService.PromosCollection.IncrementUsage: concurrency is left out. Two
  checkouts can both pass validation before either increments the count, and the
  model runs operations one at a time, so it does not capture this race.
- Loading flags, toasts, alerts, navigation, timers and animations are not
  modelled. Neither are the payment countdown's ticking, the components, the
  layouts or the static pages.
- The categories, products and activity-log controllers and their services are
  not part of this model. They are plain pass-throughs to storage.
- ProductsPage.Pager.Paginate: the page number is any integer. The buttons only
  offer existing pages, and the model does not restrict it to them.

## Findings

| source | as written | input that shows it | evidently intended | confidence | as-written member | corrected member |
|---|---|---|---|---|---|---|
| WebTokoBaju/Frontend/src/pages/dashboard/DashboardProfile.jsx:43 | the active-orders count excludes only "Selesai", "Dibatalkan" and "Delivered", none of which the admin page ever sets, so orders the admin marks "Completed" or "Cancelled" still count as active | one order with status "Cancelled" gives an active count of 1 | finished orders, including "Completed" and "Cancelled", are not counted as active | not executed; medium | DashboardProfile.EndedOrdersCountAsActive | DashboardProfile.EndedOrdersNotOpen |
| WebTokoBaju/Frontend/src/pages/admin/AdminPromos.jsx:99-100 | `startEdit` fills the local date-time inputs with UTC text cut to the minute, and `handleSubmit` reads the text back as local time at lines 58-59, so each unchanged save moves both dates by the browser's offset | a promo starting 2025-01-01T00:00:30Z, edited and saved unchanged in a UTC+7 browser, is sent back starting 2024-12-31T17:00:00Z | an unchanged save keeps the dates, apart from cutting them to the minute | not executed; high | AdminPromos.ResaveShiftsDates | AdminPromos.EditLocalThenSave |
