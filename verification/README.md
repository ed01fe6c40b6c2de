# parrot-api order management, modelled in Dafny

This project models the domain core of the parrot-api backend, a Django REST
service that restaurants use to manage orders. It covers the following parts:

- **Stores.** There are three soft-deletable record stores: products, orders,
  and line items (`ProductQuantity`, a quantity of one product in one order).
- **Order totals.** Every write of a line item moves the owning order's stored
  `total_price` by the change in that line's value.
- **Order creation.** Creating an order resolves each payload product by name.
  It reuses the active product or creates a new one. It then creates or
  overwrites the line item and accumulates the total.
- **Product catalog.** The catalog keeps active names unique.
- **Order states.** An order is open, closed or deleted.
- **Field validators.** The length limits and the Latin-charset regular
  expression, plus the null and empty-string guards.
- **User store rules.** Email and full-name uniqueness among active users,
  soft delete, the superuser role rule, and the creator-role ordering of
  `UserView.post`.
- **Errors.** The exception kinds with their HTTP status codes, and the error
  body the custom exception handler builds.

**Stores.** A store is a sequence, and a record's identifier is its position,
so a new record gets the store's length as its id. Every primary key in the
source is a random `uuid4`, so the record `.first()` picks among several
matches bears no relation to creation order. The model lets `.first()` pick
the match with the lowest position, standing in for an arbitrary one. The
choice makes no difference where at most one active record can match: active
product names, which the catalog keeps unique
(`ProductService.CatalogKeepsUniqueNames`); line items per order and product,
of which every write keeps at most one active (`Records.OneActiveLinePerProduct`,
proved kept in `LineUniqueness`); and active user emails
(`UserRepository.UserStoreKeepsUniqueEmails`). Timestamps become flags: `deleted` stands for a set
`deleted_at` and `closed` for a set `closed_at`. Nullable columns are
`Option`s.

**Failures and partial writes.** Every operation returns a `Step`: the state
it leaves behind and either a result or a `Failure`. No operation runs in a
transaction, so a write made before a failure stays in the returned state.
A `Failure` is either `Raised(kind, message)`, one of the API's own
exceptions, or `Unhandled`. `Unhandled` stands for a Python runtime fault:
`None * int`, an attribute read on `None`, a foreign-key violation or
`DoesNotExist`. Django answers those with a bare 500.

**The central invariant.** It is `Ledger.Reconciled`: an order's stored total
equals `Ledger.Total`, the sum over its active line items of quantity times
the product's current unit price.

- A line-item create, update or delete that succeeds keeps every order
  reconciled. So do catalog operations, which never change a price.
- Order creation stores the payload's worth at catalog prices
  (`OrderService.CreateStoresPayloadTotal`).
- When the payload names no product twice, the new order is reconciled
  (`Reconciliation.CreateReconciles`).

**The creation loop.** `OrderService.RunLines` is the loop of
`create_order` with its body as a parameter. `OrderService.AddLines` runs it
with `OrderService.AddLine`, one pass per payload line. What holds for every
pass is proved once for the loop (`OrderService.RunLinesKeeps`,
`OrderService.RunLinesInduction`), and then for a single pass.

Three behaviours of the source break the invariant. Each is exhibited by a
lemma:

- **A product repeated in one order payload.** The first line's item is
  overwritten, but the total still adds every line
  (`Reconciliation.RepeatedProductBreaksReconciliation`).
- **Changing a line item whose product was soft-deleted.** The new quantity
  is written, then the total update crashes, so the total drifts
  (`Reconciliation.UpdateUnderDeletedProductDrifts`).
- **Removing a line item whose product was soft-deleted.** The item is
  soft-deleted, then reading the deleted product's price crashes, so the
  total keeps the removed item's value
  (`Reconciliation.DeleteUnderDeletedProductDrifts`).

## Model

| member | source | states |
|---|---|---|
| Errors.KindOfStatus | src/backend/utils/exceptions/api_exceptions.py:9-90 | reading an exception kind back from a status code gives a kind whose class carries that code |
| Errors.StatusCodeDetermines | src/backend/utils/exceptions/api_exceptions.py:18-88 | every exception kind is recovered from its own status code (400, 401, 403, 404, 422, 500) |
| Errors.StatusCodesDistinct | src/backend/utils/exceptions/api_exceptions.py:9-90 | two kinds that answer with the same status code are the same kind |
| Errors.ResponseStatus | src/backend/utils/exceptions/api_exceptions.py:9-90 | an API exception is answered with a status that identifies its kind; a runtime fault is answered with 500 |
| Text.NatToStringRoundTrip | src/backend/api/models/product.py:77-81 | the decimal string of an identifier reads back as that identifier |
| Text.NatToStringInjective | src/backend/api/models/order.py:68-72 | distinct identifiers have distinct string forms |
| Text.IntToString | src/backend/auth_api/views/user_view.py:194-201 | an integer's string form starts with a minus sign exactly when the integer is negative |
| Text.Format | src/backend/utils/configurations/constants.py:38-48 | an interpolated message is the template's head, then the argument, then the tail, each at its own position |
| Text.FormatInjective | src/backend/utils/configurations/constants.py:82-94 | a message built from a template determines the id or name interpolated into it |
| Text.Format2 | src/backend/utils/configurations/constants.py:110 | a two-placeholder message is a one-placeholder interpolation in either argument |
| Text.Join | src/backend/auth_api/repositories/user_repository.py:199-202 | joining no parts gives "", and joining one part gives that part |
| Text.JoinTwo | src/backend/auth_api/repositories/user_repository.py:199-202 | joining two messages puts the separator between them |
| Text.LowerString | src/backend/auth_api/repositories/user_repository.py:179-197 | lower-casing keeps the length and folds each ASCII capital to its small letter |
| Text.IEqualsIgnoresCase | src/backend/auth_api/repositories/user_repository.py:179-197 | names that differ only in letter case match under iexact |
| Text.IEqualsOnlyCase | src/backend/auth_api/repositories/user_repository.py:179-197 | iexact never matches names of different lengths, or names that differ in anything but case |
| Validations.IsNull | src/backend/utils/validations/api_validations.py:21-28 | raises InternalServerError, with its default detail, if and only if the value is None |
| Validations.IsNullOrEmptyString | src/backend/utils/validations/api_validations.py:30-37 | raises InternalServerError if and only if the value is None or exactly "" |
| Validations.BlankTextPassesEmptyCheck | src/backend/utils/validations/api_validations.py:36-37 | any non-empty string passes, blanks included |
| Validations.MatchLatinRegex | src/backend/utils/configurations/constants.py:298 | the anchored greedy match succeeds exactly when the string is a non-empty run of the Latin class, optionally followed by one final newline |
| Validations.RegexRejects | src/backend/utils/configurations/constants.py:298 | a '!' or a digit anywhere makes the pattern fail, and so does the empty string |
| Validations.FieldValidMeans | src/backend/api/models/product.py:29-52 | a valid non-null field has 1 to max_length characters, all in the Latin class except possibly a final newline |
| Validations.NameLengthBound | src/backend/api/models/order.py:34-43 | a 33-character name is refused; the same text is within the description and client limits when its characters are allowed |
| Records.Str | src/backend/api/models/product_quantity.py:61-65 | a record's string form is a run of digits that reads back as its id |
| Ledger.TotalAppend | src/backend/api/services/product_quantity_service.py:48-58 | appending a line item adds exactly its quantity times price to its order's sum |
| Ledger.TotalReplace | src/backend/api/services/product_quantity_service.py:117-129 | replacing one line item swaps its contribution to the sum for the new item's |
| Ledger.TotalPricesKept | src/backend/api/repositories/product_repository.py:80-85 | when no referenced product's price changes, no order's sum changes |
| Ledger.TotalIgnoresOtherOrders | src/backend/api/services/product_quantity_service.py:197-211 | line items of other orders never enter an order's sum |
| Ledger.TotalSameContributions | src/backend/api/services/order_service.py:76-80 | ledgers whose line items contribute alike to an order give it the same total |
| Ledger.TotalWithoutActiveEntries | src/backend/api/services/order_service.py:76-80 | an order without active line items sums to zero |
| ProductRepository.FirstActiveNamedFrom | src/backend/api/repositories/product_repository.py:60-68 | finds the lowest-positioned active product with the name; none means no active product has it |
| ProductRepository.GetById | src/backend/api/repositories/product_repository.py:50-58 | yields the product exactly when it exists and is not soft-deleted |
| ProductRepository.GetByName | src/backend/api/repositories/product_repository.py:60-68 | None or "" is refused with InternalServerError; otherwise the first active holder of the name, or none when no active product holds it |
| ProductRepository.ValidatePrice | src/backend/api/tests/test_views/test_product_view.py:196-234 | accepts exactly a present, positive price; anything else is Unprocessable with VALID_PRICE_MUST_BE_SET |
| ProductRepository.CreateAsWritten | src/backend/api/repositories/product_repository.py:26-37 | appends one active product with the payload's name and description and a null price |
| ProductRepository.Create | src/backend/api/repositories/product_repository.py:26-37 | appends one active, never-updated product with the payload's name, description and price; nothing else changes |
| ProductRepository.CreateAsWrittenDropsPrice | src/backend/api/repositories/product_repository.py:34-37 | the two creations differ only in the stored price |
| ProductRepository.Delete | src/backend/api/repositories/product_repository.py:39-48 | marks the one product deleted and changes nothing else |
| ProductRepository.DeleteFreesName | src/backend/api/repositories/product_repository.py:45-48 | once its only active holder is deleted, a lookup by name finds nothing, so the name is free again |
| ProductRepository.Update | src/backend/api/repositories/product_repository.py:70-85 | only name, description and the updated flag change; price, deletion and other products are untouched |
| ProductService.ValidateById | src/backend/api/services/product_service.py:97-111 | NotFound, naming the id, if and only if the product is missing or deleted |
| ProductService.ValidateByName | src/backend/api/services/product_service.py:113-131 | a None or "" name is required-missing; otherwise it is refused as taken exactly when an active product holds it, naming it |
| ProductService.Create | src/backend/api/services/product_service.py:32-48 | succeeds if and only if the name is free and the price positive; a refusal is Unprocessable and writes nothing; success appends the payload's product |
| ProductService.Get | src/backend/api/services/product_service.py:64-74 | yields the product exactly when it is active; otherwise NotFound naming the id |
| ProductService.Delete | src/backend/api/services/product_service.py:50-62 | soft-deletes exactly the active products; otherwise NotFound and no write |
| ProductService.Update | src/backend/api/services/product_service.py:76-95 | checks the id (NotFound), then the name (Unprocessable), then the price, each refusal without a write; success is the repository update |
| ProductService.UpdateRefusesOwnName | src/backend/api/services/product_service.py:89-91 | resubmitting a product's own current name is refused as taken |
| ProductService.CatalogKeepsUniqueNames | src/backend/api/services/product_service.py:113-131 | create, update and delete keep active product names unique |
| ProductService.CatalogKeepsPrices | src/backend/api/repositories/product_repository.py:80-85 | no catalog operation changes an existing product's price |
| OrderRepository.Create | src/backend/api/repositories/order_repository.py:29-40 | appends one order with the given client and total, open and not deleted; nothing else changes |
| OrderRepository.Delete | src/backend/api/repositories/order_repository.py:42-53 | sets the deletion mark of that order and changes nothing else |
| OrderRepository.ActiveEntriesOf | src/backend/api/repositories/order_repository.py:63-68 | lists exactly the positions of the order's active line items, in increasing order |
| OrderRepository.GetById | src/backend/api/repositories/order_repository.py:55-68 | yields an order exactly when it exists and is not deleted, with exactly its active line items attached |
| OrderRepository.UpdateExternalClient | src/backend/api/repositories/order_repository.py:70-84 | refuses None or "" with InternalServerError; otherwise only the client and updated flag of that order change |
| OrderRepository.UpdateTotalPrice | src/backend/api/repositories/order_repository.py:86-100 | refuses None with InternalServerError; otherwise writes exactly the given total to that order |
| OrderRepository.UpdateClosure | src/backend/api/repositories/order_repository.py:102-114 | sets the closing mark without checking it, so an already closed order stays closed; the source moves its closure time |
| OrderRepository.ValidateOrderClosed | src/backend/api/repositories/order_repository.py:116-126 | Unprocessable, naming the order, if and only if the order is closed |
| OrderRepository.ClosedStaysClosed | src/backend/api/repositories/order_repository.py:102-126 | a closed order stays refused by the closed check after a closure, client or total write |
| LineItemRepository.Create | src/backend/api/services/product_quantity_service.py:48-52 | appends one active line item for the order and product; an unknown order or product is an unhandled integrity failure |
| LineItemRepository.FirstActiveFor | src/backend/api/services/product_quantity_service.py:242-248 | finds the lowest active line item of the order for the product; none means there is none |
| LineItemRepository.OnlyActiveLineFound | src/backend/api/services/order_service.py:150-167 | with one active line item per order and product, the lookup finds that line item, whatever order `.first()` uses |
| LineItemRepository.AppendKeepsOneLine | src/backend/api/services/order_service.py:155-160 | appending a line item for a pair the lookup found empty keeps one active line item per pair |
| LineItemRepository.ReplaceKeepsOneLine | src/backend/api/services/order_service.py:161-167 | overwriting an active line item for the same pair, or marking one deleted, keeps one active line item per pair |
| LineItemRepository.GetById | src/backend/api/services/product_quantity_service.py:187-195 | yields the line item exactly when it is active and belongs to the order |
| LineItemRepository.UpdateQuantity | src/backend/api/services/product_quantity_service.py:121-123 | replaces that item's quantity, marks it updated, and changes nothing else |
| LineItemRepository.Delete | src/backend/api/services/product_quantity_service.py:75-78 | marks that item deleted and changes nothing else |
| LineItemRepository.DeleteByOrder | src/backend/api/services/order_service.py:80 | marks deleted every line item of the order, and only those |
| ProductQuantityService.ValidateQuantity | src/backend/api/services/product_quantity_service.py:254-265 | accepts exactly a positive quantity; a non-positive one is Unprocessable, and None fails in the comparison |
| ProductQuantityService.IncreaseTotalPrice | src/backend/api/services/product_quantity_service.py:197-211 | succeeds exactly for an active priced product and an active order with a total, adding delta × price to that order only |
| ProductQuantityService.Create | src/backend/api/services/product_quantity_service.py:36-63 | checks quantity, then the product (NotFound), then the existing item (Unprocessable), refusing without a write; success appends the item and adds quantity × price to the total |
| ProductQuantityService.Get | src/backend/api/services/product_quantity_service.py:90-103 | yields the line item exactly when it is active under the order; otherwise NotFound naming the id |
| ProductQuantityService.Update | src/backend/api/services/product_quantity_service.py:105-134 | validates the quantity before the lookup; success replaces the quantity and moves the total by (new − old) × price |
| ProductQuantityService.Delete | src/backend/api/services/product_quantity_service.py:65-88 | NotFound for a missing item; success soft-deletes it and moves the total by −quantity × price |
| OrderService.NewProduct | src/backend/api/services/order_service.py:131-137 | appends an active product with the line's name; its price is the payload's only when the store keeps prices |
| OrderService.ResolveProduct | src/backend/api/services/order_service.py:121-140 | reuses the first active product with the name and its stored price, ignoring the payload's price, or creates one once the price is valid; refusals write nothing |
| OrderService.NewProductIsFirstNamed | src/backend/api/services/order_service.py:127-137 | a product created under a free name is the one later lookups by that name find |
| OrderService.PutEntry | src/backend/api/services/order_service.py:142-167 | creates the order's line item for the product, or overwrites the existing one; afterwards the order's item for that product holds the line's quantity |
| OrderService.FirstActiveForAppended | src/backend/api/services/order_service.py:150-160 | a line item appended for a new pair is the one found for that pair |
| OrderService.FirstActiveForReplaced | src/backend/api/services/order_service.py:161-167 | overwriting the found line item's quantity keeps it the one found |
| OrderService.AddLine | src/backend/api/services/order_service.py:49-58 | one line never touches the order table and only appends products; when it succeeds the line had a quantity, its name resolves in the catalog it leaves, and it yields that unit price × quantity |
| OrderService.RunLinesKeeps | src/backend/api/services/order_service.py:48-58 | a property of the stores that every pass keeps holds after the loop, also when a line fails half-way |
| OrderService.RunLinesInduction | src/backend/api/services/order_service.py:48-58 | a property of the stores, the remaining lines and the running total that each successful pass carries to the next line holds at the end of a successful loop |
| OrderService.AddLines | src/backend/api/services/order_service.py:48-58 | the loop never touches the order table and only appends products |
| OrderService.CreateWith | src/backend/api/services/order_service.py:35-66 | the order row is written first and stays; a None client is Unprocessable only afterwards; success yields the new open order with its client and a total |
| OrderService.Create | src/backend/api/services/order_service.py:35-66 | always adds exactly one order row; success yields that row's id, active |
| OrderService.Get | src/backend/api/services/order_service.py:108-119 | yields the order with its active line items exactly when it is active; otherwise NotFound naming the id |
| OrderService.Update | src/backend/api/services/order_service.py:84-106 | NotFound, then a None client (Unprocessable), then "" (InternalServerError), none with a write; success changes only the client |
| OrderService.Delete | src/backend/api/services/order_service.py:68-82 | NotFound without a write for a missing order; success marks it deleted and leaves it no active line items, other orders' items untouched |
| OrderService.UnitPriceKeptByGrowth | src/backend/api/services/order_service.py:127-129 | products created later never change which product, or price, a name already resolves to |
| OrderService.PayloadTotalKeptByGrowth | src/backend/api/services/order_service.py:121-140 | lines whose names all resolve keep resolving, and are worth the same, once more products are created |
| OrderService.SumSoFarStep | src/backend/api/services/order_service.py:48-58 | a pass that only grows the catalog and yields its line's resolved unit price × quantity keeps the running total equal to what the handled lines are worth |
| OrderService.AddLinesComputesPayloadTotal | src/backend/api/services/order_service.py:48-58 | the loop's result is the running total plus the payload's worth at the final catalog's unit prices |
| OrderService.CreateStoresPayloadTotal | src/backend/api/services/order_service.py:44-65 | a created order's stored total is the sum over the payload lines of resolved unit price × quantity |
| OrderService.DeletedOrderIsGone | src/backend/api/services/order_service.py:68-82 | a deleted order can no longer be read, and its line items add up to zero |
| OrderService.NewProductPriceLost | src/backend/api/repositories/product_repository.py:34-37 | an order with one new product fails on the null price with the creation as written, but totals 55900 when the price is stored |
| Reconciliation.CreateKeepsReconciled | src/backend/api/services/product_quantity_service.py:48-58 | adding a line item keeps every reconciled order reconciled, and keeps references valid |
| Reconciliation.UpdateKeepsReconciled | src/backend/api/services/product_quantity_service.py:117-129 | changing a quantity keeps every reconciled order reconciled |
| Reconciliation.DeleteKeepsReconciled | src/backend/api/services/product_quantity_service.py:75-83 | removing a line item keeps every reconciled order reconciled |
| Reconciliation.CatalogKeepsReconciled | src/backend/api/services/product_service.py:32-95 | product create, update and delete keep every reconciled order reconciled |
| Reconciliation.UpdateUnderDeletedProductDrifts | src/backend/api/services/product_quantity_service.py:117-129 | changing an item whose product was deleted writes the quantity, fails, and leaves the order unreconciled |
| Reconciliation.DeleteUnderDeletedProductDrifts | src/backend/api/services/product_quantity_service.py:65-83 | removing an item whose product was deleted marks the item deleted, fails, leaves the total as it was, and so leaves the order unreconciled |
| Reconciliation.GrowthKeepsTotals | src/backend/api/services/order_service.py:131-137 | adding products changes no order's sum and keeps references valid |
| Reconciliation.ResolveKeepsFresh | src/backend/api/services/order_service.py:121-140 | resolving a name that none of the order's active line items' products carries changes no sum, keeps references valid, and leaves the order no line item for the resolved product |
| Reconciliation.PutNewEntryReconciles | src/backend/api/services/order_service.py:150-160 | a new line item adds exactly its value to its order's sum and keeps references valid |
| Reconciliation.PutNewEntryKeepsFresh | src/backend/api/services/order_service.py:142-167 | a new line item for the first line's product leaves the remaining distinct names new to the order |
| Reconciliation.AddLineReconciles | src/backend/api/services/order_service.py:48-58 | a line whose name is new to the order grows the order's sum by exactly the value the pass yields |
| Reconciliation.AddLinesReconciles | src/backend/api/services/order_service.py:48-58 | with distinct fresh product names, the loop's running total equals the order's sum over its line items |
| Reconciliation.CreateReconciles | src/backend/api/services/order_service.py:35-66 | a created order whose payload names no product twice is reconciled |
| Reconciliation.PutEntryKeepsOthers | src/backend/api/services/order_service.py:142-167 | creating or overwriting one order's line item changes no other order's sum |
| Reconciliation.AddLineKeepsIntegrity | src/backend/api/services/order_service.py:49-58 | one line, successful or not, leaves every line item referring to an existing order and product |
| Reconciliation.AddLineKeepsOthers | src/backend/api/services/order_service.py:49-58 | one line, successful or not, changes no other order's sum |
| Reconciliation.AddLinesKeepsIntegrity | src/backend/api/services/order_service.py:48-58 | the whole loop, successful or not, keeps every line item's references valid |
| Reconciliation.AddLinesKeepsOthers | src/backend/api/services/order_service.py:48-58 | the creation loop changes no other order's sum, even when it fails |
| Reconciliation.CreateKeepsOtherOrders | src/backend/api/services/order_service.py:35-66 | creating an order, successful or not, keeps every other reconciled order reconciled |
| Reconciliation.OrderUpdateKeepsReconciled | src/backend/api/services/order_service.py:84-106 | changing an order's client, successful or not, keeps every reconciled order reconciled |
| Reconciliation.OrderDeleteKeepsOthers | src/backend/api/services/order_service.py:68-82 | deleting an order keeps every other reconciled order reconciled |
| Reconciliation.FirstBananaLine | src/backend/api/services/order_service.py:49-58 | the first banana line creates the product at 2500 and a line item of quantity one, yielding 2500 |
| Reconciliation.SecondBananaLine | src/backend/api/services/order_service.py:142-167 | the second banana line reuses the product and overwrites the item's quantity with ten, yielding 25000 |
| Reconciliation.RepeatedProductBreaksReconciliation | src/backend/api/services/order_service.py:142-167 | a payload naming one product twice stores 27500 while its single line item is worth 25000 |
| LineUniqueness.LineItemCreateKeepsOneLine | src/backend/api/services/product_quantity_service.py:36-58 | adding a line item, successful or not, keeps one active line item per order and product, because a pair that has one is refused |
| LineUniqueness.LineItemUpdateKeepsOneLine | src/backend/api/services/product_quantity_service.py:105-134 | changing a quantity, successful or not, keeps one active line item per order and product |
| LineUniqueness.LineItemDeleteKeepsOneLine | src/backend/api/services/product_quantity_service.py:65-88 | removing a line item, successful or not, keeps one active line item per order and product |
| LineUniqueness.PutEntryKeepsOneLine | src/backend/api/services/order_service.py:142-167 | order creation adds a line item only where the lookup found none, and otherwise overwrites the found one, keeping one per pair |
| LineUniqueness.AddLineKeepsOneLine | src/backend/api/services/order_service.py:49-58 | one line of order creation, successful or not, keeps one active line item per pair |
| LineUniqueness.AddLinesKeepsOneLine | src/backend/api/services/order_service.py:48-58 | the whole creation loop, successful or not, keeps one active line item per pair |
| LineUniqueness.OrderCreateKeepsOneLine | src/backend/api/services/order_service.py:35-66 | creating an order, successful or not, keeps one active line item per pair |
| LineUniqueness.OrderDeleteKeepsOneLine | src/backend/api/services/order_service.py:68-82 | deleting an order keeps one active line item per pair |
| LineUniqueness.OtherWritesLeaveLines | src/backend/api/services/order_service.py:84-106 | changing an order's client, and every catalog write, leaves the line items untouched |
| UserRecords.ActiveWithEmailAll | src/backend/auth_api/managers.py:54-56 | lists exactly the active users holding the email, in increasing order |
| UserRecords.SingleMatch | src/backend/auth_api/managers.py:54-56 | when exactly one user matches, the match list is that user alone |
| UserRecords.UniqueEmailsSingleMatch | src/backend/auth_api/managers.py:54-56 | with unique active emails, an active user's email matches that user alone |
| UserManager.CreateUser | src/backend/auth_api/managers.py:19-32 | refuses a None or empty email or password, without a write; success appends an active user with role 3 unless given |
| UserManager.CreateSuperuser | src/backend/auth_api/managers.py:34-45 | a given role other than 1 is Unprocessable without a write; success stores role 1, and is_active defaults to true |
| UserManager.GetByNaturalKey | src/backend/auth_api/managers.py:47-56 | yields the one active user with the email; when it fails although some active user matches, at least two do |
| UserManager.NaturalKeyFindsActiveUser | src/backend/auth_api/managers.py:47-56 | with unique active emails, every active user is found by its email |
| UserManager.NaturalKeySkipsDeleted | src/backend/auth_api/managers.py:54-56 | a soft-deleted user is never found by its email |
| UserRepository.ValidateEntityNotExists | src/backend/auth_api/repositories/user_repository.py:161-202 | Unprocessable if and only if an active user holds the email or the full name (case-insensitive); both clashes are reported in one message joined by LINE_BREAK |
| UserRepository.GetByEmail | src/backend/auth_api/repositories/user_repository.py:144-159 | finds the first active user with the email; "" or None is InternalServerError, no match is NotFound naming the email |
| UserRepository.CreateUser | src/backend/auth_api/repositories/user_repository.py:34-47 | a clash is refused without a write; success appends the active user carrying the payload's fields |
| UserRepository.GetUser | src/backend/auth_api/repositories/user_repository.py:128-142 | yields the user exactly when it exists and is not deleted; otherwise NotFound naming the id |
| UserRepository.DeleteUser | src/backend/auth_api/repositories/user_repository.py:71-84 | an active user is made inactive and deleted; nothing else changes; otherwise NotFound without a write |
| UserRepository.UpdatePassword | src/backend/auth_api/repositories/user_repository.py:86-101 | an active user's password is replaced and the user marked updated; otherwise NotFound without a write |
| UserRepository.CreateUserKeepsUniqueEmails | src/backend/auth_api/repositories/user_repository.py:34-47 | a user is created only under an email no active user holds, so active emails stay unique |
| UserRepository.UserStoreKeepsUniqueEmails | src/backend/auth_api/repositories/user_repository.py:171-177 | create, delete and password change keep active emails unique |
| UserRepository.CreatedUserLogsIn | src/backend/auth_api/repositories/user_repository.py:34-47 | a created user is the one its email resolves to |
| UserRepository.DeletedUserIsGone | src/backend/auth_api/repositories/user_repository.py:79-84 | after deletion the user can no longer be read or have its password changed |
| UserRepository.DeletedUsersDoNotCount | src/backend/auth_api/repositories/user_repository.py:173-186 | what a soft-deleted user holds never affects the conflict check |
| UserRepository.CaseVariantNameRefused | src/backend/auth_api/repositories/user_repository.py:179-197 | a new user whose full name differs from an active user's only in case is refused as Unprocessable without a write |
| UserView.ValidateRole | src/backend/auth_api/views/user_view.py:187-201 | allows exactly a role number strictly greater than the creator's; otherwise Forbidden naming both roles |
| UserView.Post | src/backend/auth_api/views/user_view.py:129-145 | the role check runs before creation: a refused role creates no user; an allowed one is exactly the repository's creation |
| UserView.RoleOrder | src/backend/auth_api/views/user_view.py:194-201 | an equal or lower role number is Forbidden with no user created; a greater one creates as the repository does |
| ExceptionHandler.BaseHandler | src/backend/utils/exceptions/handlers/exception_handler.py:20-22 | the framework answers exactly the API exceptions, with their status code |
| ExceptionHandler.MessageBuilder | src/backend/utils/exceptions/handlers/exception_handler.py:41-55 | a string detail is the message; a mapping gives its ErrorDetail entry or its string form; anything else gives "Something went wrong." |
| ExceptionHandler.EvaluateString | src/backend/utils/exceptions/handlers/exception_handler.py:58-65 | a missing string reads as "" and a present one as itself |
| ExceptionHandler.Target | src/backend/utils/exceptions/handlers/exception_handler.py:31-33 | the target is "http://" followed by the host and then the path, missing parts empty |
| ExceptionHandler.Handler | src/backend/utils/exceptions/handlers/exception_handler.py:16-38 | returns nothing exactly when the framework does; otherwise keeps the status and replaces the body with a single "error" entry holding the trace |
| ExceptionHandler.FailureResponse | src/backend/utils/exceptions/handlers/exception_handler.py:16-38 | a raised failure reaches the client with a status that identifies its kind and its message; a runtime fault gets no body and a 500 |

## Left out

- **Stores as sequences.** The stores are sequences indexed by id rather than
  maps keyed by uuid. A fresh id is the store's length. `.first()` is the
  lowest position, a modelling choice for what is an arbitrary match under
  random uuid keys. It is harmless only where at most one active record can
  match: product names, line items per order and product, and user emails.
- **Payloads.** Serializer validation, views, URL routing and response
  serializers are left out. A payload is the data a serializer has already
  accepted. The exception is `UserView.post`, whose call order is modelled.
- **Trailing newline.** The regex model accepts one trailing "\n", because
  Python's `$` does. DRF's default `trim_whitespace` means a request cannot
  deliver such a value through a serializer.
- **Case-insensitive matching.** `iexact` is modelled as ASCII case folding.
  Unicode case folding is not modelled.
- **The line-item repository.** `product_quantity_repository.py` defines only
  a two-argument `create_product_quantity`. The queries and writes the
  services call are given the meaning their call sites rely on.
- **`validate_product_price`.** It is called but not defined. It is modelled
  as the positive-price check the view tests expect.
- **Closed orders.** No service calls `validate_order_closed`. It is modelled
  as a stand-alone check, and no line-item or client update refuses a closed
  order.
- **Quantity in order creation.** Order creation does not check that
  quantities are positive, so the model does not either.
- **`__decrease_total_price`.** It is never called.
- **`__get_order`.** Its NotFound cannot fire, because it compares a bound
  method with 0. The model keeps only its observable failure: an attribute
  read on `None`.
- **Authentication.** `normalize_email`, password hashing, JWT and
  `authenticate` are library calls and are left out. A password is stored as
  given.
- UserRepository.CreateUser, UserRepository.CreateUserKeepsUniqueEmails and
  UserRepository.CreatedUserLogsIn hold for emails whose domain is already
  lower case. The source lower-cases the domain (managers.py:27) after the
  uniqueness check on the raw email. So "a@X.com" after "a@x.com" stores a
  second active "a@x.com". Registering "Ana@Mail.com" writes the user, and
  then the read-back by the raw email raises NotFound.
- **User ids and roles.** User ids are uuids in the source and positions
  here. The serializer's role choices {1, 2} are not enforced, because
  `role` is a plain integer in the model.
- **Handler inputs.** Http404 and PermissionDenied, which reach the handler
  without a `detail` attribute, are not modelled. The handler sees an API
  exception or some other exception.
- **Timestamps.** They are flags: `created_at` is dropped, and the others
  record only whether they are set.
- **Not in this model.** The sales report, concurrency (the unlocked
  read-modify-write of `total_price`), persistence, migrations and settings.
- **Integer width.** `price`, `total_price` and `quantity` are `IntegerField`
  columns with a bounded range. Here they are unbounded `int`s. A total that
  leaves the column's range makes the save in `update_order_total_price`
  fail in the database after the line item is written. The model lets
  `OrderRepository.UpdateTotalPrice` succeed there, and the reconciliation
  lemmas hold only for totals within that range.
- **`UserService` and `ProductQuantityResponseSerializer`.** They are
  pass-through wrappers.
- ProductService.Create: it stores the payload's price through the corrected
  `ProductRepository.Create`. The source's `create_product`
  (product_service.py:46-48) goes through the repository's creation as
  written, which leaves the price null. See the Findings row.
- OrderService.Create: it creates missing products with the corrected
  `ProductRepository.Create`. `OrderService.CreateWith` takes the creation as
  a parameter, and `OrderService.NewProductPriceLost` runs both.
- OrderService.AddLines: its contract states only the frame conditions.
  What the loop computes is stated by
  `OrderService.AddLinesComputesPayloadTotal` and
  `Reconciliation.AddLinesReconciles`.

## Findings

| source | as written | input that shows it | evidently intended | confidence | as-written member | corrected member |
|---|---|---|---|---|---|---|
| src/backend/api/repositories/product_repository.py:34-37 | `create_product` stores only the name and description. So a product that order creation makes has a null price, and so does one made through product_service.py:46-48. `product_price * quantity` at order_service.py:58 then raises TypeError. | Create an order on an empty store with client "Tienda" and one line: a new product "Laptop" at price 55900, quantity 1. | The new product stores the validated payload price, and the order total is 55900. | not executed | ProductRepository.CreateAsWritten | ProductRepository.Create |

`OrderService.NewProductPriceLost` exhibits this row on that input. With the
creation as written, the order fails with an unhandled error. With the price
stored, it succeeds with total 55900. Everything else in the model uses the
corrected `ProductRepository.Create`, including `ProductService.Create`; the
catalog's product with a null price would fail the same multiplication once
an order names it.
