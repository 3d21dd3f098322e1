# Mikro shop core, modelled in Dafny

This project models the request-handling core of a small microservice shop and proves properties of it. The shop has four services:

- **product service**: a product catalogue with owner-only updates and deletes, paging, and a `reduce-stock` endpoint that never lets a stock go negative;
- **order service**: `create` looks each line item up through a circuit-breaker-guarded product client, asks for a stock reduction, saves the order and publishes one payment request; a listener later settles the order from the payment result;
- **payment service**: a simulated gateway that approves 90 of every 100 random draws;
- **auth service**: registration with role aliases, login that issues a signed access token and a rotating refresh token, `me`, `refresh`, `logout` and the scheduled cleanup of expired refresh tokens.

Each service's exception advice is modelled as well, mapping every failure to a status code and an error body.

## How it is modelled

- Classes with mutable fields and `modifies` clauses model the stateful components. Those that own a table keep a `Valid()` invariant; the two controllers that only drive a table require and preserve the table's invariant:
  - `Inventory.ProductController` holds the product table;
  - `OrderRepository.OrderTable` holds the order rows;
  - `Orders.OrderController` holds the table, the outbox of published payment requests and the stock-reduction calls made through the product client;
  - `Reconciler.PaymentResultListener` settles orders;
  - `RefreshTokens.RefreshTokenService` holds the refresh-token table;
  - `Auth.AuthController` holds the user table.
- Repository queries, request validation, DTO mapping, the product client's fallbacks, the gateway's decision and the role normalisation are pure functions.
- Each of those functions carries lemmas relating it to its partner: an inverse, a reference definition, or an invariant.
- Everything outside the process becomes a parameter:
  - a remote call is a `Remote<T>`, either `Answered` or `Failed`;
  - the clock is an `int` of seconds;
  - the random draw is an `int` in `[0, 100)`;
  - the password encoder, password matcher, JWT signer and JWT parser are functions;
  - the UUID of a new refresh token is a string.
- Money is an `int` in minor units. Java `null` is modelled with `Option` wherever behaviour depends on it.
- Bean Validation runs only where `@Valid` is declared. Its outcome is a list of `FieldError`s, and both exception handlers fold that list into the details map.

Where the documented behaviour of the services and their code disagree, the model follows the code:

- **Failed stock reduction.** When the remote `reduceStock` fails, including an insufficient-stock 400, the client's fallback swallows the failure. `create` still builds the line at the snapshot price and places the order (`Orders.LinesIgnoreReductions`). It never answers `stock_reduction_failed` for that reason.
- **`product_not_found` cannot happen.** The client never returns `null`, so the `product_not_found` branch of `create` is unreachable (`Orders.OrderController.Create` ensures `!r.ProductNotFound?`).
- **Only a null price fails inside the loop.** In `create`'s item loop, the only exception that can be raised is the `NullPointerException` of a snapshot whose price is null. `ProductRequest.price` carries `@Min(0)` but no `@NotNull`. `OrderItem.builder()` and `Order.addItem` are taken not to throw (see "Left out").
- **The fallback price.** The fallback records are built with `.price(0.0)` for a `BigDecimal` field, which does not compile as written. The fallback is modelled as priced at 0.
- **A dead branch in `determineUserRole`.** The `isValidRole` branch can never fire: after trimming and lower-casing, both exact role names already match an alias (`Auth.ExactNameBranchIsDead`).
- **`refresh` ignores revocation.** `refreshAccessToken` never reads `revoked`, so a revoked but unexpired refresh token still yields a new access token (`RefreshTokens.RefreshTokenService.RefreshAccessToken`).
- **No concurrent-reduction failure.** The concurrent-reduction error of `reduceStock` cannot arise when calls are atomic (`Inventory.ProductController.ReduceStock` ensures it is never returned).

## Model

| member | source | states |
|---|---|---|
| Text.Trim | auth-service/src/main/java/com/mikro/auth/web/AuthController.java:55 | `String.trim`: the result is empty exactly when every character is at most a space; otherwise it starts and ends with a character that is not trimmable |
| Text.ToLower | auth-service/src/main/java/com/mikro/auth/web/AuthController.java:55 | lower-casing keeps the length and maps each character through ASCII case folding |
| Text.BlankIsEmptyTrim | auth-service/src/main/java/com/mikro/auth/web/AuthControllerApi.java:27 | a present string is `@NotBlank`-invalid exactly when trimming leaves nothing |
| ErrorResponses.CollectDetails | product-service/src/main/java/com/mikro/product/exception/GlobalExceptionHandler.java:19-25 | the details map has exactly the failing fields as keys, and for each field the message of its last error |
| ProductApi.Violations | product-service/src/main/java/com/mikro/product/web/ProductControllerApi.java:32-36 | a product request has no violation exactly when its name is not blank, its stock is at least 0 and its price is absent or at least 0; at most three violations |
| ProductApi.ViolationsReportEachField | product-service/src/main/java/com/mikro/product/web/ProductControllerApi.java:32-36 | each constraint is reported, with its own message, exactly when it is broken; no field is reported twice |
| Inventory.ListPage | product-service/src/main/java/com/mikro/product/web/ProductController.java:44-47 | defaults page 0 and size 10; a negative page or a size below 1 is an error; otherwise at most `size` rows, row `k` of the page being row `page*size+k` of the table |
| Inventory.PagesCoverRows | product-service/src/main/java/com/mikro/product/web/ProductControllerApi.java:20-21 | every row appears on page `k / size` at position `k % size` |
| Inventory.InsufficientStockMessage | product-service/src/main/java/com/mikro/product/exception/InsufficientStockException.java:8-10 | the message opens with the product id and the available-stock label, and closes with the requested quantity |
| Inventory.AccessDeniedMessage | product-service/src/main/java/com/mikro/product/exception/ProductAccessDeniedException.java:8-10 | the message opens with the product id and closes with the owner's name |
| Inventory.StockAfter | product-service/src/main/java/com/mikro/product/web/ProductController.java:85-92 | one reduction either leaves the stock as it was or, when the stock covers it, subtracts exactly the quantity; a non-negative stock stays non-negative |
| Inventory.Serial | product-service/src/main/java/com/mikro/product/web/ProductController.java:79-97 | reductions served one after another: every request is accepted or refused, and the stock left is the initial stock minus what was taken |
| Inventory.SerialServesCoveredRequests | product-service/src/main/java/com/mikro/product/web/ProductController.java:85-92 | when the stock covers the sum of a run of non-negative requests, every request is accepted, none is refused, the whole sum is taken and the stock left is the initial stock minus it |
| Inventory.SerialConservesStock | product-service/src/main/java/com/mikro/product/web/ProductController.java:79-97 | any sequence of reduction requests keeps the stock non-negative; the stock left is the initial stock minus what was taken; every request is either accepted or refused |
| Inventory.SerialUnitRequests | product-service/src/main/java/com/mikro/product/web/ProductController.java:79-97 | `k` one-unit requests against stock `s` accept `min(k, s)`, refuse the rest and leave `max(s - k, 0)` |
| Inventory.TenUnitsFifteenRequests | product-service/src/main/java/com/mikro/product/web/ProductController.java:79-97 | ten in stock and fifteen one-unit requests: ten served, five refused, none left |
| Inventory.ProductController.Create | product-service/src/main/java/com/mikro/product/web/ProductController.java:23-35 | an invalid request changes nothing and reports its violations; a valid one adds exactly one row under a fresh id, owned by the caller or by "unknown" |
| Inventory.ProductController.Get | product-service/src/main/java/com/mikro/product/web/ProductController.java:37-42 | the row under the id, or not-found exactly when there is none |
| Inventory.ProductController.Update | product-service/src/main/java/com/mikro/product/web/ProductController.java:49-63 | error order: validation, then no authentication, not found, not the owner; succeeds exactly for the owner and then rewrites name, price and stock only; every failure leaves the table unchanged |
| Inventory.ProductController.Delete | product-service/src/main/java/com/mikro/product/web/ProductController.java:65-77 | only the owner removes the row, and only that row; every failure leaves the table unchanged |
| Inventory.ProductController.DecrementIfAvailable | product-service/src/main/java/com/mikro/product/web/ProductController.java:89-92 | the conditional update changes one row exactly when the product exists with enough stock, and then subtracts exactly the quantity |
| Inventory.ProductController.ReduceStock | product-service/src/main/java/com/mikro/product/web/ProductController.java:79-97 | missing product and insufficient stock are refused without change; otherwise the stock drops by exactly the quantity; the stock never goes negative and the concurrent-reduction error is never returned |
| ProductErrors.HandleException | product-service/src/main/java/com/mikro/product/exception/GlobalExceptionHandler.java:39-102 | not found 404, own and Spring access denial 403, insufficient stock 400, anything else 500, each with its title and message |
| ProductErrors.Handle | product-service/src/main/java/com/mikro/product/exception/GlobalExceptionHandler.java:18-102 | every failure gets a response with status 400, 403, 404 or 500; a validation failure gets 400 and the field-to-message map |
| ProductClient.Fallback | order-service/src/main/java/com/mikro/order/product/ProductClient.java:25-30 | a fallback record carries the requested id, zero stock and price 0 |
| ProductClient.GetProduct | order-service/src/main/java/com/mikro/order/product/ProductClient.java:20-32 | the remote answer when there is one, otherwise the "Product temporarily unavailable" fallback |
| ProductClient.ReduceStock | order-service/src/main/java/com/mikro/order/product/ProductClient.java:34-46 | the remote answer when there is one, otherwise the "Stock reduction failed - service unavailable" fallback |
| ProductClient.FallbacksDifferOnlyInName | order-service/src/main/java/com/mikro/order/product/ProductClient.java:20-46 | the two fallbacks agree on everything but their names, and the names differ |
| ProductClient.FallbackIndistinguishable | order-service/src/main/java/com/mikro/order/product/ProductClient.java:20-32 | a failed lookup cannot be told apart from a real product that looks like the fallback |
| OrderDomain.StatusFromName | order-service/src/main/java/com/mikro/order/web/OrderControllerApi.java:50 | reading the status string of a response: a recognised name parses to the status that prints as it |
| OrderDomain.StatusNamesParseBack | order-service/src/main/java/com/mikro/order/web/OrderControllerApi.java:50 | every status written into a response reads back as itself |
| OrderRepository.FindByCustomerUsername | order-service/src/main/java/com/mikro/order/domain/OrderRepository.java:11 | an order is listed exactly when it is in the table and belongs to the caller; ids stay ascending when the table's are |
| OrderRepository.FindByIdWithItems | order-service/src/main/java/com/mikro/order/domain/OrderRepository.java:13-14 | found exactly when a row has the id, and then that row |
| OrderRepository.FindByIdAndCustomerUsernameWithItems | order-service/src/main/java/com/mikro/order/domain/OrderRepository.java:16-17 | found exactly when a row has the id and the owner, and then that row |
| OrderRepository.FindByIdIsIndex | order-service/src/main/java/com/mikro/order/domain/OrderRepository.java:13-14 | with identity ids, the lookup by id is row `id - 1` |
| OrderRepository.OwnerScopedIsByIdFiltered | order-service/src/main/java/com/mikro/order/domain/OrderRepository.java:13-17 | the owner-scoped lookup is the lookup by id restricted to the owner |
| OrderRepository.ReplaceById | order-service/src/main/java/com/mikro/order/amqp/PaymentResultListener.java:20 | `save` of an existing order replaces the row with its id and nothing else |
| OrderRepository.OrderTable.Insert | order-service/src/main/java/com/mikro/order/web/OrderController.java:89 | `save` of a new order appends it under the next identity id |
| OrderRepository.OrderTable.Update | order-service/src/main/java/com/mikro/order/amqp/PaymentResultListener.java:20 | the table becomes the replacement of the order's row |
| OrderApi.ItemResponses | order-service/src/main/java/com/mikro/order/web/OrderControllerApi.java:45-51 | one item response per line, in order |
| OrderApi.ItemResponsesLoseNothing | order-service/src/main/java/com/mikro/order/web/OrderControllerApi.java:73-79 | the order lines can be rebuilt from their responses |
| OrderApi.ToResponse | order-service/src/main/java/com/mikro/order/web/OrderControllerApi.java:45-51 | the response copies the order without loss: the order can be rebuilt from it |
| Orders.LineFor | order-service/src/main/java/com/mikro/order/web/OrderController.java:68-75 | a line takes id, name and unit price from the snapshot, the quantity from the request, and total = unit price × quantity |
| Orders.Lines | order-service/src/main/java/com/mikro/order/web/OrderController.java:51-86 | either one line per item served, or the index of the first item whose snapshot has no price |
| Orders.LinesFollowSnapshots | order-service/src/main/java/com/mikro/order/web/OrderController.java:51-86 | line `k` is built from item `k`'s snapshot, and a failure names the first unpriced snapshot |
| Orders.FailureStands | order-service/src/main/java/com/mikro/order/web/OrderController.java:78-85 | once item `k` fails, the loop ends with that failure however many items follow |
| Orders.Calls | order-service/src/main/java/com/mikro/order/web/OrderController.java:63-66 | one reduction request per item served, with its product id and quantity |
| Orders.LinesIgnoreReductions | order-service/src/main/java/com/mikro/order/web/OrderController.java:63-77 | the lines depend only on the lookups, never on what the reduction answered |
| Orders.LinesCompleteWhenPriced | order-service/src/main/java/com/mikro/order/web/OrderController.java:51-86 | if every product that answered has a price, the loop completes |
| Orders.FailedLookupLine | order-service/src/main/java/com/mikro/order/web/OrderController.java:54-75 | a failed lookup yields a zero-priced line named "Product temporarily unavailable" |
| Orders.NewOrder | order-service/src/main/java/com/mikro/order/web/OrderController.java:45-48 | a new order is CREATED and its total is the sum of its line totals |
| Orders.Responses | order-service/src/main/java/com/mikro/order/web/OrderController.java:110 | one response per order, in order |
| Orders.OrderController.BuildLines | order-service/src/main/java/com/mikro/order/web/OrderController.java:51-86 | the loop's outcome is `Lines`; it sends the reduction requests of exactly the items it served and publishes nothing |
| Orders.OrderController.Create | order-service/src/main/java/com/mikro/order/web/OrderController.java:41-95 | an empty item list changes nothing; a null price saves and publishes nothing but keeps the reductions already sent; otherwise one CREATED row is appended for the caller and then exactly one payment request for its id and total is published; product-not-found never happens |
| Orders.OrderController.Get | order-service/src/main/java/com/mikro/order/web/OrderController.java:97-104 | found exactly when the caller owns an order with that id |
| Orders.OrderController.GetMyOrders | order-service/src/main/java/com/mikro/order/web/OrderController.java:106-112 | exactly the caller's orders: every response is `ToResponse` of one of the caller's rows, every order of the caller is answered, there are no more responses than rows, and the responses' ids ascend when the table's do |
| PaymentGateway.OnPaymentRequest | payment-service/src/main/java/com/mikro/payment/amqp/PaymentListener.java:25-29 | the result is for the same order; PAID exactly when the draw is below 90, FAILED otherwise |
| PaymentGateway.AmountIgnored | payment-service/src/main/java/com/mikro/payment/amqp/PaymentListener.java:25-29 | the amount never affects the decision |
| PaymentGateway.PayingDrawsBelow | payment-service/src/main/java/com/mikro/payment/amqp/PaymentListener.java:27 | of the first `n` draws, `min(n, 90)` pay |
| PaymentGateway.NinetyInAHundredPay | payment-service/src/main/java/com/mikro/payment/amqp/PaymentListener.java:27 | exactly 90 of the 100 draws pay |
| Reconciler.SettledStatus | order-service/src/main/java/com/mikro/order/amqp/PaymentResultListener.java:19 | PAID exactly when the status is present and equals "PAID" ignoring case; never back to CREATED |
| Reconciler.Applied | order-service/src/main/java/com/mikro/order/amqp/PaymentResultListener.java:17-22 | the table keeps its length; a row either stays as it was or has the result's order id and takes the settled status |
| Reconciler.AppliedChangesOnlyThatStatus | order-service/src/main/java/com/mikro/order/amqp/PaymentResultListener.java:17-22 | a result changes only the status of its own order; an unknown order id changes nothing |
| Reconciler.AppliedKeepsIds | order-service/src/main/java/com/mikro/order/amqp/PaymentResultListener.java:17-22 | settling keeps the identity ids |
| Reconciler.LaterResultWins | order-service/src/main/java/com/mikro/order/amqp/PaymentResultListener.java:17-22 | of two results for one order, the later decides |
| Reconciler.RedeliveryIsHarmless | order-service/src/main/java/com/mikro/order/amqp/PaymentResultListener.java:17-22 | delivering the same result twice is the same as once |
| Reconciler.PaymentResultListener.OnPaymentResult | order-service/src/main/java/com/mikro/order/amqp/PaymentResultListener.java:17-22 | the table becomes the settled table |
| Settlement.GatewayResultSettles | payment-service/src/main/java/com/mikro/payment/amqp/PaymentListener.java:25-29 | the gateway's answer settles the order as PAID exactly when the draw is below 90 |
| Settlement.StatusMatching | order-service/src/main/java/com/mikro/order/amqp/PaymentResultListener.java:19 | "paid" and "Paid" settle as PAID; "DECLINED" and a missing status settle as FAILED |
| Settlement.PaidRequestMarksOrderPaid | order-service/src/main/java/com/mikro/order/amqp/PaymentResultListener.java:17-22 | a paying draw for an existing order leaves that order PAID |
| AuthApi.NotBlank | auth-service/src/main/java/com/mikro/auth/web/AuthControllerApi.java:27-30 | one error for a missing or blank field, none otherwise |
| AuthApi.RegisterViolations | auth-service/src/main/java/com/mikro/auth/web/AuthControllerApi.java:27 | no violation exactly when username and password are both non-blank; `role` is never checked |
| AuthApi.LoginViolations | auth-service/src/main/java/com/mikro/auth/web/AuthControllerApi.java:28 | no violation exactly when username and password are both non-blank |
| AuthApi.RefreshViolations | auth-service/src/main/java/com/mikro/auth/web/AuthControllerApi.java:29 | no violation exactly when the refresh token is non-blank |
| AuthApi.LogoutViolations | auth-service/src/main/java/com/mikro/auth/web/AuthControllerApi.java:30 | no violation exactly when the refresh token is non-blank |
| TokenTable.FindByToken | auth-service/src/main/java/com/mikro/auth/refresh/RefreshTokenRepository.java:15 | found exactly when the token is stored, and then the stored row |
| TokenTable.DeleteByUsername | auth-service/src/main/java/com/mikro/auth/refresh/RefreshTokenRepository.java:17-19 | exactly the user's tokens are removed; the rest are untouched |
| TokenTable.DeleteExpiredTokens | auth-service/src/main/java/com/mikro/auth/refresh/RefreshTokenRepository.java:21-23 | exactly the tokens that expired before `now` are removed; the rest are untouched |
| TokenTable.RevokeByUsername | auth-service/src/main/java/com/mikro/auth/refresh/RefreshTokenRepository.java:25-27 | every token of the user is revoked; no token is added or removed; other users' tokens are untouched |
| TokenTable.RevokeByUsernameIdempotent | auth-service/src/main/java/com/mikro/auth/refresh/RefreshTokenRepository.java:25-27 | revoking a user's tokens twice is the same as once |
| TokenTable.CleanupIsComplete | auth-service/src/main/java/com/mikro/auth/refresh/RefreshTokenRepository.java:21-23 | after cleanup no expired token is left, and a second cleanup changes nothing |
| RefreshTokens.RefreshTokenService.CreateRefreshToken | auth-service/src/main/java/com/mikro/auth/refresh/RefreshTokenService.java:37-50 | the user's other tokens are revoked and one unrevoked token is stored, created now and expiring `days × 86400` seconds later |
| RefreshTokens.RefreshTokenService.FindByToken | auth-service/src/main/java/com/mikro/auth/refresh/RefreshTokenService.java:52-54 | found exactly when the token is stored |
| RefreshTokens.RefreshTokenService.VerifyExpiration | auth-service/src/main/java/com/mikro/auth/refresh/RefreshTokenService.java:56-62 | passes the token through exactly when it has not expired; otherwise fails with the "expired" message |
| RefreshTokens.RefreshTokenService.RevokeToken | auth-service/src/main/java/com/mikro/auth/refresh/RefreshTokenService.java:64-70 | a stored token becomes revoked and nothing else changes; an unknown token changes nothing |
| RefreshTokens.RefreshTokenService.RevokeAllTokensForUser | auth-service/src/main/java/com/mikro/auth/refresh/RefreshTokenService.java:72-74 | the table becomes the bulk revocation of the user's tokens |
| RefreshTokens.RefreshTokenService.RefreshAccessToken | auth-service/src/main/java/com/mikro/auth/refresh/RefreshTokenService.java:76-95 | errors in order: not found, expired, user not found; otherwise a Bearer access token signed for the user and role; `revoked` is never consulted |
| RefreshTokens.RefreshTokenService.CleanupExpiredTokens | auth-service/src/main/java/com/mikro/auth/refresh/RefreshTokenService.java:97-100 | the table becomes the deletion of the tokens expired at `now` |
| Auth.DetermineUserRole | auth-service/src/main/java/com/mikro/auth/web/AuthController.java:52-71 | the role is always one of the two roles, and customer when none is requested |
| Auth.RoleFollowsAliases | auth-service/src/main/java/com/mikro/auth/web/AuthController.java:54-70 | shop owner exactly when the normalised request is a shop-owner alias; a customer alias gives customer |
| Auth.IsValidRole | auth-service/src/main/java/com/mikro/auth/web/AuthController.java:73-75 | a role it accepts is present and already normalises to an alias of one of the two roles |
| Auth.ExactRoleNamesAreAliases | auth-service/src/main/java/com/mikro/auth/web/AuthController.java:57-75 | "ROLE_CUSTOMER" and "ROLE_SHOP_OWNER" normalise to aliases of their own roles |
| Auth.ExactNameBranchIsDead | auth-service/src/main/java/com/mikro/auth/web/AuthController.java:64-67 | a role that passes `isValidRole` has already matched an alias, and gets that same role |
| Auth.RoleDependsOnNormalFormOnly | auth-service/src/main/java/com/mikro/auth/web/AuthController.java:55-63 | two requests with the same trimmed lower-case form get the same role |
| Text.TrimOfPadded | auth-service/src/main/java/com/mikro/auth/web/AuthController.java:55 | trimming a word with any blanks before and after it gives the word |
| Auth.PaddedCaseVariantGetsSameRole | auth-service/src/main/java/com/mikro/auth/web/AuthController.java:55-70 | any padding around the requested role, and any case of its letters, gets the role of its lower-case core |
| Auth.Me | auth-service/src/main/java/com/mikro/auth/web/AuthController.java:94-108 | 401 without a header starting with "Bearer "; a success reports exactly the subject and role claims of the token after the prefix |
| Auth.MeReadsTheBearerToken | auth-service/src/main/java/com/mikro/auth/web/AuthController.java:96-104 | a "Bearer " header succeeds exactly when its token parses with both claims, and answers those claims |
| Auth.MePrefixIsCaseSensitive | auth-service/src/main/java/com/mikro/auth/web/AuthController.java:96 | a "bearer " header is refused whatever the token |
| Auth.AuthController.Register | auth-service/src/main/java/com/mikro/auth/web/AuthController.java:34-50 | blank fields and a taken name store nothing; otherwise exactly one user is added with the encoded password and the determined role |
| Auth.AuthController.Login | auth-service/src/main/java/com/mikro/auth/web/AuthController.java:77-92 | succeeds exactly when the fields are non-blank, the user exists and the password matches; an unknown user and a wrong password fail alike and issue nothing; on success the user's old tokens are revoked, one new token is issued and a signed Bearer pair is returned |
| Auth.AuthController.Refresh | auth-service/src/main/java/com/mikro/auth/web/AuthController.java:110-118 | grants exactly when the token is stored, unexpired and its user exists; every other failure is the same "Invalid refresh token" reply |
| Auth.AuthController.Logout | auth-service/src/main/java/com/mikro/auth/web/AuthController.java:120-124 | always "Logged out successfully" for a non-blank token; a known token becomes revoked and nothing else changes |
| AuthErrors.HandleException | auth-service/src/main/java/com/mikro/auth/exception/GlobalExceptionHandler.java:39-76 | bad credentials 401, user exists 409 with its message, anything else 500 with a fixed message |
| AuthErrors.Handle | auth-service/src/main/java/com/mikro/auth/exception/GlobalExceptionHandler.java:18-76 | every failure gets 400, 401, 409 or 500; a validation failure gets 400 and the field-to-message map |
| AuthErrors.CredentialFailuresLookAlike | auth-service/src/main/java/com/mikro/auth/exception/GlobalExceptionHandler.java:39-50 | every credential failure yields the same body, so an unknown user cannot be told from a wrong password |

## Left out

- **Timing and transport.**
  - Concurrency: every request, query and listener call is one atomic step.
  - Racing `reduceStock` calls and the optimistic-update failure they could cause are not modelled, so the concurrent-reduction branch is dead in the model.
  - Message transport is not modelled: the exchange, queues, JSON conversion and redelivery policy (`AmqpConfig`, `RabbitJsonConfig`). Publishing is appending to `Orders.OrderController.outbox`.
- **Resilience and HTTP wiring.**
  - Circuit-breaker state and timeouts (`CircuitBreakerConfig`) are not modelled. A guarded call either answers or fails; the failure is the `Remote.Failed` input.
  - The Feign transport and its headers (`FeignConfig`) and the HTTP status of a remote 4xx are not modelled.
  - The security filter chains (`SecurityConfig` of both services) are not modelled. The authenticated principal is an input.
- **External services, passed in as parameters.**
  - JWT signing and parsing: `JwtService` is not part of this model.
  - The password encoder.
  - UUID generation. The new token string is an input, and the `requires newToken !in tokens` on `RefreshTokens.RefreshTokenService.CreateRefreshToken` and `Auth.AuthController.Login` stands for the uniqueness of a random UUID.
  - `Instant.now()`: `createRefreshToken` reads it twice, and the model uses one `now` for both.
  - `Random`.
  - The order in which `findAll` enumerates the product table.
- **Paging metadata.** `Inventory.ListPage` returns only the rows of the requested page. The `Page` that `findAll(PageRequest)` answers also carries the total count, the page count and the paging flags, and these are not modelled.
- **Java values.**
  - Integer widths and overflow: `int` stock, `Long` ids and `Instant` arithmetic are unbounded here.
  - `BigDecimal` scale is not modelled.
  - Null ids are not modelled.
- Timestamps of error bodies are not modelled.
- **Case folding.** Case folding is ASCII-only. `toLowerCase` is locale- and Unicode-aware in Java, so a request such as "MÜŞTERİ" is not recognised as an alias by the model even where the JVM's default locale would fold it.
- **Source files that are not part of this model.**
  - The `User` entity and its repository are a keyed map.
  - The `Order`, `OrderItem` and `RefreshToken` entities are datatypes with the fields the core reads.
  - `Order.calculateTotalAmount` is taken to be the sum of the line totals.
  - `OrderItem.builder()` and `Order.addItem` are taken to append the line without throwing. The failure paths of `Orders.Lines` and `Orders.OrderController.Create`, and `Orders.LinesCompleteWhenPriced`, rest on that.
  - The repository's `reduceStock` query is modelled by `Inventory.ProductController.DecrementIfAvailable`.
  - `Inventory.ProductController.ReduceStock` answers the row with the stock already reduced. That assumes the re-read `findById(id)` after the update sees the decrement. In the same transaction it returns the entity already loaded by `findByIdWithLock`, so it sees the new stock only if the `reduceStock` query clears the persistence context (`@Modifying(clearAutomatically = true)`). `ProductRepository` is not part of this model; without that setting the answer would carry the pre-decrement stock, while the stored row is reduced either way.
  - The `ProductNotFoundException` class is not part of this model. Its message is modelled as "Product not found: " followed by the id.
- **Exception messages.** The exact text of a `NullPointerException` message depends on the JVM. `Orders.NullPriceMessage` stands in for it.
- **Deleting an expired token.** `verifyExpiration` deletes the expired token before throwing. The service is `@Transactional` and the exception propagates, so the deletion is rolled back. `RefreshTokens.RefreshTokenService.VerifyExpiration` therefore changes nothing.
