# Restaurant ordering and feedback core, in Dafny

This project models the core of a two-service restaurant system.

- The **ordering service** has two transactional HTTP handlers.
  - *Placement* prices the requested lines and inserts a pending order with its lines.
  - *Settlement* checks that the order exists, is owned by the caller and is still pending. It then lowers stock with one conditional `UPDATE … WHERE quantity >= q` per line and marks the order completed.
  - Each handler commits all of its writes or none. After the commit, it hands an order event to the producer.
- The **producer** builds the event and writes it to the `orders` topic. The event carries the name snapshot of every line, and the message key is the decimal order id.
- The **authentication middleware** accepts a header only when it has the form `Bearer {token}`.
- The **feedback service** consumes the order events. For each completed order, it makes sure the user exists (GORM `FirstOrCreate`). Its handlers create, patch, soft-delete, list and count feedback rows in the same database.

## How the model is built

Each module models one part of the system.

- **`OrderStore`** — the ordering database and its two handlers.
  - The tables are a value, `Tables`.
  - Each handler is a specification function on that value: `Place` and `Settle`. A function returns the tables after the transaction together with the response, in an `Outcome`.
  - The database itself is the class `OrderStore.Store`. Its methods `PlaceOrder` and `SettleOrder` run the handlers' loops: lookup and pricing, line inserts, the join scan, and the conditional decrements. Each loop lives in a helper method proved against its own function.
  - Each method's postcondition says that the new state and the response are exactly what `Place` or `Settle` computes. The lemmas then state what the source promises about those functions.
- **`Producer`** — the event, its message key, and a `Topic` object whose message list `PublishOrderEvent` appends to.
- **`Consumer`** — one iteration of the consumer loop, over a `FeedbackDb.Database` and a `GroupReader` that records committed offsets.
- **`FeedbackApi`** — the five feedback handlers as methods on the same `Database`.
- **`Auth`** — `strings.Split` on a single space, its inverse `Join`, and the header check.
- **`Strconv`** — the three `strconv` calls the services make: `Itoa`, `Atoi` and `ParseUint(s, 10, 32)`.
- **`OrderScenarios`** — four concrete runs of the ordering handlers, each evaluated on the specification functions, and one pair of decrement runs showing that the row order can decide settlement.

Things the services get from outside are parameters of the model:

| parameter | stands for |
|---|---|
| `commitOk` | whether `tx.Commit()` or `CommitMessages` succeeded |
| `marshal` | `json.Marshal` |
| `decode` | `json.Unmarshal` |
| `writeOk` | the broker write |
| `verify` | JWT verification |
| `now` | the clock |
| `Fetch` | the reader's result |

Modelling decisions that follow the code:

- **Prices are integer cents.** The column is `NUMERIC(10,2)` (`restaurant_ordering_service/internal/db/db.go:72`), so totals are exact sums.
- **Quantities may be zero or negative.** No code path checks that a requested quantity is positive. A negative line therefore raises stock at settlement. Stock still never goes below zero: `OrderStore.DecrementKeepsStockNonNegative`.
- **Settlement joins lines in insertion order.** The join query has no `ORDER BY`, so the model takes the lines of `order_items` in the order they were inserted. Lines whose food item is missing drop out of the inner join. Which rows the join holds, and how often, does not depend on this choice (`OrderStore.JoinedCounts`); the verdict of settlement can (`OrderScenarios.ScenarioE`).
- **Feedback rows are soft-deleted.** `Feedback` has a `gorm.DeletedAt` field, so a delete only marks the row. Every query, and therefore every model function, sees only rows not marked deleted.
- **A feedback row must reference an existing user.** `Feedback.User` declares a foreign key on `user_id`. Creating feedback for a caller with no `users` row fails in the database. This is `FeedbackApi.ApiError.StoreError`.
- **The update request rejects an absent rating.** `FeedbackUpdateRequest.Rating` carries `binding:"min=1,max=5"` with no `omitempty` (`user_feedback_service/internal/models/models.go:49`). A body with no rating therefore fails to bind. The handler's `Rating > 0` guard never sees a zero: `FeedbackApi.CommentOnlyUpdateRefused`.
- **Lazily created users collide.** The consumer creates users with an empty username and an empty email. Both columns carry a unique index (`models.go:12-13`). So once one user exists whose username or email is empty, creating any further unseen user fails. The consumer then skips the explicit `CommitMessages` for that message: `Consumer.SecondLazyUserFails`.
- **A rollback does not return an id.** Both inserts draw the next value of a `SERIAL` sequence, and PostgreSQL does not give it back when the transaction rolls back. So a placement whose commit fails still uses up its order id (`OrderStore.Place`), and a feedback insert refused by the foreign key still uses up its feedback id (`FeedbackApi.CreateFeedback`).
- **The consumer converts user ids modulo 2^64.** The conversion `uint(orderEvent.UserID)` is modelled as the value modulo 2^64.

## Model

| member | source | states |
|---|---|---|
| OrderStore.Store.PlaceOrder | restaurant_ordering_service/internal/api/handlers.go:154-285 | The new tables and the response are exactly `Place` of the old tables: on an unknown item nothing changes; on a failed commit no order or line is added but the order id is used up; otherwise one pending order and its lines are added under the next id. The store invariant (foreign keys, fresh ids, stock ≥ 0) is kept. |
| OrderStore.Store.SettleOrder | restaurant_ordering_service/internal/api/handlers.go:288-490 | The new tables and the response are exactly `Settle` of the old tables: not-found, forbidden, not-pending, insufficient-stock and commit failures change nothing; success applies every decrement and completes the order. The store invariant is kept. |
| OrderStore.Place | restaurant_ordering_service/internal/api/handlers.go:154-285 | Placement succeeds exactly when every item exists and the commit succeeds; the catalog never changes; a failure adds no order and no line; the id sequence advances whenever the insert was reached, that is whenever every item exists. |
| OrderStore.Settle | restaurant_ordering_service/internal/api/handlers.go:317-451 | Settlement succeeds exactly when the order exists, belongs to the caller, is pending, its joined lines fit the stock and the commit succeeds; any failure leaves every table as it was; success keeps the lines, the id sequence and the set of orders. |
| OrderStore.Store.constructor | restaurant_ordering_service/internal/db/db.go:68-108 | A store with the given non-negative catalog, no orders or lines, and an id sequence at 1 satisfies the invariant. |
| OrderStore.PriceItems | restaurant_ordering_service/internal/api/handlers.go:178-206 | The lookup loop returns the price-times-quantity total and the id-to-name map of the request when every item exists, and otherwise the position of the first unknown item. |
| OrderStore.InsertLines | restaurant_ordering_service/internal/api/handlers.go:222-240 | The insert loop produces one order_items row per requested line, in request order, for the new order id. |
| OrderStore.ScanJoin | restaurant_ordering_service/internal/api/handlers.go:359-389 | The scan of the join query yields `Joined`: the order's lines whose food item exists, each with the item's current name. |
| OrderStore.ApplyDecrements | restaurant_ordering_service/internal/api/handlers.go:392-427 | The conditional-decrement loop yields `Decrement`: the stock after every line, or the first line that hit no row; on success, the id-to-name map of the joined lines. |
| OrderStore.FirstUnknown | restaurant_ordering_service/internal/api/handlers.go:181-197 | The reported item is the first requested line whose food item does not exist; every line before it exists. |
| OrderStore.FirstUnknownAt | restaurant_ordering_service/internal/api/handlers.go:181-197 | With every earlier line known, an unknown line at position i is the first unknown. |
| OrderStore.Total | restaurant_ordering_service/internal/api/handlers.go:178-206 | The order total, price times quantity summed over the request; its properties are stated by `TotalAppend` and `OrderIndependentTotal`. |
| OrderStore.Names | restaurant_ordering_service/internal/api/handlers.go:179-206 | The name map has exactly the requested ids as keys, each with its catalog name. |
| OrderStore.LinesOf | restaurant_ordering_service/internal/api/handlers.go:254-262 | One order line per requested line, same position, with the order id, food item and quantity. |
| OrderStore.Joined | restaurant_ordering_service/internal/api/handlers.go:360-389 | Every joined row names an existing food item with its current name, and there are no more rows than lines. Which rows they are is stated by `JoinedFromOrderLines` and `JoinedDemand`. |
| OrderStore.JoinedFromOrderLines | restaurant_ordering_service/internal/api/handlers.go:360-389 | Every joined row comes from an order_items row of this order, with the same food item and quantity. |
| OrderStore.JoinedCounts | restaurant_ordering_service/internal/api/handlers.go:360-389 | The join holds each order_items row of the order whose food item exists, exactly as often as that row occurs, with the item's current name, and no other row. |
| OrderStore.JoinedDemand | restaurant_ordering_service/internal/api/handlers.go:360-397 | For every food item, the quantity the joined rows ask of it is the quantity the order's order_items rows ask of it when the item exists, and zero when it does not. |
| OrderStore.OrderDemand | restaurant_ordering_service/internal/api/handlers.go:360-397 | The summed quantity of the order_items rows of one order and one food item; `JoinedDemand` and `SettleSucceeds` state what it means for settlement. |
| OrderStore.Decrement | restaurant_ordering_service/internal/api/handlers.go:392-427 | The conditional updates applied in line order, stopping at the first that hits no row; its properties are stated by `DecrementExact`, `DecrementSucceedsIff` and `DecrementFailureNamesALine`. |
| OrderStore.ConditionalDecrement | restaurant_ordering_service/internal/api/handlers.go:394-397 | The update hits a row if and only if the item exists with at least the line's quantity, and then keeps the set of food ids; otherwise it names the line. |
| OrderStore.ConditionalDecrementFrame | restaurant_ordering_service/internal/api/handlers.go:394-397 | An applied update lowers only its item's quantity, by exactly the line's quantity, keeping its name and price and every other row. |
| OrderStore.EventLines | restaurant_ordering_service/internal/api/handlers.go:469-477 | The settlement event's lines are the joined rows, in order, under the settled order id. |
| OrderStore.JoinNames | restaurant_ordering_service/internal/api/handlers.go:426 | Every joined food item is in the name map, and each name in it comes from a joined row of that item. |
| OrderStore.PriceStep | restaurant_ordering_service/internal/api/handlers.go:205-206 | Pricing one more line adds its price times quantity to the total and its name to the map. |
| OrderStore.DecrementStep | restaurant_ordering_service/internal/api/handlers.go:393-426 | One more decrement applies the conditional update to the stock left by the previous ones. |
| OrderStore.DecrementFailureSticks | restaurant_ordering_service/internal/api/handlers.go:417-424 | Once a conditional update hits no row, settlement fails on that line whatever follows. |
| OrderStore.DecrementExact | restaurant_ordering_service/internal/api/handlers.go:393-397 | A successful run of decrements keeps ids, names and prices, and lowers each item's stock by exactly the total quantity its lines ask for. |
| OrderStore.DecrementSucceedsIff | restaurant_ordering_service/internal/api/handlers.go:393-424 | All decrements apply if and only if every line's cumulative demand on its item fits that item's initial stock. |
| OrderStore.DecrementKeepsStockNonNegative | restaurant_ordering_service/internal/api/handlers.go:394-397 | The conditional update never drives any stock below zero. |
| OrderStore.DecrementFailureNamesALine | restaurant_ordering_service/internal/api/handlers.go:393-424 | A failed run of decrements names the first line that does not fit: every line before it fits, and its own cumulative demand exceeds its item's stock (or the item is gone). |
| OrderStore.PlaceKeepsWellFormed | restaurant_ordering_service/internal/api/handlers.go:209-250 | A committed placement keeps the order_items foreign keys, the freshness of order ids and non-negative stock. |
| OrderStore.SettleKeepsWellFormed | restaurant_ordering_service/internal/api/handlers.go:391-451 | A committed settlement keeps the order_items foreign keys, the freshness of order ids and non-negative stock. |
| OrderStore.TotalAppend | restaurant_ordering_service/internal/api/handlers.go:205 | The total of two concatenated requests is the sum of their totals. |
| OrderStore.OrderIndependentTotal | restaurant_ordering_service/internal/api/handlers.go:178-206 | Any permutation of the requested lines has the same items known and the same total. |
| OrderStore.TotalWithout | restaurant_ordering_service/internal/api/handlers.go:178-206 | Removing one line from a known request leaves a known request whose total is lower by that line's price times quantity. |
| OrderStore.PlaceUnknownItemFails | restaurant_ordering_service/internal/api/handlers.go:183-197 | A request naming any unknown item fails with a not-found error for an unknown item and writes nothing. |
| OrderStore.PlaceSucceeds | restaurant_ordering_service/internal/api/handlers.go:209-285 | A committed placement answers with the next id and the priced total, adds that one pending order owned by the caller, keeps every other order and the catalog, and appends exactly the requested lines. |
| OrderStore.SettleRefusals | restaurant_ordering_service/internal/api/handlers.go:317-357 | A missing order, then a foreign caller, then a non-pending order is refused with 404, 403 or 400, and no table changes. |
| OrderStore.SettleInsufficientStock | restaurant_ordering_service/internal/api/handlers.go:393-424 | When the lines do not all fit, settlement fails naming the item of the first line whose cumulative demand exceeds the stock, every earlier line fitting, and rolls back every earlier decrement. |
| OrderStore.SettleSucceeds | restaurant_ordering_service/internal/api/handlers.go:391-451 | A committed settlement completes only this order, keeps every line, lowers each item's stock by exactly the quantities the order's order_items rows ask of it, and leaves all stock non-negative. |
| OrderStore.SettleTwiceFails | restaurant_ordering_service/internal/api/handlers.go:349-357 | Settling an already settled order is refused as not pending and changes nothing. |
| OrderStore.StepsKeepStockNonNegative | restaurant_ordering_service/internal/api/handlers.go:393-427 | Neither handler, committed or not, drives any stock below zero. |
| OrderStore.RunKeepsWellFormed | restaurant_ordering_service/internal/api/handlers.go:391-451 | Any sequence of placements and settlements, in any commit order, keeps the foreign keys and non-negative stock. |
| OrderStore.SettlementEvent | restaurant_ordering_service/internal/api/handlers.go:453-484 | The settlement event carries the order id, owner, stored total and the completed status, one item per joined line with the name current at settlement, and a key that reads back as the order id. |
| OrderStore.PlacementEvent | restaurant_ordering_service/internal/api/handlers.go:252-275 | The placement event carries the new order id, the caller, the total and the pending status, with the requested lines in order, each named as read during placement. |
| OrderScenarios.ScenarioA | restaurant_ordering_service/internal/api/handlers.go:178-250 | Two of one item and one of another at 10.00 each make a pending order 1 of 30.00 with both lines. |
| OrderScenarios.ScenarioB | restaurant_ordering_service/internal/api/handlers.go:393-424 | With one unit of the first item left, settlement fails on that item and the second item's stock is untouched. |
| OrderScenarios.ScenarioC | restaurant_ordering_service/internal/api/handlers.go:393-451 | With enough stock, settlement completes the order and lowers each stock by its line's quantity. |
| OrderScenarios.ScenarioCJoin | restaurant_ordering_service/internal/api/handlers.go:360-389 | The join in Scenario C yields both lines of the order, in order, with their names. |
| OrderScenarios.ScenarioCStock | restaurant_ordering_service/internal/api/handlers.go:393-397 | The decrements in Scenario C leave stocks 998 and 999. |
| OrderScenarios.ScenarioD | restaurant_ordering_service/internal/api/handlers.go:393-424 | Two orders for the last five units, settled one after the other: the first succeeds and leaves stock zero with order 1 completed; on those tables the second fails on that item and changes nothing. |
| OrderScenarios.ScenarioDFirst | restaurant_ordering_service/internal/api/handlers.go:393-451 | The first settlement of Scenario D succeeds, drains the item and completes order 1 only. |
| OrderScenarios.ScenarioDSecond | restaurant_ordering_service/internal/api/handlers.go:393-424 | The second settlement of Scenario D fails on the drained item and changes nothing. |
| OrderScenarios.ScenarioDJoins | restaurant_ordering_service/internal/api/handlers.go:360-389 | Each order of Scenario D joins to its one line, before and after the drain. |
| OrderScenarios.ScenarioDStock | restaurant_ordering_service/internal/api/handlers.go:393-397 | Five units cover the first line exactly; none are left for the second. |
| OrderScenarios.ScenarioE | restaurant_ordering_service/internal/api/handlers.go:360-424 | With no stock, lines of 5 and -5 fail on the first when they come in that order and succeed, leaving stock zero, the other way round. |
| Producer.EventItems | restaurant_ordering_service/internal/kafka/producer.go:47-54 | One event item per order line, in order, named by the map or "" when the id is missing. |
| Producer.BuildEvent | restaurant_ordering_service/internal/kafka/producer.go:56-64 | The event copies the order's id, owner, total and status, takes the clock reading, and lists the order's lines with their names. |
| Producer.MessageKey | restaurant_ordering_service/internal/kafka/producer.go:75 | The key is non-empty and reads back (Atoi) as the order id. |
| Producer.PublishOrderEvent | restaurant_ordering_service/internal/kafka/producer.go:45-86 | A marshal failure or a write failure returns that error and writes nothing; otherwise exactly one message, keyed by the order id and holding the serialized event, is appended to the topic. |
| Strconv.ItoaRoundTrip | restaurant_ordering_service/internal/kafka/producer.go:75 | Parsing the decimal spelling of any integer gives back that integer. |
| Strconv.Itoa | restaurant_ordering_service/internal/kafka/producer.go:75 | The decimal spelling of an order id, with a minus sign for negatives; `ItoaRoundTrip` and `ItoaInjective` state its meaning. |
| Strconv.Atoi | restaurant_ordering_service/internal/kafka/producer.go:75 | Decimal parsing with an optional sign, the inverse of `Itoa`. The services never parse a key themselves; `ItoaRoundTrip` and `Producer.MessageKey` use it to state that the key determines the order id. |
| Strconv.ItoaInjective | restaurant_ordering_service/internal/kafka/producer.go:75 | Distinct order ids have distinct message keys. |
| Strconv.ValueOfDigits | restaurant_ordering_service/internal/kafka/producer.go:75 | The digits of a natural number read back as that number. |
| Strconv.Digits | restaurant_ordering_service/internal/kafka/producer.go:75 | The decimal spelling is non-empty and all digits, and begins with '0' only for zero. |
| Strconv.ParseUint32 | user_feedback_service/internal/api/handlers.go:139 | A path id parses exactly when it is a non-empty string of digits whose value fits in 32 bits, and then to that value. |
| Strconv.ParseUint32Digits | user_feedback_service/internal/api/handlers.go:199 | Every 32-bit id is accepted in its decimal spelling. |
| Strconv.ParseUint32RejectsSign | user_feedback_service/internal/api/handlers.go:199-206 | A signed id is refused even when its magnitude is in range. |
| Auth.Split | restaurant_ordering_service/internal/middleware/auth.go:29 | Splitting on single spaces gives at least one part and no part contains a space. |
| Auth.JoinSplit | restaurant_ordering_service/internal/middleware/auth.go:29 | Joining the parts with single spaces gives back the header. |
| Auth.SplitJoin | restaurant_ordering_service/internal/middleware/auth.go:29 | Splitting space-free parts joined by single spaces gives back those parts. |
| Auth.SplitWithoutSpace | restaurant_ordering_service/internal/middleware/auth.go:29 | A string without spaces splits into itself alone. |
| Auth.SplitPrefix | restaurant_ordering_service/internal/middleware/auth.go:29 | A space-free word followed by a space splits off as the first part. |
| Auth.SplitCount | restaurant_ordering_service/internal/middleware/auth.go:29-30 | There is one more part than the header has spaces. |
| Auth.BearerToken | restaurant_ordering_service/internal/middleware/auth.go:18-39 | An empty header is refused as missing, and an accepted token contains no space. |
| Auth.BearerTokenIff | restaurant_ordering_service/internal/middleware/auth.go:29-39 | A header yields token t if and only if it is exactly "Bearer " followed by t and t has no space. |
| Auth.BearerTokenShape | restaurant_ordering_service/internal/middleware/auth.go:18-39 | The header check accepts exactly the headers of the form "Bearer " followed by a space-free token, and then yields that token. |
| Auth.Authenticate | restaurant_ordering_service/internal/middleware/auth.go:18-66 | An empty header gives the missing-header error; a non-empty header not of the form "Bearer " followed by a space-free token gives the malformed-header error; a well-formed header is accepted if and only if its token verifies, with the verified user id, and otherwise gives the invalid-token error. |
| Auth.LowercaseSchemeRefused | restaurant_ordering_service/internal/middleware/auth.go:30 | The scheme is case-sensitive: "bearer …" is never accepted. |
| Auth.DoubleSpaceRefused | restaurant_ordering_service/internal/middleware/auth.go:29-37 | Two spaces after the scheme make a third part, and the header is refused as malformed. |
| Consumer.ConsumeStep | user_feedback_service/internal/kafka/consumer.go:56-90 | A read error or an undecodable payload changes nothing and commits nothing. A completed event whose user cannot be created commits nothing. Otherwise the users table becomes `ApplyEvent` of the old one, and the offset is committed exactly when the commit succeeds. Users stay valid. |
| Consumer.UserKey | user_feedback_service/internal/kafka/consumer.go:79 | The converted id is below 2^64 and equals the event's id whenever that is in range. |
| Consumer.Upsert | user_feedback_service/internal/kafka/consumer.go:79-82 | FirstOrCreate fails if and only if the id is absent and an existing user already has an empty username or email; otherwise the id is present afterwards, exactly one key is added at most, and existing users are unchanged. |
| Consumer.ApplyEvent | user_feedback_service/internal/kafka/consumer.go:76-82 | A completed event upserts its user; any other status leaves the users table alone. Stated by `CompletedEventMaterializesUser`, `OtherEventsChangeNoUser` and `ApplyEventIdempotent`. |
| Consumer.UpsertKeepsUsersValid | user_feedback_service/internal/models/models.go:10-17 | Creating the user keeps primary keys and the unique usernames and emails. |
| Consumer.ApplyEventIdempotent | user_feedback_service/internal/kafka/consumer.go:76-82 | Redelivering an applied event leaves the users table as the first delivery left it. |
| Consumer.CompletedEventMaterializesUser | user_feedback_service/internal/kafka/consumer.go:76-82 | After a completed event its user exists, and no other user is added or changed. |
| Consumer.OtherEventsChangeNoUser | user_feedback_service/internal/kafka/consumer.go:76 | Events whose status is not "completed" leave the users table alone. |
| Consumer.SecondLazyUserFails | user_feedback_service/internal/kafka/consumer.go:79-82 | Once one user has been created lazily, creating any other unseen user fails on the unique indexes. |
| FeedbackDb.Database.constructor | user_feedback_service/internal/db/db.go:53-86 | A migrated database with valid seeded users, no feedback and ids starting at 1 satisfies the invariant. |
| FeedbackApi.FindOwned | user_feedback_service/internal/api/handlers.go:158-166 | A found row is visible, has the requested id and belongs to the caller; when none is found, no visible row has both. |
| FeedbackApi.ListFor | user_feedback_service/internal/api/handlers.go:71-72 | A row is listed if and only if it is visible and belongs to the caller, and it is listed as many times as it occurs in the table. |
| FeedbackApi.CreateFeedback | user_feedback_service/internal/api/handlers.go:89-134 | An unbindable body gives 400 and an existing visible feedback for the order gives 409, each writing nothing; a caller with no users row gives 500 (foreign key), adds no row and uses up the next id; otherwise exactly one visible row with the next id, the order, caller, rating and comment is appended. The table invariant (ids, foreign key, ratings 1–5, one feedback per order and user) is kept. |
| FeedbackApi.UpdateFeedback | user_feedback_service/internal/api/handlers.go:137-194 | A bad id gives 400, an unbindable body gives 400, a row not owned by the caller gives 404, each writing nothing; otherwise only the found row changes, to its patched rating and comment. The table invariant is kept. |
| FeedbackApi.DeleteFeedback | user_feedback_service/internal/api/handlers.go:197-233 | A bad id gives 400 and a row not owned by the caller 404, writing nothing; otherwise only the found row is marked deleted. The table invariant is kept. |
| FeedbackApi.GetUserFeedback | user_feedback_service/internal/api/handlers.go:68-86 | The answer holds exactly the caller's visible rows, each as many times as it occurs in the table. |
| FeedbackApi.FeedbackStats | user_feedback_service/internal/api/handlers.go:246-268 | The total is the number of visible rows, and the newly allocated array's entry i holds rating i+1 with the number of visible rows of that rating, for i from 0 to 4. |
| FeedbackApi.CountVisible | user_feedback_service/internal/api/handlers.go:247 | The `Count` of visible feedback rows, never more than the rows in the table. |
| FeedbackApi.CountRating | user_feedback_service/internal/api/handlers.go:260 | The `Count` of visible rows with one rating, never more than the visible rows. |
| FeedbackApi.RatingCountsAddUp | user_feedback_service/internal/api/handlers.go:246-268 | When every visible rating is between 1 and 5, the five per-rating counts add up to the total. |
| FeedbackApi.DeleteHidesExactlyOne | user_feedback_service/internal/api/handlers.go:220 | After a soft delete, a caller's listing loses exactly the deleted row. |
| FeedbackApi.DeleteCountsOneLess | user_feedback_service/internal/api/handlers.go:220 | A soft delete lowers the visible total by one. |
| FeedbackApi.PatchKeepsIdentity | user_feedback_service/internal/api/handlers.go:169-177 | An accepted update keeps id, order, owner and deletion mark, sets the rating, and replaces the comment only when a non-empty one is given. |
| FeedbackApi.Patch | user_feedback_service/internal/api/handlers.go:169-177 | The update map applied to the found row; `PatchKeepsIdentity` states what it keeps and what it sets. |
| FeedbackApi.BindsCreate | user_feedback_service/internal/models/models.go:41-45 | The create body binds when the order id is present (non-zero) and the rating is between 1 and 5. |
| FeedbackApi.BindsUpdate | user_feedback_service/internal/models/models.go:48-51 | The update body binds only when the rating is between 1 and 5, absent counting as zero. |
| FeedbackApi.CommentOnlyUpdateRefused | user_feedback_service/internal/models/models.go:48-50 | An update body without a rating never binds. |

## Left out

- The JWT itself is not modelled: parsing, the signing-method check, expiry and the claims are the `verify` parameter of `Auth.Authenticate`. Storing the username and secret in the request context is left out too.
- The login and profile handlers are not part of this model: `GetFoodItems`, `GetUserProfile`, and the feedback service's login handler.
- Service startup is not modelled: `main.go`, the database connection, table creation and seeding, and the reader/writer setup. The constructors only state the state that results.
- Goroutines and real concurrency are left out. Each handler starts publication in its own goroutine after the commit and before writing its response (`handlers.go:271-277` and `handlers.go:480-486`), so publication is a separate method. Transactions are modelled one after another (`OrderStore.RunKeepsWellFormed`).
- Overlapping settlements of the same order are not modelled. The status read (`handlers.go:317-320`) is a plain `SELECT` without `FOR UPDATE`, under PostgreSQL's default READ COMMITTED. Two overlapping settlements can both see `pending`. The conditional update of the second then waits for the first and re-checks `quantity >= $1` on the new row. Both can then decrement and both can succeed. So `OrderStore.SettleTwiceFails` holds only for settlements that do not overlap. Stock still never goes below zero, because every decrement re-checks the current quantity against the committed row. For the same reason the outcome of `OrderScenarios.ScenarioD`, which settles two different orders, holds whether or not the two settlements overlap: the second update waits for the first commit, finds no row with five units, and fails.
- JSON encoding and decoding are the `marshal` and `decode` parameters. The Kafka reader and writer are the `Fetch` value, the `writeOk` flag and the `Topic` and `GroupReader` objects. Redelivery of uncommitted messages after a restart is not modelled.
- The reader's own offset commits are not modelled. The reader has a `GroupID` and a one-second `CommitInterval` (`user_feedback_service/internal/kafka/consumer.go:31-38`), and `ReadMessage` then commits offsets by itself. `Consumer.GroupReader` records only the explicit `CommitMessages` calls.
- Logging is left out.
- Database errors other than a failed commit are not modelled on the ordering side: failures to begin, query, scan, insert or update. On the feedback side, the only database error modelled is the foreign-key refusal in `FeedbackApi.CreateFeedback`.
- The ordering service's `orders.user_id REFERENCES users(id)` is left out. The ordering model has no users table, so an insert refused for an unknown caller shows up only as a failed commit.
- Float64 and NUMERIC(10,2) rounding and overflow are left out, as is 32-bit `INT` overflow of quantities. Prices and totals are exact integers of cents.
- `Strconv.Atoi` is unbounded. It does not model the 64-bit range error of Go's `strconv.Atoi`; only the round trip of keys, which are `int` order ids, is used.
- The statistics endpoint's `AVG(rating)` is a float and is left out; the count and the per-rating counts are modelled.
- Timestamps are left out: `created_at`, `updated_at` and `deleted_at` times. The soft-delete mark is a boolean.
- The `id` column of `order_items` is not modelled.
- Settlement re-reads the order total outside the transaction after the commit. The model uses the stored total, which the commit does not change.
- GORM's treatment of a zero primary key in `FirstOrCreate(&user, User{ID: 0})` is not modelled; user id 0 is treated like any other id.
- Creating a second lazy user does not return GORM's own error value. `Consumer.Upsert` says only that it fails.
- OrderStore.SettleInsufficientStock, OrderStore.DecrementSucceedsIff and OrderStore.SettlementEvent: the verdict, the item an insufficient-stock error names, and the order of the event's items are stated for the join's rows in insertion order only. The query fixes no order, and another order can change the verdict (`OrderScenarios.ScenarioE`) and the named item.
- FeedbackApi.GetUserFeedback: states which rows are listed and how many times, not their order; the database returns them in no specified order.
- The ordering model has no cancelled status. The `Order.Status` comment lists `cancelled` (`restaurant_ordering_service/internal/models/models.go:26`), but no handler ever sets it.
