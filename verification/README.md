# Sales commission service — a Dafny model

The service keeps four MongoDB collections:

- `vendedores`: the sellers;
- `ventas`: the sales;
- `reglas`: the commission rules, a percentage per seller;
- `historial`: the commission history.

It offers a small HTTP API over them. This project models the business core of that API as pure functions over an in-memory store and proves what the code promises.

- **Recompute** (`POST /api/calcular-comisiones`).
  - For every seller, it selects the seller's sales dated inside the period, both ends included, and sums their amounts.
  - It applies the seller's *first* rule and rounds the commission to cents. A seller with no rule is paid nothing.
  - It replaces the seller's history rows for that exact period by one new row. The period is taken as the strings the caller sent.
  - It answers with the per-seller results and the rounded sum of the commissions.
  - It answers 400 when a date is missing or empty, and 500 when a date does not parse. Either way the store is left unchanged.
- **Sale entry** (`POST /api/agregar-venta`): the new sale's id is one more than the largest id in the collection, or 1 when the collection is empty.
- **History** (`GET /api/historial-comisiones`).
  - Optional bounds on the calculation date, compared as strings. The lower bound is inclusive, the upper one inclusive.
  - An optional seller filter.
  - Each row is joined with its seller's name.
  - The response carries the row count and the rounded sum of the commissions.
- **Gain projection** (`GET /api/ventas-filtradas`).
  - It selects the sales whose date *text* lies between the two request strings.
  - For each sale it gives the seller's name, the percentage of the seller's *last* rule (0 when there is none) and the rounded gain.
- **Sales list** (`GET /api/ventas`): every sale with its seller's name. The name is "Desconocido" when no seller has the id.
- **Seeder** (`seed_database`): each of the sellers, sales and rules collections receives its fixture when, and only when, it is empty.
- **`object_id_to_str`**: a document's `_id` becomes `id`, with an ObjectId turned into text. Other ObjectId values become text. Lists are converted element by element.

Modules, in dependency order:

- `Wrappers`: `Option`, `Result`.
- `Dates`: calendar dates, strict `YYYY-MM-DD` parse and format, string order against chronological order.
- `Money`: exact-real amounts and round-half-even to cents.
- `Records`: the entities and the store.
- `Commissions`: the recompute.
- `RecomputeProperties`: what the recompute does to the history.
- `SaleEntry`: sale entry.
- `Queries`: the read endpoints.
- `Documents`: loosely typed documents and `object_id_to_str`.
- `Seeder`: the seeder.

The clock is a parameter: `today` is the date `datetime.now()` would give. The lemmas about the recompute's effect on the history take the period as two dates `lo` and `hi` and the request strings as `Format(lo)` and `Format(hi)`. This loses nothing, because `Dates.Parse` accepts a string only when it is the format of the date it returns. Reads and writes of the database are functions on the `Store` value.

## Model

| member | source | states |
|---|---|---|
| `Dates.Parse` | backend/app.py:93-94 | A date string is accepted only if it is a real calendar day, and formatting the accepted date gives back the same string. |
| `Dates.Format` | backend/app.py:89 | `strftime('%Y-%m-%d')` writes four digits, a dash, two digits, a dash and two digits. |
| `Dates.ParseFormat` | backend/app.py:89-94 | Every date the service formats with `strftime('%Y-%m-%d')` parses back to the same date. |
| `Dates.FormatOrder` | backend/app.py:184-186 | On formatted dates, lexicographic string order is exactly chronological order, and formatting is injective. |
| `Dates.DigitsOrder` | backend/app.py:184-186 | Zero-padded numerals of one width compare, as strings, exactly as the numbers they denote. |
| `Money.Round2` | backend/app.py:132 | `round(x, 2)`: the result is a whole number of cents, at most half a cent from `x`, equal to `x` when `x` is already in cents, and non-negative for non-negative `x`. |
| `Money.RoundCents` | backend/app.py:132 | The nearest whole number of cents, with ties going to the even cent. |
| `Money.Round2Monotonic` | backend/app.py:132 | Rounding to cents never reverses the order of two amounts. |
| `Money.CommissionWithinTotal` | backend/app.py:104-110 | For a percentage between 0 and 100, the rounded commission on a non-negative whole-cent total lies between 0 and the total. |
| `Records.TotalAmountAppend` | backend/app.py:104 | The sum of amounts over two runs of sales is the sum of the two sums. |
| `Records.TotalAmountNonNegative` | backend/app.py:104 | Sales with non-negative amounts sum to a non-negative total. |
| `Commissions.SalesInPeriod` | backend/app.py:98-103 | The selection keeps exactly the seller's dated sales inside the period, both ends included, with their multiplicities. Every element passes the test. |
| `Commissions.FirstRule` | backend/app.py:105 | No rule exactly when no rule names the seller. Otherwise the result is the earliest rule naming the seller. |
| `Commissions.SellerCommission` | backend/app.py:104-124 | The total is the sum over the selection. The details are the id, date and amount of each selected sale, in order. The rule is the seller's first. The commission is the rounded percentage of the total, or 0 without a rule, and is in cents. |
| `Commissions.SumCommissionsCents` | backend/app.py:147 | A sum of whole-cent commissions is in whole cents, so the final rounding of the total keeps it exact. |
| `Commissions.DropKeys` | backend/app.py:112-116 | `delete_many` removes exactly the rows of the named sellers for the exact period, keeping the multiplicities of all other rows. |
| `Commissions.Upsert` | backend/app.py:111-135 | One loop iteration: the new row ends the history, no earlier row has its seller and period, and every row of another seller or period keeps its multiplicity. |
| `Commissions.UpsertAll` | backend/app.py:111-135 | The loop over all sellers: the last new row ends the history, and a row targeted by none of the new rows keeps its multiplicity. |
| `Commissions.Recompute` | backend/app.py:79-150 | Missing or empty dates give the 400 message. Given dates that do not parse give the 500 error. The reply is a success exactly when both dates are given and parse. A failure leaves the store unchanged. A success leaves sellers, sales and rules unchanged, echoes the period, has one result per seller in order, and its total equals the exact sum of the commissions. |
| `RecomputeProperties.UpsertAllClosedForm` | backend/app.py:111-135 | With distinct sellers, the delete-then-insert loop equals deleting every targeted row once and then appending the new rows. |
| `RecomputeProperties.RecomputeHistory` | backend/app.py:95-135 | With unique seller ids, a recompute for the dates `lo`..`hi` succeeds. Its results are the per-seller results. The new store is the old one with the history's rows for those sellers and that period removed and one new row per seller appended, in seller order. |
| `RecomputeProperties.OneRowPerSeller` | backend/app.py:111-135 | After a recompute, each seller has exactly one history row for the period. |
| `RecomputeProperties.OtherRowsUntouched` | backend/app.py:112-116 | After a recompute, the history rows of other periods or sellers are the same as before. |
| `RecomputeProperties.RecomputeIdempotent` | backend/app.py:111-135 | Recomputing a period twice gives the store and the response the second run alone would. On the same calculation date the second run leaves the store as it is. |
| `RecomputeProperties.DropKeysTwice` | backend/app.py:112-116 | Deleting one set of sellers' rows and then another equals deleting both sets at once. |
| `RecomputeProperties.EmptyPeriodPaysNothing` | backend/app.py:100-110 | A period whose start is after its end selects no sale, totals 0 and pays 0. |
| `RecomputeProperties.TotalAmountCents` | backend/app.py:104 | A sum of whole-cent amounts is in whole cents. |
| `RecomputeProperties.CommissionBounds` | backend/app.py:104-110 | With non-negative whole-cent amounts and rules between 0 and 100 percent, a seller's total is non-negative and the commission lies between 0 and the total. |
| `RecomputeProperties.SalesInPeriodAppend` | backend/app.py:98-103 | Selecting from two concatenated collections gives the two selections concatenated. |
| `RecomputeProperties.AddSaleRaisesTotal` | backend/app.py:152-167 | Recording a sale raises its seller's total by its amount in every period containing its date, and leaves every other seller's and period's total as it was. |
| `RecomputeProperties.ExampleSelection` | backend/app.py:100-103 | On a five-sale example, the selection of seller 1 for January 2025 keeps the sales of 1 and 20 January. It drops the seller's February sale, an undated sale of the seller and a January sale of another seller. |
| `RecomputeProperties.TenPercentExample` | backend/app.py:104-110 | On that example, a 10% rule pays 30 on a January total of 300 from two sales. |
| `SaleEntry.NextSaleId` | backend/app.py:158-159 | The next id is 1 for an empty collection. Otherwise it is one more than an existing id and larger than every existing id. |
| `SaleEntry.AddSale` | backend/app.py:152-167 | The new sale carries the request's seller, date and amount and a fresh id. It is appended and nothing else changes. Unique ids stay unique. |
| `Queries.SellerName` | backend/app.py:36-39 | "Desconocido" when no seller has the id. Otherwise the name of a seller with that id, and with unique ids, that seller's name. |
| `Queries.ListSales` | backend/app.py:32-40 | Every sale, in order and unchanged, each with its seller's joined name. |
| `Queries.CalcDateBounds` | backend/app.py:56-61 | The if/elif chain uses the lower bound exactly when `fecha_inicio` is given and the upper bound exactly when `fecha_fin` is given. |
| `Queries.MatchesQuery` | backend/app.py:52-64 | The built query holds of a row exactly when the row meets every given filter: the lower calculation-date bound, the upper bound, the seller id. |
| `Queries.MatchingRows` | backend/app.py:52-65 | The history query keeps exactly the rows that satisfy it, with their multiplicities, and only rows of the history. |
| `Queries.FilterHistory` | backend/app.py:48-75 | The count equals the number of returned rows, which are the matching rows in order, each with its seller's name. The total is in cents and, when the stored commissions are, it equals their exact sum. |
| `Queries.FilterHistoryMembership` | backend/app.py:52-65 | A stored row is returned if and only if it meets every given filter: the lower calculation-date bound, the upper bound, the seller id. |
| `Queries.UpsertAllKeepsCents` | backend/app.py:132-135 | Inserting whole-cent rows into a whole-cent history keeps every stored commission in cents. |
| `Queries.RecomputeKeepsCents` | backend/app.py:74 | Recomputes keep every stored commission in whole cents, so the history total is the exact sum of the returned rows. |
| `Queries.LastRule` | backend/app.py:189 | The dictionary of rules by seller finds no rule exactly when none names the seller. Otherwise it finds a rule of that seller, the latest. |
| `Queries.SalesBetween` | backend/app.py:184-186 | The projection's query keeps exactly the dated sales whose date text lies between the two strings, with their multiplicities. |
| `Queries.GainRowOf` | backend/app.py:192-206 | A projected row carries the sale's id, seller, date and amount and the seller's name. The percentage is the last rule's, or 0 without one, and the gain is that percentage of the amount rounded to cents. |
| `Queries.FilteredSales` | backend/app.py:171-207 | A missing or empty date gives the "Debe proporcionar" error, and an unparseable one the date-format error. A success happens exactly when both dates are given and parse, and then gives one row per selected sale, in order. |
| `Queries.FilteredSalesChronological` | backend/app.py:179-186 | For accepted dates, comparing date strings selects exactly the sales dated chronologically inside the period. |
| `Queries.SameSelectionAsRecompute` | backend/app.py:100-103 | The projection and the recompute select the same sales of a seller for the same period. |
| `Queries.RuleLookupsAgree` | backend/app.py:189 | With at most one rule per seller, the projection's last-rule lookup equals the recompute's first-rule lookup. |
| `Queries.RuleLookupsDiffer` | backend/app.py:105 | With two rules for one seller, the recompute applies the first and the projection the second. |
| `Documents.Put` | backend/database.py:83-85 | Assigning a key sets its value and leaves every other key's value as it was. The key keeps its place or is appended. |
| `Documents.Delete` | backend/database.py:86 | Deleting a key removes it and leaves every other key's value as it was. |
| `Documents.StringifyValues` | backend/database.py:87-89 | The final loop keeps the keys in order, leaves no ObjectId value and maps each value. Without ObjectIds it changes nothing. |
| `Documents.ObjectIdToStr` | backend/database.py:72-90 | Lists map element by element. A document loses `_id`; its `id` is the old `_id`, turned into text only when it is an ObjectId, or the mapped old `id` when there was none. Other keys keep their mapped values and no ObjectId value remains. Anything else is returned unchanged. |
| `Documents.ObjectIdToStrIdempotent` | backend/database.py:72-90 | Converting an already converted value changes nothing. |
| `Seeder.SeedSellers` | backend/database.py:27-34 | The seller fixture is four sellers with the unique ids 1 to 4. |
| `Seeder.SeedRules` | backend/database.py:62-69 | The rule fixture has unique ids and one rule for each of sellers 1 to 4. Each seller's first rule carries 10, 8, 12 and 9 percent respectively. |
| `Seeder.SeedSales` | backend/database.py:36-60 | The sales fixture has 36 sales with ids 1 to 36. The first four are the 2024 sales and the rest are in 2025. The sale of seller v in month m of 2025 sits at slot 4m+v−1, dated the 15th, for 100v+10m. |
| `Seeder.BuildSeedSales` | backend/database.py:38-60 | The nested month and seller loops, with their running id counter, build exactly the sales fixture. |
| `Seeder.SeedDatabase` | backend/database.py:20-69 | Each collection receives its fixture exactly when it is empty, and a non-empty one is kept as it was. The history is not touched. Unique ids stay unique. |
| `Seeder.SeedIdempotent` | backend/database.py:20-24 | Seeding an already seeded store changes nothing. |

## Left out

- The web layer is not modelled: Flask routing, JSON bodies and serialisation, CORS, HTTP status codes beyond the 400/500 distinction, and the `home`, `get_vendedores` and `get_reglas` pass-through reads.
- The MongoDB connection and its configuration are not modelled. Queries, `delete_many` and `insert_one` are functions on sequences. Mongo-generated `_id` values of history rows are not modelled.
- Concurrency is left out, because the model is sequential. This includes two simultaneous sale entries computing the same next id.
- A failure in the middle of the recompute loop is not modelled. An exception raised after some sellers' rows are written would leave those rows in the store. In the model every stored sale date is valid, so no such failure arises.
- Exception messages are not modelled: every 500 answer is `InternalError`.
- Floating point is replaced by exact reals, and `round(x, 2)` by exact round-half-even to cents. Binary rounding of amounts is not modelled.
- Dates.Parse: accepts only zero-padded `YYYY-MM-DD` with ASCII digits. `strptime('%Y-%m-%d')` also accepts one-digit months and days, such as `2025-1-5`, a space-padded day, such as `2025-01- 5`, and non-ASCII decimal digits. On such input the projection's string comparison and the recompute's date comparison can select different sales. The strict parser excludes that case.
- SaleEntry.AddSale: takes an already valid date and converted seller id and amount. The endpoint stores `fecha` unvalidated and converts with `int(...)` and `float(...)`, answering 500 on failure. Those conversions are not modelled.
- Queries.FilterHistory: takes the seller filter as an optional integer. The `int(vendedor_id)` conversion and its failure are not modelled.
- Commissions.SellerCommission: returns the seller and rule records as they are. The response passes them through `object_id_to_str`, which `Documents.ObjectIdToStr` models separately.
