# A verified model of the payments dashboard's logic

The application is a Next.js front end and proxy over the Stripe API. Almost everything it does is
forwarding and rendering. Four pieces hold logic of their own, and the model covers those:

- **`GET /api/analytics`** (module `Analytics`).
  - One pass over the fetched payment intents computes:
    - a total count;
    - the revenue of the succeeded payments;
    - a per-payment-method `{count, amount}` table (succeeded payments only);
    - a per-status count table.
  - Each intent becomes a row of the payment history.
  - The balance entry reported is the `eur` one, or otherwise the first.
  - The pass is an imperative loop over an array with map-valued variables. It is proved equal to closed-form definitions, and the dashboard's invariants are proved about those definitions.
- **`GET /api/currencies`** (module `Currencies`).
  - The country specifications' currencies are deduplicated, keeping the first occurrence. This step is a nested loop filling a `Map`, modelled as a map plus its insertion order.
  - Each entry is named from a fixed table, falling back to the upper-cased code.
  - The list is sorted with the popular currencies first, in the popular list's order, and the rest alphabetically.
  - Each entry then gets a symbol.
  - When the provider call fails, a fixed eight-entry list is returned.
  - The comparator is proved to be a strict total order. Any two sorted arrangements of the same distinct entries are proved equal, so the engine's choice of sorting algorithm does not matter.
- **The payment-history table** (module `PaymentHistory`).
  - The component's state is a class whose methods are the event handlers.
  - The sort toggle is a three-state machine.
  - The request URL is built conditionally. It is proved to parse back into exactly the intended query parameters.
  - Helpers are modelled as functions: the status filter, the chip colours, the method labels, and the row-number and range-label arithmetic.
- **The success page** (module `SuccessPage`). The decision made by `checkPaymentStatus` is a function from its inputs to the page's `(status, message)`.

Two support modules hold JavaScript built-ins written out (`Js`: `trim`, `toUpperCase` on ASCII,
integer-to-string, `encodeURIComponent`, `split`) and a sum over map values (`Sums`). The option and
result types live in `Wrappers`.

### What the table asks for and what the endpoint does

- The table sends `page`, `limit`, `sortBy`, `sortOrder`, `searchField` and `searchValue` (PaymentHistory.tsx:91-97). The handler `GET()` (src/app/api/analytics/route.ts:7) takes no request at all. It returns the whole fetched history, unpaged and in fetch order, whatever the query. Its response (lines 66-76) has no `pagination` field.
  - The model's response, `Analytics.AnalyticsResponse`, has no `pagination` field either.
  - The table's query parameters are modelled only on the client side, as the URL the table requests.
- Because `pagination` stays `undefined`, the status chips and the pagination control are never rendered. They are guarded by `pagination && …` (PaymentHistory.tsx:268, 363). So, as the code stands, `statusFilter` stays `'all'` and `currentPage` only changes through `handleSort` and `handleSearchChange`. The model still makes the chip and page handlers (`SelectStatus`, `HandlePageChange`) and the range label available, as the component defines them.

## Model

| member | source | states |
|---|---|---|
| Analytics.MethodKey | src/app/api/analytics/route.ts:54 | The key is never empty. It is the first listed payment-method type, or `'unknown'` when there is none or it is empty. |
| Analytics.Aggregate | src/app/api/analytics/route.ts:43-64 | After the loop, `total` is the number of intents and `totalAmount` is the revenue of the succeeded ones. `byPaymentMethod` is the per-method table of succeeded intents and `byStatus` the per-status count table. The loop invariant ties each counter to the same definition over the prefix visited. |
| Analytics.StatusTableSnoc | src/app/api/analytics/route.ts:63 | Counting one more intent adds one to its status's entry, creating the entry at 1 if absent, and changes nothing else. |
| Analytics.MethodTableSnoc | src/app/api/analytics/route.ts:52-60 | One more intent changes the method table only if it succeeded. Then its method's entry gains one in count and its amount in amount, starting from `{0, 0}` when absent. |
| Analytics.FoldsSnoc | src/app/api/analytics/route.ts:43-64 | Visiting one more intent adds its amount to the revenue only if it succeeded, and tallies it into both tables. |
| Analytics.EntrySteps | src/app/api/analytics/route.ts:55-59 | The three in-place steps on an entry (create it at `{0, 0}`, add one to the count, add the amount) give one more count and the amount added to the prior entry. |
| Analytics.StatusFoldIsTable | src/app/api/analytics/route.ts:63 | Building `byStatus` intent by intent gives the closed-form status table. |
| Analytics.MethodFoldIsTable | src/app/api/analytics/route.ts:52-60 | Building `byPaymentMethod` intent by intent gives the closed-form method table. |
| Analytics.CountStatusPositive | src/app/api/analytics/route.ts:63 | A status has a positive count exactly when some intent has it. |
| Analytics.CountMethodPositive | src/app/api/analytics/route.ts:53-58 | A method has a positive count of succeeded intents exactly when some succeeded intent uses it. |
| Analytics.MethodsOfSnoc | src/app/api/analytics/route.ts:53-57 | One more intent adds its method to the present methods exactly when it succeeded. |
| Analytics.AmountAbsent | src/app/api/analytics/route.ts:55-59 | A method without succeeded intents has amount 0. |
| Analytics.StatusFoldSum | src/app/api/analytics/route.ts:45-63 | The counts of the table built intent by intent add up to the number of intents. |
| Analytics.StatusCountsSumToTotal | src/app/api/analytics/route.ts:45-63 | Every `byStatus` entry is at least 1, and the entries add up to `total`. |
| Analytics.MethodEntriesPositive | src/app/api/analytics/route.ts:55-58 | Every `byPaymentMethod` entry present has `count >= 1`. |
| Analytics.ColumnsUpdate | src/app/api/analytics/route.ts:58-59 | Updating one method's entry updates exactly that key of the count and amount columns. |
| Analytics.MethodFoldCounts | src/app/api/analytics/route.ts:53-58 | Over the table built intent by intent, the counts add up to the number of succeeded intents. |
| Analytics.MethodFoldAmounts | src/app/api/analytics/route.ts:47-59 | Over the table built intent by intent, the amounts add up to the revenue. |
| Analytics.MethodTableSums | src/app/api/analytics/route.ts:47-60 | Over all `byPaymentMethod` entries, the counts add up to the number of succeeded intents and the amounts to `totalAmount`. |
| Analytics.SummaryCoherent | src/app/api/analytics/route.ts:43-64 | The summary of any intent list satisfies all the invariants. The succeeded payments counted by method equal the `succeeded` entry of `byStatus`, or 0 when it is absent. |
| Analytics.CountAtMostLength | src/app/api/analytics/route.ts:63 | No status counts more intents than there are. |
| Analytics.History | src/app/api/analytics/route.ts:33-41 | One row per intent, in the same order. Each row copies id, amount, currency, status and created, uses the method key, and takes the description or `''`. |
| Analytics.HistoryAgreesWithMethodTable | src/app/api/analytics/route.ts:33-60 | A method has a `byPaymentMethod` entry exactly when some succeeded history row shows it. Its count is the number of such rows. |
| Analytics.CountMethodRows | src/app/api/analytics/route.ts:38-58 | The succeeded intents of a method are as many as the succeeded history rows showing it. |
| Analytics.FindCurrency | src/app/api/analytics/route.ts:21 | `find` returns an entry exactly when one has the currency. That entry has the currency, and no entry before it does. |
| Analytics.SelectEntry | src/app/api/analytics/route.ts:21-22 | With an `eur` entry the first such entry is chosen, otherwise entry 0; nothing is chosen only for an empty list. |
| Analytics.BalanceOf | src/app/api/analytics/route.ts:21-75 | Amounts of missing entries are 0. Both the available and the pending amount come from the first `eur` entry of their list, else from its first entry. The currency is the chosen available entry's, or `'eur'` when there is none or it is empty, and it is never empty. |
| Analytics.Project | src/app/api/analytics/route.ts:33-41 | No contract of its own: the history row of one intent. `History` states its fields. |
| Analytics.TallyStatus | src/app/api/analytics/route.ts:63 | No contract of its own: one more intent of a status counted into `byStatus`. `StatusTableSnoc` and `Aggregate` state what it achieves. |
| Analytics.TallyMethod | src/app/api/analytics/route.ts:52-60 | No contract of its own: a succeeded intent counted into its method's entry. `MethodTableSnoc`, `EntrySteps` and `Aggregate` state what it achieves. |
| Analytics.ErrorMessage | src/app/api/analytics/route.ts:80 | No contract of its own: an `Error`'s message, else `'Unknown error'`. `Get` states where it is used. |
| Analytics.Get | src/app/api/analytics/route.ts:7-83 | A failing provider call gives the error response with the `Error`'s message or `'Unknown error'`. Otherwise the response holds the aggregation, the history, the balance and its currency. |
| Currencies.ExtendAppend | src/app/api/currencies/route.ts:41-54 | Visiting two lists of codes one after the other gives the same map as visiting their concatenation. |
| Currencies.ExtendIsSet | src/app/api/currencies/route.ts:43 | Adding only codes not yet present keeps the keys distinct. The result holds exactly the old keys and the visited codes. |
| Currencies.DedupIsSet | src/app/api/currencies/route.ts:41-54 | The deduplicated codes are exactly the visited codes, each once. |
| Currencies.NameOf | src/app/api/currencies/route.ts:44-51 | No contract of its own: the table's name, else the upper-cased code. `CatalogueContents` states it of every entry. |
| Currencies.SymbolOf | src/app/api/currencies/route.ts:71 | No contract of its own: the table's symbol when present and non-empty, else the upper-cased code. `AttachSymbols` and `CatalogueContents` state it of every entry. |
| Currencies.Named | src/app/api/currencies/route.ts:48-51 | Each entry is its code with the name from the table, or the upper-cased code; this pointwise clause only spells out the comprehension, and `NamedElements` holds the properties. |
| Currencies.AllCodesSnoc | src/app/api/currencies/route.ts:41-42 | The codes of one more specification follow the codes already visited. |
| Currencies.NamedMapSnoc | src/app/api/currencies/route.ts:48-51 | Setting a new code adds exactly its named entry to the map. |
| Currencies.CollectCurrencies | src/app/api/currencies/route.ts:41-54 | The map's values, in insertion order, are the first occurrences of the supported currencies in visiting order, each named. A repeated code leaves its entry unchanged. |
| Currencies.IndexOf | src/app/api/currencies/route.ts:59-60 | `indexOf` is -1 exactly for an absent value. Otherwise it is the first position holding the value. |
| Currencies.LexCompare | src/app/api/currencies/route.ts:65 | The comparison is -1, 0 or 1, and 0 exactly for equal codes. |
| Currencies.LexAntisymmetric | src/app/api/currencies/route.ts:65 | Swapping the codes negates the comparison. |
| Currencies.LexTransitive | src/app/api/currencies/route.ts:65 | Alphabetical order is transitive. |
| Currencies.PopularIndex | src/app/api/currencies/route.ts:57-60 | The popular index is -1 exactly for a code outside the list, else the code's position. |
| Currencies.Compare | src/app/api/currencies/route.ts:58-66 | `a` goes first exactly when it is popular and `b` is not, or both are popular and `a` comes earlier in the popular list, or neither is popular and `a` is alphabetically smaller. |
| Currencies.CompareZeroIffEqual | src/app/api/currencies/route.ts:58-66 | The comparator returns 0 only for a code compared with itself. |
| Currencies.CompareAntisymmetric | src/app/api/currencies/route.ts:58-66 | `a` sorts before `b` exactly when `b` sorts after `a`. |
| Currencies.CompareTransitive | src/app/api/currencies/route.ts:58-66 | The comparator's order is transitive. |
| Currencies.CompareIsStrictTotalOrder | src/app/api/currencies/route.ts:58-66 | The comparator is a strict total order on codes. |
| Currencies.InsertPermutes | src/app/api/currencies/route.ts:58 | Inserting adds exactly one element and loses none. |
| Currencies.InsertOrdered | src/app/api/currencies/route.ts:58 | Inserting a new code into an ordered list keeps it ordered. |
| Currencies.HeadBeforeInserted | src/app/api/currencies/route.ts:58 | An ordered list's head precedes everything in the rest after an insertion behind it. |
| Currencies.PrependOrdered | src/app/api/currencies/route.ts:58 | Putting a smaller element before an ordered list keeps it ordered. |
| Currencies.SortBy | src/app/api/currencies/route.ts:58 | No contract of its own: an insertion sort standing for the engine's sort. `SortPermutes`, `SortOrdered` and `SortedIsUnique` state that it, and any other correct sort, gives the same result. |
| Currencies.SortPermutes | src/app/api/currencies/route.ts:58 | Sorting is a permutation: the same multiset, nothing added or lost. |
| Currencies.SortOrdered | src/app/api/currencies/route.ts:58-66 | Entries with distinct codes come out strictly ordered by the comparator. |
| Currencies.StrictTotalOrderIsAsymmetric | src/app/api/currencies/route.ts:58-66 | A strict total order never puts two codes before each other. |
| Currencies.TailMember | src/app/api/currencies/route.ts:58 | Two ordered lists with the same elements and the same head have the same remaining elements. |
| Currencies.SameHead | src/app/api/currencies/route.ts:58 | Two ordered lists with the same elements start with the same element. |
| Currencies.SortedIsUnique | src/app/api/currencies/route.ts:58-66 | Two ordered lists with the same elements are equal, so any correct sort gives this order. |
| Currencies.AttachSymbols | src/app/api/currencies/route.ts:69-72 | Each entry keeps its code and name and gets the table's symbol, or the upper-cased code when the table has none; this pointwise clause only spells out the comprehension, and `CatalogueContents` holds the properties. |
| Currencies.CodesOf | src/app/api/currencies/route.ts:69-72 | Vocabulary, not a model of these lines: the codes of the entries, position by position, used to state `CatalogueContents` and `GetCurrencies`. |
| Currencies.NamedElements | src/app/api/currencies/route.ts:48-51 | An entry is named after the codes exactly when its code is one of them and its name is that code's name. Distinct codes give distinct entries. |
| Currencies.CatalogueEntries | src/app/api/currencies/route.ts:41-66 | The sorted entries are strictly ordered and are exactly the visited codes with their names. |
| Currencies.CatalogueContents | src/app/api/currencies/route.ts:41-72 | Every visited code appears exactly once and no other code appears. Each entry's name and symbol come from the table or the upper-cased code. |
| Currencies.CatalogueOrder | src/app/api/currencies/route.ts:57-66 | Popular codes come before all others, in the popular list's order, and the others are in alphabetical order. |
| Currencies.PopularDistinct | src/app/api/currencies/route.ts:57 | The popular list has no repeats. |
| Currencies.PopularIndexIsPosition | src/app/api/currencies/route.ts:57-60 | A popular code's index is its position in the list. |
| Currencies.PopularNamedSorted | src/app/api/currencies/route.ts:57-62 | The popular list is already in comparator order. |
| Currencies.FallbackIsNamedPopular | src/app/api/currencies/route.ts:81-90 | The fallback list is the popular codes with their table names and symbols. |
| Currencies.FallbackEntry | src/app/api/currencies/route.ts:81-90 | Each fallback entry is the popular code at its position, with that code's table name and symbol. |
| Currencies.PopularEntryLow | src/app/api/currencies/route.ts:82-85 | The first four fallback entries are named and given symbols from the table. |
| Currencies.PopularEntryHigh | src/app/api/currencies/route.ts:86-89 | The last four fallback entries are named and given symbols from the table. |
| Currencies.FallbackIsPopularCatalogue | src/app/api/currencies/route.ts:57-90 | When exactly the popular codes are supported, the derived catalogue equals the fallback list. |
| Currencies.GetCurrencies | src/app/api/currencies/route.ts:8-95 | On failure the result is exactly the eight fallback entries `usd … cny`. Otherwise it is the catalogue of the visited codes, listing each visited code once and no other. |
| PaymentHistory.Click | src/app/components/PaymentHistory/PaymentHistory.tsx:160-176 | After a click the field and the order are both set or both null, and the sort is by the clicked field if at all. The order is `asc` exactly when a different field was clicked. |
| PaymentHistory.Repeat | src/app/components/PaymentHistory/PaymentHistory.tsx:160-176 | Vocabulary, not a model of these lines: `n` clicks on one header, used to state `SameHeaderCycles`. |
| PaymentHistory.ReachableConsistent | src/app/components/PaymentHistory/PaymentHistory.tsx:64-65 | From the initial (null, null), field and order stay null together. |
| PaymentHistory.SameHeaderCycles | src/app/components/PaymentHistory/PaymentHistory.tsx:160-176 | Clicking one header cycles unsorted, `asc`, `desc`, unsorted: `n` clicks give state `n mod 3`. |
| PaymentHistory.ThreeClicksReturn | src/app/components/PaymentHistory/PaymentHistory.tsx:160-176 | Three clicks on the current or only field return to the state before. |
| PaymentHistory.BlankIff | src/app/components/PaymentHistory/PaymentHistory.tsx:95 | The debounced text trims to empty exactly when it is all white space. |
| Js.Split | src/app/components/PaymentHistory/PaymentHistory.tsx:91-97 | Vocabulary, not a model of these lines: `String.prototype.split` on one character, used by `ParseQuery` to read the URL back. There is at least one part and no part holds the separator. |
| Js.SplitNoSeparator | src/app/components/PaymentHistory/PaymentHistory.tsx:91-97 | Vocabulary, not a model of these lines: a string without the separator splits into itself alone. |
| Js.SplitCons | src/app/components/PaymentHistory/PaymentHistory.tsx:91-97 | Vocabulary, not a model of these lines: a separator-free part followed by the separator splits off as the first part. |
| PaymentHistory.ParseQuery | src/app/components/PaymentHistory/PaymentHistory.tsx:91-97 | Vocabulary, not a model of these lines: a reader of query strings, splitting at `&` and then at `=`, used to state the round trip of `RequestUrlParses`. A query string reads as at least one parameter. |
| PaymentHistory.Names | src/app/components/PaymentHistory/PaymentHistory.tsx:91-97 | Vocabulary, not a model of these lines: the names of the parameters, position by position, used to state `QueryParameters`. |
| PaymentHistory.SegmentParses | src/app/components/PaymentHistory/PaymentHistory.tsx:91-97 | A plain `name=value` segment holds no `&` and reads back as its parameter. |
| PaymentHistory.JoinParses | src/app/components/PaymentHistory/PaymentHistory.tsx:91-97 | Joining plain parameters with `&` and reading them back gives them back. |
| PaymentHistory.JoinAppend | src/app/components/PaymentHistory/PaymentHistory.tsx:93-96 | Joining two parameter lists is joining each, with `&` between. |
| PaymentHistory.IntToStringPlain | src/app/components/PaymentHistory/PaymentHistory.tsx:91 | A decimal number holds neither `&` nor `=`. |
| PaymentHistory.EncodedPlain | src/app/components/PaymentHistory/PaymentHistory.tsx:96 | An `encodeURIComponent` result holds neither `&` nor `=`. |
| PaymentHistory.RequestUrl | src/app/components/PaymentHistory/PaymentHistory.tsx:91-97 | No contract of its own: the URL built in the three steps below. `UrlIsJoin`, `RequestUrlParses` and `QueryParameters` state what it carries. |
| PaymentHistory.BaseRequestUrl | src/app/components/PaymentHistory/PaymentHistory.tsx:91 | No contract of its own: the path with the page and limit. `BaseUrl` states its parameters. |
| PaymentHistory.AddSort | src/app/components/PaymentHistory/PaymentHistory.tsx:92-94 | No contract of its own: the sort appended when both halves are set. `AddSortJoin` states what it adds. |
| PaymentHistory.AddSearch | src/app/components/PaymentHistory/PaymentHistory.tsx:95-97 | No contract of its own: the search appended when the debounced text is not blank. `AddSearchJoin` states what it adds. |
| PaymentHistory.BaseUrl | src/app/components/PaymentHistory/PaymentHistory.tsx:91 | The initial URL is the path followed by the page and limit parameters. |
| PaymentHistory.TwoMore | src/app/components/PaymentHistory/PaymentHistory.tsx:93-96 | Appending `&n1=v1&n2=v2` gives the URL of two more parameters. |
| PaymentHistory.AddSortJoin | src/app/components/PaymentHistory/PaymentHistory.tsx:92-94 | The sort step adds exactly the sort parameters: two when both halves are set, none otherwise. |
| PaymentHistory.AddSearchJoin | src/app/components/PaymentHistory/PaymentHistory.tsx:95-97 | The search step adds exactly the search parameters: two when the debounced text is not blank, none otherwise. |
| PaymentHistory.UrlIsJoin | src/app/components/PaymentHistory/PaymentHistory.tsx:91-97 | The URL as built is the path followed by the intended parameters joined by `&`. |
| PaymentHistory.AllPlainAppend | src/app/components/PaymentHistory/PaymentHistory.tsx:91-97 | Concatenating plain parameter lists keeps them plain. |
| PaymentHistory.NamesPlain | src/app/components/PaymentHistory/PaymentHistory.tsx:91-97 | The six parameter names hold neither `&` nor `=`. |
| PaymentHistory.SortFieldNamePlain | src/app/components/PaymentHistory/PaymentHistory.tsx:93 | A sort field's name holds neither `&` nor `=`. |
| PaymentHistory.SortOrderNamePlain | src/app/components/PaymentHistory/PaymentHistory.tsx:93 | A sort order's name holds neither `&` nor `=`. |
| PaymentHistory.SearchFieldNamePlain | src/app/components/PaymentHistory/PaymentHistory.tsx:96 | A search field's name holds neither `&` nor `=`. |
| PaymentHistory.PairPlain | src/app/components/PaymentHistory/PaymentHistory.tsx:91-97 | Two parameters with plain names and values form a plain list. |
| PaymentHistory.ParamsPlain | src/app/components/PaymentHistory/PaymentHistory.tsx:91-97 | No name or value of the request holds `&` or `=`; numbers and the encoded search text included. |
| PaymentHistory.RequestUrlParses | src/app/components/PaymentHistory/PaymentHistory.tsx:91-97 | The URL starts with `/api/analytics?`, and its query reads back as exactly the intended parameters, in order. |
| PaymentHistory.PageAndLimitCarried | src/app/components/PaymentHistory/PaymentHistory.tsx:91 | The first two parameters read back from the URL are `page` and `limit`, and their values are digit strings whose decimal values are the current page and the page size. |
| PaymentHistory.NamesAppend | src/app/components/PaymentHistory/PaymentHistory.tsx:91-97 | The names of a concatenation are the names of its parts. |
| PaymentHistory.RequestNames | src/app/components/PaymentHistory/PaymentHistory.tsx:91-97 | The names are `page`, `limit`, then `sortBy`, `sortOrder` when sorted, then `searchField`, `searchValue` when searching. |
| PaymentHistory.LeadingNames | src/app/components/PaymentHistory/PaymentHistory.tsx:91 | Whatever the values, the list begins with the names `page` and `limit`, followed by the names of the rest. |
| PaymentHistory.SortNames | src/app/components/PaymentHistory/PaymentHistory.tsx:92-94 | The sort parameters are named `sortBy` and `sortOrder` when both halves are set, and there are none otherwise. |
| PaymentHistory.SearchNames | src/app/components/PaymentHistory/PaymentHistory.tsx:95-97 | The search parameters are named `searchField` and `searchValue` when the text is not blank, and there are none otherwise. |
| PaymentHistory.QueryNamesAre | src/app/components/PaymentHistory/PaymentHistory.tsx:91-97 | The names read from the URL are the names of the intended parameters. |
| PaymentHistory.NamesDistinct | src/app/components/PaymentHistory/PaymentHistory.tsx:91-97 | The six parameter names differ pairwise. |
| PaymentHistory.OptionalNames | src/app/components/PaymentHistory/PaymentHistory.tsx:91-97 | Which names occur in the fixed pair followed by two optional pairs. |
| PaymentHistory.QueryParameters | src/app/components/PaymentHistory/PaymentHistory.tsx:91-97 | `page` and `limit` are always sent. `sortBy` and `sortOrder` are sent exactly when both halves of the sort are set. `searchField` and `searchValue` are sent exactly when the trimmed debounced text is not empty. |
| PaymentHistory.KeepStatus | src/app/components/PaymentHistory/PaymentHistory.tsx:197 | The kept rows are rows with the status, in their original order, and there are as many as `rows` has with that status; every row with the status appears. |
| PaymentHistory.SubsequenceCount | src/app/components/PaymentHistory/PaymentHistory.tsx:197 | An order-preserving selection of rows with the status has at most as many rows as there are with it. |
| PaymentHistory.KeepStatusUnique | src/app/components/PaymentHistory/PaymentHistory.tsx:197 | Any order-preserving selection of rows with the status that has as many rows as there are with it is the filter's result, so the filter keeps each such row as often as it occurs. |
| PaymentHistory.FilterByStatus | src/app/components/PaymentHistory/PaymentHistory.tsx:195-197 | `'all'` leaves the list unchanged. Any other filter gives an order-preserving subsequence of rows with that status, as many as the list has; with `KeepStatusUnique` that is exactly the rows with the status, each as often as it occurs. |
| PaymentHistory.TableState.FilteredPaymentHistory | src/app/components/PaymentHistory/PaymentHistory.tsx:195-197 | No contract of its own: the filter applied to the stored rows and the selected status. `FilterByStatus` states what it gives. |
| PaymentHistory.IsSubsequenceOfSelf | src/app/components/PaymentHistory/PaymentHistory.tsx:195-196 | A list is a subsequence of itself. |
| PaymentHistory.FilteredRowsMatchStatusCount | src/app/components/PaymentHistory/PaymentHistory.tsx:195-197 | Filtering the history by a status shows as many rows as `byStatus` counts for it. |
| PaymentHistory.StatusColor | src/app/components/PaymentHistory/PaymentHistory.tsx:129-143 | `succeeded` maps to success, `processing` to warning, `requires_payment_method` and `requires_action` to info, and `canceled` to error. Exactly the other statuses get the default colour. |
| PaymentHistory.PaymentMethodLabel | src/app/components/PaymentHistory/PaymentHistory.tsx:145-154 | The five known methods get their table labels, which differ from the method. Any other method is shown unchanged. |
| PaymentHistory.LabelIdempotent | src/app/components/PaymentHistory/PaymentHistory.tsx:145-154 | Labelling a label changes nothing. |
| PaymentHistory.RowNumber | src/app/components/PaymentHistory/PaymentHistory.tsx:324 | No contract of its own: the `#` column's number. `RowNumbersDistinct` and `RangeMatchesRows` state its properties. |
| PaymentHistory.RangeStart | src/app/components/PaymentHistory/PaymentHistory.tsx:374 | No contract of its own: the first number of the range label. `RangeMatchesRows` and `PagesTile` state its properties. |
| PaymentHistory.RangeEnd | src/app/components/PaymentHistory/PaymentHistory.tsx:374 | The last number of the range label is the smaller of the page's end and the total: at most both, and equal to one of them. |
| PaymentHistory.RangeLabel | src/app/components/PaymentHistory/PaymentHistory.tsx:374 | No contract of its own: the `first-last of total` text built from `RangeStart`, `RangeEnd` and the total. The lemmas about its numbers (`RangeEnd`, `RangeMatchesRows`, `PagesTile`) are its whole specification. |
| PaymentHistory.RowNumbersDistinct | src/app/components/PaymentHistory/PaymentHistory.tsx:324 | Under the paging that the row numbers and the range label assume (at most `perPage` rows on a page), two rows get the same number only if they are on the same page at the same index. The table as rendered shows the whole unpaged history on one page, so this is not a statement about that. |
| PaymentHistory.RangeMatchesRows | src/app/components/PaymentHistory/PaymentHistory.tsx:374 | On a page with rows, the label runs from the first row's number to the last row's, covers at most one page, and never exceeds the total. |
| PaymentHistory.PagesTile | src/app/components/PaymentHistory/PaymentHistory.tsx:374 | A full page's range ends just before the next page's begins. |
| PaymentHistory.TableState.Url | src/app/components/PaymentHistory/PaymentHistory.tsx:91-97 | No contract of its own: `RequestUrl` of the current page, limit, sort, search field and debounced text. |
| PaymentHistory.TableState.constructor | src/app/components/PaymentHistory/PaymentHistory.tsx:58-68 | The initial state: no rows, filter `'all'`, page 1, 6 per page, unsorted, search by `id`, empty search texts. |
| PaymentHistory.TableState.HandleSort | src/app/components/PaymentHistory/PaymentHistory.tsx:160-176 | The sort state becomes `Click` of the old one, the page becomes 1, and nothing else changes. |
| PaymentHistory.TableState.HandleSearchChange | src/app/components/PaymentHistory/PaymentHistory.tsx:188-193 | The new text is always stored. The page becomes 1 exactly when the trimmed new text differs from the trimmed previous one, and nothing else changes. |
| PaymentHistory.TableState.DebounceElapsed | src/app/components/PaymentHistory/PaymentHistory.tsx:76-78 | The debounced text becomes the current text and nothing else changes. |
| PaymentHistory.TableState.HandlePageChange | src/app/components/PaymentHistory/PaymentHistory.tsx:156-158 | The page becomes the chosen one and nothing else changes. |
| PaymentHistory.TableState.SelectStatus | src/app/components/PaymentHistory/PaymentHistory.tsx:274 | The filter becomes the clicked status and nothing else changes. |
| PaymentHistory.TableState.SelectSearchField | src/app/components/PaymentHistory/PaymentHistory.tsx:248 | The search field becomes the chosen one and nothing else changes. |
| PaymentHistory.TableState.ReceiveResponse | src/app/components/PaymentHistory/PaymentHistory.tsx:98-103 | A successful response replaces the rows. A failed one leaves them, and nothing else changes. |
| Js.Trim | src/app/components/PaymentHistory/PaymentHistory.tsx:95 | No contract of its own: `String.prototype.trim`, white space removed at both ends. `TrimStartFacts`, `TrimEndFacts` and `TrimEmptyIff` state its properties. |
| Js.TrimStartFacts | src/app/components/PaymentHistory/PaymentHistory.tsx:95 | Trimming the start drops a prefix made of white space only and stops at a character that is not white space. |
| Js.TrimEndFacts | src/app/components/PaymentHistory/PaymentHistory.tsx:95 | Trimming the end drops a suffix made of white space only and stops at a character that is not white space. |
| Js.TrimEmptyIff | src/app/components/PaymentHistory/PaymentHistory.tsx:95 | A string trims to the empty string exactly when it is all white space. |
| Js.ToUpperCase | src/app/api/currencies/route.ts:45-46 | The result has the same length, each character is the upper-case form of the one at its place, and no lower-case ASCII letter is left. |
| Js.IntToString | src/app/components/PaymentHistory/PaymentHistory.tsx:91 | The numeral `${n}`: non-empty and made of digits, with a leading minus sign only for a negative number, and no leading zero. Its digits denote `n`: for `n >= 0` the decimal value is `n`, and for `n < 0` the digits after the minus sign denote `-n`. |
| Js.NatToString | src/app/components/PaymentHistory/PaymentHistory.tsx:91 | The numeral of a non-negative number is non-empty, all digits, has no leading zero, and its decimal value is the number. |
| Js.EncodeURIComponent | src/app/components/PaymentHistory/PaymentHistory.tsx:96 | The result holds only unreserved characters and `%`, and a string of unreserved characters is returned unchanged. What other characters become, and that the encoding is injective, are not stated (see "## Left out"). |
| SuccessPage.ErrorText | src/app/success/page.tsx:34 | The message is the error's own when present and non-empty, else `'An error occurred'`. It is never empty. |
| SuccessPage.IntentOutcome | src/app/success/page.tsx:38-58 | `succeeded` gives success with "Payment successful! …" and `processing` gives loading, not error, with "Your payment is processing. …", each message exactly for its status. Every other status gives error: "try another payment method" exactly for `requires_payment_method`, "contact support" for the rest. The intent is kept as the payment details. |
| SuccessPage.CheckPaymentStatus | src/app/success/page.tsx:15-58 | Without a Stripe instance (`null` or a rejected `stripePromise`) nothing changes. A missing or empty client secret gives (error, "No payment information found"). A rejected retrieval changes nothing. A retrieve error gives error with its message. An intent gives its outcome. With neither an error nor an intent, the state stays as it was. |
| SuccessPage.SuccessIff | src/app/success/page.tsx:17-45 | The page reports success exactly when Stripe loaded, a secret is present, retrieval resolved with no error, and the intent's status is `succeeded`. |
| SuccessPage.RejectionKeepsLoading | src/app/success/page.tsx:17-30 | When either awaited call rejects, the page keeps its initial state: loading, with no message. |
| SuccessPage.MessageShown | src/app/success/page.tsx:15-58 | From the initial state the page either stays as it was or shows a non-empty message. |

## Left out

- The provider calls are foreign code. For the three server calls (`balance.retrieve`, `paymentIntents.list`, `countrySpecs.list`), their results or the values they throw are inputs to the model. On the success page, `stripePromise` and `retrievePaymentIntent` are inputs as what they resolve to or reject with. Neither `await` is guarded (page.tsx:17, 30), so a rejection escapes `checkPaymentStatus` unhandled and no setter runs. The model gives the prior state there; the unhandled rejection itself is not modelled.
- The checkout route is out of scope: it only forwards to `paymentIntents.create`.
- The 30-day window uses `Date.now()`; the clock is not modelled. The intents are whatever the list call returned, and its 100-item cap is the provider's.
- The 500 ms debounce timer and its cancellation are left out. Only the timer firing is modelled, as `PaymentHistory.TableState.DebounceElapsed`.
- `fetch`, `async` effects, React's batching of state updates and the `loading` flag are left out. Each handler is one atomic update; `ReceiveResponse` is what the fetch effect does with a response.
- The key order of the `byPaymentMethod` and `byStatus` objects is not modelled. The source creates their keys in first-seen order (analytics route.ts:55-63), and the dashboard lists them in that order through `Object.entries`. The model's maps are unordered.
- `setPagination` is left out, because the response carries no `pagination`.
- JSX rendering, `getSortIcon`, the skeleton rows, and the `stripePromise` loading itself are left out. The success page takes whether Stripe loaded as an input.
- `formatCurrency` (`amount / 100`, `toFixed`) and `toLocaleString` dates are floating-point and locale formatting; they are not modelled.
- JavaScript numbers are modelled as unbounded integers. Amounts and counts above 2^53 would lose precision in the source but are exact in the model.
- `Currencies.LexCompare`: `localeCompare` is modelled as plain lexicographic order on character codes, not locale collation.
- `Js.ToUpperCase` upper-cases only the ASCII letters. Currency codes are lower-case ASCII.
- A key equal to an `Object.prototype` property name (such as `"constructor"`) would make the source's object lookups find that property. The model treats each of these objects as a plain map:
  - `Currencies.NameOf` and `Currencies.SymbolOf`: the `currencyInfo[...]` lookups of currencies route.ts:44 and 71;
  - `PaymentHistory.PaymentMethodLabel`: the `labels[method]` lookup of PaymentHistory.tsx:153;
  - `Analytics.Aggregate`, `Analytics.TallyMethod` and `Analytics.TallyStatus`: the `byPaymentMethod[...]` and `byStatus[...]` lookups of analytics route.ts:55-63.
- `Js.EncodeURIComponent`: its contract gives only the output alphabet (unreserved characters and `%`) and that unreserved text is returned unchanged. It does not state what each other character becomes, nor that the encoding is injective, so the URL lemmas promise that the search text is sent encoded, not that the server could recover it. Separately, `encodeURIComponent` throws a `URIError` on a lone surrogate; the error is caught at PaymentHistory.tsx:104 and no fetch happens. A Dafny string cannot hold a lone surrogate, so the model has no such case.
- `PaymentHistory.TableState.HandleSort` takes a non-null field. The source only calls it with the three literal fields.
- The search field is a closed datatype of the four options of the select. The source's `string` allows anything, but only these four are offered.
- Percent-decoding of the query string is not modelled. The URL lemmas read back the encoded search text.
- `PaymentHistory.TableState.HandleSearchChange` compares with the text of the render the handler was created in. The model uses the stored text at the time of the call, which is the same under one update per render.
