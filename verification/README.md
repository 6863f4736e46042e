# yb-gocql demo service: a Dafny model of its data-access core

The service is a small HTTP front-end over one YCQL table, `demo.demo`, whose
primary key is `((primaryId, secondaryId), clusterCol1, clusterCol2)`. It has
three handlers:

- `GET /init` seeds `2 * N` rows into partition `"P1"`. `N` comes from the
  `rows` query parameter and defaults to 10 000.
- `GET /search` looks up ten random secondary keys with one `IN (...)` statement.
- `GET /find/{id}` looks up one secondary key.

This model covers what is left of `main.go` once the database is replaced by
an abstract store and cursor:

- **KeyCodec** (`key_codec.dfy`): Go's `fmt.Sprintf("%013d", n)` as `Pad13`.
  Negatives print as a sign plus 12 zero-padded digits, and values that need
  more places come out wider than 13. It also holds a decimal digit reader and
  Go's byte-wise string order (`LexLess`), which the store uses for the
  clustering columns within a partition. The lemmas prove three things about
  ids in `[0, 10^13)`: the key is 13 digits, it reads back as the id, and string
  order on keys equals numeric order on ids.
- **Strconv** (`strconv.dfy`): `strconv.Atoi` on a 64-bit platform. It accepts
  an optional sign, then one or more ASCII digits, with the value in
  `[-2^63, 2^63)`. The lemmas prove that rendering and parsing round-trip, and
  that `Pad13` is injective on all integers.
- **RequestParams** (`request_params.dfy`): the two silent fallbacks. The `rows`
  count is 10 000 unless the first `rows` value parses. The `/find` key is
  `"0000000000000"` unless `id` parses, and then it is `Pad13(id)`.
- **Records** (`records.dfy`): the scanned row, `ResultData` and `JsonResponse`.
  It holds the two scan loops, which drain a cursor into records: search keeps
  four columns, find keeps six, and neither sets `primaryId`. It also holds the
  envelope choice, which is made only after the cursor is drained: a close error
  gives `"error"`, otherwise `"success"`.
- **Queries** (`queries.dfy`): the statements both lookups send, built from the
  source's text with `strings.Replace` and `strings.Repeat` modelled. The search
  statement has exactly 11 `?` markers. Its parameters are `"P1"` followed by
  ten 13-digit keys of ids below 1000, built by an append loop. The find
  statement has 2 markers and the parameters `["P1", key]`. The handlers
  `Search` and `FindById` take the store as a function from the statement sent
  to the cursor returned.
- **Seeding** (`seeding.dfy`): a `Store` class. It keeps the log of rows written,
  a count of insert attempts, and the set of attempt numbers it refuses (chosen
  by the environment). The nested `for i` / `for j` insert loop is a method
  proved against `SeedPlan`, the list of inserts in order. If an insert fails,
  the seed halts, and the store holds exactly the inserts before it. The lemmas
  about `SeedPlan` prove that every row has the right shape, that no two rows
  share a primary key, that keys ascend (for `N <= 10^13`), and that a lookup on
  `("P1", Pad13(id))` finds exactly the two rows of `id` when `0 <= id < N`, and
  nothing otherwise.

Randomness and the clock are inputs. `rand.Intn(1000)` gives the search ids as
a sequence of ten values in `[0, 1000)`. `rand.Intn(100)`, `rand.Intn(2) == 1`
and `time.Now().UTC()` give the seed's draws, as a function from insert number
to `Draw`.

## Model

| member | source | states |
|---|---|---|
| KeyCodec.FormatDecimal | main.go:129 | Go's `%0<width>d`: the sign takes one of the width's places, the digits are zero-filled to the rest, and a wider value is printed in full; no contract of its own, its properties are carried by ZeroPadReadsBack, Pad13Width and Strconv.FormatDecimalRoundTrip |
| KeyCodec.Pad13 | main.go:129 | `fmt.Sprintf("%013d", n)`, the rendering of every secondaryId written, searched for (main.go:155) and found (main.go:202); no contract of its own, its properties are carried by Pad13Width, Pad13Digits, Pad13Order and Strconv.Pad13Injective |
| KeyCodec.LexLess | main.go:114 | Go's `<` on strings, byte-wise lexicographic, the order of the clustering columns within a partition; a string is never below itself; the digit-string laws are LexLessSnoc and DigitStringOrder |
| KeyCodec.Digits | main.go:129 | the decimal rendering of a non-negative value is non-empty, all digits, has no leading zero unless it is "0", and reads back as the value |
| KeyCodec.ReadDecimal | main.go:202 | a string of k digits reads as a value below 10^k |
| KeyCodec.DigitsLength | main.go:129 | a value's decimal rendering fits in k places exactly when the value is below 10^k |
| KeyCodec.ZeroPadReadsBack | main.go:129 | zero-filling to a precision keeps the value, yields only digits, and is exactly as wide as the precision or the value needs |
| KeyCodec.Pad13Width | main.go:129 | a key is never narrower than 13; it is exactly 13 wide iff 0 <= n < 10^13, or -10^12 < n < 0 for negatives |
| KeyCodec.Pad13Digits | main.go:155 | for 0 <= n < 10^13 the key is 13 decimal digits that read back as n |
| KeyCodec.LexLessSnoc | main.go:129 | extending two equal-length strings by one char each: byte order decides on the prefix first, then on the last char |
| KeyCodec.DigitStringOrder | main.go:129 | on equal-length digit strings, Go's string order is numeric order and equal value means equal string |
| KeyCodec.Pad13Order | main.go:129 | for ids in [0, 10^13), Go's string order on their keys is the ids' numeric order, both directions |
| Strconv.ParseInteger | main.go:92 | a parse succeeds exactly on an optional sign followed by one or more digits |
| Strconv.Atoi | main.go:92 | a string is accepted exactly when it has the accepted shape and its value lies in the 64-bit int range, and then the value is that of its sign and digits; any other shape, or a value out of range, fails |
| Strconv.SignedDigits | main.go:201 | a digit string parses as its value bare, behind '+', and negated behind '-' |
| Strconv.AtoiScenario | main.go:92 | "+5" is 5, "-0" and "-00" are 0, "007" is 7, and "+", "" and "5x" are refused |
| Strconv.FormatDecimalRoundTrip | main.go:202 | parsing the rendering of any integer, at any width, gives the integer back |
| Strconv.AtoiFormatRoundTrip | main.go:201-202 | Atoi accepts a rendered integer exactly when it lies in the int range, and then returns it |
| Strconv.Pad13Injective | main.go:129 | two ids share a key iff they are equal, for every integer |
| RequestParams.RowsParam | main.go:90-95 | the row count is the first `rows` value when Atoi accepts it, and 10 000 when `rows` is absent or refused; it always fits an int |
| RequestParams.LookupId | main.go:200-202 | the id the key is rendered from: the parsed `id` when present and accepted, 0 otherwise, always in the int range |
| RequestParams.LookupKey | main.go:197-204 | the find key is Pad13 of the parsed id when `id` is present and parses, and "0000000000000" otherwise |
| RequestParams.DefaultKeyIsPad13Zero | main.go:198 | the default key is the key of id 0 |
| RequestParams.LookupKeyRendersId | main.go:200-204 | every find key is the key of the id it came from (0 by default): 13 digits reading back as the id when the id is in [0, 10^13), and equal keys iff equal ids |
| RequestParams.RowsScenario | main.go:90-95 | rows=5 seeds 5, a second value is ignored, and "five" or no parameter gives 10 000 |
| RequestParams.FindScenario | main.go:197-204 | find/3 looks up Pad13(3) and find/abc the default key |
| Records.Respond | main.go:177-183 | the envelope is "error" iff the cursor's close reported an error; an error carries no data and a success no message; a client reads back the error text or the records |
| Records.DrainSearch | main.go:160-175 | one record per scanned row, in cursor order, with secondaryId, clusterCol1, clusterCol2 and dataCol1 copied, dataCol2 false, dataCol3 the zero time and primaryId "" |
| Records.DrainFind | main.go:212-229 | one record per scanned row, in cursor order, with all six scanned columns copied and primaryId "" |
| Records.SearchIsFindProjected | main.go:168-175 | a search record is the find record of the same row with dataCol2 and dataCol3 reset to zero values |
| Queries.Repeat | main.go:150 | `strings.Repeat(s, n)`: n copies of s, n times as long; its marker count is CountRepeat |
| Queries.ReplaceAll | main.go:146-150 | `strings.Replace(s, pat, rep, -1)`, left to right and non-overlapping; a text without the pattern's first character comes back unchanged; ReplaceAllSkips and ReplaceAllOnce carry the rest |
| Queries.InList | main.go:150 | `strings.Repeat("?,", 9) + "?"` holds ten bind markers and is 19 characters long |
| Queries.SearchText | main.go:146-150 | the search statement is the SELECT text with its `:ids` slot replaced by the marker list and nothing else changed |
| Queries.CountCharConcat | main.go:146-150 | counting a character distributes over concatenation |
| Queries.CountRepeat | main.go:150 | repeating a string n times repeats its count of a character n times |
| Queries.ReplaceAllSkips | main.go:146-150 | strings.Replace copies unchanged a prefix that cannot start the pattern |
| Queries.ReplaceAllOnce | main.go:146-150 | replacing in a text that holds the pattern once, between pattern-free parts, substitutes exactly there |
| Queries.MarkerListCount | main.go:150 | `strings.Repeat("?,", n) + "?"` holds n + 1 bind markers |
| Queries.SelectHeadMarkers | main.go:147-149 | the SELECT text before the key condition holds one bind marker, for primaryId |
| Queries.SearchTextMarkers | main.go:146-150 | the search statement holds exactly 11 bind markers |
| Queries.FindTextMarkers | main.go:206-208 | the find statement (the constant `FindText`, the same SELECT text ending `secondaryId = ?`) holds exactly 2 bind markers |
| Queries.SearchParams | main.go:152-156 | the parameters are "P1" then the ten draws' keys in draw order, each 13 digits reading back as an id below 1000 |
| Queries.Search | main.go:138-186 | the statement sent has 11 markers and 11 matching parameters; the reply is the error envelope with the close error's text, or a success with one four-column record per row the store returned |
| Queries.FindById | main.go:189-240 | the statement sent binds ("P1", LookupKey(vars)) to its 2 markers; the reply is the error envelope with the close error's text, or a success with one full record per row the store returned |
| Seeding.ClusterLabel | main.go:129 | `fmt.Sprintf("FOO%d", j)`; no contract of its own, ClusterLabelParses and ClusterLabels state its properties |
| Seeding.ClusterLabelParses | main.go:129 | a label is "FOO" followed by a rendering that reads back as its variant j |
| Seeding.SeedRow | main.go:124-129 | the row of outer iteration i and inner iteration j: ("P1", Pad13(i), ClusterLabel(j), "BAR") and that insert's draws; no contract of its own, SeedPlanShape states its fields |
| Seeding.SeedPlan | main.go:122-129 | the inserts the nested loops issue, in order: 2 * max(N, 0) of them, insert k being SeedRow(k / 2, k % 2); SeedPlanShape, SeedPlanKeysDistinct, SeedPlanAscending and SeedLookup state its properties |
| Seeding.ClusterLabels | main.go:129 | fmt.Sprintf("FOO%d", j) gives "FOO0" and "FOO1", in ascending order |
| Seeding.SeedPlanShape | main.go:122-129 | every seeded row has primaryId "P1", clusterCol1 "FOO0" or "FOO1", clusterCol2 "BAR", dataCol1 in [0, 100), and a secondaryId that reads back as an id in [0, N), 13 digits wide when N <= 10^13 |
| Seeding.SeedPlanKeysDistinct | main.go:114 | no two seeded rows share a primary key (primaryId, secondaryId, clusterCol1, clusterCol2), for any N |
| Seeding.SeedPlanAscending | main.go:122-129 | for N <= 10^13, inserts are issued with strictly ascending key tuples in component-wise string order: ids ascending, FOO0 before FOO1 (the order of issue; the store hashes the partition key) |
| Seeding.SeedPlanStep | main.go:122-129 | insert 2i + j is the row of outer iteration i and inner iteration j |
| Seeding.SeedPlanKeys | main.go:129 | every planned row is in partition "P1", and its secondaryId is Pad13(id) exactly when it is one of the two rows of id |
| Seeding.SeedLookup | main.go:122-129 | among the seeded rows, the key ("P1", Pad13(id)) matches exactly the FOO0 and FOO1 rows of id when 0 <= id < N, and no row otherwise |
| Seeding.Store.Insert | main.go:124-131 | an insert fails exactly when the store refuses that attempt; a refused row is not written, and every attempt is counted |
| Seeding.Seed | main.go:122-133 | if all inserts succeed, exactly the 2 * max(N, 0) planned rows are written in order; if insert k fails, it is the first refused one, exactly the k earlier rows are written, and no later insert is attempted |
| Seeding.InitData | main.go:82-136 | the same, for the N that RowsParam reads from the query |

## Left out

- Session and cluster configuration (main.go:37-80): contact point, port, protocol and CQL versions, timeouts, keepalive, consistency, host-selection policy and the trace writer. These only set fields of the driver, and the retry policy is commented out in the source.
- The router, `ListenAndServe` and process start-up (main.go:21-35): network I/O.
- JSON encoding of the response (main.go:185, main.go:239): a foreign serialiser. The model gives the `JsonResponse` value, not its bytes. Go's nil and empty slices (`"data": null` and `[]`) are both the empty sequence here.
- The keyspace and table DDL (main.go:97-117): treated as calls that succeed. Their `IF NOT EXISTS` idempotence is the server's behaviour.
- `rand.Seed` (main.go:17-19), `rand.Intn` and `time.Now`: inputs constrained to their ranges. `.UTC()` only changes a time's location, and `Time` is an opaque instant.
- What the database returns for a statement: `Search` and `FindById` take it as a function from statement to cursor. `SeedLookup` states which seeded rows have a given partition key, not what the server answers.
- Seeding.Store: keeps the log of acknowledged writes, not a table. CQL `INSERT` is an upsert on the primary key. A second `/init` over the same ids would overwrite rows on the server but append to this log.
- A failed insert is assumed to write nothing. Whether a timed-out write reached the server is the server's business.
- Logging, and `log.Fatal` ending the process: modelled as the seed returning `Halted(k)` with the store left as it is.
- Concurrent handlers sharing one session.
- Strconv.Atoi: assumes Go's `int` is 64 bits wide. On a 32-bit platform the bounds would be ±2^31.
- Seeding.SeedPlanAscending: holds only for N <= 10^13. From id 10^13 on, keys are 14 characters wide, and string order no longer follows id order (for example "10000000000000" < "9999999999999").
- The error envelope's message is `err.Error()` exactly as the driver gives it. Nothing in the code makes it non-empty, so the model does not promise a non-empty message.
