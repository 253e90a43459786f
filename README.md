# Sales BI scripts — a verified model of the query pipeline

The repository answers ten sales questions over `VendasGlobais.csv` with pandas.
Two Dash dashboards, `dashboard-12345.py` and `dashboard-678910.py`, answer them in bulk.
Ten standalone scripts, `questoesBI-IA-*.py` and `questaoBI-IA-*.py`, answer them one at a time.
Each answer is the same chain:

1. normalise the table: numeric coercion and `DD/MM/YYYY` date parsing;
2. optionally join names from the carrier, seller or supplier table;
3. filter rows;
4. group-by-sum;
5. order by value (or by year);
6. truncate to the top N;
7. hand the result to the `plot_series_safe` chart helper.

This project models that chain in Dafny and proves what each question promises.

The modules, by file:

- `table.dfy` (`Table`): the sales rows (`Sale`) and dimension rows (`DimRow`), cells (number, text or NaN) and the grouping keys.
- `series.dfy` (`Series`): labelled results, ordering by value (insertion sort) or by year, and truncation.
- `grouping.dfy` (`Grouping`): `df[mask]`, `groupby(key)[col].sum()`, the ranking every question instantiates, and the reference sums (`SumFor`, `SumKeyed`, `SumAll`) it is proved against.
- `coercion.dfy` (`Coercion`): `to_numeric(errors="coerce").fillna(0)` with a decimal parser and a formatter for the round trip.
- `dates.dfy` (`Dates`): `to_datetime(format="%d/%m/%Y", errors="coerce")` with a formatter for the round trip.
- `joins.dfy` (`Joins`): the dashboards' left merges and the scripts' inner merge of per-ID totals.
- `frame.dfy` (`Frame`): class `SalesFrame`, the DataFrame the dashboards and questions 8 and 9 rewrite in place. It has one method per in-place step: merge, column-coercion loop, date parse and `dropna`.
- `charts.dfy` (`Charts`): the two dashboards' `plot_series_safe`, returning a chart description.
- `trend.dfy` (`Trend`): the `is_monotonic_increasing` / `is_monotonic_decreasing` classifier.
- `yearly.dfy` (`Yearly`): yearly totals for 2009–2012 and `.loc[2009]`.
- `question1.dfy` … `question10.dfy` (`Question1` … `Question10`): the standalone scripts. Questions 1, 2 and 5 are shared with the first dashboard, and the masks of 6, 7 and 9 with the second.
- `dashboard12345.dfy`, `dashboard678910.dfy`: loading (a `SalesFrame` driven step by step), the dashboard-only queries, and the figures drawn.

Amounts are exact reals. Every ranking is specified as follows:

- it is a permutation of the grouped sums, ordered by value;
- every entry is a group of the input with its own sum (`GroupSums`);
- it is a prefix of the full ranking;
- no omitted group stands above a kept one (`NoneOmittedAbove`).

The order of equal totals is left open.

## Model

| member | source | states |
|---|---|---|
| Grouping.Filter | dashboard-12345.py:57 | a boolean mask keeps exactly the rows satisfying it and never adds rows; a mask everything passes keeps the table as it is. Order and repetition are stated by FilterCounts and FilterAppend |
| Grouping.FilterCounts | dashboard-12345.py:57 | every copy of a kept row survives and no copy of a dropped one: counted with repetition, the result holds exactly the input rows that pass |
| Grouping.FilterSnoc | dashboard-12345.py:57 | the last row is kept, after the filtered rows before it, exactly when it passes the mask |
| Grouping.FilterAppend | dashboard-12345.py:57 | the mask works row by row and keeps the order: filtering two tables one after the other is filtering each and concatenating |
| Grouping.Group | dashboard-12345.py:46 | groupby(key)[col].sum(), specified by GroupSpec and GroupEntries: one entry per non-missing key, holding the sum of that key's rows |
| Grouping.Rank | dashboard-12345.py:46 | group, order, then truncate, specified by RankSpec and OmittedGroups |
| Series.Sort | questoesBI-IA-1.py:11 | sort_values by value, specified by SortSpec: an ordered permutation |
| Series.Truncate | questoesBI-IA-1.py:14 | head(N) and nlargest(N)'s cut, specified by TruncateSpec: the prefix of length min(N, size) |
| Series.SortByYear | questaoBI-IA-8.py:20 | the ordering of the yearly groups, specified by SortByYearSpec: a permutation with ascending years |
| Yearly.YearlyTotals | questaoBI-IA-8.py:17-20 | the yearly query, specified by YearlyEntries, YearlyKeys, YearlyCount, YearlyAscending and YearlySum |
| Coercion.ParseNumber | dashboard-12345.py:20 | the text reading inside to_numeric, specified by ParseNatToString, ParseDecimal and ParseFormatCents: written numbers read back as themselves |
| Joins.LeftJoin | dashboard-12345.py:12 | merge(how="left"), specified by LeftJoinKeepsRows, LeftJoinOrigins and LeftJoinUnique |
| Joins.InnerMerge | questoesBI-IA-4.py:12 | merge of per-ID totals with a dimension table, specified by InnerMergeMembers and InnerMergeUnique |
| Dashboard12345.Normalise | dashboard-12345.py:12-20 | the loaded table, specified by NormaliseSpec |
| Dashboard12345.Draw | dashboard-12345.py:46-71 | the five figures, specified by DrawSpec, OverallEmpty, BrazilEmpty and FreightEmpty |
| Dashboard678910.Normalise | dashboard-678910.py:13-22 | the loaded table, specified by NormaliseSpec |
| Dashboard678910.Draw | dashboard-678910.py:51-82 | the five figures, specified by DrawSpec and YearlyChart |
| Grouping.GroupSpec | dashboard-12345.py:46 | groupby-sum yields one entry per non-missing key; each holds the sum over that key's rows; together they add up to the sum over all keyed rows |
| Grouping.GroupEntries | dashboard-12345.py:46 | every grouped entry is a key some row has, with that key's sum |
| Grouping.RankingSpec | questoesBI-IA-1.py:11 | the full ranking lists every group once, in the requested order, with its sum; the totals are conserved |
| Grouping.OmittedGroups | questoesBI-IA-1.py:11-14 | after truncation, no omitted group stands above a kept entry |
| Grouping.RankSpec | dashboard-12345.py:46 | the truncated ranking has distinct groups with their sums and is in order. It is a prefix of the full ranking, with min(N, number of groups) entries. Untruncated, it has every group and conserves the total |
| Grouping.SumKeyedAllKeyed | questaoBI-IA-10.py:18 | when every row has a key, the group totals add up to the plain column sum |
| Grouping.FilterFilter | questaoBI-IA-8.py:11-17 | a filter followed by a stricter one equals the stricter one alone |
| Grouping.SumForFilter | questaoBI-IA-8.py:17-20 | a filter that keeps every row of a group leaves that group's sum unchanged |
| Grouping.KeySetFilter | questaoBI-IA-3.py:8-11 | the groups after a mask are exactly the keys of the rows that pass it |
| Series.SortSpec | questoesBI-IA-1.py:11 | sort_values returns a permutation (same multiset) in the requested order, with the same keys and total |
| Series.TruncateSpec | questoesBI-IA-1.py:14 | head(N) is a prefix of length min(N, size); every kept value stands at or above every dropped one |
| Series.SortByYearSpec | questaoBI-IA-8.py:20 | sorting by year is a permutation with strictly ascending years and the same total |
| Coercion.Coerce | dashboard-12345.py:20 | a cell becomes a number: numbers stay; a parsable string gets its value; an unparsable string or NaN becomes 0 |
| Coercion.CoerceIdempotent | dashboard-12345.py:20 | coercing a coerced cell changes nothing |
| Coercion.CoerceRow | dashboard-12345.py:18-20 | only measure cells change; the row keeps its columns and every other field |
| Coercion.CoerceRows | dashboard-12345.py:20 | the table keeps its length and each row is coerced in place |
| Coercion.CoerceRowSpec | dashboard-12345.py:19-20 | targeted columns become numbers holding their coerced values; other columns are untouched; an absent column stays absent |
| Coercion.CoerceRowStep | dashboard-12345.py:18-20 | one more pass of the column loop equals coercing the enlarged set of columns |
| Coercion.CoerceRowsIdempotent | dashboard-678910.py:20-22 | normalising a table twice gives the same table as normalising it once |
| Coercion.ParseNatToString | dashboard-12345.py:20 | every whole number written in decimal reads back as itself |
| Coercion.ParseDecimal | dashboard-12345.py:20 | digits, a point and digits read as the whole part plus the fraction scaled by its length |
| Coercion.ParseFormatCents | dashboard-12345.py:20 | every amount written with two decimals, negatives included, reads back as that amount |
| Dates.ParseDate | dashboard-678910.py:17 | a parse succeeds only on the DD/MM/YYYY shape and yields a valid calendar date |
| Dates.ParseDateCell | dashboard-678910.py:17 | a raw value becomes a date exactly when it parses, and NaT otherwise (never an error); values already converted stay |
| Dates.ParseDateCellIdempotent | dashboard-678910.py:17 | parsing the column again changes nothing |
| Dates.ParseDateColumn | dashboard-678910.py:17 | the parse keeps every row in place and changes only its date |
| Dates.ParseDateColumnSpec | dashboard-678910.py:17 | after the parse no raw text is left; a row has a year iff its text was a valid date; a bad date becomes NaT and the row stays |
| Dates.ParseFormatDate | dashboard-678910.py:17 | every valid date written as DD/MM/YYYY parses back to itself |
| Dates.FormatParseDate | dashboard-678910.py:17 | the parser accepts only the canonical spelling of the date it returns |
| Joins.MatchNames | dashboard-12345.py:12 | the names matched for an ID are exactly those of the dimension rows with that ID |
| Joins.Lookup | dashboard-12345.py:12 | the looked-up name belongs to a dimension row with the ID; it is missing iff no row has the ID |
| Joins.LeftJoinKeepsRows | dashboard-12345.py:12 | a left join never loses a sales row: the output is at least as long, and every input row appears in it with only the dimension's name filled in |
| Joins.LeftJoinOrigins | dashboard-12345.py:12 | every joined row is an input row with only the dimension's name filled in |
| Joins.LeftJoinUnique | dashboard-12345.py:12 | with unique IDs the join is row for row and in order; each row gets its looked-up name, missing when unmatched |
| Joins.SellerThenSupplier | dashboard-678910.py:13-14 | the two successive joins keep every row in place and add both names, each looked up by its own key |
| Joins.InnerMergeMembers | questoesBI-IA-4.py:12 | an inner merge keeps exactly the pairs of a total and a dimension row with the same ID, carrying the total |
| Joins.InnerMergeUnique | questoesBI-IA-7.py:15 | with unique IDs each total yields at most one merged row and distinct IDs stay distinct |
| Joins.MergedRankingSpec | questoesBI-IA-4.py:9-15 | the group/merge/sort chain is in descending order and holds exactly the groups that have a dimension row, each with its sum; with unique IDs, at most one entry per group |
| Frame.SalesFrame.constructor | dashboard-12345.py:8 | the frame holds the rows read and the header's columns |
| Frame.SalesFrame.MergeLeft | dashboard-12345.py:12 | the table is replaced by its left join; the columns and the invariant are kept |
| Frame.SalesFrame.CoerceColumns | dashboard-12345.py:18-20 | the loop coerces exactly the listed columns the table has and skips the others |
| Frame.SalesFrame.ParseDates | dashboard-678910.py:17 | the Data column is overwritten by its parse |
| Frame.SalesFrame.DropMissingDates | questaoBI-IA-8.py:11 | rows whose date is NaT are dropped |
| Charts.PlotSales | dashboard-12345.py:32-43 | a missing or empty series gives the "Sem dados" placeholder with the title; otherwise horizontal bars iff horizontal or "barh", else vertical bars |
| Charts.PlotPartners | dashboard-678910.py:34-48 | the same fallback with "Sem dados disponíveis". Horizontal bars take precedence, then a line with markers for "line"; any other kind is drawn as given |
| Charts.HelpersAgree | dashboard-678910.py:36-46 | for bar charts both helpers draw the same figure and differ only in the placeholder message |
| Trend.Label | questaoBI-IA-8.py:31-36 | the three trends map one-to-one to "crescendo", "decaindo" and "estável ou variável" |
| Trend.IncreasingIff | questaoBI-IA-8.py:31 | the adjacent-pairs increasing check equals all-pairs non-decreasing order |
| Trend.DecreasingIff | questaoBI-IA-8.py:33 | the adjacent-pairs decreasing check equals all-pairs non-increasing order |
| Trend.Classify | questaoBI-IA-8.py:31-36 | rising iff non-decreasing; falling iff not that but non-increasing; otherwise stable or variable |
| Trend.ConstantIsRising | questaoBI-IA-8.py:31-32 | a single-year or constant series counts as rising, because that test comes first |
| Trend.UpThenDownIsVariable | questaoBI-IA-8.py:35-36 | a series that both rises somewhere and falls somewhere is stable or variable |
| Yearly.YearlyEntries | questaoBI-IA-8.py:17-20 | each year in the series lies in 2009..2012 and holds the sales of all rows of that year |
| Yearly.YearlyKeys | questaoBI-IA-8.py:14-17 | the years present are exactly those in 2009..2012 (both ends included) that some row has; 2008, 2013 and missing dates never count |
| Yearly.YearlyEmpty | dashboard-678910.py:64-65 | the yearly series is empty exactly when no row is dated 2009 to 2012 |
| Yearly.YearlyCount | questaoBI-IA-8.py:17 | there are at most four years |
| Yearly.YearlyAscending | questaoBI-IA-8.py:20 | the years are strictly ascending |
| Yearly.YearlySum | questaoBI-IA-8.py:20 | the yearly totals add up to the sales of the rows in range |
| Yearly.YearlyTotalsSpec | dashboard-678910.py:63-65 | the dashboard's yearly series: inclusive range, ascending years, per-year sums, conservation |
| Yearly.DropMissingKeepsTotals | questaoBI-IA-8.py:11-20 | dropping rows with a missing date first does not change the yearly series |
| Yearly.Loc | questaoBI-IA-8.py:23 | looking up a year gives its entry's value, or a KeyError for that year exactly when it is absent |
| Yearly.Total2009 | questaoBI-IA-8.py:23 | the 2009 lookup fails iff no row is dated 2009; otherwise it is that year's sales |
| Question8.Analyse | questaoBI-IA-8.py:20-36 | a KeyError iff no 2009 row; otherwise the 2009 sales, the ascending yearly series and its trend |
| Question8.ReportStartsIn2009 | questaoBI-IA-8.py:20-23 | when some row is dated 2009 a report exists, and its series is non-empty and starts with 2009 and that year's total |
| Question8.CleanedRows | questaoBI-IA-8.py:8-11 | after the parse and dropna, exactly the rows with a parsed date remain |
| Question8.Run | questaoBI-IA-8.py:5-36 | parse in place, drop, analyse; the yearly series is the one of the undropped table |
| Question9.ClientTotals | questaoBI-IA-9.py:14-18 | descending per-client sums over exactly the Men´s Footwear rows dated 2012, adding up to their sales |
| Question9.CityTotals | questaoBI-IA-9.py:21 | descending per-city sums over the same rows, adding up to the same sales |
| Question9.Run | questaoBI-IA-9.py:5-21 | the script's two rankings come from one parsed table and have equal totals |
| Question1.TopClients | questoesBI-IA-1.py:11-14 | top ten clients (also query 1, dashboard-12345.py:46): descending per-client sums, min(10, clients) entries, a prefix of the ranking, none omitted above a kept one |
| Question1.FullRanking | questoesBI-IA-1.py:11 | the full client ranking is non-increasing, has every client and conserves total sales |
| Question2.TopCountries | questaoBI-IA-2.py:8-11 | top three countries (also query 2, dashboard-12345.py:51): min(3, countries) entries, descending, a prefix, none omitted above a kept one |
| Question3.UpperChar | questaoBI-IA-3.py:8 | lower-case ASCII letters are raised and every other character is kept |
| Question3.Upper | questaoBI-IA-3.py:8 | upper-casing works character by character and keeps the length |
| Question3.BrazilCodeIff | questaoBI-IA-3.py:8 | the mask accepts "bra" in any mix of cases and nothing else |
| Question3.CategoriesByCode | questaoBI-IA-3.py:8-11 | descending, untruncated per-category sums of exactly the categories some Brazilian row has |
| Question4.FreightByCarrier | questoesBI-IA-4.py:9-15 | all rows grouped by carrier ID; entries are exactly the IDs with a carrier row, each with its freight; descending; with unique IDs at most one per distinct carrier |
| Question5.TopFootwearClients | questaoBI-IA-5.py:8-15 | top ten clients among rows with both the category and Germany (also query 5, dashboard-12345.py:69-70); empty iff no row matches |
| Question5.NoMatchNoGroups | questaoBI-IA-5.py:8-12 | there are client groups exactly when some row passes the mask |
| Question6.DiscountBySeller | questaoBI-IA-6.py:9-18 | USA rows only; per seller-ID discount sums for the IDs in the seller table; descending; untruncated |
| Question7.MarginBySupplier | questoesBI-IA-7.py:9-18 | Womens wear rows only; per supplier-ID margin sums for the IDs in the supplier table; descending; untruncated |
| Question10.ListMembership | questaoBI-IA-10.py:8-12 | the list has 15 names, includes Poland and UK, and excludes "United Kingdom" and the Netherlands |
| Question10.CountrySales | questaoBI-IA-10.py:15-18 | descending, untruncated per-country sums over the rows whose country is listed. The keys are exactly the listed countries that occur, and the total equals the sales of the listed rows. This script and query 10 of dashboard-678910.py (lines 79-81) apply it to their own lists |
| Dashboard12345.NormaliseSpec | dashboard-12345.py:12-20 | the loaded table keeps every row; with unique carrier IDs it is row for row with the carrier name; Vendas and Frete are numbers |
| Dashboard12345.Load | dashboard-12345.py:8-20 | reading, joining and the column loop on a frame produce the normalised table |
| Dashboard12345.BrazilCategories | dashboard-12345.py:57-58 | ascending, untruncated per-category sums of exactly the categories some Brazil row has |
| Dashboard12345.FreightByCarrierName | dashboard-12345.py:63 | descending per-carrier-name freight; rows without a carrier name fall into no group |
| Dashboard12345.OverallEmpty | dashboard-12345.py:46-51 | questions 1 and 2 are empty only for an empty table |
| Dashboard12345.BrazilEmpty | dashboard-12345.py:57-58 | query 3 is empty iff no row is Brazilian |
| Dashboard12345.FreightEmpty | dashboard-12345.py:63 | query 4 is empty iff no row has a carrier name |
| Dashboard12345.DrawSpec | dashboard-12345.py:46-71 | each figure is the placeholder exactly when its query has nothing to show; query 3 is the horizontal one |
| Dashboard12345.Build | dashboard-12345.py:8-72 | the page's figures are the drawing of the normalised table |
| Dashboard678910.NormaliseSpec | dashboard-678910.py:13-22 | with unique IDs, row for row with both names, the date parsed and the four measures numeric |
| Dashboard678910.Load | dashboard-678910.py:8-22 | two joins, the parse and the column loop on a frame produce the normalised table |
| Dashboard678910.DiscountBySellerName | dashboard-678910.py:51-52 | USA rows only; descending per-seller-name discount; unnamed sellers fall into no group |
| Dashboard678910.TopSupplierMargins | dashboard-678910.py:57-58 | Womens wear rows only; top ten suppliers by margin; none omitted above a kept one |
| Dashboard678910.TopFootwearPairs | dashboard-678910.py:70-74 | the if/else equals the plain pipeline; top ten (client, city) pairs in descending order; empty iff no 2012 Men´s Footwear row |
| Dashboard678910.PairsEmpty | dashboard-678910.py:70-71 | there is a (client, city) group iff some row passes the mask |
| Dashboard678910.ListMembership | dashboard-678910.py:79 | the list has 16 names, includes UK, "United Kingdom" and the Netherlands, but not Poland |
| Dashboard678910.YearlyChart | dashboard-678910.py:63-66 | the yearly figure is a line with markers over ascending years; a placeholder iff no row is dated 2009–2012 |
| Dashboard678910.DrawSpec | dashboard-678910.py:51-82 | the query 9 figure is the "Sem dados disponíveis" placeholder iff no row matches; query 7 is drawn with horizontal bars |
| Dashboard678910.Build | dashboard-678910.py:8-83 | the page's figures are the drawing of the normalised table |

## Left out

- The Dash application and its layout are not modelled: dashboard-12345.py:75-264 and dashboard-678910.py:86-163.
- The PNG/base64 encoding in `fig_to_base64` is not modelled.
- matplotlib drawing, colours, figure sizes, `tight_layout`, tick rotation and `plt.show` are not modelled. These are presentation and foreign library calls. A figure is reduced to its kind, title, data and, for a placeholder, its message.
- The standalone scripts' own figures (`plot` / `plt.bar`) and their titles are not modelled. Their results are the modelled series.
- `read_csv` is not modelled: tables are taken as already-typed sequences of rows, with a header giving the numeric columns.
- `print` output is not modelled, including the `:,.2f` formatting in questaoBI-IA-8.py:24.
- The unused dimension loads in questoesBI-IA-1.py:6-8 are not modelled.
- Floating-point behaviour of float64 sums is not modelled: amounts are exact reals.
- Tie order of `sort_values` / `nlargest` is not modelled. Outputs are specified as sorted permutations, and nothing is said about the order of equal totals.
- `Grouping.Group` keeps groups in order of first appearance, where pandas orders them by key. Every ranking re-sorts by value. The yearly series is sorted by year explicitly, as the ordered groupby gives it.
- Questions 8 and 9 call `to_datetime` with `dayfirst=True` and no format. The model uses the same strict DD/MM/YYYY parser there.
- `Dates.ParseDate`: accepts years 1–9999. pandas turns dates outside its Timestamp range (1677–2262) into NaT.
- `Dates.ParseDate`: does not accept one-digit days or months, nor surrounding spaces.
- `Coercion.ParseNumber`: reads only plain decimals: an optional sign, then digits with an optional fraction. Exponents, surrounding whitespace, "inf" and "nan" are read as unparsable (so 0), where `to_numeric` would accept them.
- `Table.CellNumber`: reads a text cell in a never-coerced column as 0. In the standalone scripts, which do not coerce, pandas would concatenate or raise instead; those scripts are assumed to see numeric cells.
- `Table.MeasureOf`: reads a column the table lacks as 0 where pandas raises KeyError. The queries only read columns the CSV has.
- Text key columns (client, country, city, category) are never NaN in the model. Missing keys arise only from the joins (names) and from dates (years).
- `Table.Sale`: the carrier, seller and supplier ID columns are plain integers and are never missing. pandas reads a blank ID as NaN; such a row would be dropped by the ID groupbys (questoesBI-IA-4.py:9, questaoBI-IA-6.py:12, questoesBI-IA-7.py:12) and left unmatched by the dashboards' left merges.
- `Question3.Upper` and `Question3.UpperChar`: upper-case ASCII letters only, not Python's full Unicode `str.upper`. This cannot change the "BRA" test, since no other character upper-cases to B, R or A. `ClientePaísID.astype(str)` is taken to be the text already held in `countryCode`.
- The `Ano` column is not stored: `Table.YearOf` derives it from the parsed date wherever it is read.
- `Charts.PlotSales` and `Charts.PlotPartners` take the series as an `Option` to cover `s is None`. No call in the repository passes None.
- The placeholder's position, font size and hidden axes are implied by the `Placeholder` case and not modelled separately.

## Notes on the code

- The placeholder messages are in Portuguese: "Sem dados" (dashboard-12345.py:40) and "Sem dados disponíveis" (dashboard-678910.py:44).
- The two lists of European countries differ. The dashboard's (dashboard-678910.py:79) has "United Kingdom" and "Netherlands" but not "Poland"; questaoBI-IA-10.py:8-12 is the reverse. Both are kept as written.
- The loaders rewrite the sales table in place; the model does the same through the `SalesFrame` class.
