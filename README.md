# Netflix viewing dashboard: the data pipeline, in Dafny

The dashboard loads a table of streaming-service viewing records. It cleans the
table once, adds two categorical columns (the month as an ordered category
Jan..Jul and an age bucket), and filters the rows by three sidebar
multi-selects (location, watching method, subscription type). Every chart is
then an aggregate of the filtered rows: three KPIs, the ten most-viewed shows,
four group-by summaries (subscription type x watching method, device,
gender x age group, location) and a monthly trend.

This project models that pipeline as pure functions over sequences of records
and proves what each stage promises. The dataframe-library operations it relies
on are restated explicitly (module `Frames`):

- a boolean mask or `dropna` keeps the satisfying rows in their original order (`Keep`);
- `isin` is membership in the selected list;
- `unique()` lists each value of the column exactly once (`Unique`);
- `pd.cut` uses right-closed bins and does not include the lowest edge (`Cut`);
- a categorical cast turns values outside the category list into missing values (`MonthOf`);
- `groupby` drops rows whose key is missing and reports observed keys (`GroupKeys`);
- `count` counts non-missing user ids and `nunique` counts distinct non-missing ones (`Views`, `ViewerIds`);
- `mean` is the exact sum divided by the count, as a `real`, and is missing on an empty column (`Mean`).

Modules, in dependency order:

- `Wrappers` holds `Option`.
- `Frames` holds the table primitives above.
- `Schema` holds raw rows, cleaning, the month and age categories, and the prepared `Viewing` record.
- `Filters` holds the sidebar selections and the filter.
- `Kpis` holds the binge percentage and the two means.
- `Groups` holds the generic group-by summary and the four summary charts.
- `Counts` holds the top-ten shows and the monthly trend.

Four behaviours of the code the model keeps:

- Counts of views are counts of non-missing `user_id`, because that is what `agg({"user_id": "count"})` (app.py:47) and `["user_id"].count()` (app.py:85) compute. `user_id` is not a required column. `Groups.ViewsOfIdentifiedRows` and `Counts.ShowViewsConserved` give the row-count reading when every row has a user id.
- The monthly trend has one entry for each of the seven months, in calendar order, with 0 for a month that has no rows. Grouping by a categorical column with the library's default `observed=False` produces exactly that. There is no separate gap-filling step.
- Top shows have no tie-break: `sort_values` (app.py:50) uses an unstable sort. The model promises only a non-increasing order.
- An empty filtered table has no binge percentage. The code raises a division by zero there (see Findings).

## Model

| member | source | states |
|---|---|---|
| `Schema.Clean` | app.py:10 | a row survives cleaning iff duration, show, device, rating, gender, subscription type, watching method and age are all present; cleaning never adds rows |
| `Schema.CleanPreservesOrder` | app.py:10 | the survivors are an order-preserving subsequence of the raw table, and each complete row keeps its multiplicity |
| `Schema.CleanIdempotent` | app.py:10 | cleaning an already cleaned table returns it unchanged |
| `Schema.CleanKeepsComplete` | app.py:10 | a table with no missing required field is left as it is |
| `Schema.OptionalColumnsNotRequired` | app.py:10 | a row missing only user id, location and month still survives cleaning |
| `Schema.MonthIndex` | app.py:11 | every month has a position in the category order Jan..Jul, and that position names it |
| `Schema.MonthOf` | app.py:11 | the categorical month is `m` exactly when the raw text is m's name; any other text, or no text, gives no month |
| `Schema.MonthsCanonical` | app.py:11 | the category list holds each of the seven months exactly once, in index order |
| `Schema.Cut` | app.py:12 | with increasing edges, x gets label i exactly when edges[i] < x <= edges[i+1]; it gets no label at or below the first edge or above the last |
| `Schema.AgeGroupOf` | app.py:12 | ages 1-18 are "<18", 19-25 "18-25", 26-35 "26-35", 36-50 "36-50", 51-100 "50+"; ages <= 0 or > 100 have no group, each in both directions |
| `Schema.AgeGroupExamples` | app.py:12 | ages 17, 18, 19, 40 and 60 land in "<18", "<18", "18-25", "36-50" and "50+"; ages 0 and 101 land in no group |
| `Schema.Categorise` | app.py:11-12 | the record's month is the categorical cast of the raw month text and its age group is the bucket of its age, so the facts of `MonthOf` and `AgeGroupOf` hold for every prepared record; the age group exists exactly when 0 < age <= 100; restoring the row from the record gives back the cleaned row |
| `Schema.Prepare` | app.py:10-12 | the dataset has one record per cleaned row, in order, each carrying that row's derived columns |
| `Schema.PrepareAfterClean` | app.py:10-12 | preparing an already cleaned table gives the same dataset |
| `Frames.Keep` | app.py:22-26 | a boolean mask keeps exactly the rows that satisfy it and never adds rows |
| `Frames.Unique` | app.py:17-19 | `unique()` has no duplicates and holds exactly the values of the column |
| `Frames.Mean` | app.py:38 | the mean is missing exactly on an empty column; otherwise it lies between the column's minimum and maximum |
| `Filters.Filter` | app.py:22-26 | a record is in the filtered table iff it is in the dataset and its location, watching method and subscription type are all selected |
| `Filters.FilterPreservesOrder` | app.py:22-26 | the filtered table is an order-preserving subsequence of the dataset, and each selected record keeps its multiplicity |
| `Filters.FilterIdempotent` | app.py:22-26 | filtering the filtered table again with the same selections changes nothing |
| `Filters.DefaultSelection` | app.py:17-19 | each default list has no duplicates and holds exactly the values that occur in the dataset for its column |
| `Filters.DefaultKeepsEverything` | app.py:17-26 | with the default selections the filtered table is the whole dataset |
| `Filters.FilterMonotone` | app.py:22-26 | widening the selections never removes a row: the narrow result is the wide result filtered again, and a subsequence of it |
| `Filters.EmptySelectionShowsNothing` | app.py:22-26 | an empty list in any one of the three selections yields an empty table |
| `Filters.LocationExample` | app.py:23 | on rows in USA, India and UK, {"USA"} keeps only the USA row, and {"USA","India"} keeps the USA and India rows in order |
| `Kpis.BingeCount` | app.py:35 | the number of "Binge-watched" rows is at most the number of rows |
| `Kpis.BingePercentage` | app.py:35 | there is no percentage exactly when the table is empty; otherwise it lies in [0, 100], and times the row count it equals 100 x the number of binge-watched rows |
| `Kpis.Percent` | app.py:35 | c rows out of n rows (0 <= c <= n, n > 0) give a percentage in [0, 100] that, times n, is 100 x c |
| `Kpis.BingeShareAsWritten` | app.py:35 | the division as written is defined only for a non-empty table; there it lies in [0, 100] and agrees with the percentage |
| `Kpis.AllBingeIsHundred` | app.py:35 | a non-empty table where every row is binge-watched gives 100 |
| `Kpis.NoBingeIsZero` | app.py:35 | a non-empty table with no binge-watched row gives 0 |
| `Kpis.MeanDuration` | app.py:38 | the mean duration is missing exactly on an empty table; otherwise it lies between the shortest and longest duration |
| `Kpis.MeanRating` | app.py:41 | the mean rating is missing exactly on an empty table; otherwise it lies between the lowest and highest rating |
| `Kpis.KpiExample` | app.py:35-38 | for rows (Binge-watched, 30), (Binge-watched, 50) and (Paused, 20), the binge percentage is 200/3 and the mean duration is 100/3 |
| `Groups.Group` | app.py:58 | a group holds exactly the rows whose key is the group's key |
| `Groups.GroupKeys` | app.py:58-64 | the observed keys have no duplicates and are exactly the non-missing keys of the rows |
| `Groups.Views` | app.py:47 | a group's count of user ids is at most its number of rows |
| `Groups.ViewsOfIdentifiedRows` | app.py:47 | when every row has a user id, a group's count equals its number of rows |
| `Groups.ViewerIds` | app.py:60 | the distinct user ids are exactly those present in the rows, and there are no more of them than rows with a user id |
| `Groups.SummaryOf` | app.py:58-64 | an observed group is non-empty; its average duration is its exact mean, within its minimum and maximum duration; its unique-viewer count is at most its row count, and at least 1 exactly when some row of the group has a user id |
| `Groups.Summarise` | app.py:58-64 | one summary per observed key, in the order of the observed keys, each satisfying the per-group facts above |
| `Groups.SubscriptionByMethod` | app.py:58-64 | one summary per (subscription type, watching method) pair that occurs, with no pair twice, each with the per-group facts |
| `Groups.DeviceUsage` | app.py:74-77 | one summary per device that occurs, with no device twice, each with the per-group facts |
| `Groups.AgeGenderDuration` | app.py:91-94 | one summary per (gender, age group) pair that occurs in a row with an age group, with no pair twice, each with the per-group facts |
| `Groups.LocationMap` | app.py:104-107 | one summary per location that occurs, with no location twice and none for a missing location, each with the per-group facts |
| `Groups.SummariseIgnoresMissingKey` | app.py:58-64 | appending a row whose grouping key is missing leaves every summary unchanged |
| `Groups.AgeGenderIgnoresUnbucketed` | app.py:91-94 | appending a row without an age group does not change the gender x age group summaries |
| `Groups.LocationMapIgnoresMissing` | app.py:104-107 | appending a row without a location does not change the map summaries |
| `Groups.ViewsConserved` | app.py:46-49 | over distinct keys covering every row's key, the group counts add up to the number of rows that have a key and a user id |
| `Counts.ShowEntry` | app.py:46-49 | a show's entry counts that show's rows that have a user id, never more than its rows, and carries their exact mean duration |
| `Counts.ShowTable` | app.py:46-49 | one entry per distinct show, in the order of the observed shows, each with the per-show facts |
| `Counts.ShowTableSize` | app.py:46-49 | the per-show table has exactly as many entries as there are distinct shows |
| `Counts.ShowViewsConserved` | app.py:46-49 | before the cut to ten, the show counts add up to the number of rows with a user id, and to the number of rows when every row has one |
| `Counts.InsertByViews` | app.py:50 | inserting into a table sorted by decreasing views keeps it sorted and adds exactly that entry |
| `Counts.SortByViews` | app.py:50 | the sorted table is non-increasing in views and is a permutation of the input |
| `Counts.TopShows` | app.py:50 | the top list has exactly min(10, number of distinct shows) entries, is non-increasing in views, and draws its entries from the per-show table (with correct counts) no more often than the table holds them |
| `Counts.TopShowsDistinct` | app.py:46-50 | no show appears twice in the top list |
| `Counts.TopShowsDominate` | app.py:50 | a show left out of the top list has no more views than any show in it |
| `Counts.MonthlyTrend` | app.py:85 | exactly seven entries, Jan to Jul in category order, each the count of that month's rows that have a user id |
| `Counts.MonthlyTrendConserved` | app.py:85 | the monthly counts add up to the number of rows that have both a month and a user id |
| `Counts.MonthlyTrendIgnoresUnknownMonth` | app.py:85 | appending a row whose month is not one of Jan..Jul does not change the trend |

## Left out

- Loading the CSV file (app.py:7) is file I/O. The model starts from a sequence of rows in which any column may be missing.
- The sidebar logo, headers, markdown, columns and `st.metric` widgets (app.py:14-16, 28-33, 36, 39, 42) are presentation. Only the selections' defaults (app.py:17-19) are modelled.
- The multiselect widget limits a user's choices to the listed options. In the model a selection is any list, which is more general.
- Plotly figure construction and `st.plotly_chart` (app.py:51-54, 65-70, 78-81, 86-87, 96-100, 109-112) are rendering.
- One-decimal formatting (app.py:36, 39, 42) and `round(1)` of the map's averages (app.py:108) are floating-point presentation. The model keeps exact `real` means.
- Country-name lookup inside the choropleth (app.py:109) is a library lookup the model cannot see.
- Durations and ratings are exact reals, not floating-point numbers. Ages are integers, so a fractional age is not modelled.
- Counts.SortByViews: fixes one admissible order among equal counts. The source's sort is unstable, so the model promises no tie order.
- Groups.Summarise: lists groups in the order their keys first appear. The source sorts group keys, which only affects the order bars and lines are drawn. Every stated property is per group.
- Groups.AgeGenderDuration: covers observed (gender, age group) pairs only. The source may also emit unobserved category pairs with a missing mean and zero viewers.
- Streamlit re-runs the whole script on every change of selection. That execution model is not modelled; each function is one pass over fixed inputs.

## Findings

| source | as written | input that shows it | evidently intended | confidence | as-written member | corrected member |
|---|---|---|---|---|---|---|
| app.py:35 | the binge percentage divides by `filtered_df.shape[0]`, a plain integer, so an empty filtered table raises division by zero, and the KPI row and all later charts are not drawn | clear the "Select Watching Method" list (any empty selection list); the filtered table is then empty | report "no data" for the percentage on an empty table and keep rendering | high (not executed) | `Kpis.BingeShareAsWritten` (defined only when the divisor is non-zero) with `Filters.EmptySelectionShowsNothing` (a reachable selection makes the divisor zero) | `Kpis.BingePercentage` (returns no value exactly on an empty table, otherwise a value in [0, 100]) |
