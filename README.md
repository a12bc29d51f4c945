# Monthly series and request validation of the earth-observation map endpoint

This project is a Dafny model of the core of a small Flask service. The service's one endpoint, `POST /generate_map`, takes a region of interest (`roi`) and a feature selector (`NDVI`, `SM` or `LST`). It asks the Earth Engine imagery service for a map layer, filtered with `filterDate('2023-01-01', today)`, and for one regional mean value per calendar month from January 2023 through today's month.

The model covers the code that decides anything locally:

- **Calendar arithmetic** (`calendar.dfy`). Dates use the proleptic Gregorian calendar with the leap-year rule. `d + timedelta(days=n)` is n single-day steps, and it is proved to add n to Python's day ordinal (`date.toordinal()`). The loop's step `(d + timedelta(days=32)).replace(day=1)` lands exactly on the first of the following month whenever `d` is a first of month. That holds for every month length, for February in leap and common years, and for December into January. From any other day the step still moves forward one or two months; from 31 January it skips February.
- **Date text** (`date_format.dfy`). This is the `%Y-%m-%d` form, the extended calendar-date format of section 4.1.2.2 of ISO 8601:2004. A parse-after-format round trip is proved in both directions.
- **The monthly loop** (`monthly_values.dfy`). `calculate_monthly_values` is an imperative method with a `while` loop and the source's two `continue` paths. It is proved to return `SeriesFrom`, its recursive definition. `series_properties.dfy` then proves a closed form: a start on day 1 gives exactly one entry per calendar month, from the start month through the end date's month. Each entry is dated on its month's first day, the dates strictly increase, and each value comes from a query whose `filterDate` arguments are the month's first and last day. For SM and LST an empty month gives `None` without raising. When the loop reaches December 9999 the step leaves Python's range, so the call raises OverflowError.
- **The map builder and the handler** (`request_handler.dfy`). These cover the feature-specific "No … data" ValueError, the validation order of `roi` and then `feature` under Python's truthiness, and the mapping of a ValueError to a 400 reply. Any other exception escapes the handler, for example the UnboundLocalError on `image` for an unsupported feature.

The remote service is a record of three oracle functions (`earth_engine.dfy`): is a filtered collection empty, the regional mean of an image, and the tile descriptor of an image. Images are descriptions of the query the code builds: collection, band, window and unit conversion.

Two behaviours are kept as the code has them:

- An unsupported feature is not a validation error. It raises UnboundLocalError, which the handler does not catch.
- An NDVI map with no scene gets no "imagery unavailable" check. What happens then is up to the remote service.

## Model

| member | source | states |
|---|---|---|
| Calendar.DaysInMonth | flaskApp.py:36-38 | a month has 28 to 31 days; 28 exactly for February of a common year, 29 exactly for February of a leap year, 30 exactly for April, June, September and November |
| Calendar.MonthsMakeYear | flaskApp.py:36 | the twelve month lengths add up to 366 in a leap year and 365 otherwise |
| Calendar.YearLength | flaskApp.py:36 | consecutive years start as many ordinal days apart as the first year has days |
| Calendar.OrdinalNextDay | flaskApp.py:36 | one calendar step advances Python's day ordinal by one, also across month and year ends |
| Calendar.OrdinalAddDays | flaskApp.py:36 | adding n days advances the day ordinal by exactly n, so the model's `timedelta` addition is Python's |
| Calendar.OrdinalPrevDay | flaskApp.py:38 | subtracting one day lowers the day ordinal by one |
| Calendar.PrevDayNextDay | flaskApp.py:38 | stepping one day forward and one day back are inverse |
| Calendar.AddDaysSplit | flaskApp.py:36 | adding a + b days is adding a days, then b days |
| Calendar.AddDaysWithinMonth | flaskApp.py:36 | adding days that stay in the month only moves the day field |
| Calendar.AddDaysAcrossMonth | flaskApp.py:36 | adding days that leave the month passes through the first of the following month |
| Calendar.ThirtyTwoDaysFromFirst | flaskApp.py:36 | 32 days after the first of a month is day 33 - L of the following month, where L is the month's length: day 2 to 5 |
| Calendar.NextMonthStartFromFirst | flaskApp.py:36-38 | from the first of a month, the step gives the first of the following month (December gives January of the next year), and the day before it is the month's last day |
| Calendar.NextMonthStartAdvances | flaskApp.py:35-36 | from any valid day, the step gives the first of a month one or two months later, strictly after the day |
| Calendar.NextMonthStartSkipsFebruary | flaskApp.py:36 | started on 2023-01-31, the step gives 2023-03-01 and February gets no entry |
| Calendar.MonthEndIsLastDay | flaskApp.py:38 | the day before the first of the following month is the month's last day, and it is not before the month's first day |
| Calendar.NotAfterByMonthIndex | flaskApp.py:35 | for a first-of-month date, `current_date <= end_date` holds exactly when its month is not after the end date's month |
| Calendar.NextDay | flaskApp.py:36 | `d + timedelta(days=1)` is a valid date strictly after `d`; `Calendar.OrdinalNextDay` states that it is the next day ordinal |
| Calendar.AddDays | flaskApp.py:36 | `d + timedelta(days=n)` is a valid date, strictly after `d` when n > 0; `Calendar.OrdinalAddDays` states that it lies exactly n ordinal days on |
| Calendar.PrevDay | flaskApp.py:38 | `d - timedelta(days=1)` is a valid date strictly before `d`; `Calendar.OrdinalPrevDay` and `Calendar.PrevDayNextDay` state that it is the previous day |
| Calendar.NextMonthStart | flaskApp.py:36 | the step of the loop; its contract is stated by `Calendar.NextMonthStartFromFirst` (from a first of month, the following month's first day) and `Calendar.NextMonthStartAdvances` (from any day, the first of a month one or two months on) |
| Calendar.FollowingMonth | flaskApp.py:36 | the following month's first day is a valid date whose month index is one more |
| Calendar.LastDayOfMonth | flaskApp.py:38 | the month's last day is in the same month, has day number equal to the month's length, and is not before the given day |
| DateFormat.Format | flaskApp.py:37-38 | `strftime('%Y-%m-%d')` gives ten characters with hyphens at positions 4 and 7 |
| DateFormat.Parse | flaskApp.py:30-31 | a string parses only to a valid date with a year from 1 to 9999 |
| DateFormat.ParseFormat | flaskApp.py:30-38 | parsing a formatted date gives the same date back |
| DateFormat.FormatParse | flaskApp.py:30-31 | a string that parses is exactly the formatted text of its date |
| DateFormat.FormatInjective | flaskApp.py:37 | distinct dates have distinct texts |
| EarthEngine.Get | flaskApp.py:68 | `dict.get(key, None)` holds a value exactly when the key is present, and then the stored value |
| EarthEngine.MonthlyImage | flaskApp.py:40-62 | each month's image is queried with the window the loop passes for that month |
| EarthEngine.MapImage | flaskApp.py:80-104 | the map layer's image is queried with the window the map builder passes |
| EarthEngine.ResultKey | flaskApp.py:68 | the key the loop reads; stated by `EarthEngine.ResultKeyMatchesBand` |
| EarthEngine.ResultKeyMatchesBand | flaskApp.py:68 | the key read (`nd`, `sm`, `LST_1KM`) equals the monthly image's band for NDVI and LST, and not for SM |
| EarthEngine.SoilMoistureKeyNeverFound | flaskApp.py:68 | a service that reports a mean under the image's band name never reports `sm` for the soil-moisture image |
| EarthEngine.IntendedResultKey | flaskApp.py:42-62 | the band that every month's image for a feature carries |
| EarthEngine.IntendedKeyFindsValue | flaskApp.py:64-68 | reading the band's own key finds the reported mean |
| MonthlyValues.MonthValue | flaskApp.py:40-69 | a month's value raises only for an unsupported feature (UnboundLocalError on `image`); an empty SM or LST collection gives `None`; otherwise the value is present exactly when the reduced dictionary holds the feature's key, and then it is the stored mean |
| MonthlyValues.StepInRange | flaskApp.py:36-38 | when the step stays within year 9999, the next date and the month end are Python dates, the month end is not before the current date, and the month index grows |
| MonthlyValues.SeriesFrom | flaskApp.py:35-71 | the loop's outcome as a recursive definition: a non-empty series means the start is not after the end, holds at most one entry per month from the start month through the end month, and starts with the start date's text |
| MonthlyValues.SeriesStep | flaskApp.py:35-71 | one loop iteration: the entry for the current month's window, then the loop from the step's result |
| MonthlyValues.CalculateMonthlyValues | flaskApp.py:29-73 | the loop, with its `continue` paths for empty SM and LST months, returns exactly the recursive series `SeriesFrom`, including its OverflowError and UnboundLocalError outcomes |
| SeriesProperties.MonthAt | flaskApp.py:36 | the i-th month after the start month is a first-of-month date i months on |
| SeriesProperties.MonthCount | flaskApp.py:35 | the number of months from the start month through the end month, zero when the start is after the end |
| SeriesProperties.MonthWindowMissesLastDay | flaskApp.py:38-41 | with `filterDate` keeping its start and excluding its end, the window the loop passes for a month keeps exactly the month's days before its last day; the last day is never kept |
| SeriesProperties.FullMonthWindow | flaskApp.py:36-38 | the window from a month's first day to the following month's first day, both as parseable dates |
| SeriesProperties.FullMonthWindowKeepsMonth | flaskApp.py:36-38 | under the same `filterDate` reading, that window keeps a day exactly when the day lies in the month |
| SeriesProperties.SeriesStepFromFirst | flaskApp.py:35-38 | from a first of month, the loop passes the month's first and last day as the window and continues at the following month |
| SeriesProperties.ConsMonthlySeries | flaskApp.py:66-71 | appending each month's entry in turn builds the month-by-month series |
| SeriesProperties.SeriesFromFirst | flaskApp.py:35-71 | from a first of month, the loop returns the expected entry for every month through the end month |
| SeriesProperties.MonthlySeries | flaskApp.py:29-73 | with a start on day 1 and an end before December 9999, the series is one entry per calendar month from the start month through the end month, in order |
| SeriesProperties.SeriesDatesAreMonthStarts | flaskApp.py:37-38 | each entry's date is the `YYYY-MM-DD` text of its month's first day, never its month end |
| SeriesProperties.SeriesDatesIncrease | flaskApp.py:66-71 | entry dates strictly increase along the series |
| SeriesProperties.SeriesEnds | flaskApp.py:32-35 | the series is non-empty exactly when the start is not after the end; it begins at the start date and ends at the first of the end date's month |
| SeriesProperties.SeriesValues | flaskApp.py:40-69 | an empty SM or LST month gives `None`; otherwise, and always for NDVI, the value is the reduced dictionary's entry under the feature's key |
| SeriesProperties.SoilMoistureSeriesAllNull | flaskApp.py:64-68 | with the key as written, every SM entry is `None` when the service reports means under band names |
| SeriesProperties.SeriesOverflows | flaskApp.py:36 | a loop that reaches December 9999 raises OverflowError |
| SeriesProperties.SeriesErrors | flaskApp.py:29-73 | from any start, the loop raises nothing but OverflowError or UnboundLocalError, never ValueError |
| SeriesProperties.SeriesFirstStep | flaskApp.py:35-64 | a start after the end gives an empty list, whatever the feature; otherwise an unsupported feature raises UnboundLocalError in the first month |
| RequestHandler.Truthy | flaskApp.py:130-133 | Python's `not` on a decoded JSON value; its use in validation is stated by `RequestHandler.BadRequest` |
| RequestHandler.Field | flaskApp.py:128-129 | `data.get(key)` reads the stored value of a present key, and null (a false value) for a missing key |
| RequestHandler.FeatureOf | flaskApp.py:80-99 | the feature is NDVI, SM or LST exactly when the request carries that string |
| RequestHandler.BuildMap | flaskApp.py:75-120 | the map layer succeeds exactly for a supported feature whose SM or LST collection is non-empty, with the request's roi and feature and the `filterDate` arguments 2023-01-01 and today; it fails only with a ValueError or the UnboundLocalError on `image` (see also `RequestHandler.MapBuilderNoData`, `RequestHandler.MapBuilderLayer`) |
| RequestHandler.GenerateMapAndValues | flaskApp.py:75-123 | a ValueError can come only from the map layer, never from the monthly series; any other failure is OverflowError or the UnboundLocalError on `image` |
| RequestHandler.GenerateMap | flaskApp.py:126-142 | the handler replies 200 with generated data or 400 with an error message, and only OverflowError or UnboundLocalError escape it (see also `RequestHandler.BadRequest`, `RequestHandler.SuccessfulReply`) |
| RequestHandler.AnalysisStartIsFormatted | flaskApp.py:77 | the literal start date is the text of 2023-01-01 and parses back to it |
| RequestHandler.MapBuilderNoData | flaskApp.py:85-102 | the map builder raises ValueError exactly when the SM or LST collection is empty for the window from 2023-01-01 to today, with that feature's message; no map layer is produced then |
| RequestHandler.MapBuilderLayer | flaskApp.py:106-120 | otherwise a supported feature gets a map config with the request's roi and feature, start 2023-01-01, end today, and the descriptor of the feature's map image |
| RequestHandler.BadRequest | flaskApp.py:130-142 | a 400 reply says "ROI is required" exactly when `roi` is false; otherwise "Feature is required" exactly when `feature` is false; otherwise only the map builder's ValueError message |
| RequestHandler.UnsupportedFeatureRaises | flaskApp.py:114-119 | a true feature value other than the three names escapes the handler as UnboundLocalError |
| RequestHandler.SuccessfulReply | flaskApp.py:135-140 | a valid request for a supported feature with data gets a 200 reply with the map config and one entry per calendar month from January 2023 through today's month |

## Findings

| source | as written | input that shows it | evidently intended | confidence | as-written member | corrected member |
|---|---|---|---|---|---|---|
| flaskApp.py:38 | each month's `filterDate` end is `month_end`, the month's last day, while `filterDate` excludes its end date | January 2023: the window `('2023-01-01', '2023-01-31')` keeps 1 to 30 January, so scenes of 31 January never enter the monthly mean | pass `next_date`, the following month's first day, as the end, so that the window keeps the whole month | medium, not executed; it depends on `filterDate` excluding its end date | SeriesProperties.MonthWindowMissesLastDay | SeriesProperties.FullMonthWindowKeepsMonth |
| flaskApp.py:68 | the SM monthly value is read under the key `sm` | any month with soil-moisture data: the SM image is `select('soil_moisture_am').mean()`, so its regional mean is reported under `soil_moisture_am` | read the band's own key, `soil_moisture_am`, as NDVI (`nd`) and LST (`LST_1KM`) already do | medium, not executed; it depends on the service reporting a single-band mean under the band's name (`BandKeyed`) | SeriesProperties.SoilMoistureSeriesAllNull | EarthEngine.IntendedKeyFindsValue |

The monthly loop model keeps the window and the key as written, because it models lines 38-69 themselves. `EarthEngine.IntendedResultKey` is the corrected key, and `EarthEngine.ResultKeyMatchesBand` shows that it differs from the written key only for SM.

## Left out

- Earth Engine itself: `filterBounds`, `filterDate`, `normalizedDifference`, `mean`, `reduceRegion`, `getMapId`, `getInfo` and `ee.Geometry.Polygon` belong to a remote service. They are the oracle record `Service`, answered for the request's region. Errors the service raises are not modelled. Neither is the NDVI map's `first()` on an empty collection.
- Floating-point unit conversions (`×0.02`, `−273.15`), the 1000 m scale, the `1e9` pixel cap and the palettes. The `Conversion` tag only names which conversion each image applies.
- Flask routing, JSON decoding and `jsonify`; a body that is not a JSON object; credential loading, `ee.Initialize`, logging (including the `logger.error` lines of the empty-month paths) and the unused scheduler import.
- `datetime.utcnow()`: the current date is the parameter `today`.
- `strptime` inside `calculate_monthly_values`: the method takes the two dates already parsed. `RequestHandler.AnalysisStartIsFormatted` and `DateFormat.ParseFormat` show that parsing the caller's two strings gives those dates.
- DateFormat.Parse: accepts only the zero-padded ten-character form. Python's `strptime` also accepts unpadded months and days.
- DateFormat.Format: pads every year to four digits. For years below 1000, the padding of Python's `%Y` depends on the platform.
- `filterDate(start, end)` keeps its start date and excludes its end date. The month windows end on the month's last day (flaskApp.py:38), so that day is outside each month's filtered collection. The map window ends on today (flaskApp.py:78), so today is outside the map's collection. The oracles take the window as the two strings the code passes and do not capture this exclusion. `SeriesProperties.InFilterWindow` states it only for the month-window finding.
- A `null` value inside the reduced dictionary is represented as an absent key. Both give `None` through `.get`.
- SeriesProperties.MonthlySeries: the closed form requires a start on day 1, which the only caller passes. For other starts the model proves termination, the one-or-two-month step and the possible skipped month, but no closed form.
