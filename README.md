# Autoscan core, modelled in Dafny

Autoscan watches used-car listings on Kleinanzeigen. A sync crawls two result
pages, turns every ad into a row, enriches it from the ad's detail page, and
writes it into a SQLite table. The write is a conditional upsert that also
keeps a price history. A Flask app lists the table with filters and
pagination. For any listing it can show comparable offers: it builds search
links for Kleinanzeigen, AutoScout24 and carwow, then reads the offer count
and average price from the result pages of Kleinanzeigen, AutoScout24,
carwow and mobile.de.

The model covers that core:

- `store.dfy` (module `Store`): the listings table and the price log.
  `ListingStore` is a class whose `rows` map and `history` sequence are
  updated by `Upsert`, the conditional insert/update of `upsert_listing`.
  The pure functions `AfterUpsert` and `Logged` specify that update.
- `scrape.dfy` (module `Scrape`): the field extractors of the scraper.
  These are the digit normaliser, the postal code/city split, the German
  "Heute"/"Gestern"/date parser with a real calendar, the label-to-column map
  of the detail page, the list-page article parser and the search-URL
  builder.
- `sync.dfy` (module `Sync`): `sync_once` as a method over the store. It is
  proved equal to a fold of the upsert specification over the payloads of
  the crawled pages.
- `guard.dfy` (module `Guard`): the `/api/sync` endpoint as a class that
  holds the time of the last finished sync and a try-only lock.
- `links.py` as module `Links`. It builds the Kleinanzeigen, AutoScout24 and
  carwow links: slugging, year detection, km band, URL encoding and
  parameter order.
- `prices.dfy` (module `Prices`): the shared pieces of the price providers.
  These are the average (Python `round`, half to even), the plausibility
  window, and the number pattern that reads an amount from a price text.
- `ka_stats.dfy`, `autoscout_stats.dfy`, `carwow_stats.dfy`, `mobile.dfy`:
  one module per price provider. Each covers the announced count, the
  prices of a page, the optional second page, the cut to the announced
  count, and the JSON answer.
- `app.py` as module `App`. It covers `parse_int`, the SQL `WHERE`/`ORDER BY`
  built from the filter form, and the pagination window.
- `common.dfy` (module `Common`): characters and strings as Python sees
  them. These are `strip`, `lower`, `split`, `int()` and `str()` on
  integers, truncating division, and round-half-to-even.

HTTP requests, the HTML/DOM selection and the regular expressions that pick
elements out of a page are not modelled. What they deliver becomes the
input: the captured texts of a page, the article records of a result page,
or the (label, value) pairs of a detail page. A failed request is an input
too. Small regular expressions over short field texts are modelled exactly,
with leftmost search and greedy matching worked out; examples are the
number in a price, the postal code, the posting time, the year and the
power in PS or kW. The clocks `datetime.now()` and `monotonic()` are
parameters. SQLite's `datetime('now')` is a clock object (`Sync.DbClock`)
that every upsert statement reads afresh.

Where comments and code disagree, the model follows the code. The comment
in `db.py` says a price is logged only when it changed. The code logs one on
every write that carries a price, so a title change with the same price logs
it again (`Store.TitleChangeRelogsUnchangedPrice`).

The price pattern of the Kleinanzeigen, carwow and mobile.de providers is
modelled as written (`Prices.Loose`), so a four-digit amount without a
separator reads as its first three digits. The evidently intended reading
(`Prices.IntendedNumber`) is defined beside it and compared under
"## Findings"; the providers do not use it.

## Model

| member | source | states |
|---|---|---|
| Store.Coalesce | db.py:91-96 | the comparison value is never NULL, and a non-NULL value compares as itself (NULL reads as -1 for price, km, pics and power, as '' otherwise) |
| Store.AfterUpsertKeepsRows | db.py:105-111 | an upsert keeps every row filed under its own id with a creation stamp, adds exactly the payload's id to the table, and never moves an existing row's first_seen |
| Store.ListingStore.Upsert | db.py:78-131 | returns 0 or 1, and 1 exactly when the statement wrote; the new table is the upsert specification applied to the old one; the key set grows by the payload id; first_seen never moves; the price log grows by exactly the observation the specification logs |
| Store.ListingStore.WriteRow | db.py:105-116 | the INSERT ... ON CONFLICT DO UPDATE ... WHERE step: the row count is 1 exactly when it wrote, and the price log is untouched |
| Store.ListingStore.LogPrice | db.py:118-127 | the history step: the table is untouched and one observation of the payload price is appended exactly when the price was supplied, is non-null, equals the stored price, and the statement wrote |
| Store.InsertUnknown | db.py:105-109 | an unknown id is inserted: the supplied columns hold the payload values, every other data column is NULL, first_seen and last_seen are now, and status is 'active' |
| Store.InsertedRowColumns | db.py:106-107 | the inserted row holds the id, the supplied values, NULL elsewhere, the two stamps and the default status |
| Store.NoDifferenceNoWrite | db.py:108-116 | when every supplied column equals the stored one under the NULL sentinels, nothing is written and the table is unchanged |
| Store.UpdateOverwrites | db.py:100-110 | when some supplied column differs, the row is written: supplied columns take the payload values, last_seen becomes now, every other column (id, first_seen, status, unsupplied ones) keeps its value |
| Store.UpdatedRowColumn | db.py:101-109 | the same per column, for the updated row itself |
| Store.PriceLoggedIffWriteWithPrice | db.py:118-127 | after any upsert, the code's test (stored price equals the supplied non-null price, and the statement wrote) holds exactly when a write happened with a non-null price |
| Store.TitleChangeRelogsUnchangedPrice | db.py:118-127 | a title change with the same price writes and logs the unchanged price again |
| Store.SentinelConflatesNull | db.py:91-96 | a stored NULL km and a supplied km of -1 compare equal, so nothing is written |
| Store.UpsertIdempotent | db.py:78-131 | the same payload upserted a second time writes nothing, changes nothing and logs nothing |
| Scrape.NormInt | scrape_ebay.py:60-62 | None exactly when the text has no digit |
| Scrape.NormIntIsIntOfDigits | scrape_ebay.py:60-62 | otherwise the value is `int()` of the digits in order (`_norm_int` at 147-149 is the same function) |
| Scrape.NormIntReadsNumber | scrape_ebay.py:60-62 | a number written between digit-free text reads back as itself |
| Scrape.SplitPostalCity | scrape_ebay.py:64-70 | empty or missing text gives (None, None); any other text gives a city |
| Scrape.SplitPostalCityShape | scrape_ebay.py:64-70 | a postal code is returned only as the 4 or 5 leading digits of the stripped text, followed by whitespace and the stripped one-line rest as the city; without a code the city is the whole stripped text |
| Scrape.SplitStrippedShape | scrape_ebay.py:67-69 | the same for the match on the already stripped text |
| Scrape.SplitPostalCityReads | scrape_ebay.py:64-70 | 4 or 5 digits, whitespace and a stripped one-line town split into exactly that code and town |
| Scrape.DaysInMonth | scrape_ebay.py:54-57 | months have 28 to 31 days, and 29 exactly in February of a leap year |
| Scrape.LeapDay | scrape_ebay.py:54-57 | the 29th of February is a valid date exactly in leap years |
| Scrape.PrevDay | scrape_ebay.py:47-50 | yesterday exists for every date but 0001-01-01, is a valid date, and today is its next day |
| Scrape.ParsePostedAt | scrape_ebay.py:38-58 | blank text gives None; a computed stamp is a valid date and clock; a text kept as it is equals the stripped input |
| Scrape.TodayComesFirst | scrape_ebay.py:43-46 | "Heute, H:MM" anywhere wins and gives today at that time; an impossible time raises |
| Scrape.YesterdayIsDayBefore | scrape_ebay.py:47-50 | without "Heute", "Gestern, H:MM" gives the day before today at that time |
| Scrape.NoCommaNoKeyword | scrape_ebay.py:43-50 | a text without a comma matches neither keyword |
| Scrape.DateWithoutKeyword | scrape_ebay.py:51-57 | "D.M.[YYYY]" gives that date at 00:00, the current year when none is written, and the stripped text itself when the date does not exist |
| Scrape.FieldMapColumns | scrape_ebay.py:132-145 | every label maps to a detail data column |
| Scrape.FieldFor | scrape_ebay.py:161-163 | a looked-up label yields only such a column |
| Scrape.MatchPs | scrape_ebay.py:168-170 | the "NN ps" number has at most three digits |
| Scrape.MatchKw | scrape_ebay.py:172-173 | so has the "NN kW" number |
| Scrape.KwToPs | scrape_ebay.py:173 | PS is kW times 1.3596 rounded to the nearest integer |
| Scrape.PowerFromText | scrape_ebay.py:167-173 | a PS figure wins over kW and is below 1000; any result is at most the PS of 999 kW |
| Scrape.DetailValue | scrape_ebay.py:165-175 | the power column holds NULL or a PS value in that range |
| Scrape.Line | scrape_ebay.py:157-175 | an item yields a column exactly when its lower-cased label is in the map, and then the converted value |
| Scrape.ParseDetail | scrape_ebay.py:156-176 | the loop fills the same map as `DetailMap` |
| Scrape.DetailMapHasKey | scrape_ebay.py:157-175 | a column is present exactly when some item's label maps to it; unknown labels add nothing |
| Scrape.DetailMapKeys | scrape_ebay.py:161-163 | the detail map never holds platform, url or title |
| Scrape.DetailMapLastWins | scrape_ebay.py:157-175 | of duplicate labels the last one's value stays |
| Scrape.ArticleUrl | scrape_ebay.py:80-83 | the title link, else data-href, prefixed with the site when it starts with '/' |
| Scrape.ParseArticle | scrape_ebay.py:75-116 | no ad id gives no row; a row carries the ad id, the fixed platform, the normalised price and a 4-5 digit postal code if any |
| Scrape.ParseArticles | scrape_ebay.py:123-127 | at most one row per article, every row with an id |
| Scrape.CrawlPage | scrape_ebay.py:118-127 | a failed request gives no page; a page has at most one row per article |
| Scrape.KaSearchUrlShape | scrape_ebay.py:181-207 | the URL starts with the base, then the area segment only when an area slug is set, else "anzeige:angebote/", and ends with the c216 block and the optional km limit |
| Scrape.KaLaterPagesInsertSeite | scrape_ebay.py:197-199 | every page from 2 on is the first page's URL with "seite:2/" inserted right after the path |
| Scrape.KaPriceSegment | scrape_ebay.py:194-195 | with a minimum or maximum price set, the URL is the URL without price bounds with "preis:MIN:MAX/" inserted after the offers segment; with neither, it is that URL |
| Scrape.KaFirstPages | scrape_ebay.py:197-199 | every page below 2 gives the first page's URL, and a later page's URL is exactly eight characters ("seite:2/") longer |
| Sync.SrpPayload | scrape_ebay.py:228-230 | the list payload is well formed and carries the row's id, url and price |
| Sync.DetailPayloadCarries | scrape_ebay.py:236-244 | the detail payload carries id, url, platform (defaulting to "ebay-kleinanzeigen"), title only when non-empty, and every detail column unchanged |
| Sync.Enrichment | scrape_ebay.py:233-236 | detail columns never include platform, url or title, so they cannot override them |
| Sync.RowPayloads | scrape_ebay.py:228-245 | every row is upserted once or twice, the list payload first, always under the row's id |
| Sync.Crawl | scrape_ebay.py:224-227 | each page is crawled on its own, and a failed page gives no rows |
| Sync.ApplyAllConcat | scrape_ebay.py:224-251 | applying upserts in two runs equals applying them in one |
| Sync.ApplyAllKeys | scrape_ebay.py:224-251 | a sequence of upserts keeps the table valid and adds exactly the payload ids |
| Sync.ApplyAllGrows | scrape_ebay.py:220-230 | the price log only grows, and the stored count grows by at most one per upsert |
| Sync.PagePayloadsLength | scrape_ebay.py:228-245 | a page causes between one and two upserts per row |
| Sync.PagePayloadsIds | scrape_ebay.py:228-245 | a page's upserts are well formed and touch exactly its row ids |
| Sync.SyncPayloadsLength | scrape_ebay.py:224-251 | a run causes between `seen` and 2 x `seen` upserts |
| Sync.SyncPayloadsIds | scrape_ebay.py:224-251 | a run's upserts touch exactly the ids of the crawled rows |
| Sync.SyncPayloadsConcat | scrape_ebay.py:224-251 | pages are processed independently and in order |
| Sync.FailedPageAddsNothing | scrape_ebay.py:250-251 | a page whose crawl fails causes no upsert |
| Sync.DbClock.Now | db.py:109 | each statement reads the next time of the database clock |
| Sync.UpsertStep | scrape_ebay.py:230 | one upsert on the store, at the time its statement reads, is one step of the specification fold |
| Sync.StoreRow | scrape_ebay.py:228-248 | one row's upserts on the store follow the fold over its payloads, the detail upsert reading the clock after the list upsert |
| Sync.StoreDetail | scrape_ebay.py:233-247 | the detail upsert happens exactly when the detail map is non-empty |
| Sync.SyncPage | scrape_ebay.py:228-248 | one page on the store follows the fold over its payloads, one clock reading per upsert |
| Sync.SyncFetched | scrape_ebay.py:225-249 | a fetched page counts its rows as seen and follows the fold |
| Sync.SyncOnce | scrape_ebay.py:216-252 | `seen` is the number of crawled rows; the store ends as the fold of all upserts, each at its own reading of the clock, and `stored` counts their writes; the clock advanced once per upsert; stored <= 2 x seen; the table gains exactly the crawled ids; the price log only grows |
| Sync.SyncEffects | scrape_ebay.py:216-252 | the same bounds stated on the fold alone |
| Guard.Answer | app.py:929-930 | the answer reports a change exactly when something was stored, and is the idle answer exactly when nothing was seen or stored |
| Guard.SyncGuard.TryAcquire | app.py:917 | the non-blocking acquire succeeds exactly when the lock was free, and leaves it held |
| Guard.SyncGuard.Release | app.py:931-932 | the lock is free afterwards |
| Guard.SyncGuard.ApiSync | app.py:906-932 | within 8 seconds of the last finished sync, or while the lock is held, the answer is zero and nothing changes; otherwise one sync runs, its end time is recorded, the answer is what it saw and stored, the store is the fold of the run's upserts at their own clock readings, and the lock is released |
| Links.SubSeparates | links.py:13 | after replacing runs of non-[a-z0-9] by the separator, only letters, digits and single separators remain, with the same letters and digits |
| Links.SubIdentity | links.py:14 | collapsing separators changes nothing when there are no doubles |
| Links.StripSeparated | links.py:14 | stripping the separator from both ends gives a slug with the same letters |
| Links.AlnumSlugShape | links.py:11-15 | a slug is letters and digits joined by single separators, not at either end, holding exactly the lower-cased value's letters and digits; it is empty exactly when the value has none |
| Links.AlnumSlugIdempotent | links.py:67-70 | slugging a slug changes nothing |
| Links.SimilarSlugIsAlnumSlug | links.py:11-15 | the Kleinanzeigen slug is the plain slug with '_' |
| Links.FindYearLeftmost | links.py:28-31 | a year lies in 1900..2099 and is the leftmost "19xx"/"20xx" |
| Links.RegYearPrefersFirstReg | links.py:25-31 | the year comes from the first ten characters of first_reg, else from ez_text |
| Links.KmBand | links.py:33-36 | the band is 90 % and 110 % of km, rounded down, and contains km |
| Links.KmBandExample | links.py:34-36 | 100000 km gives 90000..110000 |
| Links.SimilarUrlEmpty | links.py:17-23 | the link is "" exactly when brand or model has no letter or digit |
| Links.SlugNoPlus | links.py:11-15 | a slug never contains '+' |
| Links.SimilarPartsNoPlus | links.py:49-56 | no part contains '+' |
| Links.SimilarUrlReadBack | links.py:43-58 | a non-empty link is base and area path, then the parts in their fixed order, which splitting at '+' gives back |
| Links.QuotePlusAlphabet | links.py:131 | URL encoding yields only safe characters, '+' and '%' escapes |
| Links.QuotePlusSafe | links.py:131 | safe text is encoded as itself |
| Links.QuotePlusExample | links.py:183-184 | "[]" is encoded as "%5B%5D" |
| Links.QuotePlusConcat | links.py:131 | encoding is character by character |
| Links.UrlEncodeReadBack | links.py:131 | the query splits back at '&' and '=' into the encoded pairs in order |
| Links.ModelSlugChars | links.py:72-76 | the AutoScout model slug holds only letters, digits, '-', '(' and ')' |
| Links.AutoScoutUrlEmpty | links.py:78-81 | the AutoScout link is "" exactly when the raw brand or model is empty |
| Links.AutoScoutPunctuationBrand | links.py:78-84 | a brand "!" still gives an AutoScout link, but no Kleinanzeigen link |
| Links.AutoScoutQuery | links.py:117-127 | the seven fixed parameters come first; the year range is present exactly when a year was found, the km range exactly when km is a number |
| Links.GearPrecedence | links.py:110-111 | "auto" wins over "schalt"/"man" |
| Links.AutoScoutFuelCodes | links.py:106-108 | the fuel map yields only B, D, E or H |
| Links.SubDropsToKept | links.py:138 | deleting the runs outside [a-z0-9- ] keeps exactly the characters inside it, in order |
| Links.CarwowLinkSlug | links.py:136-139 | the carwow slug is the [a-z0-9- ] characters of the stripped, lower-cased text, in order, with each space turned into '-' |
| Links.CarwowLinkSlugChars | links.py:136-139 | it holds only lower-case letters, digits and '-' |
| Links.CarwowLinkUrl | links.py:148-151 | the link is "" exactly when either slug is empty |
| Links.CarwowLinkBand | links.py:154-158 | the lower bound is at least 0, and for a non-negative km the band contains km |
| Prices.Average | providers/ka_stats.py:58 | the average of no prices is 0; otherwise it is within half a unit of sum/count |
| Prices.AverageWithin | providers/ka_stats.py:57-58 | the average of prices in a window lies in that window |
| Prices.SumBounds | providers/ka_stats.py:58 | the sum of prices in a window lies between count x lo and count x hi |
| Prices.Summary | providers/ka_stats.py:57-59 | the answer is ok, counts the prices, carries the URL, and averages 0 when there are none |
| Prices.LooseNumberCutsLongRuns | providers/ka_stats.py:12 | the number pattern as written reads "12345 €" as 123 |
| Prices.GroupedNumberReadsRuns | autoscout_stats.py:14 | the corrected pattern reads "12345 €" as 12345 and "12.345 €" as 12.345 |
| Prices.GroupedNumberAtLongRun | autoscout_stats.py:14 | a run of more than three digits is read whole |
| Prices.LooseNumberAtLongRun | providers/ka_stats.py:12 | the pattern as written matches only the first three digits of a longer digit run |
| Prices.ReadPriceOfLongRun | providers/ka_stats.py:33-38 | a text starting with more than three digits reads, as written, the value of its first three digits, and with the intended pattern the value of the whole run, each kept only inside the window |
| Prices.LooseKeepsWrongPrice | providers/ka_stats.py:12 | as written, "5750 €" reads as 575, which a window from 500 keeps; the intended pattern reads 5750 |
| Prices.LooseDropsFourDigitPrice | providers/ka_stats.py:12 | as written, "1234 €" reads as 123 and falls out of a window from 500; the intended pattern reads 1234 |
| Prices.ReadPrice | providers/ka_stats.py:33-38 | a price read from a text with the provider's number pattern lies in the window |
| Prices.PriceListWithin | providers/ka_stats.py:27-40 | all prices read lie in the window, at most one per text |
| Prices.PriceListConcat | providers/ka_stats.py:30-39 | texts are read one by one, in order |
| KaStats.AutosMatch | providers/ka_stats.py:17 | the matched prefix ends in '/' |
| KaStats.InsertPoint | providers/ka_stats.py:17 | the insertion point follows a '/' |
| KaStats.Page2UrlInserts | providers/ka_stats.py:14-17 | the second-page URL is the URL itself or the URL with "seite:2/" inserted after a '/', and a changed URL contains "/seite:" |
| KaStats.Page2UrlIdempotent | providers/ka_stats.py:14-17 | applying it twice equals applying it once (app.py:937-945 is the same function) |
| KaStats.CountReadsDigits | providers/ka_stats.py:19-25 | a count written with dots, spaces or NBSP reads as its digits |
| KaStats.ReadPrices | providers/ka_stats.py:27-40 | the loop returns the page prices read with the pattern as written, all in [500, 300000], in match order |
| KaStats.PagePricesOfFourDigitAmounts | providers/ka_stats.py:27-40 | cards reading "5750 €" and "1234 €" give the single price 575 |
| KaStats.FetchKaStats | providers/ka_stats.py:42-61 | the answer is the statistics of the first and second page responses, with prices read by the pattern as written |
| KaStats.SecondPageOnlyWhenShort | providers/ka_stats.py:50-54 | the second page matters only when a count was announced and the first page had fewer prices |
| KaStats.GatheredWithin | providers/ka_stats.py:49-56 | the gathered prices lie in [500, 300000], and no more than a positive announced count |
| KaStats.StatsBounds | providers/ka_stats.py:55-61 | the answer is always ok with the URL; the count is at most a positive announced count; the average lies in [500, 300000], or is 0 with no prices |
| KaStats.SecondPageErrorLosesFirst | providers/ka_stats.py:50-61 | an exception on the second page discards the first page's prices too |
| AutoScoutStats.ParsePrices | autoscout_stats.py:4-35 | the loop with its early stop returns the in-window prices cut to a positive header total |
| AutoScoutStats.StopsAtLimit | autoscout_stats.py:33-34 | stopping at the limit returns the same prices as cutting the full list |
| AutoScoutStats.PagePricesWithin | autoscout_stats.py:22-35 | the prices lie in [500, 300000], no more than a positive limit |
| AutoScoutStats.Page2Url | autoscout_stats.py:53 | the second page is URL + "&page=2" when the URL has '?', else URL + "?page=2" |
| AutoScoutStats.FetchAutoScoutStats | autoscout_stats.py:37-63 | the answer is the summary of the gathered prices |
| AutoScoutStats.GatheredBounds | autoscout_stats.py:43-59 | the prices lie in the window; without a good second page they are the first page's; otherwise they are cut to the announced count |
| AutoScoutStats.StatsAverage | autoscout_stats.py:61-63 | the answer is ok, and the average of any prices lies in [500, 300000] |
| CarwowStats.LooksBlockedIgnoresCase | providers/carwow_stats.py:20-24 | the block test does not depend on letter case |
| CarwowStats.AccessDeniedIsBlocked | providers/carwow_stats.py:16-24 | "Access Denied" is a block page |
| CarwowStats.ToIntReadsDigits | providers/carwow_stats.py:45-59 | a number with dots and the five space characters reads as its digits, or 0 when it has none |
| CarwowStats.ExtractCount | providers/carwow_stats.py:83-91 | the id header wins, then the class fallback, then the generic pattern, else 0 |
| CarwowStats.Cleaned | providers/carwow_stats.py:29-43 | every block is cleaned on its own |
| CarwowStats.JsonPrice | providers/carwow_stats.py:129-134 | a JSON price lies in [500, 300000] |
| CarwowStats.JsonPrices | providers/carwow_stats.py:126-136 | so do all of them |
| CarwowStats.ExtractPrices | providers/carwow_stats.py:110-138 | the two loops return the card prices read with the pattern as written, or the JSON prices when the cards give none |
| CarwowStats.PagePricesWithin | providers/carwow_stats.py:110-138 | every price lies in [500, 300000], and card prices win when there are any |
| CarwowStats.JsonCentsRounding | providers/carwow_stats.py:131-132 | cents become euros rounded to the nearest, ties to even |
| CarwowStats.FetchCarwowStats | providers/carwow_stats.py:142-160 | the answer is the statistics of the response (card prices read with the pattern as written), or of nothing when the request raised |
| CarwowStats.StatsOutcome | providers/carwow_stats.py:147-160 | ok exactly when the request went through with status below 400 to a page that is not blocked; a failure carries no numbers and the error "blocked" or "net:<name>"; an ok answer counts at most a positive announced count and averages in [500, 300000] |
| CarwowStats.CappedSummary | providers/carwow_stats.py:153-158 | cutting to the announced count keeps the count within it and the average in the window |
| CarwowStats.Bounds | providers/carwow_stats.py:192-200 | km bounds are given only for a positive km, and the lower one is at least 0 |
| CarwowStats.CarwowSearchUrl | providers/carwow_stats.py:170-178 | the link is "" exactly when either slug is empty |
| CarwowStats.CarwowUrlEmpty | providers/carwow_stats.py:165-178 | that is when the brand or model has no letter or digit |
| CarwowStats.LowerBoundReadsBack | providers/carwow_stats.py:215-216 | the lower bound is written as a decimal that reads back to itself |
| CarwowStats.ZeroKmDiffers | providers/carwow_stats.py:198 | for 0 km this builder sends no bounds, while the links.py builder sends 0..0 |
| Mobile.IsMobileSearchUrlIgnoresCase | app.py:1141-1145 | the URL test does not depend on case and refuses "" |
| Mobile.ExtractCount | app.py:1204-1235 | the count is never negative, and 0 for an empty page |
| Mobile.ExtractCountOrder | app.py:1204-1235 | the title count wins when positive, then the sticky bar, then the generic pattern; 0 exactly when none gives a positive number |
| Mobile.NormDigits | app.py:1205-1209 | a count of digits reads as its value |
| Mobile.ZeroTitleFallsThrough | app.py:1216-1226 | a title count of 0 falls through to the sticky bar |
| Mobile.ReadAll | app.py:1269-1282 | the span loop reads the prices in order, with the pattern as written |
| Mobile.ExtractPrices | app.py:1259-1303 | the span prices, or the block prices when the spans give none, both read with the pattern as written |
| Mobile.SpanPricesOfFourDigitAmounts | app.py:1269-1282 | price labels reading "5750 €" and "1234 €" give the single price 575 |
| Mobile.PagePricesWithin | app.py:1259-1303 | every price lies in [500, 500000], and span prices win when there are any |
| Mobile.MobileStats | app.py:1307-1336 | the endpoint answers the statistics of the responses for the stripped URL and its second page, with prices read by the pattern as written |
| Mobile.GatheredWithin | app.py:1318-1322 | the prices stay in the window; with a second page they are cut to the announced count, otherwise they are the first page's |
| Mobile.StatsOutcome | app.py:1308-1336 | an invalid URL is refused before any request; a failure carries no numbers; an ok answer comes from a response and averages in [500, 500000]; announced offers with no price is a failure |
| Mobile.StatsCountCut | app.py:1318-1322 | when the second page was read, the count is at most the announced one |
| Mobile.SecondPageOnlyWhenShort | app.py:1318 | the second page matters only when offers were announced and the first page had fewer prices |
| App.ParseIntRoundTrip | app.py:187-193 | the decimal of any integer reads back as itself; None or "" gives the default |
| App.RStripPercent | app.py:225 | stripping trailing '%' leaves a prefix that does not end in '%', and removes only '%' |
| App.PostalPatternShape | app.py:221-225 | the postal pattern is the code without trailing '%', followed by one '%' |
| App.Clauses | app.py:197-244 | one clause per filter, in order |
| App.Args | app.py:197-244 | one argument per filter, in order |
| App.Append | app.py:202-244 | appending a filter appends its clause and its argument |
| App.AddFirst | app.py:197-219 | the first group of filters is added in its fixed order |
| App.AddLast | app.py:221-244 | the postal, city, pictures and posting-age filters follow |
| App.BuildWhere | app.py:197-248 | the WHERE text and the arguments are those of the filters of the form |
| App.BuildQuery | app.py:196-264 | `build_query` returns the WHERE text, the arguments and the ORDER BY of the form |
| App.SqlMark | app.py:202-243 | every clause holds exactly one '?' |
| App.BeforeNoMark | app.py:202-243 | no column text holds a '?' |
| App.WhereMarks | app.py:248 | the joined WHERE holds one '?' per clause, and is "" exactly when there are none |
| App.PlaceholdersMatchArgs | app.py:197-248 | there is exactly one argument per '?' placeholder, and no WHERE without a filter |
| App.EmptyFormNoWhere | app.py:196-248 | a form with only empty fields gives no filter |
| App.PostalArgIsPrefixPattern | app.py:221-225 | a postal code adds a LIKE filter with the prefix pattern, which ends in '%' |
| App.DaysFilter | app.py:240-244 | a negative posting age adds no filter; a non-negative one adds the date filter last |
| App.OrderEndsWithLastSeen | app.py:250-260 | every order ends with last_seen, and without a sort parameter it is the posted_desc order |
| App.AtLeastOne | app.py:280-281 | page and per_page are at least 1 (0 gives the default, a negative number 1) |
| App.PageWindow | app.py:280-282 | page >= 1, per_page >= 1, offset = (page - 1) x per_page |
| App.PageWindowReads | app.py:280-282 | numbers are read as given; missing or junk values give the defaults |
| App.PaginationMeetsRows | app.py:304-329 | has_next exactly when more rows exist beyond this page, has_prev exactly when the offset is positive |

## Left out

- HTTP requests, BeautifulSoup selection, `html.unescape` and the page-level regular expressions: their results are inputs (captured texts, article records, detail items, count groups).
- Python's Unicode case mapping and `\d`/`int()` beyond ASCII digits: `lower()` is modelled for ASCII letters and for Ä, Ö and Ü, and digits are ASCII.
- Flask plumbing: routes, SQLite reads, templates, `add_no_cache_headers`, and `api_mobile_count`, which repeats the mobile count path.
- statics/sw.js, gen_vapid.py and runner.py: a service worker, key generation and a process loop. None of them holds core logic.
- `init_db`, `ensure_column` and `get_conn`: schema setup. The row shape is a map from column to value.
- `time.sleep` pacing in `sync_once`, and real threading in `/api/sync`: the lock is a flag in a sequential model.
- `print` warnings: `sync_once` and detail failures are an `Option`/`Attempt` outcome, and the warning text is not modelled.
- The duplicate builders and providers in app.py (lines 45-175, 952-1103) are modelled once, through links.py and the provider files. This includes the unreachable code after `return`.
- Mobile.MobileStats: `_page2_mobile` (query rebuilding through `urllib.parse`) is a parameter, not modelled.
- Store.ListingStore.Upsert: it requires at least one column besides id. An id-only payload makes an empty `WHERE`, which SQLite rejects, and a payload without id fails the assert.
- Store.ListingStore.Upsert: its payload may name only data columns. A payload naming first_seen, last_seen or status is refused, though db.py does not guard against it; `sync_once` never sends one.
- Store.ListingStore.Upsert: the price-log row carries the same time as the row write. In SQLite it is a separate statement, which reads the clock a moment later.
- Guard.SyncGuard.ApiSync: `init_db` and exceptions raised by the sync itself are not modelled. The sync always finishes.
- Links.KmBand: `int(km * 0.9)` is modelled as the exact decimal floor `(9 * km) / 10`. The double product can differ by one for some km.
- CarwowStats.Bounds: `int(round(km * 0.9))` and `int(round(km * 1.1))` are parameters, because their floating-point ties are not modelled. Only the positivity guard and `gte >= 0` are stated.
- Scrape.ParsePostedAt: the current date is a parameter. Years outside 1..9999 are refused the way `datetime` refuses them, but Python's strftime formatting is not modelled.
- Prices.Average: the float quotient `sum / count` is modelled as the exact rational, rounded half to even.
- The generic `except Exception` branches of the providers are modelled as a raised request. Other exceptions are not.
- The AutoScout header pattern in `fetch_autoscout_stats` and the one in `_parse_prices_from_html_as` are two separate inputs (`headText`, `limitText`), not one regex.

## Findings

| source | as written | input that shows it | evidently intended | confidence | as-written member | corrected member |
|---|---|---|---|---|---|---|
| providers/ka_stats.py:12 (also providers/carwow_stats.py:61, app.py:1202) | the price pattern `\d{1,3}(?:[.\s]\d{3})*\|\d+` always takes its first branch, which stops after three digits when no separator follows, so the `\d+` branch never runs | "5750 €" reads as 575, which the [500, 300000] window keeps, so a wrong price is averaged; "1234 €" reads as 123 and the price is lost | an unseparated amount is read whole, as the AutoScout pattern (`+` instead of `*`, autoscout_stats.py:14) does | medium, not executed | Prices.LooseKeepsWrongPrice | Prices.GroupedNumberReadsRuns |
