# EGMSweb retrieval core in Dafny

EGMSweb is a Streamlit page that downloads European Ground Motion Service (EGMS)
products. For an L3 tile (east/north coordinates in 100 km units, and a
displacement channel E or U), or for an L2A/L2B burst (relative orbit, burst cycle,
swath and polarization), it builds an archive URL and an expected CSV filename prefix.
It fetches the zip archive and keeps the first CSV entry whose name carries the prefix.
The batch modes repeat this over a rectangle of tiles or a range of orbits and burst
cycles. They collect the kept CSV files in task order and bundle them into one zip
archive offered for download.

This project models that core:

- `text.dfy` (`Text`): Python's `f"{x}"` and `f"{x:0wd}"` formatting of integers,
  `str.endswith`, and the substring test `in`.
- `archive.dfy` (`Archive`): a zip archive as a sequence of named entries. It covers
  the payload scan inside `fetch_file_data` and `create_batch_zip`.
- `request.dfy` (`RequestIdentity`): the URL and prefix that `fetch_file_data` derives
  from its arguments, including the missing-parameter refusal of the L2 branch.
- `fetch.dfy` (`TileFetcher`): `fetch_file_data` as a whole. The HTTP request is an
  oracle `net` that maps the request's position in the run and its URL to a response.
  Each of the four `(None, None)` returns carries its reason.
- `enumeration.dfy` (`Enumeration`): `range(lo, hi + 1)` and the iteration order of
  nested `for` loops.
- `aggregate.dfy` (`Aggregate`): the `files_data` list (`if csv_data and csv_filename`),
  the archive names, and the choice between a bare CSV file and a zip archive.
- `batch.dfy` (`Batch`): the download blocks of `main`. These are the single-file L2
  and L3 blocks and the L3 and L2 batch blocks, with their task counter, as methods with
  loops. Each method is proved against the specification functions above.

The L2 URL writes the level as `L2a`/`L2b`, while the filename prefix keeps the data
type as given (`L2A`/`L2B`), so the two differ in that token (`RequestIdentity.L2Identity`).
As a consequence, a CSV named after the archive the URL asks for never carries the
prefix (`RequestIdentity.L2PrefixMissesArchiveName`).

A payload is picked by name: the scan stops at the first name that ends in ".csv" and
carries the prefix, and `z.read(name)` then opens the member the archive's name table
holds for that name, which is the last member stored under it. The model reads the same
way (`Archive.Read`), so repeated names are covered. Readability belongs to the
members of a downloaded archive (`Archive.Member`); the pairs of `files_data` carry
Python's `None` where `create_batch_zip` would skip them (`Archive.Entry`).

## Model

| member | source | states |
|---|---|---|
| Text.IntTextRoundTrip | egms_web.py:63-65 | the decimal text of a coordinate reads back as that coordinate |
| Text.IntText | egms_web.py:63 | `f"{x}"`: a non-negative number is written in digits only, a negative one as "-" and digits |
| Text.IntTextInjective | egms_web.py:63 | distinct coordinates are written as distinct texts |
| Text.ZeroPadReadsBack | egms_web.py:447-448 | `:0wd` of a number below 10^w is exactly w digits that read back as the number |
| Text.ZeroPadWide | egms_web.py:447-448 | a number at or above 10^w is written in full, never truncated to w digits |
| Text.ZeroPad | egms_web.py:447-448 | `f"{x:0wd}"` is at least w characters, all digits for a non-negative number |
| Text.EndsWith | egms_web.py:93 | `s.endswith(suffix)`: the last \|suffix\| characters of s are the suffix (see `Aggregate.EndsWithSuffix`) |
| Text.Contains | egms_web.py:93 | `sub in s`: sub occurs at some position of s (see `RequestIdentity.L2PrefixMissesArchiveName`) |
| Archive.FirstCsv | egms_web.py:92-93 | the position found is a CSV entry carrying the prefix, with no such entry before it; none is found exactly when no entry qualifies |
| Archive.IsCsvFor | egms_web.py:93 | `name.endswith(".csv") and filename_prefix in name` (see `FirstCsv`) |
| Archive.LastNamed | egms_web.py:94 | the member the name table holds for a name is the last one stored under it, and there is none exactly when no entry has the name |
| Archive.Read | egms_web.py:94 | `z.read(name)` gives the content of the last member stored under the name, and raises when there is none |
| Archive.ReadOutcome | egms_web.py:94-104 | a readable payload returns its bytes under its name; an unreadable one ends in the exception branch |
| Archive.Extract | egms_web.py:91-100 | a fetched result carries the name of the first matching entry and the content that reading that name yields; "no matching CSV" happens exactly when no entry matches; every other failure is an exception |
| Archive.ExtractCsv | egms_web.py:91-100 | the loop over `namelist()` returns what the scan specification gives, leaving at the first matching name and reading it by name |
| Archive.LaterEntriesIgnored | egms_web.py:92-97 | entries after the first matching CSV never change which name is returned; the data changes only when they repeat that name, and is then read from the last repetition |
| Archive.FirstMatchIsFound | egms_web.py:92-97 | a matching entry with no matching entry before it is the one the scan finds |
| Archive.ExtractSucceeds | egms_web.py:91-100 | the scan succeeds if and only if there is a matching entry and reading the first matching name does not raise |
| Archive.ReadmeThenCsv | egms_web.py:91-97 | an archive holding a readme and then the tile's CSV yields that CSV under its own name |
| Archive.ReadAppend | egms_web.py:94 | reading from two runs of entries in a row takes the later run's member whenever it holds the name |
| Archive.DistinctNamesReadInPlace | egms_web.py:92-94 | with no repeated names, reading the matched name gives that entry's own data |
| Archive.RepeatedNameReadsLast | egms_web.py:92-97 | for two members under one CSV name, the first is matched and the second's data is returned |
| Archive.ZipContents | egms_web.py:110-113 | the archive holds only entries with data, each one from the list handed over |
| Archive.CreateBatchZip | egms_web.py:106-116 | the writing loop stores exactly the pairs whose data is not None, in order |
| Archive.ZipContentsAppend | egms_web.py:111-113 | archiving a concatenation is the concatenation of the archives |
| Archive.ZipContentsMembers | egms_web.py:111-113 | an entry is in the archive if and only if it was handed over with data |
| Archive.ZipContentsKeepsAll | egms_web.py:111-113 | when every pair has data, the archive is the list itself, in order |
| RequestIdentity.Identify | egms_web.py:62-80 | an L3 request always gets an identity; any other gets one if and only if all four orbit parameters are truthy |
| RequestIdentity.Truthy | egms_web.py:67 | Python truthiness of a string parameter or `None` (see `Identify`) |
| RequestIdentity.HasOrbitParameters | egms_web.py:67 | `all([relative_orbit, burst_cycle, swath, polarization])` (see `Identify`) |
| RequestIdentity.L3Url | egms_web.py:65 | `BASE_URL_L3` filled with data type, tile, channel, year and token (stated by `L3Identity`) |
| RequestIdentity.L3Prefix | egms_web.py:63-64 | `EGMS_{data_type}_E{e}N{n}_100km_{d}_{year}_1` (stated by `L3Identity`) |
| RequestIdentity.L2Url | egms_web.py:72-80 | `BASE_URL_L2` filled with level, orbit, burst cycle, swath, polarization, year and token (stated by `L2Identity`) |
| RequestIdentity.L2Prefix | egms_web.py:71 | `EGMS_{data_type}_{orbit}_{burst}_{swath}_{pol}_{year}_1` (stated by `L2Identity`) |
| RequestIdentity.L2Level | egms_web.py:73 | "L2a" for data type "L2A", "L2b" for any other (stated by `L2Identity`) |
| RequestIdentity.L3Identity | egms_web.py:62-65 | the L3 prefix is `EGMS_L3_E{e}N{n}_100km_{d}_{year}_1`, and the URL asks for the archive of that name with the token |
| RequestIdentity.L2Identity | egms_web.py:66-80 | the L2 prefix keeps the data type, while the URL is the same name with the level written `L2a`/`L2b` |
| RequestIdentity.L3PrefixInjective | egms_web.py:63-64 | equal L3 prefixes of one year mean the same tile and channel |
| RequestIdentity.L2PrefixMissesArchiveName | egms_web.py:71-80 | for L2A and L2B, the prefix never occurs in a CSV named after the archive the URL asks for |
| TileFetcher.Receive | egms_web.py:82-104 | a success needs status 200 and a zip body; a status other than 200 gives that status as the failure |
| TileFetcher.Fetch | egms_web.py:59-104 | "missing parameters" happens if and only if a non-L3 request lacks an orbit parameter; a success is a CSV carrying the request's prefix |
| TileFetcher.FetchFileData | egms_web.py:59-104 | the imperative fetch returns the specified outcome, and sends a request, to the identity's URL, unless parameters are missing |
| TileFetcher.FetchFailsExactly | egms_web.py:82-104 | a complete request fails if and only if the transport raises, the status is not 200, the body is not a zip, or no first matching CSV name reads back |
| TileFetcher.MissingParametersSendNothing | egms_web.py:67-69 | a request lacking parameters has the same outcome whatever the server would answer |
| Enumeration.Span | egms_web.py:343-344 | `range(lo, hi + 1)` holds hi - lo + 1 consecutive integers from lo, and nothing when lo > hi |
| Enumeration.Row | egms_web.py:251 | one pass of an inner loop under a fixed outer value: the inner values in order, each paired with it |
| Enumeration.Pairs | egms_web.py:343-345 | the iterations of two nested `for` loops in the order they run (see `PairsLength`, `PairsAt`, `PairsMembers`) |
| Enumeration.PairsLength | egms_web.py:343-345 | nested loops run the product of the lengths |
| Enumeration.PairsAt | egms_web.py:343-345 | the j-th inner iteration under the i-th outer value comes after the \|ys\| iterations of each earlier outer value, and pairs the i-th outer with the j-th inner value |
| Enumeration.PairsMembers | egms_web.py:343-345 | every iteration pairs an outer value with an inner value |
| Enumeration.NestedAt | egms_web.py:343-345 | for three nested loops, the iteration after a full middle-and-inner rounds, b full inner rounds and c steps is the a-th, b-th and c-th value |
| Enumeration.Nested4At | egms_web.py:439-442 | the same position rule for four nested loops |
| Enumeration.OffsetIsProduct | egms_web.py:340 | i rounds of m iterations are i * m iterations, the product `total_tasks` is built from |
| Aggregate.KeptPositions | egms_web.py:352-353 | the kept positions are in range, strictly increasing, and cover every kept result |
| Aggregate.Kept | egms_web.py:352 | `if csv_data and csv_filename`: a result is kept only when fetched with non-empty data and name (see `NoSuccessesIffAllFailed`) |
| Aggregate.Results | egms_web.py:351 | the k-th request of a run is sent as the k-th call and has its own fetch outcome |
| Aggregate.Pair | egms_web.py:353 | the `(csv_filename, csv_data)` tuple appended for a kept result |
| Aggregate.Successes | egms_web.py:351-353 | `files_data` after the loop has at most one pair per task (see `SuccessesAreKeptInOrder`) |
| Aggregate.SuccessesAreKeptInOrder | egms_web.py:352-353 | `files_data` is the kept results as pairs, read off in task order |
| Aggregate.SuccessesAppend | egms_web.py:352-353 | collecting over two runs in a row is collecting each one in turn |
| Aggregate.NoSuccessesIffAllFailed | egms_web.py:360-368 | no file is offered if and only if every task failed or fetched an empty file |
| Aggregate.CollectedAreCsv | egms_web.py:351-353 | every collected file is a CSV entry with non-empty data, carrying the prefix of a request of the run |
| Aggregate.SingleFileDelivery | egms_web.py:265-277 | nothing when no file was kept, the bare CSV when exactly one was, otherwise a zip archive under the tile's name |
| Aggregate.BatchDelivery | egms_web.py:360-365 | nothing when no file was kept, otherwise always a zip archive under the batch name |
| Aggregate.DeliveredArchiveHoldsAll | egms_web.py:265-275 | the offered archive holds exactly the collected files, in order, in both the batch and the single-file blocks; a single collected file is offered with its non-empty bytes |
| Aggregate.L3TileZipName | egms_web.py:272 | `EGMS_L3_E{e}N{n}_{year}_batch.zip` (see `ZipNamesEndInZip`) |
| Aggregate.L3BatchZipName | egms_web.py:361 | `EGMS_L3_E{min_e}-{max_e}_N{min_n}-{max_n}_{year}_batch.zip` (see `ZipNamesEndInZip`) |
| Aggregate.L2BatchZipName | egms_web.py:466 | `EGMS_{data_type}_batch_{year}.zip` (see `ZipNamesEndInZip`) |
| Aggregate.ZipNamesEndInZip | egms_web.py:360-371 | every archive name ends in ".zip", so the batch download button is shown |
| Aggregate.MimeType | egms_web.py:282 | "application/zip" for a name ending in ".zip", otherwise "text/csv" (see `MimeMatchesDownload`) |
| Aggregate.MimeMatchesDownload | egms_web.py:281-282 | the button's MIME type is "application/zip" exactly when an archive is offered |
| Batch.Displacements | egms_web.py:331-334 | at least one channel is requested, and for the radio's three options every channel is "E" or "U" |
| Batch.L3Request | egms_web.py:351 | the call `fetch_file_data(e, n, d, "L3", year, id_value)` |
| Batch.L2Request | egms_web.py:447-456 | the L2 call with orbit and burst cycle formatted by `:03d` and `:04d` (see `L2PaddingReadsBack`) |
| Batch.L3Tasks | egms_web.py:343-345 | the L3 batch's tasks, east outermost, then north, then channel (see `L3TaskOrder`, `L3TaskCount`) |
| Batch.L3Requests | egms_web.py:351 | one L3 call per task, in task order, with the task's tile and channel |
| Batch.L2Tasks | egms_web.py:439-442 | the L2 batch's tasks, orbit, burst cycle, swath, polarization from the outside in (see `L2TaskOrder`, `L2TaskCount`) |
| Batch.L2Requests | egms_web.py:453-456 | one L2 call per task, in task order, with the task's padded orbit and burst cycle, swath and polarization |
| Batch.CountsUpTo | egms_web.py:346 | the counter shows 1, 2, ..., count in turn |
| Batch.SingleL2Download | egms_web.py:197-202 | one request with the parameters as typed; a kept result is offered as a bare CSV, otherwise nothing is offered |
| Batch.SingleL3Download | egms_web.py:241-278 | the collected files are the kept results of the selected channels of one tile, and the offer is the single-file delivery for them |
| Batch.FetchChannels | egms_web.py:251-260 | the channel loop collects the kept results of the tile's channels, in channel order |
| Batch.OfferTileFiles | egms_web.py:265-277 | nothing is offered for no file, the file itself for one, and an archive of all of them under the tile's name otherwise |
| Batch.SingleTileTasks | egms_web.py:251-256 | the single-file block makes the same requests, in the same order, as a batch over the one tile |
| Batch.CollectL3 | egms_web.py:351-353 | one loop pass appends the kept result of its request to `files_data` |
| Batch.L3Task | egms_web.py:346-353 | one task advances the counter by one and collects the task's result |
| Batch.L3TileTasks | egms_web.py:345-353 | the channel loop runs the tasks of one tile in channel order |
| Batch.L3EastTasks | egms_web.py:344-353 | the north loop runs the tasks of one east column in order |
| Batch.BatchL3Download | egms_web.py:330-365 | the counter goes through 1..number of tasks; the files are the kept results of all tasks in loop order; the offer is the batch delivery |
| Batch.RunL3Batch | egms_web.py:336-355 | after the east loop the counter has shown 1..number of tasks and the files are the kept results of every task, in loop order |
| Batch.OfferBatchFiles | egms_web.py:360-365 | nothing is offered when no file was kept; otherwise an archive of all kept files under the batch name |
| Batch.L2Task | egms_web.py:443-458 | one task advances the counter, pads orbit and burst cycle, and collects the result |
| Batch.L2PolarizationTasks | egms_web.py:442-458 | the polarization loop runs the tasks of one swath in order |
| Batch.L2SwathTasks | egms_web.py:441-458 | the swath loop runs the tasks of one burst cycle in order |
| Batch.L2OrbitTasks | egms_web.py:440-458 | the burst-cycle loop runs the tasks of one orbit in order |
| Batch.RunL2Batch | egms_web.py:433-460 | after the orbit loop the counter has shown 1..number of tasks and the files are the kept results of every task, in loop order |
| Batch.BatchL2Download | egms_web.py:421-470 | the block runs if and only if a swath and a polarization are selected; the counter and files are as for the L3 batch; the offer is the batch delivery |
| Batch.L3TaskCount | egms_web.py:340-345 | the L3 batch sends the announced `total_tasks` requests when both ranges are non-empty, and none otherwise |
| Batch.L2TaskCount | egms_web.py:422-442 | the L2 batch sends the announced `total_combinations` requests when both ranges are non-empty, and none otherwise |
| Batch.L3TaskOrder | egms_web.py:343-345 | east is the outermost loop, north the middle one and the channel the innermost, at the stated position |
| Batch.L2TaskOrder | egms_web.py:439-442 | orbit, burst cycle, swath and polarization nest from the outside in, at the stated position |
| Batch.L2PaddingReadsBack | egms_web.py:447-448 | for the form's ranges (orbit 1..999, burst cycle 1..9999), the padded texts are 3 and 4 digits that read back as the numbers |
| Batch.L2BatchSendsEveryRequest | egms_web.py:453-456 | with non-empty swath and polarization names, no batch request is refused for missing parameters |
| Batch.L2TaskMembers | egms_web.py:441-442 | every L2 batch task names one of the selected swaths and one of the selected polarizations |

## Left out

- The Streamlit interface is not modelled. This covers widgets, columns, the spinner, the
  success/error/info/warning messages, the progress bar's fraction and status texts, and
  the download buttons themselves. The session state (`download_ready`, `download_data`,
  `download_filename`) is summarised by the returned `Option<Delivery>`. `None` means the
  block set no download state.
- The MIME types and labels of the L2 single-file and batch buttons are fixed strings. Only
  the L3 single-file choice between "application/zip" and "text/csv" is modelled.
- The HTTP request (`curl_requests.get`, timeout 3000 s) is an oracle parameter. The network,
  timeouts and exceptions other than the handled ones are not modelled. Every exception inside
  the `try` is the single failure `Raised`.
- Zip compression, CRCs and the byte layout of archives are not modelled. An archive is its
  sequence of entries. `create_batch_zip` returns those entries, not the compressed bytes.
- `sleep(1)` between requests, the `DELAY` constant and the pacing they give are not modelled.
- `convert_coordinates`, `init_transformer` (pyproj) and the geocoder are not part of this
  model. Neither is the page layout of `main` outside the download blocks.
- The nested loops of each batch block are written as one method per nesting level
  (`Batch.L3TileTasks`, `Batch.L3EastTasks`, and the L2 counterparts). They are called
  in the source's nesting order, so the tasks run in the same order. Each download block
  is likewise split into its loops (`Batch.FetchChannels`, `Batch.RunL3Batch`,
  `Batch.RunL2Batch`) and its final offer (`Batch.OfferTileFiles`, `Batch.OfferBatchFiles`).
- The progress fractions (`i / len(displacements)`, `task_count / total_tasks`) are not
  modelled. The counter values behind them are.
- The `st.info` totals shown before a batch starts are not returned. The L3 batch's
  `total_tasks` and the L2 batch's `total_combinations` are. They match the number of
  requests whenever the loops run (`Batch.L3TaskCount`, `Batch.L2TaskCount`).
