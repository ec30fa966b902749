/** The four download blocks of `main` with the user interface taken away: each
    enumerates its tasks, fetches them one after another, keeps the successful CSV
    files in order and decides what is offered for download. Progress is reported by
    the task counter shown in the status line; `None` for the delivery means the block
    set no download state. */
module Batch {
  import opened Wrappers
  import opened Text
  import opened Archive
  import opened RequestIdentity
  import opened TileFetcher
  import opened Enumeration
  import opened Aggregate

  /** The displacement channels for the radio choice "E", "U" or "Both". */
  function Displacements(choice: string): (ds: seq<string>)
    ensures |ds| >= 1
    ensures choice == "E" || choice == "U" || choice == "Both" ==>
              forall i :: 0 <= i < |ds| ==> ds[i] == "E" || ds[i] == "U"
  {
    if choice == "Both" then ["E", "U"] else [choice]
  }

  /** The call `fetch_file_data(e, n, d, "L3", year, id_value)`. */
  function L3Request(e: int, n: int, d: string, year: string, token: string): Request {
    Request(e, n, d, "L3", year, token, None, None, None, None)
  }

  /** The call `fetch_file_data(0, 0, "", data_type, year, id_value, rel_orbit_str,
      burst_cycle_str, swath, polarization)` with orbit and burst cycle zero-padded. */
  function L2Request(dataType: string, orbit: int, burst: int, swath: string, polarization: string,
                     year: string, token: string): Request
  {
    Request(0, 0, "", dataType, year, token,
            Some(ZeroPad(orbit, 3)), Some(ZeroPad(burst, 4)), Some(swath), Some(polarization))
  }

  /** The L3 batch tasks: east outermost, then north, then the channel. */
  function L3Tasks(minE: int, maxE: int, minN: int, maxN: int, ds: seq<string>): seq<(int, (int, string))> {
    Pairs(Span(minE, maxE), Pairs(Span(minN, maxN), ds))
  }

  function L3Requests(tasks: seq<(int, (int, string))>, year: string, token: string): (rs: seq<Request>)
    ensures |rs| == |tasks|
  {
    seq(|tasks|, k requires 0 <= k < |tasks| => L3Request(tasks[k].0, tasks[k].1.0, tasks[k].1.1, year, token))
  }

  /** The L2 batch tasks: orbit outermost, then burst cycle, then swath, then polarization. */
  function L2Tasks(minOrbit: int, maxOrbit: int, minBurst: int, maxBurst: int,
                   swaths: seq<string>, pols: seq<string>): seq<(int, (int, (string, string)))>
  {
    Pairs(Span(minOrbit, maxOrbit), Pairs(Span(minBurst, maxBurst), Pairs(swaths, pols)))
  }

  function L2Requests(dataType: string, tasks: seq<(int, (int, (string, string)))>, year: string,
                      token: string): (rs: seq<Request>)
    ensures |rs| == |tasks|
  {
    seq(|tasks|, k requires 0 <= k < |tasks| =>
      L2Request(dataType, tasks[k].0, tasks[k].1.0, tasks[k].1.1.0, tasks[k].1.1.1, year, token))
  }

  /** The counter values 1, 2, ..., count. */
  predicate CountsUpTo(counters: seq<nat>, count: nat) {
    |counters| == count && forall i :: 0 <= i < |counters| ==> counters[i] == i + 1
  }

  /** One step of a run: the k-th request's result is appended to `files_data` when kept. */
  lemma CollectStep(reqs: seq<Request>, r: Request, net: Network)
    ensures Successes(Results(reqs + [r], net))
         == Successes(Results(reqs, net))
            + (if Kept(Fetch(r, net, |reqs|)) then [Pair(Fetch(r, net, |reqs|))] else [])
  {
    var outs := Results(reqs + [r], net);
    assert outs[..|outs| - 1] == Results(reqs, net);
  }

  /** One more L3 task: its request is appended to the run's requests. */
  lemma L3Step(done: seq<(int, (int, string))>, e: int, n: int, d: string, year: string, token: string,
               net: Network)
    ensures var o := Fetch(L3Request(e, n, d, year, token), net, |done|);
            (Successes(Results(L3Requests(done + [(e, (n, d))], year, token), net))
             == Successes(Results(L3Requests(done, year, token), net)) + (if Kept(o) then [Pair(o)] else []))
  {
    var r := L3Request(e, n, d, year, token);
    assert L3Requests(done + [(e, (n, d))], year, token) == L3Requests(done, year, token) + [r];
    CollectStep(L3Requests(done, year, token), r, net);
  }

  /** `files_data` after the L3 tasks `done`: their kept results, in order. */
  ghost predicate L3Collected(done: seq<(int, (int, string))>, files: seq<Entry>, year: string,
                              token: string, net: Network)
  {
    files == Successes(Results(L3Requests(done, year, token), net))
  }

  /** One pass of an L3 loop body: `fetch_file_data` for tile (e, n) and channel d, sent as
      the |done|-th request of the run, and `files_data.append(...)` when the result is kept. */
  method CollectL3(e: int, n: int, d: string, year: string, token: string, net: Network,
                   ghost done: seq<(int, (int, string))>, k: nat, files: seq<Entry>)
    returns (files': seq<Entry>)
    requires k == |done|
    requires L3Collected(done, files, year, token, net)
    ensures L3Collected(done + [(e, (n, d))], files', year, token, net)
  {
    var outcome, _ := FetchFileData(L3Request(e, n, d, year, token), net, k);
    L3Step(done, e, n, d, year, token, net);
    files' := files;
    if outcome.Fetched? && |outcome.data| > 0 && |outcome.name| > 0 {
      files' := files + [Entry(outcome.name, Some(outcome.data))];
    }
  }

  /** A one-tile rectangle asks for the tile's channels in order: the single-file block
      makes the same requests as a batch over that tile alone. */
  lemma SingleTileTasks(e: int, n: int, ds: seq<string>)
    ensures L3Tasks(e, e, n, n, ds) == Row(e, Row(n, ds))
  {
    assert Span(e, e) == [e];
    assert Span(n, n) == [n];
    PairsSingle(n, ds);
    PairsSingle(e, Pairs([n], ds));
  }

  // ---------------------------------------------------------------------------
  // Single file, L2A/L2B

  /** The single-file L2 block: one request with the parameters as typed; a kept result is
      offered as a bare CSV file. */
  method SingleL2Download(dataType: string, year: string, token: string, relativeOrbit: string,
                          burstCycle: string, swath: string, polarization: string, net: Network)
    returns (delivery: Option<Delivery>)
    ensures var o := Fetch(Request(0, 0, "", dataType, year, token, Some(relativeOrbit),
                                   Some(burstCycle), Some(swath), Some(polarization)), net, 0);
            delivery == if Kept(o) then Some(Delivery(o.name, BareCsv(Some(o.data)))) else None
  {
    var request := Request(0, 0, "", dataType, year, token, Some(relativeOrbit), Some(burstCycle),
                           Some(swath), Some(polarization));
    var outcome, _ := FetchFileData(request, net, 0);
    if outcome.Fetched? && |outcome.data| > 0 && |outcome.name| > 0 {
      delivery := Some(Delivery(outcome.name, BareCsv(Some(outcome.data))));
    } else {
      delivery := None;
    }
  }

  // ---------------------------------------------------------------------------
  // Single file, L3

  /** The single-file L3 block: one request per selected channel, then the bare CSV when
      exactly one was kept, or an archive named after the tile. */
  method SingleL3Download(e: int, n: int, choice: string, year: string, token: string, net: Network)
    returns (files: seq<Entry>, delivery: Option<Delivery>)
    ensures files == Successes(Results(L3Requests(Row(e, Row(n, Displacements(choice))), year, token), net))
    ensures delivery == SingleFileDelivery(files, L3TileZipName(e, n, year))
  {
    var displacements := Displacements(choice);
    files := FetchChannels(e, n, displacements, year, token, net);
    delivery := OfferTileFiles(files, L3TileZipName(e, n, year));
  }

  /** The loop of the single-file L3 block: `for i, d in enumerate(displacements)`. */
  method FetchChannels(e: int, n: int, displacements: seq<string>, year: string, token: string,
                       net: Network)
    returns (files: seq<Entry>)
    ensures files == Successes(Results(L3Requests(Row(e, Row(n, displacements)), year, token), net))
  {
    files := [];
    ghost var done: seq<(int, (int, string))> := [];
    var i := 0;
    while i < |displacements|
      invariant 0 <= i <= |displacements|
      invariant done == Row(e, Row(n, displacements[..i]))
      invariant |done| == i && L3Collected(done, files, year, token, net)
    {
      var d := displacements[i];
      files := CollectL3(e, n, d, year, token, net, done, i, files);
      RowStep(n, displacements, i);
      RowAppend(e, Row(n, displacements[..i]), [(n, d)]);
      done := done + [(e, (n, d))];
      i := i + 1;
    }
    assert displacements[..i] == displacements;
  }

  /** The end of the single-file L3 block: the one file itself, or an archive of several. */
  method OfferTileFiles(files: seq<Entry>, zipName: string) returns (delivery: Option<Delivery>)
    ensures delivery == SingleFileDelivery(files, zipName)
  {
    if files != [] {
      if |files| == 1 {
        delivery := Some(Delivery(files[0].name, BareCsv(files[0].data)));
      } else {
        var zipData := CreateBatchZip(files, zipName);
        delivery := Some(Delivery(zipName, ZipFile(zipData)));
      }
    } else {
      delivery := None;
    }
  }

  // ---------------------------------------------------------------------------
  // Batch, L3

  /** The state of an L3 batch run after the tasks `done`: the counter has shown 1..|done|
      and `files_data` holds the kept results of those tasks. */
  ghost predicate L3RunAfter(done: seq<(int, (int, string))>, taskCount: nat, counters: seq<nat>,
                             files: seq<Entry>, year: string, token: string, net: Network)
  {
    taskCount == |done| && CountsUpTo(counters, taskCount)
    && files == Successes(Results(L3Requests(done, year, token), net))
  }

  lemma CountsStep(counters: seq<nat>, count: nat)
    requires CountsUpTo(counters, count)
    ensures CountsUpTo(counters + [count + 1], count + 1)
  {
  }

  /** One task of the L3 batch: the counter advances, the request is sent as the
      `taskCount`-th of the run and a kept result is appended to `files_data`. */
  method L3Task(e: int, n: int, d: string, year: string, token: string, net: Network,
                ghost done: seq<(int, (int, string))>, taskCount: nat, counters: seq<nat>, files: seq<Entry>)
    returns (taskCount': nat, counters': seq<nat>, files': seq<Entry>)
    requires L3RunAfter(done, taskCount, counters, files, year, token, net)
    ensures L3RunAfter(done + [(e, (n, d))], taskCount', counters', files', year, token, net)
  {
    taskCount' := taskCount + 1;
    counters' := counters + [taskCount'];
    CountsStep(counters, taskCount);
    files' := CollectL3(e, n, d, year, token, net, done, taskCount' - 1, files);
  }

  /** The innermost loop of the L3 batch: every selected channel of tile (e, n). */
  method L3TileTasks(e: int, n: int, displacements: seq<string>, year: string, token: string,
                     net: Network, ghost done: seq<(int, (int, string))>, taskCount: nat,
                     counters: seq<nat>, files: seq<Entry>)
    returns (taskCount': nat, counters': seq<nat>, files': seq<Entry>)
    requires L3RunAfter(done, taskCount, counters, files, year, token, net)
    ensures L3RunAfter(done + Row(e, Row(n, displacements)), taskCount', counters', files', year, token, net)
  {
    taskCount', counters', files' := taskCount, counters, files;
    ghost var now := done;
    assert done + Row(e, Row(n, displacements[..0])) == done;
    var i := 0;
    while i < |displacements|
      invariant 0 <= i <= |displacements|
      invariant now == done + Row(e, Row(n, displacements[..i]))
      invariant L3RunAfter(now, taskCount', counters', files', year, token, net)
    {
      taskCount', counters', files' := L3Task(e, n, displacements[i], year, token, net, now,
                                             taskCount', counters', files');
      ExtendRow(done, e, n, displacements, i);
      now := now + [(e, (n, displacements[i]))];
      i := i + 1;
    }
    assert displacements[..i] == displacements;
  }

  /** The middle loop of the L3 batch: every north coordinate of the column at east e. */
  method L3EastTasks(e: int, minN: int, maxN: int, displacements: seq<string>, year: string,
                     token: string, net: Network, ghost done: seq<(int, (int, string))>,
                     taskCount: nat, counters: seq<nat>, files: seq<Entry>)
    returns (taskCount': nat, counters': seq<nat>, files': seq<Entry>)
    requires L3RunAfter(done, taskCount, counters, files, year, token, net)
    ensures L3RunAfter(done + Row(e, Pairs(Span(minN, maxN), displacements)), taskCount', counters',
                       files', year, token, net)
  {
    ghost var ns := Span(minN, maxN);
    taskCount', counters', files' := taskCount, counters, files;
    ghost var now := done;
    assert done + Row(e, Pairs(ns[..0], displacements)) == done;
    var n := minN;
    while n <= maxN
      invariant minN <= n && n - minN <= |ns|
      invariant now == done + Row(e, Pairs(ns[..n - minN], displacements))
      invariant L3RunAfter(now, taskCount', counters', files', year, token, net)
    {
      taskCount', counters', files' := L3TileTasks(e, n, displacements, year, token, net, now,
                                                  taskCount', counters', files');
      assert ns[n - minN] == n;
      FinishRow(done, e, ns, displacements, n - minN);
      now := now + Row(e, Row(n, displacements));
      n := n + 1;
    }
    assert ns[..n - minN] == ns;
  }

  /** The L3 batch block: every tile of the rectangle for every selected channel, the
      counter stepping through 1..total, and an archive of whatever was kept. */
  method BatchL3Download(minE: int, maxE: int, minN: int, maxN: int, choice: string, year: string,
                         token: string, net: Network)
    returns (counters: seq<nat>, totalTasks: int, files: seq<Entry>, delivery: Option<Delivery>)
    ensures var tasks := L3Tasks(minE, maxE, minN, maxN, Displacements(choice));
            && CountsUpTo(counters, |tasks|)
            && totalTasks == (maxE - minE + 1) * (maxN - minN + 1) * |Displacements(choice)|
            && files == Successes(Results(L3Requests(tasks, year, token), net))
    ensures delivery == BatchDelivery(files, L3BatchZipName(minE, maxE, minN, maxN, year))
  {
    var displacements := Displacements(choice);
    totalTasks := (maxE - minE + 1) * (maxN - minN + 1) * |displacements|;
    counters, files := RunL3Batch(minE, maxE, minN, maxN, displacements, year, token, net);
    delivery := OfferBatchFiles(files, L3BatchZipName(minE, maxE, minN, maxN, year));
  }

  /** The loops of the L3 batch block: east outermost, then north, then the channel. */
  method RunL3Batch(minE: int, maxE: int, minN: int, maxN: int, displacements: seq<string>,
                    year: string, token: string, net: Network)
    returns (counters: seq<nat>, files: seq<Entry>)
    ensures L3RunAfter(L3Tasks(minE, maxE, minN, maxN, displacements), |counters|, counters, files,
                       year, token, net)
  {
    ghost var es := Span(minE, maxE);
    ghost var perTile := Pairs(Span(minN, maxN), displacements);
    files, counters := [], [];
    var taskCount := 0;
    ghost var done: seq<(int, (int, string))> := [];
    var e := minE;
    while e <= maxE
      invariant minE <= e && e - minE <= |es|
      invariant done == Pairs(es[..e - minE], perTile)
      invariant L3RunAfter(done, taskCount, counters, files, year, token, net)
    {
      taskCount, counters, files := L3EastTasks(e, minN, maxN, displacements, year, token, net, done,
                                                taskCount, counters, files);
      assert es[e - minE] == e;
      FinishPairs(es, perTile, e - minE);
      done := done + Row(e, perTile);
      e := e + 1;
    }
    assert es[..e - minE] == es;
  }

  /** The end of a batch block: an archive of the kept files under the batch name, or
      nothing when no file was kept. */
  method OfferBatchFiles(files: seq<Entry>, zipName: string) returns (delivery: Option<Delivery>)
    ensures delivery == BatchDelivery(files, zipName)
  {
    if files != [] {
      var zipData := CreateBatchZip(files, zipName);
      delivery := Some(Delivery(zipName, ZipFile(zipData)));
    } else {
      delivery := None;
    }
  }

  // ---------------------------------------------------------------------------
  // Batch, L2A/L2B

  /** One more L2 task: its request is appended to the run's requests. */
  lemma L2Step(dataType: string, done: seq<(int, (int, (string, string)))>, orbit: int, burst: int,
               swath: string, pol: string, year: string, token: string, net: Network)
    ensures var o := Fetch(L2Request(dataType, orbit, burst, swath, pol, year, token), net, |done|);
            (Successes(Results(L2Requests(dataType, done + [(orbit, (burst, (swath, pol)))], year, token), net))
             == Successes(Results(L2Requests(dataType, done, year, token), net))
                + (if Kept(o) then [Pair(o)] else []))
  {
    var r := L2Request(dataType, orbit, burst, swath, pol, year, token);
    assert L2Requests(dataType, done + [(orbit, (burst, (swath, pol)))], year, token)
        == L2Requests(dataType, done, year, token) + [r];
    CollectStep(L2Requests(dataType, done, year, token), r, net);
  }

  /** The state of an L2 batch run after the tasks `done`. */
  ghost predicate L2RunAfter(dataType: string, done: seq<(int, (int, (string, string)))>, taskCount: nat,
                             counters: seq<nat>, files: seq<Entry>, year: string, token: string,
                             net: Network)
  {
    taskCount == |done| && CountsUpTo(counters, taskCount)
    && files == Successes(Results(L2Requests(dataType, done, year, token), net))
  }

  /** One task of the L2 batch: the counter advances, orbit and burst cycle are formatted
      with `:03d` and `:04d`, the request is sent and a kept result is appended. */
  method L2Task(dataType: string, orbit: int, burst: int, swath: string, pol: string, year: string,
                token: string, net: Network, ghost done: seq<(int, (int, (string, string)))>,
                taskCount: nat, counters: seq<nat>, files: seq<Entry>)
    returns (taskCount': nat, counters': seq<nat>, files': seq<Entry>)
    requires L2RunAfter(dataType, done, taskCount, counters, files, year, token, net)
    ensures L2RunAfter(dataType, done + [(orbit, (burst, (swath, pol)))], taskCount', counters', files',
                       year, token, net)
  {
    taskCount' := taskCount + 1;
    counters' := counters + [taskCount'];
    CountsStep(counters, taskCount);
    var orbitText, burstText := ZeroPad(orbit, 3), ZeroPad(burst, 4);
    var request := Request(0, 0, "", dataType, year, token, Some(orbitText), Some(burstText),
                           Some(swath), Some(pol));
    var outcome, _ := FetchFileData(request, net, taskCount' - 1);
    L2Step(dataType, done, orbit, burst, swath, pol, year, token, net);
    files' := files;
    if outcome.Fetched? && |outcome.data| > 0 && |outcome.name| > 0 {
      files' := files + [Entry(outcome.name, Some(outcome.data))];
    }
  }

  /** The innermost loop of the L2 batch: every selected polarization for one swath. */
  method L2PolarizationTasks(dataType: string, orbit: int, burst: int, swath: string, pols: seq<string>,
                             year: string, token: string, net: Network,
                             ghost done: seq<(int, (int, (string, string)))>, taskCount: nat,
                             counters: seq<nat>, files: seq<Entry>)
    returns (taskCount': nat, counters': seq<nat>, files': seq<Entry>)
    requires L2RunAfter(dataType, done, taskCount, counters, files, year, token, net)
    ensures L2RunAfter(dataType, done + Row(orbit, Row(burst, Row(swath, pols))), taskCount', counters',
                       files', year, token, net)
  {
    taskCount', counters', files' := taskCount, counters, files;
    ghost var now := done;
    assert done + Row(orbit, Row(burst, Row(swath, pols[..0]))) == done;
    var i := 0;
    while i < |pols|
      invariant 0 <= i <= |pols|
      invariant now == done + Row(orbit, Row(burst, Row(swath, pols[..i])))
      invariant L2RunAfter(dataType, now, taskCount', counters', files', year, token, net)
    {
      taskCount', counters', files' := L2Task(dataType, orbit, burst, swath, pols[i], year, token, net,
                                             now, taskCount', counters', files');
      ExtendRow3(done, orbit, burst, swath, pols, i);
      now := now + [(orbit, (burst, (swath, pols[i])))];
      i := i + 1;
    }
    assert pols[..i] == pols;
  }

  /** The swath loop of the L2 batch: every selected swath and polarization for one orbit
      and burst cycle. */
  method L2SwathTasks(dataType: string, orbit: int, burst: int, swaths: seq<string>, pols: seq<string>,
                      year: string, token: string, net: Network,
                      ghost done: seq<(int, (int, (string, string)))>, taskCount: nat,
                      counters: seq<nat>, files: seq<Entry>)
    returns (taskCount': nat, counters': seq<nat>, files': seq<Entry>)
    requires L2RunAfter(dataType, done, taskCount, counters, files, year, token, net)
    ensures L2RunAfter(dataType, done + Row(orbit, Row(burst, Pairs(swaths, pols))), taskCount',
                       counters', files', year, token, net)
  {
    taskCount', counters', files' := taskCount, counters, files;
    ghost var now := done;
    assert done + Row(orbit, Row(burst, Pairs(swaths[..0], pols))) == done;
    var j := 0;
    while j < |swaths|
      invariant 0 <= j <= |swaths|
      invariant now == done + Row(orbit, Row(burst, Pairs(swaths[..j], pols)))
      invariant L2RunAfter(dataType, now, taskCount', counters', files', year, token, net)
    {
      taskCount', counters', files' := L2PolarizationTasks(dataType, orbit, burst, swaths[j], pols, year,
                                                          token, net, now, taskCount', counters', files');
      FinishRow3(done, orbit, burst, swaths, pols, j);
      now := now + Row(orbit, Row(burst, Row(swaths[j], pols)));
      j := j + 1;
    }
    assert swaths[..j] == swaths;
  }

  /** The burst-cycle loop of the L2 batch: every burst cycle of the range for one orbit. */
  method L2OrbitTasks(dataType: string, orbit: int, minBurst: int, maxBurst: int, swaths: seq<string>,
                      pols: seq<string>, year: string, token: string, net: Network,
                      ghost done: seq<(int, (int, (string, string)))>, taskCount: nat,
                      counters: seq<nat>, files: seq<Entry>)
    returns (taskCount': nat, counters': seq<nat>, files': seq<Entry>)
    requires L2RunAfter(dataType, done, taskCount, counters, files, year, token, net)
    ensures L2RunAfter(dataType, done + Row(orbit, Pairs(Span(minBurst, maxBurst), Pairs(swaths, pols))),
                       taskCount', counters', files', year, token, net)
  {
    ghost var bs := Span(minBurst, maxBurst);
    ghost var perBurst := Pairs(swaths, pols);
    taskCount', counters', files' := taskCount, counters, files;
    ghost var now := done;
    assert done + Row(orbit, Pairs(bs[..0], perBurst)) == done;
    var burst := minBurst;
    while burst <= maxBurst
      invariant minBurst <= burst && burst - minBurst <= |bs|
      invariant now == done + Row(orbit, Pairs(bs[..burst - minBurst], perBurst))
      invariant L2RunAfter(dataType, now, taskCount', counters', files', year, token, net)
    {
      taskCount', counters', files' := L2SwathTasks(dataType, orbit, burst, swaths, pols, year, token, net,
                                                   now, taskCount', counters', files');
      assert bs[burst - minBurst] == burst;
      FinishRow(done, orbit, bs, perBurst, burst - minBurst);
      now := now + Row(orbit, Row(burst, perBurst));
      burst := burst + 1;
    }
    assert bs[..burst - minBurst] == bs;
  }

  /** The L2 batch block. It runs only when at least one swath and one polarization are
      selected (`started`); then every orbit, burst cycle, swath and polarization is
      requested in that nesting, the counter stepping through 1..total, and whatever was
      kept is archived. The announced total is computed whether or not the block runs. */
  method BatchL2Download(dataType: string, minOrbit: int, maxOrbit: int, minBurst: int, maxBurst: int,
                         swaths: seq<string>, pols: seq<string>, year: string, token: string,
                         net: Network)
    returns (totalTasks: int, started: bool, counters: seq<nat>, files: seq<Entry>,
             delivery: Option<Delivery>)
    ensures totalTasks == (maxOrbit - minOrbit + 1) * (maxBurst - minBurst + 1) * |swaths| * |pols|
    ensures started <==> swaths != [] && pols != []
    ensures var tasks := if started then L2Tasks(minOrbit, maxOrbit, minBurst, maxBurst, swaths, pols)
                         else [];
            && CountsUpTo(counters, |tasks|)
            && files == Successes(Results(L2Requests(dataType, tasks, year, token), net))
    ensures delivery == BatchDelivery(files, L2BatchZipName(dataType, year))
  {
    totalTasks := (maxOrbit - minOrbit + 1) * (maxBurst - minBurst + 1) * |swaths| * |pols|;
    if swaths == [] || pols == [] {
      started := false;
      counters, files, delivery := [], [], None;
      return;
    }
    started := true;
    counters, files := RunL2Batch(dataType, minOrbit, maxOrbit, minBurst, maxBurst, swaths, pols, year,
                                  token, net);
    delivery := OfferBatchFiles(files, L2BatchZipName(dataType, year));
  }

  /** The loops of the L2 batch block: orbit, burst cycle, swath, polarization. */
  method RunL2Batch(dataType: string, minOrbit: int, maxOrbit: int, minBurst: int, maxBurst: int,
                    swaths: seq<string>, pols: seq<string>, year: string, token: string, net: Network)
    returns (counters: seq<nat>, files: seq<Entry>)
    ensures L2RunAfter(dataType, L2Tasks(minOrbit, maxOrbit, minBurst, maxBurst, swaths, pols), |counters|,
                       counters, files, year, token, net)
  {
    ghost var os := Span(minOrbit, maxOrbit);
    ghost var perOrbit := Pairs(Span(minBurst, maxBurst), Pairs(swaths, pols));
    counters, files := [], [];
    var taskCount := 0;
    ghost var done: seq<(int, (int, (string, string)))> := [];
    var orbit := minOrbit;
    while orbit <= maxOrbit
      invariant minOrbit <= orbit && orbit - minOrbit <= |os|
      invariant done == Pairs(os[..orbit - minOrbit], perOrbit)
      invariant L2RunAfter(dataType, done, taskCount, counters, files, year, token, net)
    {
      taskCount, counters, files := L2OrbitTasks(dataType, orbit, minBurst, maxBurst, swaths, pols, year,
                                                 token, net, done, taskCount, counters, files);
      assert os[orbit - minOrbit] == orbit;
      FinishPairs(os, perOrbit, orbit - minOrbit);
      done := done + Row(orbit, perOrbit);
      orbit := orbit + 1;
    }
    assert os[..orbit - minOrbit] == os;
  }

  // ---------------------------------------------------------------------------
  // Properties of the batch runs

  lemma Mul3(a: int, b: int, c: int)
    ensures a * (b * c) == a * b * c
  {
  }

  /** Three nested counts multiply out. */
  lemma Product3(a: nat, b: nat, c: nat)
    ensures Offset(a, Offset(b, c)) == a * b * c
  {
    OffsetIsProduct(b, c);
    OffsetIsProduct(a, b * c);
    Mul3(a, b, c);
  }

  /** Four nested counts multiply out. */
  lemma Product4(a: nat, b: nat, c: nat, d: nat)
    ensures Offset(a, Offset(b, Offset(c, d))) == a * b * c * d
  {
    Product3(b, c, d);
    OffsetIsProduct(a, b * c * d);
    assert a * (b * c * d) == a * b * c * d by {
      Mul3(a, b * c, d);
      Mul3(a, b, c);
    }
  }

  /** The position of a task among three nested loops, multiplied out. */
  lemma Position3(a: nat, b: nat, B: nat, i: nat, P: nat)
    ensures Offset(a, Offset(B, P)) + (Offset(b, P) + i) == (a * B + b) * P + i
  {
    OffsetIsProduct(B, P);
    OffsetIsProduct(a, B * P);
    OffsetIsProduct(b, P);
    Mul3(a, B, P);
  }

  lemma Distribute(x: int, y: int, z: int)
    ensures (x + y) * z == x * z + y * z
  {
  }

  /** The position of a task among four nested loops, multiplied out. */
  lemma Position4(a: nat, b: nat, B: nat, c: nat, S: nat, d: nat, P: nat)
    ensures Offset(a, Offset(B, Offset(S, P))) + (Offset(b, Offset(S, P)) + (Offset(c, P) + d))
         == ((a * B + b) * S + c) * P + d
  {
    var Q := S * P;
    OffsetIsProduct(S, P);
    OffsetIsProduct(B, Q);
    OffsetIsProduct(a, B * Q);
    OffsetIsProduct(b, Q);
    OffsetIsProduct(c, P);
    Distribute((a * B + b) * S, c, P);
    Mul3(a * B + b, S, P);
    Distribute(a * B, b, Q);
    Mul3(a, B, Q);
  }

  /** The L3 batch sends (maxE - minE + 1) * (maxN - minN + 1) * |ds| requests when both
      ranges are non-empty and none otherwise; so whenever the loops run, the announced
      `total_tasks` is the number of requests and the progress fraction never exceeds 1. */
  lemma L3TaskCount(minE: int, maxE: int, minN: int, maxN: int, ds: seq<string>)
    ensures |L3Tasks(minE, maxE, minN, maxN, ds)|
         == if minE <= maxE && minN <= maxN then (maxE - minE + 1) * (maxN - minN + 1) * |ds| else 0
  {
    var es, ns := Span(minE, maxE), Span(minN, maxN);
    PairsLength(ns, ds);
    PairsLength(es, Pairs(ns, ds));
    Product3(|es|, |ns|, |ds|);
    if !(minE <= maxE && minN <= maxN) {
      assert |es| == 0 || |ns| == 0;
    }
  }

  /** The L2 batch sends one request per orbit, burst cycle, swath and polarization when
      both ranges are non-empty and none otherwise. */
  lemma L2TaskCount(minOrbit: int, maxOrbit: int, minBurst: int, maxBurst: int, swaths: seq<string>,
                    pols: seq<string>)
    ensures |L2Tasks(minOrbit, maxOrbit, minBurst, maxBurst, swaths, pols)|
         == if minOrbit <= maxOrbit && minBurst <= maxBurst
            then (maxOrbit - minOrbit + 1) * (maxBurst - minBurst + 1) * |swaths| * |pols|
            else 0
  {
    var os, bs := Span(minOrbit, maxOrbit), Span(minBurst, maxBurst);
    PairsLength(swaths, pols);
    PairsLength(bs, Pairs(swaths, pols));
    PairsLength(os, Pairs(bs, Pairs(swaths, pols)));
    Product4(|os|, |bs|, |swaths|, |pols|);
    if !(minOrbit <= maxOrbit && minBurst <= maxBurst) {
      assert |os| == 0 || |bs| == 0;
    }
  }

  /** The L3 batch visits east outermost, north next and the channel innermost: the
      request for tile (e, n) and channel ds[i] is task number k + 1 on the counter. */
  lemma L3TaskOrder(minE: int, maxE: int, minN: int, maxN: int, ds: seq<string>, e: int, n: int, i: nat)
    requires minE <= e <= maxE && minN <= n <= maxN && i < |ds|
    ensures var k := ((e - minE) * (maxN - minN + 1) + (n - minN)) * |ds| + i;
            var tasks := L3Tasks(minE, maxE, minN, maxN, ds);
            (0 <= k < |tasks| && tasks[k] == (e, (n, ds[i])))
  {
    var es, ns := Span(minE, maxE), Span(minN, maxN);
    var a, b := e - minE, n - minN;
    assert |ns| == maxN - minN + 1;
    assert es[a] == e && ns[b] == n;
    NestedAt(es, ns, ds, a, b, i);
    Position3(a, b, |ns|, i, |ds|);
  }

  /** The L2 batch visits orbit, burst cycle, swath and polarization from the outside in. */
  lemma L2TaskOrder(minOrbit: int, maxOrbit: int, minBurst: int, maxBurst: int, swaths: seq<string>,
                    pols: seq<string>, orbit: int, burst: int, s: nat, p: nat)
    requires minOrbit <= orbit <= maxOrbit && minBurst <= burst <= maxBurst
    requires s < |swaths| && p < |pols|
    ensures var k := (((orbit - minOrbit) * (maxBurst - minBurst + 1) + (burst - minBurst)) * |swaths| + s)
                     * |pols| + p;
            var tasks := L2Tasks(minOrbit, maxOrbit, minBurst, maxBurst, swaths, pols);
            (0 <= k < |tasks| && tasks[k] == (orbit, (burst, (swaths[s], pols[p]))))
  {
    var os, bs := Span(minOrbit, maxOrbit), Span(minBurst, maxBurst);
    var a, b := orbit - minOrbit, burst - minBurst;
    assert |bs| == maxBurst - minBurst + 1;
    assert os[a] == orbit && bs[b] == burst;
    Nested4At(os, bs, swaths, pols, a, b, s, p);
    Position4(a, b, |bs|, s, |swaths|, p, |pols|);
  }

  /** The `:03d` and `:04d` formatting of the batch form's orbit (1..999) and burst cycle
      (1..9999) gives exactly three and four digits that read back as the number. */
  lemma L2PaddingReadsBack(orbit: int, burst: int)
    requires 1 <= orbit <= 999 && 1 <= burst <= 9999
    ensures |ZeroPad(orbit, 3)| == 3 && AllDigits(ZeroPad(orbit, 3)) && ParseDigits(ZeroPad(orbit, 3)) == orbit
    ensures |ZeroPad(burst, 4)| == 4 && AllDigits(ZeroPad(burst, 4)) && ParseDigits(ZeroPad(burst, 4)) == burst
  {
    assert Pow10(3) == 1000 by { assert Pow10(2) == 100 by { assert Pow10(1) == 10; } }
    assert Pow10(4) == 10000;
    ZeroPadReadsBack(orbit, 3);
    ZeroPadReadsBack(burst, 4);
  }

  /** No request of the L2 batch is refused for a missing parameter: the padded orbit and
      burst cycle are never empty, and the selected swaths and polarizations are not. */
  lemma L2BatchSendsEveryRequest(dataType: string, minOrbit: int, maxOrbit: int, minBurst: int,
                                 maxBurst: int, swaths: seq<string>, pols: seq<string>, year: string,
                                 token: string, net: Network, k: nat)
    requires dataType != "L3"
    requires forall s :: s in swaths ==> s != ""
    requires forall p :: p in pols ==> p != ""
    requires k < |L2Tasks(minOrbit, maxOrbit, minBurst, maxBurst, swaths, pols)|
    ensures var tasks := L2Tasks(minOrbit, maxOrbit, minBurst, maxBurst, swaths, pols);
            Fetch(L2Requests(dataType, tasks, year, token)[k], net, k) != Failed(MissingParameters)
  {
    var tasks := L2Tasks(minOrbit, maxOrbit, minBurst, maxBurst, swaths, pols);
    L2TaskMembers(minOrbit, maxOrbit, minBurst, maxBurst, swaths, pols, k);
    var t := tasks[k];
    var r := L2Requests(dataType, tasks, year, token)[k];
    assert r == L2Request(dataType, t.0, t.1.0, t.1.1.0, t.1.1.1, year, token);
    assert |ZeroPad(t.0, 3)| >= 3 && |ZeroPad(t.1.0, 4)| >= 4;
    assert HasOrbitParameters(r);
  }

  /** Every L2 batch task names a selected swath and a selected polarization. */
  lemma L2TaskMembers(minOrbit: int, maxOrbit: int, minBurst: int, maxBurst: int, swaths: seq<string>,
                      pols: seq<string>, k: nat)
    requires k < |L2Tasks(minOrbit, maxOrbit, minBurst, maxBurst, swaths, pols)|
    ensures var t := L2Tasks(minOrbit, maxOrbit, minBurst, maxBurst, swaths, pols)[k];
            t.1.1.0 in swaths && t.1.1.1 in pols
  {
    var os, bs := Span(minOrbit, maxOrbit), Span(minBurst, maxBurst);
    var tasks := L2Tasks(minOrbit, maxOrbit, minBurst, maxBurst, swaths, pols);
    PairsMembers(os, Pairs(bs, Pairs(swaths, pols)), k);
    var rest := tasks[k].1;
    var m :| 0 <= m < |Pairs(bs, Pairs(swaths, pols))| && Pairs(bs, Pairs(swaths, pols))[m] == rest;
    PairsMembers(bs, Pairs(swaths, pols), m);
    var sp := rest.1;
    var q :| 0 <= q < |Pairs(swaths, pols)| && Pairs(swaths, pols)[q] == sp;
    PairsMembers(swaths, pols, q);
  }

}
