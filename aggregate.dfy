/** What the download blocks of `main` make of their fetches: the list `files_data`
    of kept results, and the file offered for download (bare CSV or zip archive). */
module Aggregate {
  import opened Wrappers
  import opened Text
  import opened Archive
  import opened RequestIdentity
  import opened TileFetcher

  /** `if csv_data and csv_filename:` keeps a result only when both are non-empty, so a
      fetched but empty CSV file is dropped like a failure. */
  predicate Kept(o: Outcome) {
    o.Fetched? && |o.data| > 0 && |o.name| > 0
  }

  /** The `(csv_filename, csv_data)` pair appended to `files_data`. */
  function Pair(o: Outcome): Entry
    requires o.Fetched?
  {
    Entry(o.name, Some(o.data))
  }

  /** The outcome of every request of a run, the k-th request sent as the k-th call. */
  function Results(reqs: seq<Request>, net: Network): (outs: seq<Outcome>)
    ensures |outs| == |reqs|
    ensures forall k :: 0 <= k < |reqs| ==> outs[k] == Fetch(reqs[k], net, k)
  {
    seq(|reqs|, k requires 0 <= k < |reqs| => Fetch(reqs[k], net, k))
  }

  /** `files_data` after the loop: the kept outcomes as pairs, in task order. */
  function Successes(outs: seq<Outcome>): (files: seq<Entry>)
    ensures |files| <= |outs|
  {
    if outs == [] then []
    else
      var last := outs[|outs| - 1];
      Successes(outs[..|outs| - 1]) + (if Kept(last) then [Pair(last)] else [])
  }

  /** The positions of the kept outcomes, in increasing order. */
  function KeptPositions(outs: seq<Outcome>): (ps: seq<nat>)
    ensures forall m :: 0 <= m < |ps| ==> ps[m] < |outs| && Kept(outs[ps[m]])
    ensures forall m, m' :: 0 <= m < m' < |ps| ==> ps[m] < ps[m']
    ensures forall k :: 0 <= k < |outs| && Kept(outs[k]) ==> k in ps
  {
    if outs == [] then []
    else
      var init := outs[..|outs| - 1];
      KeptPositions(init) + (if Kept(outs[|outs| - 1]) then [|outs| - 1] else [])
  }

  /** The download offered: a bare CSV file or a zip archive of entries. */
  datatype Download = BareCsv(data: Option<Bytes>) | ZipFile(entries: seq<Entry>)

  /** The session's `download_filename` and `download_data` once `download_ready` is set. */
  datatype Delivery = Delivery(filename: string, download: Download)

  /** The MIME type of the single-file L3 download button. */
  function MimeType(filename: string): string {
    if EndsWith(filename, ".zip") then "application/zip" else "text/csv"
  }

  /** The archive name of the single-file L3 block when both channels succeed. */
  function L3TileZipName(e: int, n: int, year: string): string {
    ("EGMS_L3_E" + IntText(e) + "N" + IntText(n) + "_" + year + "_batch") + ".zip"
  }

  /** The archive name of the L3 batch block. */
  function L3BatchZipName(minE: int, maxE: int, minN: int, maxN: int, year: string): string {
    ("EGMS_L3_E" + IntText(minE) + "-" + IntText(maxE) + "_N" + IntText(minN) + "-" + IntText(maxN)
      + "_" + year + "_batch") + ".zip"
  }

  /** The archive name of the L2 batch block. */
  function L2BatchZipName(dataType: string, year: string): string {
    ("EGMS_" + dataType + "_batch_" + year) + ".zip"
  }

  /** The single-file L3 block: nothing when no file was kept, the CSV itself when exactly
      one was, otherwise an archive of all of them under `zipName`. */
  function SingleFileDelivery(files: seq<Entry>, zipName: string): (d: Option<Delivery>)
    ensures d.None? <==> files == []
    ensures |files| == 1 ==> d == Some(Delivery(files[0].name, BareCsv(files[0].data)))
    ensures |files| > 1 ==> d.Some? && d.value.filename == zipName && d.value.download.ZipFile?
  {
    if files == [] then None
    else if |files| == 1 then Some(Delivery(files[0].name, BareCsv(files[0].data)))
    else Some(Delivery(zipName, ZipFile(ZipContents(files))))
  }

  /** The batch blocks: nothing when no file was kept, otherwise always an archive. */
  function BatchDelivery(files: seq<Entry>, zipName: string): (d: Option<Delivery>)
    ensures d.None? <==> files == []
    ensures d.Some? ==> d.value.filename == zipName && d.value.download.ZipFile?
  {
    if files == [] then None else Some(Delivery(zipName, ZipFile(ZipContents(files))))
  }

  // ---------------------------------------------------------------------------
  // Properties of the collected files

  lemma {:induction false} SuccessesAppend(a: seq<Outcome>, b: seq<Outcome>)
    ensures Successes(a + b) == Successes(a) + Successes(b)
    decreases |b|
  {
    if b == [] {
      assert a + b == a;
    } else {
      var b' := b[..|b| - 1];
      assert (a + b)[..|a + b| - 1] == a + b';
      SuccessesAppend(a, b');
    }
  }

  /** `files_data` holds exactly the kept outcomes, in task order and nothing else:
      it is the kept positions read off one by one. */
  lemma {:induction false} SuccessesAreKeptInOrder(outs: seq<Outcome>)
    ensures var ps := KeptPositions(outs);
            |Successes(outs)| == |ps| &&
            forall m :: 0 <= m < |ps| ==> Successes(outs)[m] == Pair(outs[ps[m]])
  {
    if outs != [] {
      var init := outs[..|outs| - 1];
      SuccessesAreKeptInOrder(init);
      var ps := KeptPositions(init);
      forall m | 0 <= m < |ps| ensures init[ps[m]] == outs[ps[m]] { }
    }
  }

  /** Nothing is kept exactly when every task failed or fetched an empty file. */
  lemma {:induction false} NoSuccessesIffAllFailed(outs: seq<Outcome>)
    ensures Successes(outs) == [] <==> forall k :: 0 <= k < |outs| ==> !Kept(outs[k])
  {
    SuccessesAreKeptInOrder(outs);
    var ps := KeptPositions(outs);
    if exists k :: 0 <= k < |outs| && Kept(outs[k]) {
      var k :| 0 <= k < |outs| && Kept(outs[k]);
      assert k in ps;
    }
    if |ps| > 0 {
      assert Kept(outs[ps[0]]);
    }
  }

  /** Every collected file is a CSV entry carrying the prefix of the request that fetched
      it, with non-empty data. */
  lemma CollectedAreCsv(reqs: seq<Request>, net: Network, m: nat)
    requires m < |Successes(Results(reqs, net))|
    ensures var f := Successes(Results(reqs, net))[m];
            exists k :: 0 <= k < |reqs| && Identify(reqs[k]).Some? &&
              IsCsvFor(f.name, Identify(reqs[k]).value.prefix) &&
              f.data.Some? && |f.data.value| > 0
  {
    var outs := Results(reqs, net);
    SuccessesAreKeptInOrder(outs);
    var k := KeptPositions(outs)[m];
    assert outs[k] == Fetch(reqs[k], net, k);
  }

  // ---------------------------------------------------------------------------
  // Properties of the delivered file

  /** The offered archive holds exactly the collected files, in order: every kept pair
      carries data, so `create_batch_zip` drops none of them; a single file is offered
      with its non-empty bytes. */
  lemma DeliveredArchiveHoldsAll(outs: seq<Outcome>, zipName: string)
    ensures var files := Successes(outs);
            files != [] ==> BatchDelivery(files, zipName) == Some(Delivery(zipName, ZipFile(files)))
    ensures var files := Successes(outs);
            |files| > 1 ==> SingleFileDelivery(files, zipName) == Some(Delivery(zipName, ZipFile(files)))
    ensures var files := Successes(outs);
            |files| == 1 ==> files[0].data.Some? && |files[0].data.value| > 0
                             && SingleFileDelivery(files, zipName)
                                == Some(Delivery(files[0].name, BareCsv(files[0].data)))
  {
    var files := Successes(outs);
    SuccessesAreKeptInOrder(outs);
    ZipContentsKeepsAll(files);
  }

  lemma EndsWithSuffix(s: string, suffix: string)
    ensures EndsWith(s + suffix, suffix)
  {
    assert (s + suffix)[|s + suffix| - |suffix|..] == suffix;
  }

  /** All three archive names end in ".zip", so the batch download buttons are shown. */
  lemma ZipNamesEndInZip(e: int, n: int, minE: int, maxE: int, minN: int, maxN: int,
                         dataType: string, year: string)
    ensures EndsWith(L3TileZipName(e, n, year), ".zip")
    ensures EndsWith(L3BatchZipName(minE, maxE, minN, maxN, year), ".zip")
    ensures EndsWith(L2BatchZipName(dataType, year), ".zip")
  {
    EndsWithSuffix("EGMS_L3_E" + IntText(e) + "N" + IntText(n) + "_" + year + "_batch", ".zip");
    EndsWithSuffix("EGMS_L3_E" + IntText(minE) + "-" + IntText(maxE) + "_N" + IntText(minN) + "-"
                   + IntText(maxN) + "_" + year + "_batch", ".zip");
    EndsWithSuffix("EGMS_" + dataType + "_batch_" + year, ".zip");
  }

  /** The MIME type follows the content: zip exactly when an archive is offered, given
      that every collected file name ends in ".csv" and the archive name in ".zip". */
  lemma MimeMatchesDownload(files: seq<Entry>, zipName: string)
    requires forall f :: f in files ==> EndsWith(f.name, ".csv")
    requires EndsWith(zipName, ".zip")
    ensures var d := SingleFileDelivery(files, zipName);
            d.Some? ==> (MimeType(d.value.filename) == "application/zip" <==> d.value.download.ZipFile?)
    ensures var d := BatchDelivery(files, zipName);
            d.Some? ==> MimeType(d.value.filename) == "application/zip"
  {
    if |files| == 1 {
      var name := files[0].name;
      assert files[0] in files;
      assert name[|name| - 4..] == ".csv";
    }
  }
}
