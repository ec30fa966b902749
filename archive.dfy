/** Zip archives as sequences of named entries: picking the CSV payload out of a
    downloaded tile archive (the scan inside `fetch_file_data`) and writing the
    collected CSV files into one batch archive (`create_batch_zip`). */
module Archive {
  import opened Wrappers
  import opened Text

  newtype Byte = b: int | 0 <= b < 256

  type Bytes = seq<Byte>

  /** What reading a member of a downloaded archive gives: its bytes, or an exception
      (a damaged member, or no member of that name). */
  datatype Content = Readable(bytes: Bytes) | Unreadable

  /** One named member of a downloaded zip archive, in stored order. */
  datatype Member = Member(name: string, content: Content)

  /** One `(filename, data)` pair of the list handed to `create_batch_zip`; `data` is
      `None` for the Python `None` that the writing loop skips. */
  datatype Entry = Entry(name: string, data: Option<Bytes>)

  /** Why `fetch_file_data` returned `(None, None)`: one reason per error message it shows. */
  datatype Failure =
    | MissingParameters   // an L2 request lacking orbit, burst cycle, swath or polarization
    | BadStatus(code: int)  // the server answered with a status other than 200
    | NoMatchingCsv       // the archive holds no CSV entry carrying the expected prefix
    | Raised              // an exception: transport error, not a zip archive, unreadable entry

  /** What `fetch_file_data` returns: `(csv_data, csv_filename)` or `(None, None)`. */
  datatype Outcome = Fetched(name: string, data: Bytes) | Failed(reason: Failure)

  /** The payload test: the entry name ends in ".csv" and contains the expected prefix. */
  predicate IsCsvFor(name: string, prefix: string) {
    EndsWith(name, ".csv") && Contains(name, prefix)
  }

  /** The position of the first payload entry, in stored order. */
  function FirstCsv(entries: seq<Member>, prefix: string): (r: Option<nat>)
    ensures r.Some? ==> r.value < |entries| && IsCsvFor(entries[r.value].name, prefix)
    ensures r.Some? ==> forall j :: 0 <= j < r.value ==> !IsCsvFor(entries[j].name, prefix)
    ensures r.None? <==> forall j :: 0 <= j < |entries| ==> !IsCsvFor(entries[j].name, prefix)
  {
    if entries == [] then None
    else if IsCsvFor(entries[0].name, prefix) then Some(0)
    else match FirstCsv(entries[1..], prefix)
      case None => None
      case Some(i) => Some(i + 1)
  }

  /** The position of the last entry stored under `name`. The archive's name table keeps
      one member per name, the last one written, and that is the member `z.read` opens. */
  function LastNamed(entries: seq<Member>, name: string): (r: Option<nat>)
    ensures r.Some? ==> r.value < |entries| && entries[r.value].name == name
    ensures r.Some? ==> forall j :: r.value < j < |entries| ==> entries[j].name != name
    ensures r.None? <==> forall j :: 0 <= j < |entries| ==> entries[j].name != name
  {
    if entries == [] then None
    else if entries[|entries| - 1].name == name then Some(|entries| - 1)
    else LastNamed(entries[..|entries| - 1], name)
  }

  /** `z.read(name)`: the content of the last member stored under `name`; reading a
      name no member carries raises. */
  function Read(entries: seq<Member>, name: string): (r: Content)
    ensures (forall j :: 0 <= j < |entries| ==> entries[j].name != name) ==> r == Unreadable
    ensures forall k :: 0 <= k < |entries| && entries[k].name == name
                        && (forall j :: k < j < |entries| ==> entries[j].name != name)
                        ==> r == entries[k].content
  {
    match LastNamed(entries, name)
    case None => Unreadable
    case Some(k) => entries[k].content
  }

  /** How `fetch_file_data` ends after reading the payload name: `(csv_data, csv_filename)`,
      or the exception caught by its `except` clause. */
  function ReadOutcome(name: string, content: Content): (o: Outcome)
    ensures o.Fetched? <==> content.Readable?
    ensures o.Fetched? ==> o.name == name && o.data == content.bytes
    ensures o.Failed? ==> o.reason == Raised
  {
    match content
    case Unreadable => Failed(Raised)
    case Readable(bytes) => Fetched(name, bytes)
  }

  /** What the scan of an opened archive yields: the first payload name read back, an
      exception when that read fails, or "no matching CSV". */
  function Extract(entries: seq<Member>, prefix: string): (o: Outcome)
    ensures o.Fetched? ==> IsCsvFor(o.name, prefix) && Read(entries, o.name) == Readable(o.data)
    ensures o.Fetched? ==> FirstCsv(entries, prefix).Some? && o.name == entries[FirstCsv(entries, prefix).value].name
    ensures o == Failed(NoMatchingCsv) <==> FirstCsv(entries, prefix).None?
    ensures o.Failed? ==> o.reason == NoMatchingCsv || o.reason == Raised
  {
    match FirstCsv(entries, prefix)
    case None => Failed(NoMatchingCsv)
    case Some(i) => ReadOutcome(entries[i].name, Read(entries, entries[i].name))
  }

  /** The scan loop of `fetch_file_data`: walk the names in stored order and return
      the first entry that ends in ".csv" and contains the prefix. */
  method ExtractCsv(entries: seq<Member>, prefix: string) returns (o: Outcome)
    ensures o == Extract(entries, prefix)
  {
    var i := 0;
    while i < |entries|
      invariant 0 <= i <= |entries|
      invariant forall j :: 0 <= j < i ==> !IsCsvFor(entries[j].name, prefix)
    {
      var name := entries[i].name;
      if EndsWith(name, ".csv") && Contains(name, prefix) {
        match Read(entries, name) {
          case Unreadable =>
            return Failed(Raised);
          case Readable(bytes) =>
            return Fetched(name, bytes);
        }
      }
      i := i + 1;
    }
    return Failed(NoMatchingCsv);
  }

  /** The entries `create_batch_zip` writes: every pair whose data is not `None`,
      in the given order, under its own filename. */
  function ZipContents(files: seq<Entry>): (r: seq<Entry>)
    ensures |r| <= |files|
    ensures forall k :: 0 <= k < |r| ==> r[k].data.Some? && r[k] in files
  {
    if files == [] then []
    else
      var rest := ZipContents(files[..|files| - 1]);
      var last := files[|files| - 1];
      if last.data.Some? then rest + [last] else rest
  }

  /** `create_batch_zip`: the batch name plays no part in the archive's contents. */
  method CreateBatchZip(files: seq<Entry>, batchName: string) returns (archive: seq<Entry>)
    ensures archive == ZipContents(files)
  {
    archive := [];
    var i := 0;
    while i < |files|
      invariant 0 <= i <= |files|
      invariant archive == ZipContents(files[..i])
    {
      assert files[..i + 1][..i] == files[..i];
      if files[i].data.Some? {
        archive := archive + [files[i]];
      }
      i := i + 1;
    }
    assert files[..|files|] == files;
  }

  // ---------------------------------------------------------------------------
  // Properties of the payload scan

  /** Entries after the first payload entry never change which name is returned: a later
      matching CSV is ignored. They change the data only by repeating that very name, and
      then the last repetition is what is read. */
  lemma {:induction false} LaterEntriesIgnored(entries: seq<Member>, more: seq<Member>, prefix: string)
    requires FirstCsv(entries, prefix).Some?
    ensures FirstCsv(entries + more, prefix) == FirstCsv(entries, prefix)
    ensures var name := entries[FirstCsv(entries, prefix).value].name;
            (Extract(entries + more, prefix)
             == if Named(more, name) then ReadOutcome(name, Read(more, name)) else Extract(entries, prefix))
  {
    var i := FirstCsv(entries, prefix).value;
    var all := entries + more;
    assert all[i] == entries[i];
    forall j | 0 <= j < i ensures !IsCsvFor(all[j].name, prefix) {
      assert all[j] == entries[j];
    }
    FirstMatchIsFound(all, prefix, i);
    ReadAppend(entries, more, entries[i].name);
  }

  /** Some entry is stored under `name`. */
  predicate Named(entries: seq<Member>, name: string) {
    exists j :: 0 <= j < |entries| && entries[j].name == name
  }

  /** Reading from two runs of entries in a row: the later run wins when it holds the name. */
  lemma ReadAppend(a: seq<Member>, b: seq<Member>, name: string)
    ensures Read(a + b, name) == if Named(b, name) then Read(b, name) else Read(a, name)
  {
    var all := a + b;
    if Named(b, name) {
      var k := LastNamed(b, name).value;
      assert all[|a| + k] == b[k];
      forall j | |a| + k < j < |all| ensures all[j].name != name {
        assert all[j] == b[j - |a|];
      }
    } else {
      forall j | |a| <= j < |all| ensures all[j].name != name {
        assert all[j] == b[j - |a|];
      }
      match LastNamed(a, name)
      case None =>
        forall j | 0 <= j < |all| ensures all[j].name != name {
          if j < |a| {
            assert all[j] == a[j];
          }
        }
      case Some(k) =>
        assert all[k] == a[k];
        forall j | k < j < |all| ensures all[j].name != name {
          if j < |a| {
            assert all[j] == a[j];
          }
        }
    }
  }

  /** When no two entries share a name, the payload entry's own data is what is read. */
  lemma DistinctNamesReadInPlace(entries: seq<Member>, i: nat)
    requires i < |entries|
    requires forall j, k :: 0 <= j < k < |entries| ==> entries[j].name != entries[k].name
    ensures Read(entries, entries[i].name) == entries[i].content
  {
  }

  /** Two members stored under one payload name: the scan stops at the first, but the
      read returns the data of the second. */
  lemma RepeatedNameReadsLast(first: Bytes, second: Bytes)
    ensures Extract([Member("X_P.csv", Readable(first)), Member("X_P.csv", Readable(second))], "P")
         == Fetched("X_P.csv", second)
  {
    var entries := [Member("X_P.csv", Readable(first)), Member("X_P.csv", Readable(second))];
    assert OccursAt(entries[0].name, "P", 2);
    FirstMatchIsFound(entries, "P", 0);
  }

  /** A payload entry with no payload entry before it is the one the scan finds. */
  lemma FirstMatchIsFound(entries: seq<Member>, prefix: string, i: nat)
    requires i < |entries| && IsCsvFor(entries[i].name, prefix)
    requires forall j :: 0 <= j < i ==> !IsCsvFor(entries[j].name, prefix)
    ensures FirstCsv(entries, prefix) == Some(i)
  {
    var r := FirstCsv(entries, prefix);
    assert r.Some?;
  }

  /** A scan succeeds exactly when some entry is a payload entry and the first one's
      name reads back without an exception. */
  lemma ExtractSucceeds(entries: seq<Member>, prefix: string)
    ensures Extract(entries, prefix).Fetched? <==>
      exists i :: 0 <= i < |entries| && IsCsvFor(entries[i].name, prefix) && Read(entries, entries[i].name).Readable? &&
        forall j :: 0 <= j < i ==> !IsCsvFor(entries[j].name, prefix)
  {
    if Extract(entries, prefix).Fetched? {
      var i := FirstCsv(entries, prefix).value;
      assert IsCsvFor(entries[i].name, prefix) && Read(entries, entries[i].name).Readable?;
    }
    if exists i :: 0 <= i < |entries| && IsCsvFor(entries[i].name, prefix) && Read(entries, entries[i].name).Readable? &&
         forall j :: 0 <= j < i ==> !IsCsvFor(entries[j].name, prefix) {
      var i :| 0 <= i < |entries| && IsCsvFor(entries[i].name, prefix) && Read(entries, entries[i].name).Readable? &&
         forall j :: 0 <= j < i ==> !IsCsvFor(entries[j].name, prefix);
      FirstMatchIsFound(entries, prefix, i);
    }
  }

  /** A readme followed by the tile's CSV yields that CSV under its own name. */
  lemma ReadmeThenCsv(readme: Bytes, csv: Bytes)
    ensures Extract([Member("readme.txt", Readable(readme)),
                     Member("EGMS_L3_E32N31_100km_E_2019_2023_1.csv", Readable(csv))],
                    "EGMS_L3_E32N31_100km_E_2019_2023_1")
         == Fetched("EGMS_L3_E32N31_100km_E_2019_2023_1.csv", csv)
  {
    var entries := [Member("readme.txt", Readable(readme)),
                    Member("EGMS_L3_E32N31_100km_E_2019_2023_1.csv", Readable(csv))];
    var prefix := "EGMS_L3_E32N31_100km_E_2019_2023_1";
    assert !EndsWith(entries[0].name, ".csv");
    assert OccursAt(entries[1].name, prefix, 0);
    FirstMatchIsFound(entries, prefix, 1);
  }

  // ---------------------------------------------------------------------------
  // Properties of the batch archive

  lemma {:induction false} ZipContentsAppend(a: seq<Entry>, b: seq<Entry>)
    ensures ZipContents(a + b) == ZipContents(a) + ZipContents(b)
    decreases |b|
  {
    if b == [] {
      assert a + b == a;
    } else {
      var b' := b[..|b| - 1];
      assert (a + b)[..|a + b| - 1] == a + b';
      ZipContentsAppend(a, b');
    }
  }

  /** An entry is in the batch archive exactly when it was handed over with data. */
  lemma {:induction false} ZipContentsMembers(files: seq<Entry>, f: Entry)
    ensures f in ZipContents(files) <==> f in files && f.data.Some?
  {
    if files != [] {
      var init := files[..|files| - 1];
      ZipContentsMembers(init, f);
      assert files == init + [files[|files| - 1]];
    }
  }

  /** When every pair carries data, nothing is dropped and the order is kept. */
  lemma {:induction false} ZipContentsKeepsAll(files: seq<Entry>)
    requires forall k :: 0 <= k < |files| ==> files[k].data.Some?
    ensures ZipContents(files) == files
  {
    if files != [] {
      ZipContentsKeepsAll(files[..|files| - 1]);
    }
  }
}
