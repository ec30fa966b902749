/** Request identity: the archive URL and the expected CSV filename prefix that
    `fetch_file_data` builds from its arguments before any request is made. */
module RequestIdentity {
  import opened Wrappers
  import opened Text

  /** Everything up to the archive name in both URL templates. */
  const DownloadRoot := "https://egms.land.copernicus.eu/insar-api/archive/download/"

  /** The arguments of `fetch_file_data`. The L3 branch reads `e`, `n`, `d`; any other
      `dataType` takes the L2 branch, which reads the four orbit parameters. */
  datatype Request = Request(
    e: int, n: int, d: string,
    dataType: string, year: string, token: string,
    relativeOrbit: Option<string>, burstCycle: Option<string>,
    swath: Option<string>, polarization: Option<string>)

  datatype Identity = Identity(url: string, prefix: string)

  /** Python truthiness of a parameter that is a string or `None`. */
  predicate Truthy(p: Option<string>) {
    p.Some? && p.value != ""
  }

  /** `all([relative_orbit, burst_cycle, swath, polarization])`. */
  predicate HasOrbitParameters(r: Request) {
    Truthy(r.relativeOrbit) && Truthy(r.burstCycle) && Truthy(r.swath) && Truthy(r.polarization)
  }

  /** `BASE_URL_L3.format(...)`. */
  function L3Url(dataType: string, e: int, n: int, d: string, year: string, id: string): string {
    DownloadRoot + "EGMS_" + dataType + "_E" + IntText(e) + "N" + IntText(n) + "_100km_" + d + "_"
      + year + "_1.zip?id=" + id
  }

  /** `BASE_URL_L2.format(...)`. */
  function L2Url(level: string, orbit: string, burst: string, swath: string, polarization: string,
                 year: string, id: string): string
  {
    DownloadRoot + "EGMS_" + level + "_" + orbit + "_" + burst + "_" + swath + "_" + polarization
      + "_" + year + "_1.zip?id=" + id
  }

  /** The L3 filename prefix, built around the tile code `E{e}N{n}`. */
  function L3Prefix(dataType: string, e: int, n: int, d: string, year: string): string {
    var tileCode := "E" + IntText(e) + "N" + IntText(n);
    "EGMS_" + dataType + "_" + tileCode + "_100km_" + d + "_" + year + "_1"
  }

  /** The L2 filename prefix. */
  function L2Prefix(dataType: string, orbit: string, burst: string, swath: string,
                    polarization: string, year: string): string
  {
    "EGMS_" + dataType + "_" + orbit + "_" + burst + "_" + swath + "_" + polarization + "_" + year + "_1"
  }

  /** The level token of the L2 URL: "L2a" for "L2A", "L2b" for anything else. */
  function L2Level(dataType: string): string {
    if dataType == "L2A" then "L2a" else "L2b"
  }

  /** The URL and prefix of a request, or `None` for an L2 request with a missing parameter. */
  function Identify(r: Request): (id: Option<Identity>)
    ensures r.dataType == "L3" ==> id.Some?
    ensures r.dataType != "L3" ==> (id.Some? <==> HasOrbitParameters(r))
  {
    if r.dataType == "L3" then
      Some(Identity(L3Url(r.dataType, r.e, r.n, r.d, r.year, r.token),
                    L3Prefix(r.dataType, r.e, r.n, r.d, r.year)))
    else if !HasOrbitParameters(r) then
      None
    else
      var orbit, burst, swath, pol :=
        r.relativeOrbit.value, r.burstCycle.value, r.swath.value, r.polarization.value;
      Some(Identity(L2Url(L2Level(r.dataType), orbit, burst, swath, pol, r.year, r.token),
                    L2Prefix(r.dataType, orbit, burst, swath, pol, r.year)))
  }

  // ---------------------------------------------------------------------------
  // Properties of the request identity

  /** An L3 request asks for the archive named after its own CSV prefix, and that prefix
      is `EGMS_L3_E{e}N{n}_100km_{d}_{year}_1`. */
  lemma L3Identity(r: Request)
    requires r.dataType == "L3"
    ensures Identify(r).Some?
    ensures Identify(r).value.prefix
         == "EGMS_L3_E" + IntText(r.e) + "N" + IntText(r.n) + "_100km_" + r.d + "_" + r.year + "_1"
    ensures Identify(r).value.url == DownloadRoot + Identify(r).value.prefix + ".zip?id=" + r.token
  {
    L3UrlShape(DownloadRoot, r.dataType, IntText(r.e), IntText(r.n), r.d, r.year, r.token);
    L3PrefixShape(IntText(r.e), IntText(r.n), r.d, r.year);
  }

  lemma L3UrlShape(root: string, dt: string, e: string, n: string, d: string, year: string, id: string)
    ensures root + "EGMS_" + dt + "_E" + e + "N" + n + "_100km_" + d + "_" + year + "_1.zip?id=" + id
         == root + ("EGMS_" + dt + "_" + ("E" + e + "N" + n) + "_100km_" + d + "_" + year + "_1")
            + ".zip?id=" + id
  {
  }

  lemma L3PrefixShape(e: string, n: string, d: string, year: string)
    ensures "EGMS_" + "L3" + "_" + ("E" + e + "N" + n) + "_100km_" + d + "_" + year + "_1"
         == "EGMS_L3_E" + e + "N" + n + "_100km_" + d + "_" + year + "_1"
  {
  }

  /** An L2 request with all four parameters asks for the archive named like its prefix
      except for the level token, which the URL writes as "L2a" or "L2b" while the prefix
      keeps the data type as given. */
  lemma L2Identity(r: Request)
    requires r.dataType != "L3" && HasOrbitParameters(r)
    ensures Identify(r).Some?
    ensures Identify(r).value.prefix
         == L2Prefix(r.dataType, r.relativeOrbit.value, r.burstCycle.value, r.swath.value,
                     r.polarization.value, r.year)
    ensures Identify(r).value.url
         == DownloadRoot
            + L2Prefix(if r.dataType == "L2A" then "L2a" else "L2b", r.relativeOrbit.value,
                       r.burstCycle.value, r.swath.value, r.polarization.value, r.year)
            + ".zip?id=" + r.token
  {
    L2UrlShape(DownloadRoot, L2Level(r.dataType), r.relativeOrbit.value, r.burstCycle.value,
               r.swath.value, r.polarization.value, r.year, r.token);
  }

  lemma L2UrlShape(root: string, level: string, orbit: string, burst: string, swath: string,
                   pol: string, year: string, id: string)
    ensures root + "EGMS_" + level + "_" + orbit + "_" + burst + "_" + swath + "_" + pol
            + "_" + year + "_1.zip?id=" + id
         == root + ("EGMS_" + level + "_" + orbit + "_" + burst + "_" + swath + "_" + pol + "_" + year + "_1")
            + ".zip?id=" + id
  {
  }

  /** The L2 prefix is never found in a CSV named after the archive the L2 URL asks for:
      the two differ in the case of the level token, and a shifted match would have to
      place the prefix's leading "E" on one of "GMS_". */
  lemma L2PrefixMissesArchiveName(dataType: string, orbit: string, burst: string, swath: string,
                                  pol: string, year: string)
    requires dataType == "L2A" || dataType == "L2B"
    ensures !Contains(L2Prefix(L2Level(dataType), orbit, burst, swath, pol, year) + ".csv",
                      L2Prefix(dataType, orbit, burst, swath, pol, year))
  {
    var name := L2Prefix(L2Level(dataType), orbit, burst, swath, pol, year) + ".csv";
    var prefix := L2Prefix(dataType, orbit, burst, swath, pol, year);
    assert |name| == |prefix| + 4;
    forall i | 0 <= i <= |name| - |prefix| ensures !OccursAt(name, prefix, i) {
      if i == 0 {
        assert name[7] != prefix[7];
        assert name[..|prefix|][7] == name[7];
      } else {
        assert name[i] != 'E' && prefix[0] == 'E';
        assert name[i..i + |prefix|][0] == name[i];
      }
    }
  }

  /** The L3 prefix tells tiles apart: two requests of one year get the same prefix only
      for the same tile and channel. */
  lemma L3PrefixInjective(e1: int, n1: int, d1: string, e2: int, n2: int, d2: string, year: string)
    requires L3Prefix("L3", e1, n1, d1, year) == L3Prefix("L3", e2, n2, d2, year)
    ensures e1 == e2 && n1 == n2 && d1 == d2
  {
    var east1, north1, east2, north2 := IntText(e1), IntText(n1), IntText(e2), IntText(n2);
    L3PrefixSplit(east1, north1, d1, year);
    L3PrefixSplit(east2, north2, d2, year);
    var tail1 := "100km" + ['_'] + (d1 + ['_'] + (year + "_1"));
    var tail2 := "100km" + ['_'] + (d2 + ['_'] + (year + "_1"));
    var head := "EGMS_L3_E";
    var x1, x2 := east1 + ['N'] + (north1 + ['_'] + tail1), east2 + ['N'] + (north2 + ['_'] + tail2);
    assert head + x1 == head + x2;
    assert x1 == (head + x1)[|head|..] == (head + x2)[|head|..] == x2;
    IntTextHasNoLetter(e1, 'N');
    IntTextHasNoLetter(e2, 'N');
    SplitAtSeparator(east1, north1 + ['_'] + tail1, east2, north2 + ['_'] + tail2, 'N');
    IntTextInjective(e1, e2);
    IntTextHasNoLetter(n1, '_');
    IntTextHasNoLetter(n2, '_');
    SplitAtSeparator(north1, tail1, north2, tail2, '_');
    IntTextInjective(n1, n2);
    SplitAtSeparator("100km", d1 + ['_'] + (year + "_1"), "100km", d2 + ['_'] + (year + "_1"), '_');
    var rest := ['_'] + (year + "_1");
    assert d1 + ['_'] + (year + "_1") == d1 + rest;
    assert d2 + ['_'] + (year + "_1") == d2 + rest;
    assert |d1| == |d2|;
    assert d1 == (d1 + rest)[..|d1|] == (d2 + rest)[..|d2|] == d2;
  }

  /** The L3 prefix cut at the separators that follow each field. */
  lemma L3PrefixSplit(east: string, north: string, d: string, year: string)
    ensures "EGMS_" + "L3" + "_" + ("E" + east + "N" + north) + "_100km_" + d + "_" + year + "_1"
         == "EGMS_L3_E" + (east + ['N'] + (north + ['_'] + ("100km" + ['_'] + (d + ['_'] + (year + "_1")))))
  {
  }
}
