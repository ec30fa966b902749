/** `fetch_file_data`: build the request identity, issue one GET, check the status,
    open the archive and pick the CSV payload. The HTTP call is an oracle `net` that
    maps the position of a request in the run and its URL to the server's response. */
module TileFetcher {
  import opened Wrappers
  import opened Archive
  import opened RequestIdentity

  /** The body of a response as `zipfile.ZipFile` sees it. */
  datatype Body = NotAZip | Zip(entries: seq<Member>)

  /** What `curl_requests.get` produces: an exception, or a status code and a body. */
  datatype Response = TransportError | Reply(status: int, body: Body)

  /** The remote archive service: the response to the k-th request of a run, sent to a URL. */
  type Network = (nat, string) -> Response

  /** The checks made on a response once the request has been sent. */
  function Receive(prefix: string, resp: Response): (o: Outcome)
    ensures o.Fetched? ==> resp.Reply? && resp.status == 200 && resp.body.Zip? && IsCsvFor(o.name, prefix)
    ensures resp.Reply? && resp.status != 200 ==> o == Failed(BadStatus(resp.status))
    ensures o.Failed? ==> o.reason != MissingParameters
  {
    match resp
    case TransportError => Failed(Raised)
    case Reply(status, body) =>
      if status != 200 then Failed(BadStatus(status))
      else match body
        case NotAZip => Failed(Raised)
        case Zip(entries) => Extract(entries, prefix)
  }

  /** The outcome of `fetch_file_data` for a request sent as the k-th of a run. */
  function Fetch(r: Request, net: Network, k: nat): (o: Outcome)
    ensures o == Failed(MissingParameters) <==> r.dataType != "L3" && !HasOrbitParameters(r)
    ensures o.Fetched? ==> Identify(r).Some? && IsCsvFor(o.name, Identify(r).value.prefix)
  {
    match Identify(r)
    case None => Failed(MissingParameters)
    case Some(id) => Receive(id.prefix, net(k, id.url))
  }

  /** `fetch_file_data`, also returning the URL it sent a request to, if any. */
  method FetchFileData(r: Request, net: Network, k: nat) returns (o: Outcome, requested: Option<string>)
    ensures o == Fetch(r, net, k)
    ensures requested.None? <==> o == Failed(MissingParameters)
    ensures requested.Some? ==> Identify(r).Some? && requested.value == Identify(r).value.url
  {
    var identity := Identify(r);
    if identity.None? {
      return Failed(MissingParameters), None;
    }
    var url, prefix := identity.value.url, identity.value.prefix;
    requested := Some(url);
    var response := net(k, url);
    match response {
      case TransportError =>
        o := Failed(Raised);
      case Reply(status, body) =>
        if status != 200 {
          o := Failed(BadStatus(status));
        } else {
          match body {
            case NotAZip =>
              o := Failed(Raised);
            case Zip(entries) =>
              o := ExtractCsv(entries, prefix);
          }
        }
    }
  }

  // ---------------------------------------------------------------------------
  // Properties of a single fetch

  /** A request with all its parameters fails exactly in the cases the code handles: an
      exception on the transport, a status other than 200, a body that is not a zip
      archive, no CSV entry with the prefix, or a first such name that cannot be read back. */
  lemma FetchFailsExactly(r: Request, net: Network, k: nat)
    requires Identify(r).Some?
    ensures var id := Identify(r).value;
            var resp := net(k, id.url);
            Fetch(r, net, k).Failed? <==>
              || resp.TransportError?
              || resp.status != 200
              || resp.body.NotAZip?
              || !exists i :: 0 <= i < |resp.body.entries| && IsCsvFor(resp.body.entries[i].name, id.prefix)
                                && Read(resp.body.entries, resp.body.entries[i].name).Readable?
                                && forall j :: 0 <= j < i ==> !IsCsvFor(resp.body.entries[j].name, id.prefix)
  {
    var id := Identify(r).value;
    var resp := net(k, id.url);
    if resp.Reply? && resp.status == 200 && resp.body.Zip? {
      ExtractSucceeds(resp.body.entries, id.prefix);
    }
  }

  /** An L2 request missing a parameter is refused before the network is consulted:
      its outcome is the same whatever the server would answer. */
  lemma MissingParametersSendNothing(r: Request, net1: Network, net2: Network, k: nat)
    requires r.dataType != "L3" && !HasOrbitParameters(r)
    ensures Fetch(r, net1, k) == Fetch(r, net2, k) == Failed(MissingParameters)
  {
  }
}
