/** The boundary with the BigQuery client library: what the adapter asks of
    it, recorded as values. The library itself (network, authentication,
    pagination) is not part of this model. */
module BigQuery {
  import opened Wrappers

  /** A `Client`, known by the location it was constructed with, if any. */
  datatype Client = Client(location: Option<string>)

  /** Stands for the client library: remembers every client it was asked to
      construct, in order, so that a caller's contract can say whether a
      client was built. */
  class Sdk {
    var clients: seq<Client>

    constructor ()
      ensures clients == []
    {
      clients := [];
    }

    /** `Client(location=...)`, or `Client()` when `location` is `None`. */
    method NewClient(location: Option<string>) returns (c: Client)
      modifies this
      ensures c == Client(location)
      ensures clients == old(clients) + [c]
    {
      c := Client(location);
      clients := clients + [c];
    }
  }

  /** A query sent through `execute_query`: the named SQL template, the
      arguments its `format` receives, and the job labels attached. */
  datatype QueryJob = QueryJob(template: string, args: map<string, string>, labels: map<string, string>)

  /** The fixed labels every `execute_query` job carries, for cost attribution. */
  const JobLabels: map<string, string> := map["project" := "bigquery-mcp", "caller" := "ai-agent"]
}
