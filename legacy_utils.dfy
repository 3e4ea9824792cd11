/** The older toolbox of `src/utils.py`. Its `RegionEnum` and
    `InvalidRegionError` are word for word those of `src/toolbox.py` (module
    `Regions`); it differs in building its client without a location and in
    passing the region to the "datasets" template under the key
    `region_name`. */
module LegacyUtils {
  import opened Wrappers
  import opened Regions
  import opened BigQuery

  class Toolbox {
    /** `_region`: always a member of the enumeration. */
    var region: Region
    var client: Client

    constructor (region: Region, client: Client)
      ensures this.region == region && this.client == client
    {
      this.region := region;
      this.client := client;
    }

    /** `Toolbox(region)`: validation first, raising `InvalidRegionError`
        (here: `Failure` with its message) before any client is constructed;
        on success a client with no location. */
    static method Create(raw: string, sdk: Sdk) returns (res: Result<Toolbox, string>)
      modifies sdk
      ensures res.Success? <==> IsRegionName(raw)
      ensures res.Success? ==>
        fresh(res.value) && res.value.RegionName() == raw &&
        res.value.client == Client(None) &&
        sdk.clients == old(sdk.clients) + [Client(None)]
      ensures res.Failure? ==>
        res.error == InvalidRegionMessage(raw) && sdk.clients == old(sdk.clients)
    {
      match ParseRegion(raw)
      case Failure(message) =>
        res := Failure(message);
      case Success(r) =>
        var c := sdk.NewClient(None);
        var t := new Toolbox(r, c);
        res := Success(t);
    }

    /** The `region` property: the canonical string of the stored region. */
    function RegionName(): (s: string)
      reads this
      ensures IsRegionName(s)
      ensures ParseRegion(s) == Success(region)
    {
      ParseValue(region);
      Value(region)
    }

    /** `get_dataset_descriptions`: the "datasets" template formatted with
        the single argument `region_name`, never the raw input but the
        allow-listed value validated at construction. */
    function DatasetDescriptionsJob(): (job: QueryJob)
      reads this
      ensures job.template == "datasets" && job.labels == JobLabels
      ensures job.args.Keys == {"region_name"}
      ensures forall k :: k in job.args ==> IsRegionName(job.args[k])
      ensures ParseRegion(job.args["region_name"]) == Success(region)
    {
      QueryJob("datasets", map["region_name" := RegionName()], JobLabels)
    }
  }
}
