/** `fetchElectricityData` and the part of `main` that reads its result: five fetches in
    a fixed order, then the merge. The network is a parameter: the response each dataset
    identifier gets. */
module Pipeline {
  import opened Wrappers
  import opened Kotlin
  import opened Fetcher
  import opened Merger

  const ConsumptionDataset := "124"
  const ProductionDataset := "74"
  const WindDataset := "181"
  const NuclearDataset := "188"
  const WaterDataset := "191"

  /** The datasets in the order they are fetched. */
  const FetchOrder: seq<string> :=
    [ConsumptionDataset, ProductionDataset, WindDataset, NuclearDataset, WaterDataset]

  /** A fetch that threw, and the dataset it was fetching. */
  datatype PipelineError = FetchFailed(dataset: string, cause: FetchError)

  /** All five responses are ones a fetch turns into a list without throwing. */
  predicate AllWellFormed(network: string -> Response) {
    forall i :: 0 <= i < |FetchOrder| ==> WellFormed(network(FetchOrder[i]))
  }

  /** One fetch, its error tagged with the dataset. */
  function FetchDataset(network: string -> Response, dataset: string): (r: Result<Series, PipelineError>)
    ensures r.Success? ==> Fetch(network(dataset)) == Success(r.value)
    ensures r.Failure? ==> r.error.dataset == dataset && Fetch(network(dataset)) == Failure(r.error.cause)
  {
    match Fetch(network(dataset))
    case Success(s) => Success(s)
    case Failure(e) => Failure(FetchFailed(dataset, e))
  }

  /** `fetchElectricityData`: succeeds exactly when all five responses are well formed, and
      otherwise fails with the error of the first dataset, in fetch order, whose fetch
      throws; on success the result is the merge of the five series. */
  function FetchElectricityData(network: string -> Response): (r: Result<map<string, MergeValue>, PipelineError>)
    ensures r.Success? <==> AllWellFormed(network)
    ensures r.Failure? ==>
              exists i :: 0 <= i < |FetchOrder|
                && r.error.dataset == FetchOrder[i]
                && Fetch(network(FetchOrder[i])) == Failure(r.error.cause)
                && forall j :: 0 <= j < i ==> WellFormed(network(FetchOrder[j]))
    ensures r.Success? ==>
              && Fetch(network(ConsumptionDataset)).Success?
              && Fetch(network(ProductionDataset)).Success?
              && Fetch(network(WindDataset)).Success?
              && Fetch(network(NuclearDataset)).Success?
              && Fetch(network(WaterDataset)).Success?
    ensures r.Success? ==>
              r.value == Merge(Fetch(network(ConsumptionDataset)).value,
                               Fetch(network(ProductionDataset)).value,
                               Fetch(network(WindDataset)).value,
                               Fetch(network(NuclearDataset)).value,
                               Fetch(network(WaterDataset)).value)
  {
    assert FetchOrder[0] == ConsumptionDataset && FetchOrder[1] == ProductionDataset
           && FetchOrder[2] == WindDataset && FetchOrder[3] == NuclearDataset
           && FetchOrder[4] == WaterDataset;
    var consumption :- FetchDataset(network, ConsumptionDataset);
    var production :- FetchDataset(network, ProductionDataset);
    var wind :- FetchDataset(network, WindDataset);
    var nuclear :- FetchDataset(network, NuclearDataset);
    var water :- FetchDataset(network, WaterDataset);
    Success(Merge(consumption, production, wind, nuclear, water))
  }

  /** What `main` prints: the map under `tuotanto` when it `is NestedMap`, nothing
      otherwise. */
  function PrintedProduction(result: map<string, MergeValue>): (r: Option<map<string, Series>>)
    ensures r.Some? <==> GroupingKey in result && result[GroupingKey].NestedMap?
    ensures r.Some? ==> r.value == result[GroupingKey].groups
  {
    if GroupingKey in result && result[GroupingKey].NestedMap? then Some(result[GroupingKey].groups)
    else None
  }

  /** The `is NestedMap` check in `main` always succeeds on a merged result, and what it
      prints is the grouping of water, nuclear and wind. */
  lemma MainPrintsGrouping(network: string -> Response)
    requires FetchElectricityData(network).Success?
    ensures PrintedProduction(FetchElectricityData(network).value)
            == Some(Grouping(Fetch(network(WaterDataset)).value,
                             Fetch(network(NuclearDataset)).value,
                             Fetch(network(WindDataset)).value))
  {
  }

  /** A non-200 response for production or consumption degrades that series to the empty
      list without failing the run: when every other response is well formed (and a 200
      for the other of the two carries a well-formed `data` array), the run succeeds and
      its pairing is empty. */
  lemma DegradedFetchEmptiesPairing(network: string -> Response)
    requires network(ProductionDataset).status != HttpOk || network(ConsumptionDataset).status != HttpOk
    requires network(ProductionDataset).status == HttpOk ==> WellFormed(network(ProductionDataset))
    requires network(ConsumptionDataset).status == HttpOk ==> WellFormed(network(ConsumptionDataset))
    requires WellFormed(network(WindDataset))
    requires WellFormed(network(NuclearDataset))
    requires WellFormed(network(WaterDataset))
    ensures FetchElectricityData(network).Success?
    ensures FetchElectricityData(network).value[PairingKey] == IntMap(map[])
  {
  }
}
