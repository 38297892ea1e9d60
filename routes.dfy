/** The request handlers of `AnthiasAPI/app/routes.py` that carry logic:
    the validation and dispatch chain of `create_asset`, the aggregation
    loop of `view_assets`, and the empty-selection guards of the bulk
    delete / set-active / set-inactive handlers. Rendering and redirects are
    not modelled; a handler returns its outcome and the device requests made. */
module Routes {

  import opened Json
  import opened Text
  import opened FanOut
  import opened DeviceClient
  import opened Directory
  import opened Orchestrator

  // ---------------------------------------------------------------------
  // create_asset
  // ---------------------------------------------------------------------

  /** The submitted create-asset form: `request.form.get` gives None for an
      absent field, `getlist("selected_ips")` the selected ips in order, and
      `file` is the uploaded file, if the form carried one. */
  datatype CreateForm = CreateForm(
    name: Option<string>,
    startDate: Option<string>,
    endDate: Option<string>,
    duration: Option<string>,
    selectedIps: seq<string>,
    file: Option<FileUpload>,
    assetUrl: Option<string>)

  const NoDevicesError := "No devices selected. Please choose at least one device."
  const BadDurationError := "Duration must be an integer."
  const MissingMetadataError := "Missing required asset metadata."
  const NoAssetError := "No asset provided. Please upload a file or enter an asset URL."

  /** The duration field: absent counts as "0", the text is stripped, blank
      text is 0 and anything else is read as an integer. None stands for the
      ValueError of a text that is not an integer. */
  function DurationOf(raw: Option<string>): (r: Option<int>)
    ensures raw.None? ==> r == Some(0)
    ensures raw.Some? && Strip(raw.value) == "" ==> r == Some(0)
    ensures raw.Some? && Strip(raw.value) != "" ==> r == ParseInt(Strip(raw.value))
  {
    match raw
    case None => Some(0)
    case Some(v) =>
      var s := Strip(v);
      if s == "" then Some(0) else ParseInt(s)
  }

  /** A duration typed as a decimal integer, with or without surrounding
      whitespace, is read as that integer. */
  lemma DurationReadsDecimal(n: int, lead: string, trail: string)
    requires forall k :: 0 <= k < |lead| ==> IsSpace(lead[k])
    requires forall k :: 0 <= k < |trail| ==> IsSpace(trail[k])
    ensures DurationOf(Some(lead + IntToString(n) + trail)) == Some(n)
  {
    var digits := IntToString(n);
    if n < 0 {
      var m := NatToString(-n);
      assert digits[|digits| - 1] == m[|m| - 1];
    }
    StripPadded(lead, digits, trail);
    ParseShow(n);
  }

  /** `name`, `start_date` and `end_date` are all present and non-empty. */
  predicate MetadataGiven(form: CreateForm) {
    Given(form.name) && Given(form.startDate) && Given(form.endDate)
  }

  /** The form carries an uploaded file whose filename is not empty. */
  predicate HasFile(form: CreateForm) {
    form.file.Some? && form.file.value.filename != ""
  }

  /** The URL field stripped of surrounding whitespace; an absent field is "". */
  function UrlText(form: CreateForm): string {
    Strip(match form.assetUrl case Some(u) => u case None => "")
  }

  /** What `create_asset` decides to do with a form. */
  datatype Plan =
    | Reject(message: string)
    | UploadFileAsset(file: FileUpload, meta: Metadata, ips: seq<string>)
    | CreateUrlAsset(meta: Metadata, ips: seq<string>)

  /** The form passed every check that comes before the choice of source. */
  predicate PassesChecks(form: CreateForm) {
    form.selectedIps != [] && DurationOf(form.duration).Some? && MetadataGiven(form)
  }

  /** The metadata dict built once the checks passed. */
  function FormMetadata(form: CreateForm, assetUrl: Option<string>): Metadata
    requires PassesChecks(form)
  {
    Metadata(form.name.value, form.startDate.value, form.endDate.value,
             DurationOf(form.duration).value, assetUrl)
  }

  /** The guard chain of `create_asset`, in its fixed order: no devices,
      then a bad duration, then missing metadata, then the source, where a
      named file wins over a URL and neither is rejected last. */
  function PlanCreate(form: CreateForm): (p: Plan)
    ensures form.selectedIps == [] ==> p == Reject(NoDevicesError)
    ensures form.selectedIps != [] && DurationOf(form.duration).None? ==> p == Reject(BadDurationError)
    ensures form.selectedIps != [] && DurationOf(form.duration).Some? && !MetadataGiven(form) ==>
              p == Reject(MissingMetadataError)
    ensures p.UploadFileAsset? <==> PassesChecks(form) && HasFile(form)
    ensures p.CreateUrlAsset? <==> PassesChecks(form) && !HasFile(form) && UrlText(form) != ""
    ensures p == Reject(NoAssetError) <==> PassesChecks(form) && !HasFile(form) && UrlText(form) == ""
    ensures p.UploadFileAsset? ==>
              p.file == form.file.value && p.ips == form.selectedIps && p.meta == FormMetadata(form, None)
    ensures p.CreateUrlAsset? ==>
              p.ips == form.selectedIps && p.meta == FormMetadata(form, Some(UrlText(form)))
  {
    if form.selectedIps == [] then Reject(NoDevicesError)
    else
      var duration := DurationOf(form.duration);
      if duration.None? then Reject(BadDurationError)
      else if !MetadataGiven(form) then Reject(MissingMetadataError)
      else
        var metadata := FormMetadata(form, None);
        if HasFile(form) then UploadFileAsset(form.file.value, metadata, form.selectedIps)
        else if UrlText(form) != "" then
          CreateUrlAsset(metadata.(assetUrl := Some(UrlText(form))), form.selectedIps)
        else Reject(NoAssetError)
  }

  /** With no device selected, nothing else in the form matters. */
  lemma NoDevicesDecidesAlone(form: CreateForm, other: CreateForm)
    requires form.selectedIps == [] && other.selectedIps == []
    ensures PlanCreate(form) == PlanCreate(other)
  {
  }

  /** A usable file makes the URL field irrelevant. */
  lemma FileWinsOverUrl(form: CreateForm, url: Option<string>)
    requires PassesChecks(form) && HasFile(form)
    ensures PlanCreate(form.(assetUrl := url)) == PlanCreate(form)
  {
  }

  /** The handler's answer: a 400 with its message, or the JSON of the results. */
  datatype Response =
    | BadRequest(error: string)
    | FileResults(fileResults: map<string, FileEntry>)
    | UrlResults(urlResults: map<string, Json>)

  /** `create_asset`: a rejected form is answered without any device
      request; otherwise the chosen orchestration runs and its results are
      returned. */
  method CreateAssetRoute(form: CreateForm, guess: string -> Option<string>, dev: DeviceApi)
    returns (response: Response, calls: seq<Call>)
    ensures PlanCreate(form).Reject? ==> response == BadRequest(PlanCreate(form).message) && calls == []
    ensures PlanCreate(form).UploadFileAsset? ==>
              var p := PlanCreate(form);
              var mimetype := FileMimetype(p.file, guess);
              && response.FileResults?
              && (forall ip :: ip in response.fileResults <==> ip in form.selectedIps)
              && (forall ip :: ip in response.fileResults ==>
                    response.fileResults[ip] == FileEntryFor(dev, p.file, p.meta, mimetype, ip))
              && calls == FlatMap(form.selectedIps, FileCalls(dev, p.file, p.meta, mimetype))
    ensures PlanCreate(form).CreateUrlAsset? ==>
              var p := PlanCreate(form);
              && response.UrlResults?
              && (forall ip :: ip in response.urlResults <==> ip in form.selectedIps)
              && (forall ip :: ip in response.urlResults ==>
                    response.urlResults[ip] == dev.create(ip, UrlPayload(p.meta)))
              && |calls| == |form.selectedIps|
              && (forall k :: 0 <= k < |calls| ==> calls[k] == CreateAsset(form.selectedIps[k], UrlPayload(p.meta)))
  {
    match PlanCreate(form)
    case Reject(message) =>
      response, calls := BadRequest(message), [];
    case UploadFileAsset(file, metadata, ips) =>
      var results;
      results, calls := CreateFileAssetOnSelectedDevices(file, metadata, ips, guess, dev);
      response := FileResults(results);
    case CreateUrlAsset(metadata, ips) =>
      var results;
      results, calls := CreateUrlAssetOnSelectedDevices(metadata, ips, dev);
      response := UrlResults(results);
  }

  // ---------------------------------------------------------------------
  // view_assets
  // ---------------------------------------------------------------------

  /** A device's entry on the asset overview: `{label, error}` or `{label, assets}`. */
  datatype ViewEntry =
    | ViewError(displayLabel: string, error: Json)
    | ViewListing(displayLabel: string, assets: Json)

  /** The entry of one directory device: an error entry exactly when its
      listing is a dict with a truthy "error"; otherwise the listing as it came. */
  function ViewEntryFor(dev: DeviceApi, d: DeviceEntry): (e: ViewEntry)
    ensures e.displayLabel == d.displayLabel
    ensures e.ViewError? <==> ListingError(ListingValue(dev.list(d.ip))).Some?
    ensures e.ViewError? ==> e.error == ListingValue(dev.list(d.ip)).fields["error"]
    ensures e.ViewListing? ==> e.assets == ListingValue(dev.list(d.ip))
  {
    var assets := ListingValue(dev.list(d.ip));
    match ListingError(assets)
    case Some(err) => ViewError(d.displayLabel, err)
    case None => ViewListing(d.displayLabel, assets)
  }

  /** Device `k` is the last one among the first `n` with its ip. */
  predicate LastBefore(ds: seq<DeviceEntry>, k: nat, n: nat)
    requires k < n <= |ds|
  {
    forall j :: k < j < n ==> ds[j].ip != ds[k].ip
  }

  /** Writing device `i`'s entry keeps every device that is the last with
      its ip among the first `i + 1` mapped to its own entry. */
  lemma ViewStep(devices: seq<DeviceEntry>, dev: DeviceApi, m: map<string, ViewEntry>, i: nat)
    requires i < |devices|
    requires forall k :: 0 <= k < i && LastBefore(devices, k, i) ==>
               devices[k].ip in m && m[devices[k].ip] == ViewEntryFor(dev, devices[k])
    ensures var m' := m[devices[i].ip := ViewEntryFor(dev, devices[i])];
            forall k :: 0 <= k < i + 1 && LastBefore(devices, k, i + 1) ==>
              devices[k].ip in m' && m'[devices[k].ip] == ViewEntryFor(dev, devices[k])
  {
    forall k | 0 <= k < i && LastBefore(devices, k, i + 1)
      ensures LastBefore(devices, k, i)
    {
    }
  }

  /** `view_assets`: one entry per directory ip, written in directory
      order, so that of two devices sharing an ip the later one's entry stays. */
  method ViewAssets(devices: seq<DeviceEntry>, dev: DeviceApi)
    returns (allAssets: map<string, ViewEntry>, calls: seq<Call>)
    ensures forall ip :: ip in allAssets <==> ip in Ips(devices)
    ensures forall k :: 0 <= k < |devices| && LastBefore(devices, k, |devices|) ==>
              allAssets[devices[k].ip] == ViewEntryFor(dev, devices[k])
    ensures |calls| == |devices|
    ensures forall k :: 0 <= k < |devices| ==> calls[k] == ListAssets(devices[k].ip)
  {
    allAssets, calls := map[], [];
    for i := 0 to |devices|
      invariant forall ip :: ip in allAssets <==> ip in Ips(devices[..i])
      invariant forall k :: 0 <= k < i && LastBefore(devices, k, i) ==>
                  devices[k].ip in allAssets && allAssets[devices[k].ip] == ViewEntryFor(dev, devices[k])
      invariant |calls| == i
      invariant forall k :: 0 <= k < i ==> calls[k] == ListAssets(devices[k].ip)
    {
      var ip := devices[i].ip;
      assert Ips(devices[..i + 1]) == Ips(devices[..i]) + [ip];
      calls := calls + [ListAssets(ip)];
      var before := allAssets;
      allAssets := allAssets[ip := ViewEntryFor(dev, devices[i])];
      ViewStep(devices, dev, before, i);
    }
    assert devices[..|devices|] == devices;
  }

  // ---------------------------------------------------------------------
  // Bulk handlers
  // ---------------------------------------------------------------------

  /** `delete_assets`: an empty selection makes no device request. */
  method DeleteAssets(selected: seq<string>, dev: DeviceApi) returns (calls: seq<Call>)
    ensures selected == [] ==> calls == []
    ensures selected != [] ==> calls == FlatMap(selected, DeleteCallsFor)
  {
    if selected == [] {
      return [];
    }
    var deletionResults;
    deletionResults, calls := DeleteSelectedAssets(selected, dev);
  }

  /** `set_assets_active`: enables every selected asset. */
  method SetAssetsActive(selected: seq<string>, dev: DeviceApi) returns (calls: seq<Call>)
    ensures selected == [] ==> calls == []
    ensures selected != [] ==> calls == FlatMap(selected, EnableCalls(true))
  {
    if selected == [] {
      return [];
    }
    var results;
    results, calls := SetSelectedAssetsEnabled(selected, true, dev);
  }

  /** `set_assets_inactive`: disables every selected asset. */
  method SetAssetsInactive(selected: seq<string>, dev: DeviceApi) returns (calls: seq<Call>)
    ensures selected == [] ==> calls == []
    ensures selected != [] ==> calls == FlatMap(selected, EnableCalls(false))
  {
    if selected == [] {
      return [];
    }
    var results;
    results, calls := SetSelectedAssetsEnabled(selected, false, dev);
  }
}
