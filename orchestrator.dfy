/** The asset lifecycle operations of `AnthiasAPI/main.py`: two-step file
    asset creation, URL asset creation, deletion and enabling/disabling by
    compound `ip|asset_id` references, and the inactive-asset listing. Each
    operation is a sequential loop over its input that writes one result per
    item into a dict and reports the device requests it makes. */
module Orchestrator {

  import opened Json
  import opened Text
  import opened FanOut
  import opened DeviceClient
  import opened Directory

  /** The metadata dict the route layer builds. `assetUrl` is present only
      for URL assets. */
  datatype Metadata = Metadata(
    name: string,
    startDate: string,
    endDate: string,
    duration: int,
    assetUrl: Option<string>)

  // ---------------------------------------------------------------------
  // Mimetype classification and payloads
  // ---------------------------------------------------------------------

  const OctetStream := "application/octet-stream"

  /** Python truthiness of an optional string: present and non-empty. */
  predicate Given(s: Option<string>) {
    s.Some? && s.value != ""
  }

  /** The file's type: its content type when it has a non-empty one, else
      the type guessed from its filename, else "application/octet-stream";
      `guess` plays the part of the standard library's type guesser. */
  function FileMimetype(file: FileUpload, guess: string -> Option<string>): (m: string)
    ensures m != ""
    ensures Given(file.contentType) ==> m == file.contentType.value
    ensures !Given(file.contentType) && Given(guess(file.filename)) ==> m == guess(file.filename).value
    ensures !Given(file.contentType) && !Given(guess(file.filename)) ==> m == OctetStream
  {
    if Given(file.contentType) then file.contentType.value
    else if Given(guess(file.filename)) then guess(file.filename).value
    else OctetStream
  }

  /** The mimetype the create payload carries: any `image/...` type is
      "image", any `video/...` type is "video", and every other type is kept
      as it is. */
  function PayloadMimetype(m: string): (r: string)
    ensures StartsWith(m, "image/") ==> r == "image"
    ensures !StartsWith(m, "image/") && StartsWith(m, "video/") ==> r == "video"
    ensures !StartsWith(m, "image/") && !StartsWith(m, "video/") ==> r == m
    ensures r == "image" || r == "video" || r == m
  {
    if StartsWith(m, "image/") then "image"
    else if StartsWith(m, "video/") then "video"
    else m
  }

  lemma PayloadMimetypeExamples()
    ensures PayloadMimetype("image/png") == "image"
    ensures PayloadMimetype("video/mp4") == "video"
    ensures PayloadMimetype("application/pdf") == "application/pdf"
  {
    assert "image/png"[..6] == "image/";
    assert "video/mp4"[..6] == "video/";
    assert "video/mp4"[..6] != "image/";
    assert "application/pdf"[..6] != "image/" && "application/pdf"[..6] != "video/";
  }

  /** The flags every create payload sets. */
  predicate FixedFlags(p: AssetPayload) {
    p.isEnabled && p.isProcessing && p.nocache && p.playOrder == 0 && p.skipAssetCheck
  }

  /** The payload takes name, dates and duration from the metadata. */
  predicate CarriesMetadata(p: AssetPayload, meta: Metadata) {
    p.name == meta.name && p.startDate == meta.startDate && p.endDate == meta.endDate
    && p.duration == meta.duration
  }

  /** The create payload of a file asset: `ext` and `uri` come from the
      upload response, the mimetype from the classified file type. */
  function FilePayload(ext: Json, uri: Json, meta: Metadata, mimetype: string): (p: AssetPayload)
    ensures p.ext == ext && p.uri == uri && p.mimetype == mimetype
    ensures CarriesMetadata(p, meta) && FixedFlags(p)
  {
    AssetPayload(ext, meta.name, uri, meta.startDate, meta.endDate, meta.duration,
                 mimetype, true, true, true, 0, true)
  }

  /** The JSON value of `metadata.get("asset_url")`. */
  function UrlValue(meta: Metadata): Json {
    match meta.assetUrl
    case Some(u) => JStr(u)
    case None => JNull
  }

  /** The one payload shared by every device of a URL asset. */
  function UrlPayload(meta: Metadata): (p: AssetPayload)
    ensures p.ext == JStr("string") && p.mimetype == "webpage" && p.uri == UrlValue(meta)
    ensures CarriesMetadata(p, meta) && FixedFlags(p)
  {
    AssetPayload(JStr("string"), meta.name, UrlValue(meta), meta.startDate, meta.endDate,
                 meta.duration, "webpage", true, true, true, 0, true)
  }

  /** The two payload literals differ only in ext, uri and mimetype. */
  lemma PayloadsAgree(meta: Metadata)
    ensures UrlPayload(meta) == FilePayload(JStr("string"), UrlValue(meta), meta, "webpage")
  {
  }

  // ---------------------------------------------------------------------
  // File assets: upload, then create
  // ---------------------------------------------------------------------

  const MissingUriExt := "Missing 'uri' or 'ext' in upload response."

  /** How the upload step ended for one device. */
  datatype UploadCheck = Rejected(error: Json) | Accepted(uri: Json, ext: Json)

  /** The checks made on the upload helper's dict: an "error" key fails the
      step with that error; otherwise both "uri" and "ext" must be truthy. */
  function CheckUpload(up: map<string, Json>): (v: UploadCheck)
    ensures "error" in up ==> v == Rejected(up["error"])
    ensures v.Accepted? <==> "error" !in up && Truthy(Get(up, "uri")) && Truthy(Get(up, "ext"))
    ensures v.Rejected? && "error" !in up ==> v.error == JStr(MissingUriExt)
    ensures v.Accepted? ==> v.uri == up["uri"] && v.ext == up["ext"]
  {
    if "error" in up then Rejected(up["error"])
    else
      var uri := Get(up, "uri");
      var ext := Get(up, "ext");
      if !Truthy(uri) || !Truthy(ext) then Rejected(JStr(MissingUriExt))
      else Accepted(uri, ext)
  }

  /** A device's entry in the file-asset results:
      `{"step": "upload", "error": ...}` or `{"step": "create_asset", "result": ...}`. */
  datatype FileEntry = UploadStep(error: Json) | CreateAssetStep(result: Json)

  /** The upload outcome of one device. */
  function UploadOf(dev: DeviceApi, file: FileUpload, ip: string): UploadCheck {
    CheckUpload(UploadDict(dev.upload(ip, file)))
  }

  /** The create payload a device receives after a successful upload. */
  function CreatePayloadOf(u: UploadCheck, meta: Metadata, mimetype: string): AssetPayload
    requires u.Accepted?
  {
    FilePayload(u.ext, u.uri, meta, PayloadMimetype(mimetype))
  }

  function FileEntryFor(dev: DeviceApi, file: FileUpload, meta: Metadata, mimetype: string, ip: string): FileEntry {
    var u := UploadOf(dev, file, ip);
    match u
    case Rejected(e) => UploadStep(e)
    case Accepted(_, _) => CreateAssetStep(dev.create(ip, CreatePayloadOf(u, meta, mimetype)))
  }

  /** The requests one device receives: always the upload, and the create
      request only when the upload was accepted. */
  function FileCallsFor(dev: DeviceApi, file: FileUpload, meta: Metadata, mimetype: string, ip: string): seq<Call> {
    var u := UploadOf(dev, file, ip);
    [UploadFile(ip, file)] + if u.Accepted? then [CreateAsset(ip, CreatePayloadOf(u, meta, mimetype))] else []
  }

  function FileCalls(dev: DeviceApi, file: FileUpload, meta: Metadata, mimetype: string): string -> seq<Call> {
    ip => FileCallsFor(dev, file, meta, mimetype, ip)
  }

  /** `create_file_asset_on_selected_devices`: for each selected ip, upload
      the file, and create the asset only if the upload gave a usable uri and
      ext. An upload failure ends that ip's turn and no other. */
  method CreateFileAssetOnSelectedDevices(file: FileUpload, meta: Metadata, selectedIps: seq<string>,
                                          guess: string -> Option<string>, dev: DeviceApi)
    returns (results: map<string, FileEntry>, calls: seq<Call>)
    ensures forall ip :: ip in results <==> ip in selectedIps
    ensures forall ip :: ip in results ==> results[ip] == FileEntryFor(dev, file, meta, FileMimetype(file, guess), ip)
    ensures calls == FlatMap(selectedIps, FileCalls(dev, file, meta, FileMimetype(file, guess)))
  {
    results, calls := map[], [];
    var fileMimetype := FileMimetype(file, guess);
    for i := 0 to |selectedIps|
      invariant forall ip :: ip in results <==> ip in selectedIps[..i]
      invariant forall ip :: ip in results ==> results[ip] == FileEntryFor(dev, file, meta, fileMimetype, ip)
      invariant calls == FlatMap(selectedIps[..i], FileCalls(dev, file, meta, fileMimetype))
    {
      var ip := selectedIps[i];
      assert selectedIps[..i + 1][..i] == selectedIps[..i];
      assert selectedIps[..i + 1] == selectedIps[..i] + [ip];
      var uploadResponse := UploadDict(dev.upload(ip, file));
      calls := calls + [UploadFile(ip, file)];
      if "error" in uploadResponse {
        results := results[ip := UploadStep(uploadResponse["error"])];
        continue;
      }
      var fileUri := Get(uploadResponse, "uri");
      var fileExt := Get(uploadResponse, "ext");
      if !Truthy(fileUri) || !Truthy(fileExt) {
        results := results[ip := UploadStep(JStr(MissingUriExt))];
        continue;
      }
      var mimetype := PayloadMimetype(fileMimetype);
      var payload := FilePayload(fileExt, fileUri, meta, mimetype);
      var assetResponse := dev.create(ip, payload);
      calls := calls + [CreateAsset(ip, payload)];
      results := results[ip := CreateAssetStep(assetResponse)];
    }
    assert selectedIps[..|selectedIps|] == selectedIps;
  }

  /** Every selected device receives the upload request, whatever happened
      to the devices before it. */
  lemma EveryDeviceUploads(dev: DeviceApi, file: FileUpload, meta: Metadata, mimetype: string, ips: seq<string>)
    ensures forall ip :: ip in ips ==> UploadFile(ip, file) in FlatMap(ips, FileCalls(dev, file, meta, mimetype))
  {
    forall ip | ip in ips
      ensures UploadFile(ip, file) in FlatMap(ips, FileCalls(dev, file, meta, mimetype))
    {
      var k :| 0 <= k < |ips| && ips[k] == ip;
      assert UploadFile(ip, file) in FileCalls(dev, file, meta, mimetype)(ips[k]);
      FlatMapIn(ips, FileCalls(dev, file, meta, mimetype), UploadFile(ip, file));
    }
  }

  /** A create request goes to a device only after that device accepted the
      upload, and it carries the uri and ext the device answered with. */
  lemma CreateFollowsUpload(dev: DeviceApi, file: FileUpload, meta: Metadata, mimetype: string, ips: seq<string>)
    ensures forall c :: c in FlatMap(ips, FileCalls(dev, file, meta, mimetype)) && c.CreateAsset? ==>
              c.ip in ips && UploadOf(dev, file, c.ip).Accepted?
              && c.payload == CreatePayloadOf(UploadOf(dev, file, c.ip), meta, mimetype)
  {
    forall c | c in FlatMap(ips, FileCalls(dev, file, meta, mimetype)) && c.CreateAsset?
      ensures c.ip in ips && UploadOf(dev, file, c.ip).Accepted?
              && c.payload == CreatePayloadOf(UploadOf(dev, file, c.ip), meta, mimetype)
    {
      FlatMapIn(ips, FileCalls(dev, file, meta, mimetype), c);
      var k :| 0 <= k < |ips| && c in FileCalls(dev, file, meta, mimetype)(ips[k]);
      assert c in FileCallsFor(dev, file, meta, mimetype, ips[k]);
    }
  }

  /** A device whose upload fails never receives a create request. */
  lemma UploadFailureSkipsCreate(dev: DeviceApi, file: FileUpload, meta: Metadata, mimetype: string,
                                 ips: seq<string>, ip: string)
    requires UploadOf(dev, file, ip).Rejected?
    ensures forall c :: c in FlatMap(ips, FileCalls(dev, file, meta, mimetype)) && c.CreateAsset? ==> c.ip != ip
  {
    CreateFollowsUpload(dev, file, meta, mimetype, ips);
  }

  // ---------------------------------------------------------------------
  // URL assets
  // ---------------------------------------------------------------------

  /** `create_url_asset_on_selected_devices`: one payload, built once, sent
      unchanged to every selected ip in order. */
  method CreateUrlAssetOnSelectedDevices(meta: Metadata, selectedIps: seq<string>, dev: DeviceApi)
    returns (results: map<string, Json>, calls: seq<Call>)
    ensures forall ip :: ip in results <==> ip in selectedIps
    ensures forall ip :: ip in results ==> results[ip] == dev.create(ip, UrlPayload(meta))
    ensures |calls| == |selectedIps|
    ensures forall k :: 0 <= k < |selectedIps| ==> calls[k] == CreateAsset(selectedIps[k], UrlPayload(meta))
  {
    results, calls := map[], [];
    var payload := UrlPayload(meta);
    for i := 0 to |selectedIps|
      invariant forall ip :: ip in results <==> ip in selectedIps[..i]
      invariant forall ip :: ip in results ==> results[ip] == dev.create(ip, payload)
      invariant |calls| == i
      invariant forall k :: 0 <= k < i ==> calls[k] == CreateAsset(selectedIps[k], payload)
    {
      var ip := selectedIps[i];
      assert selectedIps[..i + 1] == selectedIps[..i] + [ip];
      var assetResponse := dev.create(ip, payload);
      calls := calls + [CreateAsset(ip, payload)];
      results := results[ip := assetResponse];
    }
    assert selectedIps[..|selectedIps|] == selectedIps;
  }

  // ---------------------------------------------------------------------
  // Compound references: delete and enable/disable
  // ---------------------------------------------------------------------

  datatype AssetRef = AssetRef(ip: string, assetId: string)

  /** `ip, asset_id = item.split("|", 1)`: split at the first `|`; None when
      there is no `|` (the unpack raises). */
  function ParseRef(item: string): (r: Option<AssetRef>)
    ensures r.None? <==> '|' !in item
    ensures r.Some? ==> '|' !in r.value.ip && item == r.value.ip + "|" + r.value.assetId
  {
    match SplitFirst(item, '|')
    case None => None
    case Some((ip, assetId)) => Some(AssetRef(ip, assetId))
  }

  /** A reference built from an ip without `|` parses back to that ip and id,
      whatever the id contains. */
  lemma ParseRefJoin(ip: string, assetId: string)
    requires '|' !in ip
    ensures ParseRef(ip + "|" + assetId) == Some(AssetRef(ip, assetId))
  {
    SplitJoin(ip, assetId, '|');
  }

  lemma ParseRefExamples()
    ensures ParseRef("10.0.0.5|42") == Some(AssetRef("10.0.0.5", "42"))
    ensures ParseRef("a|b|c") == Some(AssetRef("a", "b|c"))
  {
    ParseRefJoin("10.0.0.5", "42");
    assert "10.0.0.5|42" == "10.0.0.5" + "|" + "42";
    ParseRefJoin("a", "b|c");
    assert "a|b|c" == "a" + "|" + "b|c";
  }

  lemma MalformedRefExample()
    ensures ParseRef("malformed") == None
  {
    var item := "malformed";
    assert forall k :: 0 <= k < |item| ==> item[k] != '|';
  }

  /** The message of the ValueError Python raises when a one-element split
      is unpacked into two names. */
  const UnpackError := "not enough values to unpack (expected 2, got 1)"

  /** A reference's entry: `{"error": ...}` for a malformed reference, else
      what the device helper returned. */
  datatype RefEntry = Malformed(error: string) | Sent(result: Json)

  function DeleteEntryFor(dev: DeviceApi, item: string): RefEntry {
    match ParseRef(item)
    case None => Malformed(UnpackError)
    case Some(r) => Sent(dev.delete(r.ip, r.assetId))
  }

  /** The requests one reference causes: none when it is malformed. */
  function DeleteCallsFor(item: string): seq<Call> {
    match ParseRef(item)
    case None => []
    case Some(r) => [DeleteAsset(r.ip, r.assetId)]
  }

  /** `delete_selected_assets`: one entry per reference string; a
      malformed reference is recorded and the loop goes on. */
  method DeleteSelectedAssets(deletionList: seq<string>, dev: DeviceApi)
    returns (results: map<string, RefEntry>, calls: seq<Call>)
    ensures forall item :: item in results <==> item in deletionList
    ensures forall item :: item in results ==> results[item] == DeleteEntryFor(dev, item)
    ensures calls == FlatMap(deletionList, DeleteCallsFor)
  {
    results, calls := map[], [];
    for i := 0 to |deletionList|
      invariant forall item :: item in results <==> item in deletionList[..i]
      invariant forall item :: item in results ==> results[item] == DeleteEntryFor(dev, item)
      invariant calls == FlatMap(deletionList[..i], DeleteCallsFor)
    {
      var item := deletionList[i];
      assert deletionList[..i + 1][..i] == deletionList[..i];
      assert deletionList[..i + 1] == deletionList[..i] + [item];
      var split := SplitFirst(item, '|');
      if split.None? {
        results := results[item := Malformed(UnpackError)];
        continue;
      }
      var (ip, assetId) := split.value;
      var result := dev.delete(ip, assetId);
      calls := calls + [DeleteAsset(ip, assetId)];
      results := results[item := Sent(result)];
    }
    assert deletionList[..|deletionList|] == deletionList;
  }

  /** Each delete request comes from a well-formed reference among the
      input, aimed at the ip and asset id that reference names. */
  lemma DeleteCallsFromRefs(items: seq<string>)
    ensures forall c :: c in FlatMap(items, DeleteCallsFor) <==>
              exists k :: 0 <= k < |items| && ParseRef(items[k]).Some?
                && c == DeleteAsset(ParseRef(items[k]).value.ip, ParseRef(items[k]).value.assetId)
  {
    forall c
      ensures c in FlatMap(items, DeleteCallsFor) <==>
              exists k :: 0 <= k < |items| && ParseRef(items[k]).Some?
                && c == DeleteAsset(ParseRef(items[k]).value.ip, ParseRef(items[k]).value.assetId)
    {
      FlatMapIn(items, DeleteCallsFor, c);
    }
  }

  /** `set_asset_enabled`'s request body. */
  function EnabledPayload(enabled: bool): (p: EnabledPatch)
    ensures p.isEnabled == enabled
  {
    EnabledPatch(enabled)
  }

  function EnableEntryFor(dev: DeviceApi, item: string, enabled: bool): RefEntry {
    match ParseRef(item)
    case None => Malformed(UnpackError)
    case Some(r) => Sent(dev.patch(r.ip, r.assetId, EnabledPayload(enabled)))
  }

  function EnableCallsFor(item: string, enabled: bool): seq<Call> {
    match ParseRef(item)
    case None => []
    case Some(r) => [PatchAsset(r.ip, r.assetId, EnabledPayload(enabled))]
  }

  function EnableCalls(enabled: bool): string -> seq<Call> {
    item => EnableCallsFor(item, enabled)
  }

  /** `set_selected_assets_enabled`: the same flag for every reference; a
      malformed reference is recorded and the loop goes on. */
  method SetSelectedAssetsEnabled(itemList: seq<string>, enabled: bool, dev: DeviceApi)
    returns (results: map<string, RefEntry>, calls: seq<Call>)
    ensures forall item :: item in results <==> item in itemList
    ensures forall item :: item in results ==> results[item] == EnableEntryFor(dev, item, enabled)
    ensures calls == FlatMap(itemList, EnableCalls(enabled))
  {
    results, calls := map[], [];
    for i := 0 to |itemList|
      invariant forall item :: item in results <==> item in itemList[..i]
      invariant forall item :: item in results ==> results[item] == EnableEntryFor(dev, item, enabled)
      invariant calls == FlatMap(itemList[..i], EnableCalls(enabled))
    {
      var item := itemList[i];
      assert itemList[..i + 1][..i] == itemList[..i];
      assert itemList[..i + 1] == itemList[..i] + [item];
      var split := SplitFirst(item, '|');
      if split.None? {
        results := results[item := Malformed(UnpackError)];
        continue;
      }
      var (ip, assetId) := split.value;
      var payload := EnabledPayload(enabled);
      var result := dev.patch(ip, assetId, payload);
      calls := calls + [PatchAsset(ip, assetId, payload)];
      results := results[item := Sent(result)];
    }
    assert itemList[..|itemList|] == itemList;
  }

  /** Each PATCH comes from a well-formed reference among the input and
      carries the one flag the caller passed. */
  lemma EnableCallsCarryFlag(items: seq<string>, enabled: bool)
    ensures forall c :: c in FlatMap(items, EnableCalls(enabled)) <==>
              exists k :: 0 <= k < |items| && ParseRef(items[k]).Some?
                && c == PatchAsset(ParseRef(items[k]).value.ip, ParseRef(items[k]).value.assetId,
                                   EnabledPatch(enabled))
  {
    forall c
      ensures c in FlatMap(items, EnableCalls(enabled)) <==>
              exists k :: 0 <= k < |items| && ParseRef(items[k]).Some?
                && c == PatchAsset(ParseRef(items[k]).value.ip, ParseRef(items[k]).value.assetId,
                                   EnabledPatch(enabled))
    {
      FlatMapIn(items, EnableCalls(enabled), c);
      if c in FlatMap(items, EnableCalls(enabled)) {
        var k :| 0 <= k < |items| && c in EnableCalls(enabled)(items[k]);
        assert c in EnableCallsFor(items[k], enabled);
      }
      if exists k :: 0 <= k < |items| && ParseRef(items[k]).Some?
                && c == PatchAsset(ParseRef(items[k]).value.ip, ParseRef(items[k]).value.assetId,
                                   EnabledPatch(enabled)) {
        var k :| 0 <= k < |items| && ParseRef(items[k]).Some?
                && c == PatchAsset(ParseRef(items[k]).value.ip, ParseRef(items[k]).value.assetId,
                                   EnabledPatch(enabled));
        assert c in EnableCalls(enabled)(items[k]);
      }
    }
  }

  // ---------------------------------------------------------------------
  // Inactive assets
  // ---------------------------------------------------------------------

  /** `asset.get("is_active") is False`: the field is present and is the
      boolean false itself; true, null, 0, "" and absence all fail. */
  predicate IsInactive(asset: map<string, Json>) {
    "is_active" in asset && asset["is_active"] == JBool(false)
  }

  function KeepIfInactive(asset: map<string, Json>): seq<map<string, Json>> {
    if IsInactive(asset) then [asset] else []
  }

  /** The list comprehension of the inactive filter: the assets whose
      is_active is exactly false, in their listing order. */
  function InactiveOnly(assets: seq<map<string, Json>>): (r: seq<map<string, Json>>)
    ensures forall a :: a in r <==> a in assets && IsInactive(a)
  {
    var r := FlatMap(assets, KeepIfInactive);
    assert forall a :: a in r <==> a in assets && IsInactive(a) by {
      forall a
        ensures a in r <==> a in assets && IsInactive(a)
      {
        FlatMapIn(assets, KeepIfInactive, a);
      }
    }
    r
  }

  /** The filter keeps the inactive assets in their original order. */
  lemma InactiveOnlyAppend(assets: seq<map<string, Json>>, more: seq<map<string, Json>>)
    ensures InactiveOnly(assets + more) == InactiveOnly(assets) + InactiveOnly(more)
    ensures InactiveOnly([]) == []
  {
    FlatMapAppend(assets, more, KeepIfInactive);
  }

  /** Of three assets whose is_active is false, true and absent, only the
      first survives. */
  lemma InactiveOnlyExample()
    ensures var off := map["id" := JStr("a"), "is_active" := JBool(false)];
            var on := map["id" := JStr("b"), "is_active" := JBool(true)];
            var unset := map["id" := JStr("c")];
            InactiveOnly([off, on, unset]) == [off]
  {
    var off := map["id" := JStr("a"), "is_active" := JBool(false)];
    var on := map["id" := JStr("b"), "is_active" := JBool(true)];
    var unset := map["id" := JStr("c")];
    InactiveOnlyAppend([off], [on, unset]);
    InactiveOnlyAppend([on], [unset]);
    InactiveOnlyAppend([], [off]);
    InactiveOnlyAppend([], [on]);
    InactiveOnlyAppend([], [unset]);
    assert [off] + [on, unset] == [off, on, unset];
    assert [on] + [unset] == [on, unset];
    assert [] + [off] == [off];
    assert [] + [on] == [on];
    assert [] + [unset] == [unset];
  }

  /** `isinstance(assets, dict) and assets.get("error")`: the error value
      of a listing, when the listing is a dict with a truthy "error". */
  function ListingError(j: Json): (r: Option<Json>)
    ensures r.Some? <==> j.JObj? && Truthy(Get(j.fields, "error"))
    ensures r.Some? ==> r.value == j.fields["error"]
  {
    if j.JObj? && Truthy(Get(j.fields, "error")) then Some(j.fields["error"]) else None
  }

  /** What iterating over a listing and calling `.get` on each element
      yields: a list of objects, or an empty dict or string, can be iterated;
      any other value makes Python raise (None). */
  function IterableAssets(j: Json): (r: Option<seq<map<string, Json>>>)
    ensures r.Some? <==> || (j.JArr? && forall k :: 0 <= k < |j.items| ==> j.items[k].JObj?)
                         || j == JObj(map[])
                         || j == JStr("")
    ensures r.Some? && j.JArr? ==>
              |r.value| == |j.items| && forall k :: 0 <= k < |j.items| ==> j.items[k] == JObj(r.value[k])
    ensures r.Some? && !j.JArr? ==> r.value == []
  {
    match j
    case JArr(items) =>
      if forall k :: 0 <= k < |items| ==> items[k].JObj? then
        Some(seq(|items|, k requires 0 <= k < |items| => items[k].fields))
      else None
    case JObj(fields) => if fields == map[] then Some([]) else None
    case JStr(s) => if s == "" then Some([]) else None
    case _ => None
  }

  /** A device's entry in the inactive report: `{"error": ...}` or the filtered list. */
  datatype InactiveEntry = InactiveError(error: Json) | InactiveAssets(assets: seq<map<string, Json>>)

  /** One device's entry, or None when its listing makes the filter raise.
      A failed request with a non-empty message is an error entry. */
  function InactiveEntryFor(dev: DeviceApi, ip: string): (r: Option<InactiveEntry>)
    ensures dev.list(ip).Failed? && dev.list(ip).error != "" ==>
              r == Some(InactiveError(JStr(dev.list(ip).error)))
    ensures ListingError(ListingValue(dev.list(ip))).Some? ==>
              r == Some(InactiveError(ListingError(ListingValue(dev.list(ip))).value))
    ensures r.None? <==> ListingError(ListingValue(dev.list(ip))).None?
                         && IterableAssets(ListingValue(dev.list(ip))).None?
  {
    var j := ListingValue(dev.list(ip));
    match ListingError(j)
    case Some(e) => Some(InactiveError(e))
    case None =>
      match IterableAssets(j)
      case None => None
      case Some(assets) => Some(InactiveAssets(InactiveOnly(assets)))
  }

  /** The listings that make the filter raise: a failed request whose
      message is empty (its error dict is not truthy, so its keys are
      iterated), null, a number or boolean, a non-empty string, a non-empty
      dict without a truthy "error", and a list holding a non-object. */
  lemma InactiveEntryRaises(dev: DeviceApi, ip: string)
    ensures dev.list(ip) == Failed("") ==> InactiveEntryFor(dev, ip).None?
    ensures dev.list(ip) == Answered(JNull) ==> InactiveEntryFor(dev, ip).None?
    ensures dev.list(ip).Answered? && (dev.list(ip).body.JNum? || dev.list(ip).body.JBool?) ==>
              InactiveEntryFor(dev, ip).None?
    ensures dev.list(ip).Answered? && dev.list(ip).body.JStr? && dev.list(ip).body.s != "" ==>
              InactiveEntryFor(dev, ip).None?
    ensures dev.list(ip).Answered? && dev.list(ip).body.JObj? && dev.list(ip).body.fields != map[]
            && !Truthy(Get(dev.list(ip).body.fields, "error")) ==>
              InactiveEntryFor(dev, ip).None?
    ensures dev.list(ip).Answered? && dev.list(ip).body.JArr?
            && (exists k :: 0 <= k < |dev.list(ip).body.items| && !dev.list(ip).body.items[k].JObj?) ==>
              InactiveEntryFor(dev, ip).None?
  {
    if dev.list(ip) == Failed("") {
      var j := ListingValue(dev.list(ip));
      assert j == JObj(map["error" := JStr("")]);
      assert "error" in j.fields;
      assert !Truthy(Get(j.fields, "error"));
    }
  }

  /** When a device answers with a list of asset objects, its entry holds
      exactly those of them whose is_active is false. */
  lemma InactiveEntryFilters(dev: DeviceApi, ip: string, items: seq<Json>)
    requires dev.list(ip) == Answered(JArr(items))
    requires forall k :: 0 <= k < |items| ==> items[k].JObj?
    ensures InactiveEntryFor(dev, ip).Some? && InactiveEntryFor(dev, ip).value.InactiveAssets?
    ensures forall a :: a in InactiveEntryFor(dev, ip).value.assets <==>
              JObj(a) in items && IsInactive(a)
  {
    var assets := IterableAssets(JArr(items)).value;
    forall a
      ensures a in assets <==> JObj(a) in items
    {
      if a in assets {
        var k :| 0 <= k < |assets| && assets[k] == a;
        assert items[k] == JObj(a);
      }
      if JObj(a) in items {
        var k :| 0 <= k < |items| && items[k] == JObj(a);
        assert assets[k] == a;
      }
    }
  }

  /** The outcome of `get_all_inactive_assets`: the per-device report, or
      the exception that a non-iterable listing raised at device `ip`. */
  datatype InactiveReport = Raised(ip: string) | Report(byIp: map<string, InactiveEntry>)

  /** `get_all_inactive_assets`: lists each device of the directory, in
      directory order, and keeps only its inactive assets. A listing that
      cannot be iterated ends the whole operation. */
  method GetAllInactiveAssets(devices: seq<DeviceEntry>, dev: DeviceApi)
    returns (report: InactiveReport, calls: seq<Call>)
    ensures |calls| <= |devices|
    ensures forall k :: 0 <= k < |calls| ==> calls[k] == ListAssets(devices[k].ip)
    ensures report.Report? <==> forall k :: 0 <= k < |devices| ==> InactiveEntryFor(dev, devices[k].ip).Some?
    ensures report.Report? ==> |calls| == |devices|
    ensures report.Report? ==> forall ip :: ip in report.byIp <==> ip in Ips(devices)
    ensures report.Report? ==> forall ip :: ip in report.byIp ==> InactiveEntryFor(dev, ip) == Some(report.byIp[ip])
    ensures report.Raised? ==> |calls| > 0 && report.ip == devices[|calls| - 1].ip
                               && InactiveEntryFor(dev, report.ip).None?
    ensures report.Raised? ==> forall k :: 0 <= k < |calls| - 1 ==> InactiveEntryFor(dev, devices[k].ip).Some?
  {
    var inactiveAssets: map<string, InactiveEntry> := map[];
    calls := [];
    for i := 0 to |devices|
      invariant |calls| == i
      invariant forall k :: 0 <= k < i ==> calls[k] == ListAssets(devices[k].ip)
      invariant forall k :: 0 <= k < i ==> InactiveEntryFor(dev, devices[k].ip).Some?
      invariant forall ip :: ip in inactiveAssets <==> ip in Ips(devices[..i])
      invariant forall ip :: ip in inactiveAssets ==> InactiveEntryFor(dev, ip) == Some(inactiveAssets[ip])
    {
      var ip := devices[i].ip;
      assert Ips(devices[..i + 1]) == Ips(devices[..i]) + [ip];
      calls := calls + [ListAssets(ip)];
      var entry := InactiveEntryFor(dev, ip);
      if entry.None? {
        report := Raised(ip);
        return;
      }
      inactiveAssets := inactiveAssets[ip := entry.value];
    }
    assert devices[..|devices|] == devices;
    report := Report(inactiveAssets);
  }
}
