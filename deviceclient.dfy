/** The boundary to the devices. Every HTTP helper of the system
    (`upload_file_to_device`, `create_asset_for_device`,
    `get_assets_from_device`, `delete_asset_from_device`, `set_asset_enabled`
    and the GET inside `fetch_specific_tag`) is an oracle: a function from the
    device's ip and the request to what the helper hands back. The
    orchestration code additionally reports each request it makes as a
    `Call`, so that which requests are made, and which are not, can be stated. */
module DeviceClient {

  import opened Json

  /** What a device request produced: the text of the exception the helper
      caught, or the decoded response body. */
  datatype Reply<+T> = Failed(error: string) | Answered(body: T)

  /** The uploaded file as the web form delivers it. `contentType` is None
      when the form sent no content type. */
  datatype FileUpload = FileUpload(filename: string, contentType: Option<string>, data: seq<bv8>)

  /** The JSON body of a create-asset request. */
  datatype AssetPayload = AssetPayload(
    ext: Json,
    name: string,
    uri: Json,
    startDate: string,
    endDate: string,
    duration: int,
    mimetype: string,
    isEnabled: bool,
    isProcessing: bool,
    nocache: bool,
    playOrder: int,
    skipAssetCheck: bool)

  /** The JSON body of the PATCH that enables or disables an asset: `{"is_enabled": ...}`. */
  datatype EnabledPatch = EnabledPatch(isEnabled: bool)

  /** One request sent to one device. */
  datatype Call =
    | UploadFile(ip: string, file: FileUpload)
    | CreateAsset(ip: string, payload: AssetPayload)
    | ListAssets(ip: string)
    | DeleteAsset(ip: string, assetId: string)
    | PatchAsset(ip: string, assetId: string, patch: EnabledPatch)
    | GetCurrentAsset(ip: string)

  /** The device helpers, each already normalised the way its Python helper
      normalises it: `create`, `delete` and `patch` give the dict the helper
      returns (a status-and-response dict or an error dict) as JSON. */
  datatype DeviceApi = DeviceApi(
    upload: (string, FileUpload) -> Reply<map<string, Json>>,
    create: (string, AssetPayload) -> Json,
    list: string -> Reply<Json>,
    delete: (string, string) -> Json,
    patch: (string, string, EnabledPatch) -> Json,
    current: string -> Reply<map<string, Json>>)

  /** The dict an upload helper returns: the decoded body, or `{"error": str(e)}`. */
  function UploadDict(r: Reply<map<string, Json>>): map<string, Json> {
    match r
    case Failed(e) => ErrorDict(e)
    case Answered(body) => body
  }

  /** The value a listing helper returns: the decoded body, or `{"error": str(e)}`. */
  function ListingValue(r: Reply<Json>): Json {
    match r
    case Failed(e) => JObj(ErrorDict(e))
    case Answered(body) => body
  }
}
