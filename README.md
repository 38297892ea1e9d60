# Anthias fleet asset orchestration, modelled in Dafny

AnthiasAPI is a small web front end that manages digital-signage assets
across a fleet of Anthias devices. It reads a device directory (a table of
`ip,label` rows), and from the web form it:

- creates file assets on the selected devices, by uploading first and then
  creating;
- creates URL assets with one shared payload;
- lists each device's assets, and the inactive ones among them;
- deletes assets, or enables and disables them, by compound `ip|asset_id`
  references;
- shows a status page with what every device is currently playing.

This project models that orchestration logic. Every HTTP request to a
device is replaced by an oracle, a function from the device's ip and the
request to what the Python helper hands back (`DeviceClient.DeviceApi`).
Every operation that talks to devices returns its outcome and also the
sequence of requests it made (`calls`). That lets the contracts say which
requests are made, in which order, and which are never made.

Modules, one per file:

- `Json` (json.dfy): decoded JSON values, Python truthiness, `dict.get`,
  and the `{"error": ...}` dict.
- `Text` (text.dfy): `str.strip()` with Python's whitespace set,
  `startswith`, `split("|", 1)` with the two-name unpack, and `int()` on a
  decimal literal.
- `FanOut` (fanout.dfy): the calls a sequential per-item loop makes, as the
  in-order concatenation of the items' calls.
- `DeviceClient` (deviceclient.dfy): request and response shapes, the
  request log entry `Call`, and the device oracles.
- `Directory` (directory.dfy): `read_apis_from_csv`.
- `Orchestrator` (orchestrator.dfy): the lifecycle loops of
  `AnthiasAPI/main.py`.
- `StatusProbe` (statusprobe.dfy): `fetch_specific_tag` and `main()`.
- `Routes` (routes.dfy): the guard chain of `create_asset`, the
  `view_assets` loop and the bulk handlers of `AnthiasAPI/app/routes.py`.

The loops that fill a list or a dict in the source are methods with `for`
loops. Each is proved against per-item functions:

- the result dict has exactly one key per input item;
- the value under each key is that item's entry;
- the requests are those of the items, concatenated in input order.

The device oracles are functions of the device's ip and the request alone.
When an input ip or reference string occurs twice, the source sends the
request twice and keeps the second answer, and a real device may answer
the second request differently (a deleted asset is gone; a second create
makes a second asset). In the model both answers are the same, so which
write stays is not observable in the four `main.py` loops; see "## Left
out". `view_assets` is different because its entry also carries the
label: `Routes.ViewAssets` states that the last device with an ip wins.

A directory row whose address is empty after trimming is better skipped or
reported, since no device can be reached at an empty address. The code
keeps such a row as a device with the empty string as its ip, and the model
follows the code (`Directory.BlankAddressKept`).

One device's failure is meant not to stop the others, and the helpers catch
request errors for that reason. In `get_all_inactive_assets`, however, the
filter calls `.get` on every element it iterates, and the exception that
raises for some listings ends the whole call. Listings that raise:

- null, a number or a boolean, which cannot be iterated;
- a non-empty string, whose elements are characters;
- a non-empty dict without a truthy "error", whose elements are its keys;
- a list holding a non-object;
- a failed request whose exception text is empty, because its error dict
  has a falsy "error".

The model follows the code: the `Raised` outcome of
`Orchestrator.GetAllInactiveAssets` names the first such device, every
device before it got its entry, and no device after it is contacted.

## Model

| member | source | states |
|---|---|---|
| Directory.EntryOf | AnthiasAPI/main.py:35-37 | the ip is the stripped first field; the label is the stripped second field, or the ip when the row has one field |
| Directory.ReadApisFromCsv | AnthiasAPI/main.py:29-38 | the loop's list is exactly the directory the rows describe: one entry per non-empty row, in row order |
| Directory.DirectoryAppend | AnthiasAPI/main.py:32-37 | parsing two blocks of rows gives the first block's entries followed by the second's; an empty row adds nothing |
| Directory.DirectoryEntries | AnthiasAPI/main.py:32-37 | there are as many entries as non-empty rows, and an entry is in the directory iff some non-empty row yields it |
| Directory.DirectoryLength | AnthiasAPI/main.py:33-34 | the directory's length is the number of non-empty rows |
| Directory.DirectoryStripped | AnthiasAPI/main.py:35-36 | every ip and label in the directory is free of surrounding whitespace |
| Directory.BlankAddressKept | AnthiasAPI/main.py:33-37 | a row whose address is blank is kept, with ip "" and its own label |
| Text.Strip | AnthiasAPI/main.py:35-36 | `strip()` yields a contiguous part of the input; everything cut is whitespace; the result does not start or end with whitespace |
| Text.StripUnpadded | AnthiasAPI/main.py:35-36 | stripping a string without whitespace at its ends returns it unchanged |
| Text.StripIdempotent | AnthiasAPI/main.py:35-36 | stripping twice is stripping once |
| Text.StripBlank | AnthiasAPI/app/routes.py:65 | a string strips to "" iff it is all whitespace |
| Text.StripPadded | AnthiasAPI/app/routes.py:40 | whitespace put around a string without edge whitespace is exactly what stripping removes |
| Text.SplitFirst | AnthiasAPI/main.py:213 | the unpack fails iff there is no separator; otherwise the left part has no separator and the item is left, separator, right |
| Text.SplitUnique | AnthiasAPI/main.py:213 | only one split has a left part free of separators |
| Text.SplitJoin | AnthiasAPI/main.py:213 | splitting a joined pair whose left part has no separator gives the pair back |
| Text.ParseInt | AnthiasAPI/app/routes.py:48 | `int()` succeeds iff the text is an optional sign followed by one or more decimal digits |
| Text.ParseShow | AnthiasAPI/app/routes.py:48 | `int()` of the decimal text of n is n |
| FanOut.FlatMapAppend | AnthiasAPI/main.py:87-123 | a loop over two batches makes the first batch's requests, then the second's: nothing is reordered |
| FanOut.FlatMapIn | AnthiasAPI/main.py:87-123 | a loop makes a request iff some item of its input makes it |
| Orchestrator.FileMimetype | AnthiasAPI/main.py:85 | the file's content type, else the guessed type, else "application/octet-stream"; never empty |
| Orchestrator.PayloadMimetype | AnthiasAPI/main.py:101-106 | an `image/` prefix gives "image", a `video/` prefix gives "video", and anything else is kept verbatim |
| Orchestrator.PayloadMimetypeExamples | AnthiasAPI/main.py:101-106 | "image/png" gives "image", "video/mp4" gives "video", and "application/pdf" is kept |
| Orchestrator.FilePayload | AnthiasAPI/main.py:108-121 | ext and uri come from the upload, name, dates and duration from the metadata; the fixed flags are set |
| Orchestrator.UrlPayload | AnthiasAPI/main.py:135-148 | ext is "string", mimetype "webpage" and uri the asset url; metadata fields and the fixed flags as in the file payload |
| Orchestrator.PayloadsAgree | AnthiasAPI/main.py:135-148 | the URL payload is the file payload with ext "string", the url as uri and mimetype "webpage" |
| Orchestrator.CheckUpload | AnthiasAPI/main.py:90-98 | an "error" key fails the step with that error; otherwise the step succeeds iff uri and ext are both truthy, and fails with the missing-uri-or-ext message otherwise |
| Orchestrator.CreateFileAssetOnSelectedDevices | AnthiasAPI/main.py:84-124 | one result per selected ip: the upload-step error or the create result; the requests are each ip's upload, then its create request only if the upload was accepted |
| Orchestrator.EveryDeviceUploads | AnthiasAPI/main.py:87-89 | every selected device receives the upload, whatever happened to the devices before it |
| Orchestrator.CreateFollowsUpload | AnthiasAPI/main.py:108-123 | a create request goes only to a selected device that accepted the upload, and it carries that device's uri and ext |
| Orchestrator.UploadFailureSkipsCreate | AnthiasAPI/main.py:89-98 | a device whose upload fails never receives a create request |
| Orchestrator.CreateUrlAssetOnSelectedDevices | AnthiasAPI/main.py:134-152 | one result per selected ip, the device's answer to the one shared payload; request k is that payload sent to ip k |
| Orchestrator.ParseRef | AnthiasAPI/main.py:213 | a reference parses iff it has a separator; the ip is the text before the first separator and the asset id everything after it |
| Orchestrator.ParseRefJoin | AnthiasAPI/main.py:213 | a reference built from an ip without a separator parses back to that ip and id, whatever the id holds |
| Orchestrator.ParseRefExamples | AnthiasAPI/main.py:213 | the reference of ip 10.0.0.5 and id 42 parses back to them, and with three parts the id keeps the second separator |
| Orchestrator.MalformedRefExample | AnthiasAPI/main.py:212-217 | a reference without a separator does not parse |
| Orchestrator.DeleteSelectedAssets | AnthiasAPI/main.py:210-218 | one result per reference string, the unpack error for a malformed one; one delete request per well-formed reference, in order |
| Orchestrator.DeleteCallsFromRefs | AnthiasAPI/main.py:211-215 | a delete request is made iff some well-formed reference in the input names that ip and asset id |
| Orchestrator.EnabledPayload | AnthiasAPI/main.py:227 | the PATCH body's `is_enabled` is the flag passed in |
| Orchestrator.SetSelectedAssetsEnabled | AnthiasAPI/main.py:247-254 | one result per reference string, the unpack error for a malformed one; one PATCH per well-formed reference, in order |
| Orchestrator.EnableCallsCarryFlag | AnthiasAPI/main.py:241-254 | a PATCH is made iff some well-formed reference names it, and every PATCH carries the caller's one flag |
| Orchestrator.InactiveOnly | AnthiasAPI/main.py:185 | an asset is kept iff it is in the listing and its is_active is exactly false |
| Orchestrator.InactiveOnlyAppend | AnthiasAPI/main.py:185 | the filter keeps the survivors in their original order |
| Orchestrator.InactiveOnlyExample | AnthiasAPI/main.py:185 | of assets whose is_active is false, true and absent, only the first survives |
| Orchestrator.ListingError | AnthiasAPI/main.py:182 | an error is found iff the listing is a dict with a truthy "error", and it is that value |
| Orchestrator.InactiveEntryFor | AnthiasAPI/main.py:181-186 | a failed listing with a message, or a dict with a truthy error, gives the error entry; there is no entry (the filter raises) iff the listing has no truthy error and is not iterable as asset objects |
| Orchestrator.IterableAssets | AnthiasAPI/main.py:185 | the filter gets through a listing iff it is a list of objects, an empty dict or an empty string, and a list yields its objects in order |
| Orchestrator.InactiveEntryRaises | AnthiasAPI/main.py:182-185 | the filter raises for a failed request with an empty message, null, a number or boolean, a non-empty string, a non-empty dict without a truthy error, and a list holding a non-object |
| Orchestrator.InactiveEntryFilters | AnthiasAPI/main.py:185-186 | a device answering with a list of asset objects gets exactly its assets whose is_active is false |
| Orchestrator.GetAllInactiveAssets | AnthiasAPI/main.py:176-187 | devices are listed in directory order; the report has one entry per directory ip, or the call raises at the first device whose listing makes the filter raise: every device before it got its entry and no device after it is contacted |
| StatusProbe.FetchSpecificTag | AnthiasAPI/main.py:259-268 | a failed request gives "Offline", an answer gives the tag's value, or "Tag '...' not found" when the tag is absent |
| StatusProbe.OfflineMeansFailed | AnthiasAPI/main.py:266-268 | unless a device itself reports "Offline", the result is "Offline" iff the request failed |
| StatusProbe.FleetStatus | AnthiasAPI/main.py:270-282 | one row per directory device, in directory order, with the device's label and fetched name; no device is dropped |
| Routes.DurationOf | AnthiasAPI/app/routes.py:40-48 | an absent or blank duration is 0; otherwise the stripped text is read by `int()` |
| Routes.DurationReadsDecimal | AnthiasAPI/app/routes.py:40-48 | a decimal integer with any surrounding whitespace is read as that integer |
| Routes.PlanCreate | AnthiasAPI/app/routes.py:37-70 | the rejections come in fixed priority: no devices, then bad duration, then missing metadata, then no source; a named file wins over a URL, and a URL is stored stripped in the metadata |
| Routes.NoDevicesDecidesAlone | AnthiasAPI/app/routes.py:44-45 | with no device selected, the rest of the form does not matter |
| Routes.FileWinsOverUrl | AnthiasAPI/app/routes.py:62-68 | with a usable file, the URL field does not matter |
| Routes.CreateAssetRoute | AnthiasAPI/app/routes.py:36-72 | a rejected form gets its 400 message with no device request; otherwise the chosen orchestration's results and requests |
| Routes.ViewEntryFor | AnthiasAPI/app/routes.py:24-31 | an error entry iff the listing is a dict with a truthy error; otherwise the listing as it came, always with the device's label |
| Routes.ViewAssets | AnthiasAPI/app/routes.py:22-33 | one entry per directory ip, the entry of the last device with that ip; one listing request per device, in order |
| Routes.DeleteAssets | AnthiasAPI/app/routes.py:79-82 | an empty selection makes no device request; otherwise the requests of the bulk delete |
| Routes.SetAssetsActive | AnthiasAPI/app/routes.py:89-93 | an empty selection makes no device request; otherwise every PATCH carries true |
| Routes.SetAssetsInactive | AnthiasAPI/app/routes.py:100-104 | an empty selection makes no device request; otherwise every PATCH carries false |

## Left out

- HTTP, endpoint URLs, Basic-Auth credentials, `raise_for_status` and JSON decoding are not modelled. Each device helper is an oracle (`DeviceClient.DeviceApi`) returning the helper's result, or the text of the exception it caught.
- Oracles are deterministic: asking one device the same thing twice gets the same answer. Device-side state is not modelled, so the claim that enabling an asset twice has no further effect is outside the model.
- The distinction between catching `RequestException` and catching every `Exception` in the helpers is not modelled: a failure is an error value either way.
- The create, delete and enable helpers' result dicts (status, response, response text) are opaque JSON values given by the oracle.
- Upload and current-asset answers are typed as JSON objects. An answer of another JSON shape, on which Python's `in` or `.get` would behave differently or raise, is not modelled.
- JSON numbers are reals, so the integer/float distinction of decoded JSON is not kept.
- Text.ParseInt: accepts an optional sign and ASCII decimal digits only. Python `int()` also accepts underscores between digits and non-ASCII decimal digits, which are not modelled.
- The csv reader's quoting and the file access (`open`, `get_csv_path`) are not modelled. Rows arrive already split into fields.
- Orchestrator.GetAllInactiveAssets, Routes.ViewAssets and StatusProbe.FleetStatus take the directory entries that `Directory.ReadApisFromCsv` produces rather than reading the file themselves.
- `mimetypes.guess_type` is a parameter (`guess`).
- `file_obj.seek(0)` is not modelled: the uploaded file is a value, so every device receives the same content.
- `print` logging is left out.
- Flask plumbing is left out: routing, `jsonify`, `render_template`, `redirect` and status codes. `BadRequest` stands for the 400 answer. A bulk handler returns only the requests it made, because its results are discarded before the redirect.
- The `index`, `create_asset_page` and `anthias_status` handlers only render templates and are not modelled. `anthias_status` shows `StatusProbe.FleetStatus`.
- A concurrent fan-out with per-call timeouts is not modelled. The source runs sequential loops, and so does the model.
- Orchestrator.CreateFileAssetOnSelectedDevices, Orchestrator.CreateUrlAssetOnSelectedDevices, Orchestrator.DeleteSelectedAssets and Orchestrator.SetSelectedAssetsEnabled do not capture that a repeated ip or reference keeps the second device answer: the oracles give one answer per request, so the first and the last write are the same value. The repeated requests themselves are in `calls`.
- Dict insertion order of the result dicts is not modelled: they are maps. The order of the device requests is modelled.
- Orchestrator.GetAllInactiveAssets: the `Raised` outcome records the device whose listing made the filter raise, but not the exception's type or message.
- The doc comment of `set_asset_enabled` mentions a PUT with `is_active`. The model follows the code, which sends a PATCH with `is_enabled`.
- `device.get("label", ip)` in `view_assets` always finds a label, because every directory entry has one. The model reads the label directly.
