/** The status page: `main()` asks every directory device for the asset it
    is showing and reports one `{label, name}` row per device, in directory
    order, with "Offline" for a device that cannot be reached. */
module StatusProbe {

  import opened Json
  import opened DeviceClient
  import opened Directory

  /** The field of the current-asset answer the status page shows. */
  const TargetTag := "name"

  const Offline := "Offline"

  /** The message shown when the device answers without the field. */
  function TagMissing(tag: string): string {
    "Tag '" + tag + "' not found"
  }

  datatype StatusRow = StatusRow(displayLabel: string, name: Json)

  /** `fetch_specific_tag`'s result mapping: a failed request is "Offline",
      an answer is the tag's value, or the not-found message when the answer
      lacks the tag. */
  function FetchSpecificTag(reply: Reply<map<string, Json>>, tag: string): (r: Json)
    ensures reply.Failed? ==> r == JStr(Offline)
    ensures reply.Answered? && tag in reply.body ==> r == reply.body[tag]
    ensures reply.Answered? && tag !in reply.body ==> r == JStr(TagMissing(tag))
  {
    match reply
    case Failed(_) => JStr(Offline)
    case Answered(body) => if tag in body then body[tag] else JStr(TagMissing(tag))
  }

  /** The sentinel is ambiguous only with a device that itself reports
      "Offline": otherwise "Offline" means the request failed. */
  lemma OfflineMeansFailed(reply: Reply<map<string, Json>>, tag: string)
    requires reply.Answered? && tag in reply.body ==> reply.body[tag] != JStr(Offline)
    ensures FetchSpecificTag(reply, tag) == JStr(Offline) <==> reply.Failed?
  {
    if reply.Answered? && tag !in reply.body {
      assert TagMissing(tag)[0] == 'T';
    }
  }

  /** `main()`: one row per directory device, in directory order; no
      device is dropped, whatever its request gave. */
  method FleetStatus(devices: seq<DeviceEntry>, dev: DeviceApi)
    returns (results: seq<StatusRow>, calls: seq<Call>)
    ensures |results| == |devices|
    ensures forall k :: 0 <= k < |devices| ==>
              results[k] == StatusRow(devices[k].displayLabel, FetchSpecificTag(dev.current(devices[k].ip), TargetTag))
    ensures |calls| == |devices|
    ensures forall k :: 0 <= k < |devices| ==> calls[k] == GetCurrentAsset(devices[k].ip)
  {
    results, calls := [], [];
    for i := 0 to |devices|
      invariant |results| == i && |calls| == i
      invariant forall k :: 0 <= k < i ==>
                  results[k] == StatusRow(devices[k].displayLabel, FetchSpecificTag(dev.current(devices[k].ip), TargetTag))
      invariant forall k :: 0 <= k < i ==> calls[k] == GetCurrentAsset(devices[k].ip)
    {
      var ip := devices[i].ip;
      var lbl := devices[i].displayLabel;
      var name := FetchSpecificTag(dev.current(ip), TargetTag);
      calls := calls + [GetCurrentAsset(ip)];
      results := results + [StatusRow(lbl, name)];
    }
  }
}
