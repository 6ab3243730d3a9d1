/**
  `resourceExist` and `PodMonitorExist`: whether a resource kind is served
  under an API group/version, with a missing group/version read as "no".
 */
module ResourceDiscovery {
  import opened Results
  import opened KubeApi

  const SccGroupVersion := "security.openshift.io/v1"
  const SccKind := "securitycontextconstraints"
  const PodMonitorGroupVersion := "monitoring.coreos.com/v1"
  const PodMonitorKind := "podmonitors"
  const IstioGroupVersion := "networking.istio.io/v1beta1"
  const IstioKind := "sidecar"

  /** Some entry of the list carries exactly the name `kind` (case-sensitive). */
  ghost predicate Lists(resources: seq<APIResource>, kind: string) {
    exists i :: 0 <= i < |resources| && resources[i].name == kind
  }

  /** The group/version is served and lists `kind`. */
  ghost predicate Installed(client: Discovery, groupVersion: string, kind: string) {
    client.resourcesFor(groupVersion).Fetched? && Lists(client.resourcesFor(groupVersion).value, kind)
  }

  /** Discovery of the group/version failed for a reason other than NotFound. */
  predicate HardFailure(client: Discovery, groupVersion: string) {
    client.resourcesFor(groupVersion).Failed? && !IsNotFound(client.resourcesFor(groupVersion).err)
  }

  /** The search loop over the resource list, front to back. */
  function HasResource(resources: seq<APIResource>, kind: string): (found: bool)
    ensures found <==> Lists(resources, kind)
  {
    if |resources| == 0 then
      false
    else if resources[0].name == kind then
      true
    else
      var found := HasResource(resources[1..], kind);
      assert Lists(resources[1..], kind) ==> Lists(resources, kind) by {
        if Lists(resources[1..], kind) {
          var i :| 0 <= i < |resources[1..]| && resources[1..][i].name == kind;
          assert resources[i + 1].name == kind;
        }
      }
      assert Lists(resources, kind) ==> Lists(resources[1..], kind) by {
        if Lists(resources, kind) {
          var i :| 0 <= i < |resources| && resources[i].name == kind;
          assert resources[1..][i - 1].name == kind;
        }
      }
      found
  }

  /**
    `resourceExist`: true without error exactly when the kind is listed;
    a NotFound discovery error is an ordinary "no", any other discovery
    error is returned unchanged together with false.
   */
  function ResourceExist(client: Discovery, groupVersion: string, kind: string): (r: Reply)
    ensures r.value <==> Installed(client, groupVersion, kind)
    ensures r.err.Some? <==> HardFailure(client, groupVersion)
    ensures r.err.Some? ==> !r.value && r.err.value == client.resourcesFor(groupVersion).err
  {
    match client.resourcesFor(groupVersion)
    case Failed(e) =>
      if IsNotFound(e) then Reply(false, None) else Reply(false, Some(e))
    case Fetched(resources) =>
      Reply(HasResource(resources, kind), None)
  }

  /** `PodMonitorExist`: the uncached existence check for the PodMonitor kind. */
  function PodMonitorExist(client: Discovery): (r: Reply)
    ensures r.value <==> Installed(client, PodMonitorGroupVersion, PodMonitorKind)
    ensures r.err.Some? <==> HardFailure(client, PodMonitorGroupVersion)
    ensures r.err.Some? ==> !r.value && r.err.value == client.resourcesFor(PodMonitorGroupVersion).err
  {
    var exist := ResourceExist(client, PodMonitorGroupVersion, PodMonitorKind);
    if exist.err.Some? then Reply(false, exist.err) else Reply(exist.value, None)
  }

  /** A group/version the server does not know is a plain "absent", whatever is asked for. */
  lemma NotFoundIsAbsent(client: Discovery, groupVersion: string, kind: string)
    requires client.resourcesFor(groupVersion).Failed?
    requires IsNotFound(client.resourcesFor(groupVersion).err)
    ensures ResourceExist(client, groupVersion, kind) == Reply(false, None)
  {
  }

  /** The name comparison is exact: a listing that differs only in case does not count. */
  lemma NameMatchIsExact(client: Discovery)
    requires client.resourcesFor(PodMonitorGroupVersion) == Fetched([APIResource("PodMonitors")])
    ensures PodMonitorExist(client) == Reply(false, None)
  {
    assert "PodMonitors"[0] != PodMonitorKind[0];
  }
}
