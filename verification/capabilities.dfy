/**
  The cached capability flags (`haveSCC`, `supportSeccomp`, `haveIstio`)
  and the detectors that overwrite them, as functions from the flags and a
  discovery client to the new flags and the returned error.
 */
module Capabilities {
  import opened Results
  import opened KubeApi
  import opened MinorVersion
  import opened ResourceDiscovery

  /** The Kubernetes minor version from which seccomp profiles are set on pods. */
  const SeccompMinMinor := 24

  datatype Capability = SecurityContextConstraints | Seccomp | Istio

  /** The three package-level flags. */
  datatype Flags = Flags(haveScc: bool, supportSeccomp: bool, haveIstio: bool) {
    /** The flag of one capability. */
    function Get(c: Capability): bool {
      match c
      case SecurityContextConstraints => haveScc
      case Seccomp => supportSeccomp
      case Istio => haveIstio
    }
  }

  /** `HaveSecurityContextConstraints` */
  function HaveSecurityContextConstraints(f: Flags): bool {
    f.haveScc
  }

  /** `HaveSeccompSupport` */
  function HaveSeccompSupport(f: Flags): bool {
    f.supportSeccomp
  }

  /** `HaveIstio` */
  function HaveIstio(f: Flags): bool {
    f.haveIstio
  }

  /** Go's zero values at process start. */
  const Unset := Flags(false, false, false)

  /** The flags after a detector ran, and the error it returned. */
  datatype Step = Step(flags: Flags, err: Option<Error>)

  /** `DetectSecurityContextConstraints` */
  function DetectSecurityContextConstraints(f: Flags, client: Discovery): (r: Step)
    ensures r.flags.supportSeccomp == f.supportSeccomp && r.flags.haveIstio == f.haveIstio
    ensures r.flags.haveScc <==> Installed(client, SccGroupVersion, SccKind)
    ensures r.err.Some? <==> HardFailure(client, SccGroupVersion)
    ensures r.err.Some? ==> !r.flags.haveScc && r.err.value == client.resourcesFor(SccGroupVersion).err
  {
    var exist := ResourceExist(client, SccGroupVersion, SccKind);
    Step(f.(haveScc := exist.value), exist.err)
  }

  /** `DetectSeccompSupport` */
  function DetectSeccompSupport(f: Flags, client: Discovery): (r: Step)
    ensures r.flags.haveScc == f.haveScc && r.flags.haveIstio == f.haveIstio
    ensures r.err.Some? ==> !r.flags.supportSeccomp
    ensures client.serverVersion.Failed? ==> r.err == Some(client.serverVersion.err)
    ensures client.serverVersion.Fetched? && !MatchesMinorPattern(client.serverVersion.value.minor) ==>
              r.err == Some(InvalidMinorVersion(client.serverVersion.value.minor))
    ensures client.serverVersion.Fetched? ==>
              var minor := client.serverVersion.value.minor;
              forall k :: MinorSplit(minor, k) ==>
                if DigitsValue(minor[..k]) <= MaxInt then
                  r.err == None && (r.flags.supportSeccomp <==> DigitsValue(minor[..k]) >= SeccompMinMinor)
                else
                  r.err == Some(NumRangeError(minor[..k]))
  {
    var cleared := f.(supportSeccomp := false);
    match client.serverVersion
    case Failed(e) => Step(cleared, Some(e))
    case Fetched(info) =>
      match ExtractK8sMinorVersion(info)
      case Failure(e) => Step(cleared, Some(e))
      case Success(minor) =>
        if minor >= SeccompMinMinor then Step(f.(supportSeccomp := true), None) else Step(cleared, None)
  }

  /** `DetectIstioSupport` */
  function DetectIstioSupport(f: Flags, client: Discovery): (r: Step)
    ensures r.flags.haveScc == f.haveScc && r.flags.supportSeccomp == f.supportSeccomp
    ensures r.flags.haveIstio <==> Installed(client, IstioGroupVersion, IstioKind)
    ensures r.err.Some? <==> HardFailure(client, IstioGroupVersion)
    ensures r.err.Some? ==> !r.flags.haveIstio && r.err.value == client.resourcesFor(IstioGroupVersion).err
  {
    var cleared := f.(haveIstio := false);
    var exist := ResourceExist(client, IstioGroupVersion, IstioKind);
    Step(cleared.(haveIstio := exist.value), exist.err)
  }

  // ---------------------------------------------------------------------------
  // Sequences of detector calls
  // ---------------------------------------------------------------------------

  /** One call of a detector against the cluster as it was at that moment. */
  datatype Detection =
    | RunDetectSecurityContextConstraints(client: Discovery)
    | RunDetectSeccompSupport(client: Discovery)
    | RunDetectIstioSupport(client: Discovery)
  {
    /** The flag this detector writes. */
    function Target(): Capability {
      match this
      case RunDetectSecurityContextConstraints(_) => SecurityContextConstraints
      case RunDetectSeccompSupport(_) => Seccomp
      case RunDetectIstioSupport(_) => Istio
    }
  }

  function Apply(f: Flags, call: Detection): Step {
    match call
    case RunDetectSecurityContextConstraints(client) => DetectSecurityContextConstraints(f, client)
    case RunDetectSeccompSupport(client) => DetectSeccompSupport(f, client)
    case RunDetectIstioSupport(client) => DetectIstioSupport(f, client)
  }

  /** The flags after running `calls` in order from process start. */
  function Replay(calls: seq<Detection>): Flags {
    if |calls| == 0 then Unset else Apply(Replay(calls[..|calls| - 1]), calls[|calls| - 1]).flags
  }

  /** The value a detection stores in its own flag. */
  function Stored(call: Detection): bool {
    Apply(Unset, call).flags.Get(call.Target())
  }

  /** The index of the last call that writes `c`, or -1 when there is none. */
  function LastWriter(calls: seq<Detection>, c: Capability): (j: int)
    ensures -1 <= j < |calls|
    ensures j >= 0 ==> calls[j].Target() == c
    ensures forall k :: j < k < |calls| ==> calls[k].Target() != c
  {
    if |calls| == 0 then -1
    else if calls[|calls| - 1].Target() == c then |calls| - 1
    else LastWriter(calls[..|calls| - 1], c)
  }

  /** A detector writes only its own flag, and what it writes depends on the cluster alone. */
  lemma ApplyFrame(f: Flags, call: Detection, c: Capability)
    ensures c != call.Target() ==> Apply(f, call).flags.Get(c) == f.Get(c)
    ensures c == call.Target() ==> Apply(f, call).flags.Get(c) == Stored(call)
  {
  }

  /**
    The accessors return what the last matching detector stored, and
    false when that detector never ran.
   */
  lemma {:induction false} AccessorReturnsLastStored(calls: seq<Detection>, c: Capability)
    ensures LastWriter(calls, c) < 0 ==> !Replay(calls).Get(c)
    ensures LastWriter(calls, c) >= 0 ==> Replay(calls).Get(c) == Stored(calls[LastWriter(calls, c)])
  {
    if |calls| > 0 {
      var prefix := calls[..|calls| - 1];
      var last := calls[|calls| - 1];
      ApplyFrame(Replay(prefix), last, c);
      if last.Target() != c {
        AccessorReturnsLastStored(prefix, c);
        var j := LastWriter(prefix, c);
        if j >= 0 {
          assert calls[j] == prefix[j];
        }
      }
    }
  }

  /** `HaveSecurityContextConstraints` answers what the last SCC detection stored, false before any. */
  lemma {:induction false} HaveSecurityContextConstraintsIsLastStored(calls: seq<Detection>)
    ensures var j := LastWriter(calls, SecurityContextConstraints);
            HaveSecurityContextConstraints(Replay(calls)) == (j >= 0 && Stored(calls[j]))
  {
    AccessorReturnsLastStored(calls, SecurityContextConstraints);
  }

  /** `HaveSeccompSupport` answers what the last seccomp detection stored, false before any. */
  lemma {:induction false} HaveSeccompSupportIsLastStored(calls: seq<Detection>)
    ensures var j := LastWriter(calls, Seccomp);
            HaveSeccompSupport(Replay(calls)) == (j >= 0 && Stored(calls[j]))
  {
    AccessorReturnsLastStored(calls, Seccomp);
  }

  /** `HaveIstio` answers what the last Istio detection stored, false before any. */
  lemma {:induction false} HaveIstioIsLastStored(calls: seq<Detection>)
    ensures var j := LastWriter(calls, Istio);
            HaveIstio(Replay(calls)) == (j >= 0 && Stored(calls[j]))
  {
    AccessorReturnsLastStored(calls, Istio);
  }

  /** Running a detector again against an unchanged cluster changes nothing. */
  lemma DetectIdempotent(f: Flags, call: Detection)
    ensures Apply(Apply(f, call).flags, call) == Apply(f, call)
  {
  }

  /** A re-detection against a changed cluster replaces the earlier result. */
  lemma RedetectOverwrites(f: Flags, before: Detection, after: Detection)
    requires before.Target() == after.Target()
    ensures Apply(Apply(f, before).flags, after) == Apply(f, after)
  {
  }

  /** Every detector leaves its flag false when it returns an error. */
  lemma ErrorLeavesFlagFalse(f: Flags, call: Detection)
    requires Apply(f, call).err.Some?
    ensures !Apply(f, call).flags.Get(call.Target())
  {
  }

  /** The minor version decides the seccomp flag: 23 is too old, 24 and "30+" qualify. */
  lemma SeccompExamples(f: Flags, major: string, resourcesFor: string -> Fetch<seq<APIResource>>)
    ensures DetectSeccompSupport(f, Discovery(resourcesFor, Fetched(VersionInfo(major, "23")))) == Step(f.(supportSeccomp := false), None)
    ensures DetectSeccompSupport(f, Discovery(resourcesFor, Fetched(VersionInfo(major, "24")))) == Step(f.(supportSeccomp := true), None)
    ensures DetectSeccompSupport(f, Discovery(resourcesFor, Fetched(VersionInfo(major, "30+")))) == Step(f.(supportSeccomp := true), None)
    ensures DetectSeccompSupport(f, Discovery(resourcesFor, Fetched(VersionInfo(major, "v24")))).flags == f.(supportSeccomp := false)
  {
    MinorVersionExamples(major);
  }

  /** On OpenShift the SCC flag becomes true and the accessor keeps answering true. */
  lemma SecurityContextConstraintsScenario(client: Discovery)
    requires client.resourcesFor(SccGroupVersion) == Fetched([APIResource("pods"), APIResource(SccKind)])
    ensures HaveSecurityContextConstraints(Replay([RunDetectSecurityContextConstraints(client)]))
    ensures DetectSecurityContextConstraints(Unset, client).err == None
  {
    var calls := [RunDetectSecurityContextConstraints(client)];
    assert calls[..0] == [];
    assert client.resourcesFor(SccGroupVersion).value[1].name == SccKind;
  }
}
