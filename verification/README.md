# Cluster capability detection — Dafny model

This project models the capability detection of the CloudNativePG operator
(`pkg/utils/discovery.go`). At start-up the operator asks the Kubernetes API
server which optional features the cluster has and caches the answers in three
package-level flags:

- OpenShift Security Context Constraints (`haveSCC`);
- seccomp profile support, inferred from the server's minor version (`supportSeccomp`);
- Istio presence (`haveIstio`).

It also answers two per-workload label questions about Istio sidecar injection.

The network is replaced by plain values:

- a `Discovery` record says what the server answers for each API group/version
  and for the version request;
- an `ObjectReader` says what reading a namespace or a pod returns.

Go's `(bool, error)` results become a `Reply(value, err)` pair. Keeping the
pair, rather than a sum type, lets "on error the boolean is false" be proved
rather than assumed. The package-level flags become an immutable `Flags`
record. Each detector is a function from the old flags and a client to the new
flags and the returned error.

Modules (one per file):

- `Results`: `Option` and `Result`.
- `KubeApi`: errors (`apierrors.IsNotFound` included), fetch outcomes, resource
  lists, version info, labels, the two client records.
- `MinorVersion`: the pattern `^([0-9]+)\+?$` and `strconv.Atoi`. The pattern
  is modelled twice. `MinorSplit` is its meaning: a digit run, then nothing or
  one `+`. `Scan` is a four-state character recogniser. `AcceptsIffPattern`
  proves the two agree.
- `ResourceDiscovery`: `resourceExist` and `PodMonitorExist`.
- `Capabilities`: the three detectors, the accessors (`Flags.Get`), and the
  replay of a sequence of detector calls from process start.
- `IstioLabels`: `DetectIstioInNamespace` and `IsIstioIgnoringPod`.

Go's `int` is taken to be 64 bits wide. `Atoi` therefore returns a range error
for a digit run above 2^63 - 1, and the model states that error explicitly.
The pod label key is kept as the code spells it, `sidecar.istio.io/injec`.
That is one character shorter than Istio's documented `sidecar.istio.io/inject`.
`IstioLabels.DocumentedPodKeyNotRecognised` shows the consequence: a pod that
carries only the documented key is not reported as ignored.

Two consequences of the source worth stating:

- On a discovery error other than NotFound, `DetectSecurityContextConstraints` and
  `DetectIstioSupport` overwrite their flag with `resourceExist`'s `false`
  (`pkg/utils/discovery.go`, lines 87 and 155). A failed re-detection therefore clears an earlier `true`.
- A `false` flag does not tell "absent" apart from "never detected"
  (`pkg/utils/discovery.go`, lines 35-41).

## Model

| member | source | states |
|---|---|---|
| MinorVersion.ScanStates | pkg/utils/discovery.go:48 | each recogniser state corresponds to exactly one input shape: empty, a non-empty digit run, or a digit run followed by one `+` |
| MinorVersion.AcceptsIffPattern | pkg/utils/discovery.go:48 | the character recogniser accepts a string if and only if the anchored pattern `^([0-9]+)\+?$` matches it |
| MinorVersion.DigitRunLength | pkg/utils/discovery.go:121 | an accepted string has exactly one split into capture group and optional `+`, and this is it |
| MinorVersion.ExtractK8sMinorVersion | pkg/utils/discovery.go:120-128 | a non-matching minor version gives the "invalid minor version" error; a matching one gives the decimal value of its digit run, or Atoi's range error when that value exceeds the 64-bit `int` maximum |
| MinorVersion.ExtractMatched | pkg/utils/discovery.go:120-128 | a matching minor version whose digit run fits in an `int` reads as that run's value |
| MinorVersion.ItoaRoundTrip | pkg/utils/discovery.go:127 | Atoi's decimal value of the canonical spelling of n is n |
| MinorVersion.MinorVersionRoundTrip | pkg/utils/discovery.go:120-128 | every representable version number, written plainly or with a trailing `+`, is read back as itself |
| MinorVersion.LeadingZeroIgnored | pkg/utils/discovery.go:127 | a leading zero does not change the parsed value ("024" reads as 24) |
| MinorVersion.MinorVersionExamples | pkg/utils/discovery.go:120-128 | "23" gives 23, "24" and "24+" give 24, "30+" gives 30; "", "+", "v24", "24++" and "2+4" are rejected as invalid |
| MinorVersion.RejectedExamples | pkg/utils/discovery.go:48 | the empty string, a lone `+`, a leading `v`, a doubled `+` and an inner `+` do not match the pattern |
| ResourceDiscovery.HasResource | pkg/utils/discovery.go:75-81 | the search finds the kind if and only if some list entry has exactly that name |
| ResourceDiscovery.ResourceExist | pkg/utils/discovery.go:65-82 | true if and only if the group/version is served and lists the kind; an error is returned exactly when discovery failed with something other than NotFound, and it is that error, with false |
| ResourceDiscovery.PodMonitorExist | pkg/utils/discovery.go:103-110 | the same existence rule for `podmonitors` in `monitoring.coreos.com/v1`, returned directly, with no flag stored |
| ResourceDiscovery.NotFoundIsAbsent | pkg/utils/discovery.go:66-70 | a NotFound discovery error yields `(false, nil)` for any kind |
| ResourceDiscovery.NameMatchIsExact | pkg/utils/discovery.go:76 | the name comparison is case-sensitive: `PodMonitors` is not `podmonitors` |
| Capabilities.DetectSecurityContextConstraints | pkg/utils/discovery.go:86-93 | the SCC flag becomes "security.openshift.io/v1 lists securitycontextconstraints"; an error is returned exactly on a non-NotFound discovery failure, and then the flag is false; the other flags are unchanged |
| Capabilities.DetectSeccompSupport | pkg/utils/discovery.go:132-149 | after a successful version read and parse, the seccomp flag is `minor >= 24`; a version-read error, a pattern mismatch or an Atoi range error is returned, and the flag is then false; the other flags are unchanged |
| Capabilities.DetectIstioSupport | pkg/utils/discovery.go:153-161 | the Istio flag becomes "networking.istio.io/v1beta1 lists sidecar", with the same error policy as SCC detection; the other flags are unchanged |
| Capabilities.ApplyFrame | pkg/utils/discovery.go:86-161 | a detector writes only its own flag, and the value it writes depends on the cluster alone, not on earlier flags |
| Capabilities.AccessorReturnsLastStored | pkg/utils/discovery.go:35-41 | after any sequence of detector calls from process start, each accessor returns what the last detector for that flag stored, or false if that detector never ran |
| Capabilities.HaveSecurityContextConstraintsIsLastStored | pkg/utils/discovery.go:98-100 | `HaveSecurityContextConstraints` returns what the last SCC detection stored, and false if none ran |
| Capabilities.HaveSeccompSupportIsLastStored | pkg/utils/discovery.go:114-116 | `HaveSeccompSupport` returns what the last seccomp detection stored, and false if none ran |
| Capabilities.HaveIstioIsLastStored | pkg/utils/discovery.go:166-168 | `HaveIstio` returns what the last Istio detection stored, and false if none ran |
| Capabilities.DetectIdempotent | pkg/utils/discovery.go:86-161 | running a detector a second time against an unchanged cluster leaves the flags and the error as they were |
| Capabilities.RedetectOverwrites | pkg/utils/discovery.go:86-161 | re-running a detector against a changed cluster replaces the earlier result entirely |
| Capabilities.ErrorLeavesFlagFalse | pkg/utils/discovery.go:86-161 | whenever a detector returns an error, its own flag is false |
| Capabilities.SeccompExamples | pkg/utils/discovery.go:144-146 | minor "23" clears the seccomp flag, while "24" and "30+" set it; "v24" leaves it false |
| Capabilities.SecurityContextConstraintsScenario | pkg/utils/discovery.go:86-100 | on a cluster listing `securitycontextconstraints`, detection succeeds and `HaveSecurityContextConstraints` then answers true |
| IstioLabels.DetectIstioInNamespace | pkg/utils/discovery.go:172-185 | true if and only if the namespace was read and maps `istio-injection` to `enabled`; every read error, NotFound included, is returned with false |
| IstioLabels.IsIstioIgnoringPod | pkg/utils/discovery.go:187-199 | true if and only if the pod was read and maps `sidecar.istio.io/injec` to `false`; every read error is returned with false |
| IstioLabels.MissingNamespaceIsError | pkg/utils/discovery.go:175-178 | a NotFound namespace is an error, not a plain false |
| IstioLabels.NamespaceValueIsExact | pkg/utils/discovery.go:180 | the value `Enabled` does not opt a namespace in |
| IstioLabels.DocumentedPodKeyNotRecognised | pkg/utils/discovery.go:194 | a pod labelled only `sidecar.istio.io/inject=false` is not reported as ignored |

## Left out

- Client construction (`GetDiscoveryClient`, `ctrl.GetConfig`, `ctrl.GetConfigOrDie`, `kubernetes.NewForConfigOrDie`): configuration loading and I/O. The process exit of `ctrl.GetConfigOrDie` and the panic of `kubernetes.NewForConfigOrDie` are not modelled.
- The API round-trips (`ServerResourcesForGroupVersion`, `ServerVersion`, `Namespaces().Get`, `kubeClient.Get`): their results are inputs, held in the `Discovery` and `ObjectReader` records.
- Go's regular-expression engine: the one pattern used is modelled directly as a character recogniser.
- Concurrent access to the package-level flags: detectors are sequential state updates. Hence the `haveIstio = false` reset before the Istio lookup is invisible in the model, since the lookup's result overwrites the flag anyway.
- `strconv.Atoi` on 32-bit platforms: `int` is taken to be 64 bits wide.
- Error message texts (`fmt.Errorf` formatting, `NumError` fields other than the digits): errors carry only their kind and the offending string.
- MinorVersion.ExtractK8sMinorVersion: the integer returned beside an error is dropped. That is 0 on a pattern mismatch (line 124) and Atoi's clamped 2^63 - 1 on a range error (line 127). `DetectSeccompSupport` discards it (lines 139-142).
- The `Major` field of the version info: the code never reads it.
