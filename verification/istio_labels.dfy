/**
  `DetectIstioInNamespace` and `IsIstioIgnoringPod`: exact key/value tests
  on the labels of a namespace or pod read from the cluster.
 */
module IstioLabels {
  import opened Results
  import opened KubeApi

  const IstioInjectionLabel := "istio-injection"
  const IstioInjectionEnabled := "enabled"

  /**
    The pod label key as the operator spells it: one character short of
    Istio's own `sidecar.istio.io/inject`.
   */
  const SidecarInjectLabel := "sidecar.istio.io/injec"
  const SidecarInjectDisabled := "false"

  /** The Go idiom `value, ok := labels[key]; ok && value == expected`. */
  predicate HasLabel(labels: Labels, key: string, expected: string) {
    key in labels && labels[key] == expected
  }

  /** `DetectIstioInNamespace`: the namespace opted in to sidecar injection. */
  function DetectIstioInNamespace(reader: ObjectReader, namespace: string): (r: Reply)
    ensures r.value <==> reader.getNamespace(namespace).Fetched? &&
                         (IstioInjectionLabel, IstioInjectionEnabled) in reader.getNamespace(namespace).value.Items
    ensures r.err.Some? <==> reader.getNamespace(namespace).Failed?
    ensures r.err.Some? ==> !r.value && r.err.value == reader.getNamespace(namespace).err
  {
    match reader.getNamespace(namespace)
    case Failed(e) => Reply(false, Some(e))
    case Fetched(labels) =>
      Reply(HasLabel(labels, IstioInjectionLabel, IstioInjectionEnabled), None)
  }

  /** `IsIstioIgnoringPod`: the pod opted out of sidecar injection. */
  function IsIstioIgnoringPod(reader: ObjectReader, namespace: string, podName: string): (r: Reply)
    ensures r.value <==> reader.getPod(namespace, podName).Fetched? &&
                         (SidecarInjectLabel, SidecarInjectDisabled) in reader.getPod(namespace, podName).value.Items
    ensures r.err.Some? <==> reader.getPod(namespace, podName).Failed?
    ensures r.err.Some? ==> !r.value && r.err.value == reader.getPod(namespace, podName).err
  {
    match reader.getPod(namespace, podName)
    case Failed(e) => Reply(false, Some(e))
    case Fetched(labels) =>
      Reply(HasLabel(labels, SidecarInjectLabel, SidecarInjectDisabled), None)
  }

  /** Unlike a missing API group, a missing namespace is reported as an error. */
  lemma MissingNamespaceIsError(reader: ObjectReader, namespace: string, message: string)
    requires reader.getNamespace(namespace) == Failed(StatusError(NotFound, message))
    ensures DetectIstioInNamespace(reader, namespace) == Reply(false, Some(StatusError(NotFound, message)))
  {
  }

  /** A value that only resembles "enabled" leaves the namespace out. */
  lemma NamespaceValueIsExact(reader: ObjectReader, namespace: string)
    requires reader.getNamespace(namespace) == Fetched(map[IstioInjectionLabel := "Enabled"])
    ensures DetectIstioInNamespace(reader, namespace) == Reply(false, None)
  {
    assert "Enabled"[0] != IstioInjectionEnabled[0];
  }

  /**
    A pod labelled with Istio's documented key `sidecar.istio.io/inject=false`
    and nothing else is not reported as ignored: only the shortened key counts.
   */
  lemma DocumentedPodKeyNotRecognised(reader: ObjectReader, namespace: string, podName: string)
    requires reader.getPod(namespace, podName) == Fetched(map["sidecar.istio.io/inject" := "false"])
    ensures IsIstioIgnoringPod(reader, namespace, podName) == Reply(false, None)
  {
    assert |"sidecar.istio.io/inject"| != |SidecarInjectLabel|;
  }
}
