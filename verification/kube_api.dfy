/**
  The slice of the cluster API that the capability detection consumes,
  reduced to plain values: what a discovery round-trip or an object read
  returned, and the errors Go code can receive from them or raise itself.
 */
module KubeApi {
  import opened Results

  /** The `metav1.StatusReason` carried by an API status error. */
  datatype Reason = NotFound | OtherReason(name: string)

  /** The errors the detection code can see or produce. */
  datatype Error =
    | StatusError(reason: Reason, message: string)   // an API server status response
    | TransportError(message: string)                // anything without an API status
    | InvalidMinorVersion(minor: string)             // the minor version fails the pattern
    | NumRangeError(num: string)                     // strconv.Atoi: value out of `int` range

  /**
    `apierrors.IsNotFound`. `StatusError(NotFound, _)` stands for every error
    that predicate accepts, including one whose reason is unregistered but
    whose HTTP code is 404; every other error is one it rejects.
   */
  predicate IsNotFound(e: Error) {
    e.StatusError? && e.reason == NotFound
  }

  /** The outcome of one round-trip to the API server. */
  datatype Fetch<+T> = Fetched(value: T) | Failed(err: Error)

  /** One entry of an `APIResourceList`; only the name is inspected. */
  datatype APIResource = APIResource(name: string)

  /** The server's `version.Info`; only the minor component is inspected. */
  datatype VersionInfo = VersionInfo(major: string, minor: string)

  /**
    A discovery client frozen at one moment: what it answers for each
    group/version, and what it answers when asked for the server version.
   */
  datatype Discovery = Discovery(
    resourcesFor: string -> Fetch<seq<APIResource>>,
    serverVersion: Fetch<VersionInfo>)

  /** Object labels; a Go nil map reads like the empty map. */
  type Labels = map<string, string>

  /** A client reading a namespace by name and a pod by namespace and name. */
  datatype ObjectReader = ObjectReader(
    getNamespace: string -> Fetch<Labels>,
    getPod: (string, string) -> Fetch<Labels>)

  /** A Go `(bool, error)` pair. */
  datatype Reply = Reply(value: bool, err: Option<Error>)
}
