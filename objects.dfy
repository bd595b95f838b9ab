/** The records the guestbook controller reads and writes, reduced to the
    fields its reconciliation touches: the Guestbook custom resource, the
    apps/v1 Deployment and the core/v1 Service it owns, and the API errors
    the cluster store reports. */
module Objects {

  datatype Option<+T> = None | Some(value: T)

  /** The API errors the store can report. NotFound is the one the
      controller tells apart from the rest. */
  datatype ApiError =
    | NotFound
    | AlreadyExists
    | Conflict
    | Unavailable
    | OwnerRejected

  datatype Result<+T> = Ok(value: T) | Err(error: ApiError)

  /** Label maps and selectors (Go `map[string]string`; a nil map is the empty map). */
  type Labels = map<string, string>

  /** Go's map index: a missing key reads as the zero value "". */
  function Lookup(m: Labels, k: string): string
  {
    if k in m then m[k] else ""
  }

  /** A namespaced name, the key every object is stored under. */
  datatype Key = Key(namespace: string, name: string)

  /** The controller reference stamped on an owned object. */
  datatype OwnerRef = OwnerRef(kind: string, name: string, controller: bool)

  datatype ContainerPort = ContainerPort(name: string, containerPort: int)

  datatype Container = Container(name: string, image: string, ports: seq<ContainerPort>)

  /** A Deployment: object metadata, the spec fields the controller builds
      or compares, and the observed status field it mirrors. */
  datatype Deployment = Deployment(
    name: string,
    namespace: string,
    labels: Labels,
    owner: Option<OwnerRef>,
    replicas: int,
    selector: Labels,
    templateLabels: Labels,
    containers: seq<Container>,
    readyReplicas: int)

  datatype Protocol = TCP | UDP | SCTP

  /** A service port; the target port is taken as the integer it is compared as. */
  datatype ServicePort = ServicePort(name: string, port: int, protocol: Protocol, targetPort: int)

  /** A Service; `clusterIP` stands for the cluster-assigned address and
      every other field the controller does not own. */
  datatype Service = Service(
    name: string,
    namespace: string,
    labels: Labels,
    owner: Option<OwnerRef>,
    selector: Labels,
    ports: seq<ServicePort>,
    clusterIP: string)

  datatype ConditionStatus = ConditionTrue | ConditionFalse

  /** A status condition without its transition timestamp. */
  datatype Condition = Condition(
    conditionType: string,
    status: ConditionStatus,
    reason: string,
    message: string,
    observedGeneration: int)

  datatype GuestbookSpec = GuestbookSpec(image: string, port: int, replicas: int)

  datatype GuestbookStatus = GuestbookStatus(readyReplicas: int, conditions: seq<Condition>)

  datatype Guestbook = Guestbook(
    name: string,
    namespace: string,
    generation: int,
    spec: GuestbookSpec,
    status: GuestbookStatus)

  function GuestbookKey(gb: Guestbook): Key { Key(gb.namespace, gb.name) }

  function DeploymentKey(d: Deployment): Key { Key(d.namespace, d.name) }

  function ServiceKey(s: Service): Key { Key(s.namespace, s.name) }
}
