/** The cluster store the controller talks to, as a value: objects keyed
    by namespaced name, the calls the controller makes, the faults a call
    can be made to report, and the write requests it sends. */
module ApiStore {
  import opened Objects

  datatype ClusterState = ClusterState(
    guestbooks: map<Key, Guestbook>,
    deployments: map<Key, Deployment>,
    services: map<Key, Service>)

  /** Every object is stored under its own namespace and name. */
  ghost predicate WellKeyed(c: ClusterState)
  {
    && (forall k :: k in c.guestbooks ==> GuestbookKey(c.guestbooks[k]) == k)
    && (forall k :: k in c.deployments ==> DeploymentKey(c.deployments[k]) == k)
    && (forall k :: k in c.services ==> ServiceKey(c.services[k]) == k)
  }

  /** The store calls of one reconciliation, in the order they are made. */
  datatype Call =
    | GetRecord
    | GetDeploy | OwnDeploy | CreateDeploy | UpdateDeploy
    | GetSvc | OwnSvc | CreateSvc | UpdateSvc
    | RefetchDeploy | WriteStatus

  /** The error injected into each call that is to fail. */
  type Faults = map<Call, ApiError>

  function FaultAt(faults: Faults, call: Call): Option<ApiError>
  {
    if call in faults then Some(faults[call]) else None
  }

  datatype Kind = DeploymentKind | ServiceKind

  /** A write request sent to the store, whether or not it succeeded. */
  datatype Write =
    | Created(kind: Kind, key: Key)
    | Updated(kind: Kind, key: Key)
    | StatusUpdated(key: Key)

  /** The state after some calls, the writes they sent, and the error to return. */
  datatype Step = Step(cluster: ClusterState, writes: seq<Write>, err: Option<ApiError>)

  /** A get: the injected fault, the stored object, or NotFound. */
  function Fetch<T>(m: map<Key, T>, key: Key, fault: Option<ApiError>): Result<T>
  {
    if fault.Some? then Err(fault.value)
    else if key in m then Ok(m[key])
    else Err(NotFound)
  }

  /** Stamping the controller reference of `owner` onto a new object. */
  function ControllerReference(owner: Guestbook, fault: Option<ApiError>): Result<OwnerRef>
  {
    if fault.Some? then Err(fault.value) else Ok(OwnerRef("Guestbook", owner.name, true))
  }

  function CreateDeploymentIn(c: ClusterState, d: Deployment, fault: Option<ApiError>): (r: Step)
    ensures WellKeyed(c) ==> WellKeyed(r.cluster)
  {
    var key := DeploymentKey(d);
    var sent := [Created(DeploymentKind, key)];
    if fault.Some? then Step(c, sent, fault)
    else if key in c.deployments then Step(c, sent, Some(AlreadyExists))
    else Step(c.(deployments := c.deployments[key := d]), sent, None)
  }

  function UpdateDeploymentIn(c: ClusterState, d: Deployment, fault: Option<ApiError>): (r: Step)
    ensures WellKeyed(c) ==> WellKeyed(r.cluster)
  {
    var key := DeploymentKey(d);
    var sent := [Updated(DeploymentKind, key)];
    if fault.Some? then Step(c, sent, fault)
    else if key !in c.deployments then Step(c, sent, Some(NotFound))
    else Step(c.(deployments := c.deployments[key := d]), sent, None)
  }

  function CreateServiceIn(c: ClusterState, s: Service, fault: Option<ApiError>): (r: Step)
    ensures WellKeyed(c) ==> WellKeyed(r.cluster)
  {
    var key := ServiceKey(s);
    var sent := [Created(ServiceKind, key)];
    if fault.Some? then Step(c, sent, fault)
    else if key in c.services then Step(c, sent, Some(AlreadyExists))
    else Step(c.(services := c.services[key := s]), sent, None)
  }

  function UpdateServiceIn(c: ClusterState, s: Service, fault: Option<ApiError>): (r: Step)
    ensures WellKeyed(c) ==> WellKeyed(r.cluster)
  {
    var key := ServiceKey(s);
    var sent := [Updated(ServiceKind, key)];
    if fault.Some? then Step(c, sent, fault)
    else if key !in c.services then Step(c, sent, Some(NotFound))
    else Step(c.(services := c.services[key := s]), sent, None)
  }

  /** A status-subresource update: only the status of the stored record changes. */
  function UpdateStatusIn(c: ClusterState, gb: Guestbook, fault: Option<ApiError>): (r: Step)
    ensures WellKeyed(c) ==> WellKeyed(r.cluster)
  {
    var key := GuestbookKey(gb);
    var sent := [StatusUpdated(key)];
    if fault.Some? then Step(c, sent, fault)
    else if key !in c.guestbooks then Step(c, sent, Some(NotFound))
    else Step(c.(guestbooks := c.guestbooks[key := c.guestbooks[key].(status := gb.status)]), sent, None)
  }
}
