/** One reconciliation of a Guestbook against a cluster state, as a
    function: fetch the record, default it, bring the Deployment and then
    the Service in line, and project the Deployment's readiness onto the
    record's status. The error policy decides what each failed call does
    to the rest of the pass. The lemmas state what a pass guarantees. */
module Reconciler {
  import opened Objects
  import opened Drift
  import opened Builders
  import opened Status
  import opened ApiStore

  function DeploymentKeyFor(gb: Guestbook): Key { Key(gb.namespace, DeploymentName(gb.name)) }

  function ServiceKeyFor(gb: Guestbook): Key { Key(gb.namespace, ServiceName(gb.name)) }

  /** Where a write comes in a pass: Deployment, then Service, then status. */
  function Rank(w: Write): nat
  {
    match w
    case StatusUpdated(_) => 2
    case Created(kind, _) => if kind == DeploymentKind then 0 else 1
    case Updated(kind, _) => if kind == DeploymentKind then 0 else 1
  }

  predicate WritesInOrder(writes: seq<Write>)
  {
    forall i, j :: 0 <= i < j < |writes| ==> Rank(writes[i]) < Rank(writes[j])
  }

  predicate AtMostOneOfRank(writes: seq<Write>, rank: nat)
  {
    |writes| <= 1 && forall w :: w in writes ==> Rank(w) == rank
  }

  /** A write of one rank followed by ordered writes of higher ranks is in order. */
  lemma PrependInOrder(first: seq<Write>, rest: seq<Write>, rank: nat)
    requires AtMostOneOfRank(first, rank) && WritesInOrder(rest)
    requires forall w :: w in rest ==> Rank(w) > rank
    ensures WritesInOrder(first + rest)
  {
    var writes := first + rest;
    forall i, j | 0 <= i < j < |writes| ensures Rank(writes[i]) < Rank(writes[j]) {
      if i < |first| {
        assert writes[j] == rest[j - |first|];
      } else {
        assert writes[i] == rest[i - |first|] && writes[j] == rest[j - |first|];
      }
    }
  }

  /** A missing Deployment: stamp the controller reference on the desired
      object and create it; a failure of either is the stage's error. */
  function CreateOwnedDeployment(c: ClusterState, gb: Guestbook, image: string, labels: Labels, faults: Faults)
    : (r: Step)
    ensures AtMostOneOfRank(r.writes, 0)
    ensures WellKeyed(c) ==> WellKeyed(r.cluster)
    ensures r.cluster.guestbooks == c.guestbooks && r.cluster.services == c.services
    ensures OwnDeploy in faults ==> r == Step(c, [], Some(faults[OwnDeploy]))
    ensures OwnDeploy !in faults && CreateDeploy in faults ==> r.err == Some(faults[CreateDeploy]) && r.cluster == c
  {
    match ControllerReference(gb, FaultAt(faults, OwnDeploy))
    case Err(ownerError) => Step(c, [], Some(ownerError))
    case Ok(ref) =>
      CreateDeploymentIn(c, DesiredDeployment(gb, DeploymentKeyFor(gb).name, labels, image).(owner := Some(ref)),
                         FaultAt(faults, CreateDeploy))
  }

  /** An existing Deployment: nothing when converged, otherwise one update
      carrying the patched object. */
  function UpdateDriftedDeployment(c: ClusterState, current: Deployment, gb: Guestbook, image: string,
                                   labels: Labels, faults: Faults): (r: Step)
    ensures AtMostOneOfRank(r.writes, 0)
    ensures WellKeyed(c) ==> WellKeyed(r.cluster)
    ensures r.cluster.guestbooks == c.guestbooks && r.cluster.services == c.services
    ensures DeploymentConverged(current, gb.spec, image, labels) ==> r == Step(c, [], None)
    ensures !DeploymentConverged(current, gb.spec, image, labels) && UpdateDeploy in faults ==>
              r.err == Some(faults[UpdateDeploy]) && r.cluster == c
  {
    if DeploymentConverged(current, gb.spec, image, labels) then Step(c, [], None)
    else UpdateDeploymentIn(c, PatchedDeployment(current, gb.spec, image, labels), FaultAt(faults, UpdateDeploy))
  }

  /** Deployment reconciliation: create when missing, patch and update when
      drifted, nothing when converged; any other fetch error is returned. */
  function DeploymentStep(c: ClusterState, gb: Guestbook, image: string, labels: Labels, faults: Faults): (r: Step)
    ensures AtMostOneOfRank(r.writes, 0)
    ensures WellKeyed(c) ==> WellKeyed(r.cluster)
    ensures r.cluster.guestbooks == c.guestbooks && r.cluster.services == c.services
  {
    match Fetch(c.deployments, DeploymentKeyFor(gb), FaultAt(faults, GetDeploy))
    case Err(e) => if e != NotFound then Step(c, [], Some(e)) else CreateOwnedDeployment(c, gb, image, labels, faults)
    case Ok(current) => UpdateDriftedDeployment(c, current, gb, image, labels, faults)
  }

  /** A missing Service: stamp the controller reference on the desired
      object and create it; a failure of either is the stage's error. */
  function CreateOwnedService(c: ClusterState, gb: Guestbook, labels: Labels, faults: Faults): (r: Step)
    ensures AtMostOneOfRank(r.writes, 1)
    ensures WellKeyed(c) ==> WellKeyed(r.cluster)
    ensures r.cluster.guestbooks == c.guestbooks && r.cluster.deployments == c.deployments
    ensures OwnSvc in faults ==> r == Step(c, [], Some(faults[OwnSvc]))
    ensures OwnSvc !in faults && CreateSvc in faults ==> r.err == Some(faults[CreateSvc]) && r.cluster == c
  {
    match ControllerReference(gb, FaultAt(faults, OwnSvc))
    case Err(ownerError) => Step(c, [], Some(ownerError))
    case Ok(ref) =>
      CreateServiceIn(c, DesiredService(gb, ServiceKeyFor(gb).name, labels).(owner := Some(ref)), FaultAt(faults, CreateSvc))
  }

  /** An existing Service: nothing when converged, otherwise one update
      carrying the patched object. */
  function UpdateDriftedService(c: ClusterState, current: Service, gb: Guestbook, labels: Labels, faults: Faults)
    : (r: Step)
    ensures AtMostOneOfRank(r.writes, 1)
    ensures WellKeyed(c) ==> WellKeyed(r.cluster)
    ensures r.cluster.guestbooks == c.guestbooks && r.cluster.deployments == c.deployments
    ensures ServiceConverged(current, gb.spec, labels) ==> r == Step(c, [], None)
    ensures !ServiceConverged(current, gb.spec, labels) && UpdateSvc in faults ==>
              r.err == Some(faults[UpdateSvc]) && r.cluster == c
  {
    if ServiceConverged(current, gb.spec, labels) then Step(c, [], None)
    else UpdateServiceIn(c, PatchedService(current, gb.spec, labels), FaultAt(faults, UpdateSvc))
  }

  /** Service reconciliation, with the same policy as the Deployment's. */
  function ServiceStep(c: ClusterState, gb: Guestbook, labels: Labels, faults: Faults): (r: Step)
    ensures AtMostOneOfRank(r.writes, 1)
    ensures WellKeyed(c) ==> WellKeyed(r.cluster)
    ensures r.cluster.guestbooks == c.guestbooks && r.cluster.deployments == c.deployments
  {
    match Fetch(c.services, ServiceKeyFor(gb), FaultAt(faults, GetSvc))
    case Err(e) => if e != NotFound then Step(c, [], Some(e)) else CreateOwnedService(c, gb, labels, faults)
    case Ok(current) => UpdateDriftedService(c, current, gb, labels, faults)
  }

  /** The record as it is written back: its status projected from the observed Deployment. */
  function Reported(gb: Guestbook, observed: Deployment): Guestbook
  {
    gb.(status := ProjectedStatus(gb.status, observed.readyReplicas, gb.spec.replicas, gb.generation))
  }

  /** Status projection: re-read the Deployment and write the record's
      status; a failed re-read skips it and a failed write is dropped. */
  function StatusStep(c: ClusterState, gb: Guestbook, faults: Faults): (r: Step)
    ensures r.err == None
    ensures forall w :: w in r.writes ==> w == StatusUpdated(GuestbookKey(gb))
    ensures AtMostOneOfRank(r.writes, 2)
    ensures WellKeyed(c) ==> WellKeyed(r.cluster)
    ensures r.cluster.deployments == c.deployments && r.cluster.services == c.services
  {
    match Fetch(c.deployments, DeploymentKeyFor(gb), FaultAt(faults, RefetchDeploy))
    case Err(_) => Step(c, [], None)
    case Ok(observed) =>
      var written := UpdateStatusIn(c, Reported(gb, observed), FaultAt(faults, WriteStatus));
      Step(written.cluster, written.writes, None)
  }

  /** The record as the pass works with it: port and replicas defaulted. */
  function Defaulted(fetched: Guestbook): Guestbook
  {
    fetched.(spec := WithDefaults(fetched.spec))
  }

  /** `first` followed by `next`: the state and error of `next`, the writes of both. */
  function Then(first: Step, next: Step): Step
  {
    Step(next.cluster, first.writes + next.writes, next.err)
  }

  /** The Service stage and then, if it succeeded, the status stage. */
  function ServiceThenStatus(c: ClusterState, gb: Guestbook, labels: Labels, faults: Faults): (r: Step)
    ensures WritesInOrder(r.writes) && forall w :: w in r.writes ==> Rank(w) > 0
    ensures WellKeyed(c) ==> WellKeyed(r.cluster)
  {
    var svc := ServiceStep(c, gb, labels, faults);
    if svc.err.Some? then svc
    else
      var status := StatusStep(svc.cluster, gb, faults);
      PrependInOrder(svc.writes, status.writes, 1);
      Then(svc, status)
  }

  /** The stages after defaulting: Deployment, then Service, then status.
      The first dependent error ends the pass and is returned. */
  function DriveDependents(c: ClusterState, gb: Guestbook, image: string, faults: Faults): (r: Step)
    ensures WritesInOrder(r.writes)
    ensures WellKeyed(c) ==> WellKeyed(r.cluster)
  {
    var labels := LabelsFor(gb.name);
    var dep := DeploymentStep(c, gb, image, labels, faults);
    if dep.err.Some? then dep
    else
      var rest := ServiceThenStatus(dep.cluster, gb, labels, faults);
      PrependInOrder(dep.writes, rest.writes, 0);
      Then(dep, rest)
  }

  /** One reconciliation pass for the record stored under `req`. Each kind
      gets at most one write, in the order Deployment, Service, status. */
  function Reconciled(c: ClusterState, req: Key, faults: Faults): (r: Step)
    ensures WritesInOrder(r.writes)
    ensures WellKeyed(c) ==> WellKeyed(r.cluster)
  {
    match Fetch(c.guestbooks, req, FaultAt(faults, GetRecord))
    case Err(e) => Step(c, [], if e == NotFound then None else Some(e))
    case Ok(fetched) => DriveDependents(c, Defaulted(fetched), ImageOrDefault(fetched.spec.image), faults)
  }

  /** A record that is gone ends the pass successfully with no writes. */
  lemma MissingRecordIsNoOp(c: ClusterState, req: Key, faults: Faults)
    requires FaultAt(faults, GetRecord) == Some(NotFound) || (FaultAt(faults, GetRecord) == None && req !in c.guestbooks)
    ensures Reconciled(c, req, faults) == Step(c, [], None)
  {
  }

  /** Any other error fetching the record is returned unchanged, with no writes. */
  lemma RecordFetchErrorIsReturned(c: ClusterState, req: Key, faults: Faults, e: ApiError)
    requires FaultAt(faults, GetRecord) == Some(e) && e != NotFound
    ensures Reconciled(c, req, faults) == Step(c, [], Some(e))
  {
  }
}
