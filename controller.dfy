/** The controller's reconcile loop body over an in-memory cluster store.
    The store holds the objects and a journal of every write request sent
    to it; a fault can be injected into each call of a pass. */
module Controller {
  import opened Objects
  import opened Drift
  import opened Builders
  import opened ApiStore
  import opened Reconciler

  /** Two stages' writes appended to the journal one after the other. Stated
      apart so that the method using it does not prove it amid the stage
      contracts. */
  lemma JournalAppend(journal: seq<Write>, first: seq<Write>, next: seq<Write>)
    ensures journal + first + next == journal + (first + next)
  {
  }

  class Cluster {
    var guestbooks: map<Key, Guestbook>
    var deployments: map<Key, Deployment>
    var services: map<Key, Service>
    /** Every write request sent, successful or not; its length is the write count. */
    var writes: seq<Write>

    function State(): ClusterState
      reads this
    {
      ClusterState(guestbooks, deployments, services)
    }

    ghost predicate Valid()
      reads this
    {
      WellKeyed(State())
    }

    constructor (initial: ClusterState)
      requires WellKeyed(initial)
      ensures Valid() && State() == initial && writes == []
    {
      guestbooks, deployments, services := initial.guestbooks, initial.deployments, initial.services;
      writes := [];
    }

    method GetGuestbook(key: Key, fault: Option<ApiError>) returns (r: Result<Guestbook>)
      ensures fault.Some? ==> r == Err(fault.value)
      ensures fault.None? ==> (r.Ok? <==> key in guestbooks)
      ensures r.Ok? ==> r.value == guestbooks[key]
      ensures fault.None? && r.Err? ==> r.error == NotFound
    {
      r := Fetch(guestbooks, key, fault);
    }

    method GetDeployment(key: Key, fault: Option<ApiError>) returns (r: Result<Deployment>)
      ensures fault.Some? ==> r == Err(fault.value)
      ensures fault.None? ==> (r.Ok? <==> key in deployments)
      ensures r.Ok? ==> r.value == deployments[key]
      ensures fault.None? && r.Err? ==> r.error == NotFound
    {
      r := Fetch(deployments, key, fault);
    }

    method GetService(key: Key, fault: Option<ApiError>) returns (r: Result<Service>)
      ensures fault.Some? ==> r == Err(fault.value)
      ensures fault.None? ==> (r.Ok? <==> key in services)
      ensures r.Ok? ==> r.value == services[key]
      ensures fault.None? && r.Err? ==> r.error == NotFound
    {
      r := Fetch(services, key, fault);
    }

    method CreateDeployment(d: Deployment, fault: Option<ApiError>) returns (err: Option<ApiError>)
      requires Valid()
      modifies this
      ensures Valid()
      ensures State() == CreateDeploymentIn(old(State()), d, fault).cluster
      ensures writes == old(writes) + CreateDeploymentIn(old(State()), d, fault).writes
      ensures err == CreateDeploymentIn(old(State()), d, fault).err
    {
      var key := DeploymentKey(d);
      writes := writes + [Created(DeploymentKind, key)];
      if fault.Some? {
        err := fault;
      } else if key in deployments {
        err := Some(AlreadyExists);
      } else {
        deployments := deployments[key := d];
        err := None;
      }
    }

    method UpdateDeployment(d: Deployment, fault: Option<ApiError>) returns (err: Option<ApiError>)
      requires Valid()
      modifies this
      ensures Valid()
      ensures State() == UpdateDeploymentIn(old(State()), d, fault).cluster
      ensures writes == old(writes) + UpdateDeploymentIn(old(State()), d, fault).writes
      ensures err == UpdateDeploymentIn(old(State()), d, fault).err
    {
      var key := DeploymentKey(d);
      writes := writes + [Updated(DeploymentKind, key)];
      if fault.Some? {
        err := fault;
      } else if key !in deployments {
        err := Some(NotFound);
      } else {
        deployments := deployments[key := d];
        err := None;
      }
    }

    method CreateService(s: Service, fault: Option<ApiError>) returns (err: Option<ApiError>)
      requires Valid()
      modifies this
      ensures Valid()
      ensures State() == CreateServiceIn(old(State()), s, fault).cluster
      ensures writes == old(writes) + CreateServiceIn(old(State()), s, fault).writes
      ensures err == CreateServiceIn(old(State()), s, fault).err
    {
      var key := ServiceKey(s);
      writes := writes + [Created(ServiceKind, key)];
      if fault.Some? {
        err := fault;
      } else if key in services {
        err := Some(AlreadyExists);
      } else {
        services := services[key := s];
        err := None;
      }
    }

    method UpdateService(s: Service, fault: Option<ApiError>) returns (err: Option<ApiError>)
      requires Valid()
      modifies this
      ensures Valid()
      ensures State() == UpdateServiceIn(old(State()), s, fault).cluster
      ensures writes == old(writes) + UpdateServiceIn(old(State()), s, fault).writes
      ensures err == UpdateServiceIn(old(State()), s, fault).err
    {
      var key := ServiceKey(s);
      writes := writes + [Updated(ServiceKind, key)];
      if fault.Some? {
        err := fault;
      } else if key !in services {
        err := Some(NotFound);
      } else {
        services := services[key := s];
        err := None;
      }
    }

    /** The status subresource update: only the stored record's status changes. */
    method UpdateStatus(gb: Guestbook, fault: Option<ApiError>) returns (err: Option<ApiError>)
      requires Valid()
      modifies this
      ensures Valid()
      ensures State() == UpdateStatusIn(old(State()), gb, fault).cluster
      ensures writes == old(writes) + UpdateStatusIn(old(State()), gb, fault).writes
      ensures err == UpdateStatusIn(old(State()), gb, fault).err
    {
      var key := GuestbookKey(gb);
      writes := writes + [StatusUpdated(key)];
      if fault.Some? {
        err := fault;
      } else if key !in guestbooks {
        err := Some(NotFound);
      } else {
        guestbooks := guestbooks[key := guestbooks[key].(status := gb.status)];
        err := None;
      }
    }

    /** Fetch the Deployment; create it with an owner reference when it is
        missing, or patch it and send one update when it has drifted. */
    method ReconcileDeployment(gb: Guestbook, image: string, labels: Labels, faults: Faults)
      returns (err: Option<ApiError>)
      requires Valid()
      modifies this
      ensures Valid()
      ensures State() == DeploymentStep(old(State()), gb, image, labels, faults).cluster
      ensures writes == old(writes) + DeploymentStep(old(State()), gb, image, labels, faults).writes
      ensures err == DeploymentStep(old(State()), gb, image, labels, faults).err
    {
      var key := DeploymentKeyFor(gb);
      var got := GetDeployment(key, FaultAt(faults, GetDeploy));
      var desired := DesiredDeployment(gb, key.name, labels, image);
      if got.Err? {
        if got.error != NotFound {
          return Some(got.error);
        }
        var owner := ControllerReference(gb, FaultAt(faults, OwnDeploy));
        if owner.Err? {
          return Some(owner.error);
        }
        err := CreateDeployment(desired.(owner := Some(owner.value)), FaultAt(faults, CreateDeploy));
      } else {
        var patched, updated := PatchDeployment(got.value, gb.spec, image, labels);
        err := None;
        if updated {
          err := UpdateDeployment(patched, FaultAt(faults, UpdateDeploy));
        }
      }
    }

    /** Fetch the Service; create it with an owner reference when it is
        missing, or patch it and send one update when it has drifted. */
    method ReconcileService(gb: Guestbook, labels: Labels, faults: Faults) returns (err: Option<ApiError>)
      requires Valid()
      modifies this
      ensures Valid()
      ensures State() == ServiceStep(old(State()), gb, labels, faults).cluster
      ensures writes == old(writes) + ServiceStep(old(State()), gb, labels, faults).writes
      ensures err == ServiceStep(old(State()), gb, labels, faults).err
    {
      var key := ServiceKeyFor(gb);
      var got := GetService(key, FaultAt(faults, GetSvc));
      var desired := DesiredService(gb, key.name, labels);
      if got.Err? {
        if got.error != NotFound {
          return Some(got.error);
        }
        var owner := ControllerReference(gb, FaultAt(faults, OwnSvc));
        if owner.Err? {
          return Some(owner.error);
        }
        err := CreateService(desired.(owner := Some(owner.value)), FaultAt(faults, CreateSvc));
      } else {
        var patched, changed := PatchService(got.value, gb.spec, labels);
        err := None;
        if changed {
          err := UpdateService(patched, FaultAt(faults, UpdateSvc));
        }
      }
    }

    /** Re-read the Deployment and write the record's status; neither a
        failed re-read nor a failed write is reported. */
    method ReportStatus(gb: Guestbook, faults: Faults)
      requires Valid()
      modifies this
      ensures Valid()
      ensures State() == StatusStep(old(State()), gb, faults).cluster
      ensures writes == old(writes) + StatusStep(old(State()), gb, faults).writes
    {
      var got := GetDeployment(DeploymentKeyFor(gb), FaultAt(faults, RefetchDeploy));
      if got.Ok? {
        var reported := Reported(gb, got.value);
        var ignored := UpdateStatus(reported, FaultAt(faults, WriteStatus));
      }
    }

    /** The Service stage and then, if it succeeded, the status stage. */
    method ServiceThenStatus(gb: Guestbook, labels: Labels, faults: Faults) returns (err: Option<ApiError>)
      requires Valid()
      modifies this
      ensures Valid()
      ensures State() == Reconciler.ServiceThenStatus(old(State()), gb, labels, faults).cluster
      ensures writes == old(writes) + Reconciler.ServiceThenStatus(old(State()), gb, labels, faults).writes
      ensures err == Reconciler.ServiceThenStatus(old(State()), gb, labels, faults).err
    {
      ghost var before := State();
      ghost var svc := ServiceStep(before, gb, labels, faults);
      err := ReconcileService(gb, labels, faults);
      if err.None? {
        ghost var status := StatusStep(svc.cluster, gb, faults);
        ReportStatus(gb, faults);
        JournalAppend(old(writes), svc.writes, status.writes);
      }
    }

    /** The stages after defaulting. The Deployment and then the Service
        are brought in line, the first error among them ending the pass;
        then the status is projected, and its failures are not reported. */
    method DriveDependents(gb: Guestbook, image: string, faults: Faults) returns (err: Option<ApiError>)
      requires Valid()
      modifies this
      ensures Valid()
      ensures State() == Reconciler.DriveDependents(old(State()), gb, image, faults).cluster
      ensures writes == old(writes) + Reconciler.DriveDependents(old(State()), gb, image, faults).writes
      ensures err == Reconciler.DriveDependents(old(State()), gb, image, faults).err
    {
      var labels := LabelsFor(gb.name);
      ghost var dep := DeploymentStep(State(), gb, image, labels, faults);
      err := ReconcileDeployment(gb, image, labels, faults);
      if err.None? {
        ghost var rest := Reconciler.ServiceThenStatus(dep.cluster, gb, labels, faults);
        err := ServiceThenStatus(gb, labels, faults);
        JournalAppend(old(writes), dep.writes, rest.writes);
      }
    }

    /** One reconciliation of the record stored under `req`. A record that
        is gone ends the pass quietly and any other fetch error is returned;
        otherwise the record is defaulted and its dependents are driven. */
    method Reconcile(req: Key, faults: Faults) returns (err: Option<ApiError>)
      requires Valid()
      modifies this
      ensures Valid()
      ensures State() == Reconciled(old(State()), req, faults).cluster
      ensures writes == old(writes) + Reconciled(old(State()), req, faults).writes
      ensures err == Reconciled(old(State()), req, faults).err
    {
      var got := GetGuestbook(req, FaultAt(faults, GetRecord));
      if got.Err? {
        return if got.error == NotFound then None else Some(got.error);
      }
      var gb := got.value;
      var image := gb.spec.image;
      if image == "" {
        image := FallbackImage;
      }
      if gb.spec.port == 0 {
        gb := gb.(spec := gb.spec.(port := FallbackPort));
      }
      if gb.spec.replicas == 0 {
        gb := gb.(spec := gb.spec.(replicas := FallbackReplicas));
      }
      assert gb == Defaulted(got.value);
      err := DriveDependents(gb, image, faults);
    }
  }
}
