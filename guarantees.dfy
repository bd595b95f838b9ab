/** What a reconciliation pass guarantees: the error policy, convergence,
    the narrow set of fields the controller owns, the status projection,
    and idempotence of a second pass. Each pass-level property is built
    from a property of the stage that causes it. */
module Guarantees {
  import opened Objects
  import opened Drift
  import opened Builders
  import opened Status
  import opened ApiStore
  import opened Reconciler

  /** The record is there to be fetched and its fetch is not faulted. */
  predicate RecordFetched(c: ClusterState, req: Key, faults: Faults)
  {
    req in c.guestbooks && GetRecord !in faults
  }

  /** The record as a pass works with it, after defaulting. */
  function Working(c: ClusterState, req: Key): Guestbook
    requires req in c.guestbooks
  {
    Defaulted(c.guestbooks[req])
  }

  function WorkingImage(c: ClusterState, req: Key): string
    requires req in c.guestbooks
  {
    ImageOrDefault(c.guestbooks[req].spec.image)
  }

  /** A pass for a fetched record runs the stages in order, each only if
      the one before it succeeded. */
  lemma PassStages(c: ClusterState, req: Key, faults: Faults)
    requires RecordFetched(c, req, faults)
    ensures var gb := Working(c, req);
      var labels := LabelsFor(gb.name);
      var dep := DeploymentStep(c, gb, WorkingImage(c, req), labels, faults);
      var svc := ServiceStep(dep.cluster, gb, labels, faults);
      var status := StatusStep(svc.cluster, gb, faults);
      Reconciled(c, req, faults) ==
        if dep.err.Some? then dep
        else if svc.err.Some? then Then(dep, svc)
        else Then(dep, Then(svc, status))
  {
  }

  // ---------------------------------------------------------------------
  // Deployment stage

  /** A successful Deployment stage leaves a converged Deployment under its key. */
  lemma DeploymentStepConverges(c: ClusterState, gb: Guestbook, image: string, labels: Labels, faults: Faults)
    requires WellKeyed(c)
    requires DeploymentStep(c, gb, image, labels, faults).err == None
    ensures var after := DeploymentStep(c, gb, image, labels, faults).cluster.deployments;
      DeploymentKeyFor(gb) in after && DeploymentConverged(after[DeploymentKeyFor(gb)], gb.spec, image, labels)
  {
    var key := DeploymentKeyFor(gb);
    if key in c.deployments && GetDeploy !in faults {
      assert DeploymentKey(PatchedDeployment(c.deployments[key], gb.spec, image, labels)) == key;
    }
  }

  /** The Deployment stage writes to no Deployment but its own. */
  lemma DeploymentStepTouchesOnlyItsKey(c: ClusterState, gb: Guestbook, image: string, labels: Labels, faults: Faults)
    requires WellKeyed(c)
    ensures var key := DeploymentKeyFor(gb);
      var after := DeploymentStep(c, gb, image, labels, faults).cluster.deployments;
      && after.Keys <= c.deployments.Keys + {key}
      && (forall k :: k in c.deployments && k != key ==> k in after && after[k] == c.deployments[k])
  {
    var key := DeploymentKeyFor(gb);
    var r := DeploymentStep(c, gb, image, labels, faults);
    var got := Fetch(c.deployments, key, FaultAt(faults, GetDeploy));
    if got.Err? {
      if got.error == NotFound && OwnDeploy !in faults {
        var created := DesiredDeployment(gb, key.name, labels, image).(owner := Some(OwnerRef("Guestbook", gb.name, true)));
        assert r == CreateDeploymentIn(c, created, FaultAt(faults, CreateDeploy));
        assert r.cluster.deployments == c.deployments || r.cluster.deployments == c.deployments[key := created];
      } else {
        assert r.cluster == c;
      }
    } else if DeploymentConverged(c.deployments[key], gb.spec, image, labels) {
      assert r.cluster == c;
    } else {
      var patched := PatchedDeployment(c.deployments[key], gb.spec, image, labels);
      assert DeploymentKey(patched) == key;
      assert r.cluster.deployments == c.deployments || r.cluster.deployments == c.deployments[key := patched];
    }
  }

  /** An existing Deployment keeps everything but the fields the controller
      owns: the replica count, the first container, and the derived
      template labels, among which any other label survives. */
  lemma ExistingDeploymentPatchedNarrowly(c: ClusterState, gb: Guestbook, image: string, labels: Labels, faults: Faults)
    requires WellKeyed(c) && DeploymentKeyFor(gb) in c.deployments
    ensures var key := DeploymentKeyFor(gb);
      var before := c.deployments[key];
      var after := DeploymentStep(c, gb, image, labels, faults).cluster.deployments;
      && key in after
      && after[key] == before.(replicas := after[key].replicas, containers := after[key].containers,
                               templateLabels := after[key].templateLabels)
      && |after[key].containers| == |before.containers|
      && (|before.containers| > 0 ==> after[key].containers[1..] == before.containers[1..])
      && (forall k :: k in before.templateLabels && k !in labels ==>
            k in after[key].templateLabels && after[key].templateLabels[k] == before.templateLabels[k])
  {
    var key := DeploymentKeyFor(gb);
    var before := c.deployments[key];
    var r := DeploymentStep(c, gb, image, labels, faults);
    if Fetch(c.deployments, key, FaultAt(faults, GetDeploy)).Err? || DeploymentConverged(before, gb.spec, image, labels) {
      assert r.cluster == c;
    } else {
      var patched := PatchedDeployment(before, gb.spec, image, labels);
      assert r == UpdateDeploymentIn(c, patched, FaultAt(faults, UpdateDeploy));
      assert DeploymentKey(patched) == key;
      assert r.cluster.deployments == c.deployments || r.cluster.deployments == c.deployments[key := patched];
    }
  }

  // ---------------------------------------------------------------------
  // Service stage

  /** A successful Service stage leaves a converged Service under its key. */
  lemma ServiceStepConverges(c: ClusterState, gb: Guestbook, labels: Labels, faults: Faults)
    requires WellKeyed(c)
    requires ServiceStep(c, gb, labels, faults).err == None
    ensures var after := ServiceStep(c, gb, labels, faults).cluster.services;
      ServiceKeyFor(gb) in after && ServiceConverged(after[ServiceKeyFor(gb)], gb.spec, labels)
  {
    var key := ServiceKeyFor(gb);
    if key in c.services && GetSvc !in faults {
      assert ServiceKey(PatchedService(c.services[key], gb.spec, labels)) == key;
    }
  }

  /** The Service stage writes to no Service but its own. */
  lemma ServiceStepTouchesOnlyItsKey(c: ClusterState, gb: Guestbook, labels: Labels, faults: Faults)
    requires WellKeyed(c)
    ensures var key := ServiceKeyFor(gb);
      var after := ServiceStep(c, gb, labels, faults).cluster.services;
      && after.Keys <= c.services.Keys + {key}
      && (forall k :: k in c.services && k != key ==> k in after && after[k] == c.services[k])
  {
    var key := ServiceKeyFor(gb);
    var r := ServiceStep(c, gb, labels, faults);
    var got := Fetch(c.services, key, FaultAt(faults, GetSvc));
    if got.Err? {
      if got.error == NotFound && OwnSvc !in faults {
        var created := DesiredService(gb, key.name, labels).(owner := Some(OwnerRef("Guestbook", gb.name, true)));
        assert r == CreateServiceIn(c, created, FaultAt(faults, CreateSvc));
        assert r.cluster.services == c.services || r.cluster.services == c.services[key := created];
      } else {
        assert r.cluster == c;
      }
    } else if ServiceConverged(c.services[key], gb.spec, labels) {
      assert r.cluster == c;
    } else {
      var patched := PatchedService(c.services[key], gb.spec, labels);
      assert ServiceKey(patched) == key;
      assert r.cluster.services == c.services || r.cluster.services == c.services[key := patched];
    }
  }

  /** An existing Service keeps everything but its ports and the derived
      selector labels, among which any other selector label survives; in
      particular its cluster IP is never touched. */
  lemma ExistingServicePatchedNarrowly(c: ClusterState, gb: Guestbook, labels: Labels, faults: Faults)
    requires WellKeyed(c) && ServiceKeyFor(gb) in c.services
    ensures var key := ServiceKeyFor(gb);
      var before := c.services[key];
      var after := ServiceStep(c, gb, labels, faults).cluster.services;
      && key in after
      && after[key] == before.(ports := after[key].ports, selector := after[key].selector)
      && (forall k :: k in before.selector && k !in labels ==>
            k in after[key].selector && after[key].selector[k] == before.selector[k])
  {
    var key := ServiceKeyFor(gb);
    var before := c.services[key];
    var r := ServiceStep(c, gb, labels, faults);
    if Fetch(c.services, key, FaultAt(faults, GetSvc)).Err? || ServiceConverged(before, gb.spec, labels) {
      assert r.cluster == c;
    } else {
      var patched := PatchedService(before, gb.spec, labels);
      assert r == UpdateServiceIn(c, patched, FaultAt(faults, UpdateSvc));
      assert ServiceKey(patched) == key;
      assert r.cluster.services == c.services || r.cluster.services == c.services[key := patched];
    }
  }

  // ---------------------------------------------------------------------
  // Status stage

  /** The status stage changes no record but the reconciled one, and of
      that one only its status. */
  lemma StatusStepTouchesOnlyStatus(c: ClusterState, gb: Guestbook, faults: Faults)
    ensures var after := StatusStep(c, gb, faults).cluster.guestbooks;
      && after.Keys == c.guestbooks.Keys
      && (forall k :: k in c.guestbooks ==> after[k] == c.guestbooks[k].(status := after[k].status))
      && (forall k :: k in c.guestbooks && k != GuestbookKey(gb) ==> after[k] == c.guestbooks[k])
  {
    var r := StatusStep(c, gb, faults);
    var got := Fetch(c.deployments, DeploymentKeyFor(gb), FaultAt(faults, RefetchDeploy));
    if got.Ok? && WriteStatus !in faults && GuestbookKey(gb) in c.guestbooks {
      var key := GuestbookKey(gb);
      var reported := Reported(gb, got.value);
      assert r.cluster.guestbooks == c.guestbooks[key := c.guestbooks[key].(status := reported.status)];
    } else {
      assert r.cluster == c;
    }
  }

  /** With the Deployment readable and the write accepted, the stored
      record's status becomes the projection of the observed Deployment. */
  lemma StatusStepProjects(c: ClusterState, gb: Guestbook, faults: Faults)
    requires DeploymentKeyFor(gb) in c.deployments && GuestbookKey(gb) in c.guestbooks
    requires RefetchDeploy !in faults && WriteStatus !in faults
    ensures var r := StatusStep(c, gb, faults);
      var observed := c.deployments[DeploymentKeyFor(gb)];
      && r.writes == [StatusUpdated(GuestbookKey(gb))]
      && r.cluster.guestbooks[GuestbookKey(gb)].status ==
           ProjectedStatus(gb.status, observed.readyReplicas, gb.spec.replicas, gb.generation)
  {
  }

  /** A failed re-read of the Deployment skips the status write altogether. */
  lemma RefetchFailureSkipsStatus(c: ClusterState, gb: Guestbook, faults: Faults)
    requires RefetchDeploy in faults
    ensures StatusStep(c, gb, faults) == Step(c, [], None)
  {
  }

  // ---------------------------------------------------------------------
  // Error policy

  /** An error other than NotFound reading the Deployment is returned, and
      the pass ends before any write. */
  lemma DeploymentFetchErrorEndsPass(c: ClusterState, req: Key, faults: Faults)
    requires RecordFetched(c, req, faults)
    requires GetDeploy in faults && faults[GetDeploy] != NotFound
    ensures Reconciled(c, req, faults) == Step(c, [], Some(faults[GetDeploy]))
  {
    PassStages(c, req, faults);
  }

  /** A missing Deployment is created from the desired object with the
      record as its controlling owner; if the owner reference cannot be
      set, that error is returned before anything is written. */
  lemma MissingDeploymentIsCreated(c: ClusterState, req: Key, faults: Faults)
    requires RecordFetched(c, req, faults)
    requires DeploymentKeyFor(Working(c, req)) !in c.deployments && GetDeploy !in faults
    ensures var gb := Working(c, req);
      var key := DeploymentKeyFor(gb);
      var r := Reconciled(c, req, faults);
      && (OwnDeploy in faults ==> r == Step(c, [], Some(faults[OwnDeploy])))
      && (OwnDeploy !in faults ==> r.writes != [] && r.writes[0] == Created(DeploymentKind, key))
      && (OwnDeploy !in faults && CreateDeploy in faults ==> r.err == Some(faults[CreateDeploy]) && r.cluster == c)
      && (OwnDeploy !in faults && CreateDeploy !in faults ==>
            key in r.cluster.deployments &&
            r.cluster.deployments[key] ==
              DesiredDeployment(gb, key.name, LabelsFor(gb.name), WorkingImage(c, req))
                .(owner := Some(OwnerRef("Guestbook", gb.name, true))))
  {
    PassStages(c, req, faults);
    var gb := Working(c, req);
    var labels := LabelsFor(gb.name);
    var dep := DeploymentStep(c, gb, WorkingImage(c, req), labels, faults);
    if dep.err.None? {
      var svc := ServiceStep(dep.cluster, gb, labels, faults);
      if svc.err.None? {
        assert StatusStep(svc.cluster, gb, faults).cluster.deployments == dep.cluster.deployments;
      }
    }
  }

  /** A drifted Deployment whose update fails: the update's error is
      returned and nothing has changed. */
  lemma DeploymentUpdateFailureIsReturned(c: ClusterState, req: Key, faults: Faults)
    requires RecordFetched(c, req, faults)
    requires DeploymentKeyFor(Working(c, req)) in c.deployments && GetDeploy !in faults
    requires !DeploymentConverged(c.deployments[DeploymentKeyFor(Working(c, req))], Working(c, req).spec,
                                  WorkingImage(c, req), LabelsFor(Working(c, req).name))
    requires UpdateDeploy in faults
    ensures Reconciled(c, req, faults).err == Some(faults[UpdateDeploy])
    ensures Reconciled(c, req, faults).cluster == c
  {
    PassStages(c, req, faults);
  }

  /** A missing Service, once the Deployment stage has succeeded, is
      created from the desired object with the record as its controlling
      owner; a failure to set the owner reference or of the create is
      returned, and the status is then not written. */
  lemma MissingServiceIsCreated(c: ClusterState, req: Key, faults: Faults)
    requires RecordFetched(c, req, faults)
    requires DeploymentStep(c, Working(c, req), WorkingImage(c, req), LabelsFor(Working(c, req).name), faults).err == None
    requires ServiceKeyFor(Working(c, req)) !in c.services && GetSvc !in faults
    ensures var gb := Working(c, req);
      var key := ServiceKeyFor(gb);
      var dep := DeploymentStep(c, gb, WorkingImage(c, req), LabelsFor(gb.name), faults);
      var r := Reconciled(c, req, faults);
      && (OwnSvc in faults ==> r == Step(dep.cluster, dep.writes, Some(faults[OwnSvc])))
      && (OwnSvc !in faults ==> Created(ServiceKind, key) in r.writes)
      && (OwnSvc !in faults && CreateSvc in faults ==> r.err == Some(faults[CreateSvc]) && r.cluster == dep.cluster)
      && (OwnSvc !in faults && CreateSvc !in faults ==>
            key in r.cluster.services &&
            r.cluster.services[key] ==
              DesiredService(gb, key.name, LabelsFor(gb.name)).(owner := Some(OwnerRef("Guestbook", gb.name, true))))
  {
    PassStages(c, req, faults);
    var gb := Working(c, req);
    var labels := LabelsFor(gb.name);
    var dep := DeploymentStep(c, gb, WorkingImage(c, req), labels, faults);
    var svc := ServiceStep(dep.cluster, gb, labels, faults);
    if svc.err.None? {
      assert StatusStep(svc.cluster, gb, faults).cluster.services == svc.cluster.services;
    }
  }

  /** A drifted Service whose update fails, after a successful Deployment
      stage: the update's error is returned and the status is not written. */
  lemma ServiceUpdateFailureIsReturned(c: ClusterState, req: Key, faults: Faults)
    requires RecordFetched(c, req, faults)
    requires DeploymentStep(c, Working(c, req), WorkingImage(c, req), LabelsFor(Working(c, req).name), faults).err == None
    requires ServiceKeyFor(Working(c, req)) in c.services && GetSvc !in faults
    requires !ServiceConverged(c.services[ServiceKeyFor(Working(c, req))], Working(c, req).spec, LabelsFor(Working(c, req).name))
    requires UpdateSvc in faults
    ensures var dep := DeploymentStep(c, Working(c, req), WorkingImage(c, req), LabelsFor(Working(c, req).name), faults);
      && Reconciled(c, req, faults).err == Some(faults[UpdateSvc])
      && Reconciled(c, req, faults).cluster == dep.cluster
  {
    PassStages(c, req, faults);
  }

  /** An error other than NotFound reading the Service is returned after
      the Deployment stage, and the status is not written. */
  lemma ServiceFetchErrorEndsPass(c: ClusterState, req: Key, faults: Faults)
    requires RecordFetched(c, req, faults)
    requires GetSvc in faults && faults[GetSvc] != NotFound
    ensures var gb := Working(c, req);
      var dep := DeploymentStep(c, gb, WorkingImage(c, req), LabelsFor(gb.name), faults);
      var r := Reconciled(c, req, faults);
      && r.cluster == dep.cluster && r.writes == dep.writes
      && r.err == if dep.err.Some? then dep.err else Some(faults[GetSvc])
  {
    PassStages(c, req, faults);
  }

  /** The Deployment stage does not look at the status stage's faults. */
  lemma DeploymentStepIgnoresStatusFaults(c: ClusterState, gb: Guestbook, image: string, labels: Labels, faults: Faults)
    ensures DeploymentStep(c, gb, image, labels, faults) ==
            DeploymentStep(c, gb, image, labels, faults - {RefetchDeploy, WriteStatus})
  {
    var quiet := faults - {RefetchDeploy, WriteStatus};
    assert FaultAt(faults, GetDeploy) == FaultAt(quiet, GetDeploy);
    assert CreateOwnedDeployment(c, gb, image, labels, faults) == CreateOwnedDeployment(c, gb, image, labels, quiet) by {
      assert FaultAt(faults, OwnDeploy) == FaultAt(quiet, OwnDeploy);
      assert FaultAt(faults, CreateDeploy) == FaultAt(quiet, CreateDeploy);
    }
    assert FaultAt(faults, UpdateDeploy) == FaultAt(quiet, UpdateDeploy);
  }

  /** The Service stage does not look at the status stage's faults. */
  lemma ServiceStepIgnoresStatusFaults(c: ClusterState, gb: Guestbook, labels: Labels, faults: Faults)
    ensures ServiceStep(c, gb, labels, faults) == ServiceStep(c, gb, labels, faults - {RefetchDeploy, WriteStatus})
  {
    var quiet := faults - {RefetchDeploy, WriteStatus};
    assert FaultAt(faults, GetSvc) == FaultAt(quiet, GetSvc);
    assert CreateOwnedService(c, gb, labels, faults) == CreateOwnedService(c, gb, labels, quiet) by {
      assert FaultAt(faults, OwnSvc) == FaultAt(quiet, OwnSvc);
      assert FaultAt(faults, CreateSvc) == FaultAt(quiet, CreateSvc);
    }
    assert FaultAt(faults, UpdateSvc) == FaultAt(quiet, UpdateSvc);
  }

  /** A failed re-read or a failed status write never fails the pass: the
      error returned is the one the pass returns with neither fault. */
  lemma StatusFaultsNeverFail(c: ClusterState, req: Key, faults: Faults)
    ensures Reconciled(c, req, faults).err == Reconciled(c, req, faults - {RefetchDeploy, WriteStatus}).err
  {
    var quiet := faults - {RefetchDeploy, WriteStatus};
    assert FaultAt(faults, GetRecord) == FaultAt(quiet, GetRecord);
    if RecordFetched(c, req, faults) {
      PassStages(c, req, faults);
      PassStages(c, req, quiet);
      var gb := Working(c, req);
      var labels := LabelsFor(gb.name);
      var image := WorkingImage(c, req);
      DeploymentStepIgnoresStatusFaults(c, gb, image, labels, faults);
      var dep := DeploymentStep(c, gb, image, labels, faults);
      ServiceStepIgnoresStatusFaults(dep.cluster, gb, labels, faults);
    }
  }

  /** Without faults the Deployment stage succeeds. */
  lemma DeploymentStepSucceedsWithoutFaults(c: ClusterState, gb: Guestbook, image: string, labels: Labels)
    requires WellKeyed(c)
    ensures DeploymentStep(c, gb, image, labels, map[]).err == None
  {
    var key := DeploymentKeyFor(gb);
    if key in c.deployments {
      assert DeploymentKey(PatchedDeployment(c.deployments[key], gb.spec, image, labels)) == key;
    }
  }

  /** Without faults the Service stage succeeds. */
  lemma ServiceStepSucceedsWithoutFaults(c: ClusterState, gb: Guestbook, labels: Labels)
    requires WellKeyed(c)
    ensures ServiceStep(c, gb, labels, map[]).err == None
  {
    var key := ServiceKeyFor(gb);
    if key in c.services {
      assert ServiceKey(PatchedService(c.services[key], gb.spec, labels)) == key;
    }
  }

  /** A pass with no injected fault succeeds. */
  lemma FaultFreePassSucceeds(c: ClusterState, req: Key)
    requires WellKeyed(c)
    ensures Reconciled(c, req, map[]).err == None
  {
    if req in c.guestbooks {
      PassStages(c, req, map[]);
      var gb := Working(c, req);
      var labels := LabelsFor(gb.name);
      DeploymentStepSucceedsWithoutFaults(c, gb, WorkingImage(c, req), labels);
      var dep := DeploymentStep(c, gb, WorkingImage(c, req), labels, map[]);
      ServiceStepSucceedsWithoutFaults(dep.cluster, gb, labels);
    }
  }

  // ---------------------------------------------------------------------
  // Convergence and ownership

  /** After a successful pass both dependents exist and match the record. */
  lemma PassConverges(c: ClusterState, req: Key, faults: Faults)
    requires WellKeyed(c) && RecordFetched(c, req, faults)
    requires Reconciled(c, req, faults).err == None
    ensures var gb := Working(c, req);
      var labels := LabelsFor(gb.name);
      var after := Reconciled(c, req, faults).cluster;
      && DeploymentKeyFor(gb) in after.deployments
      && DeploymentConverged(after.deployments[DeploymentKeyFor(gb)], gb.spec, WorkingImage(c, req), labels)
      && ServiceKeyFor(gb) in after.services
      && ServiceConverged(after.services[ServiceKeyFor(gb)], gb.spec, labels)
  {
    PassStages(c, req, faults);
    var gb := Working(c, req);
    var labels := LabelsFor(gb.name);
    var dep := DeploymentStep(c, gb, WorkingImage(c, req), labels, faults);
    DeploymentStepConverges(c, gb, WorkingImage(c, req), labels, faults);
    var svc := ServiceStep(dep.cluster, gb, labels, faults);
    ServiceStepConverges(dep.cluster, gb, labels, faults);
    var status := StatusStep(svc.cluster, gb, faults);
    assert Reconciled(c, req, faults).cluster == status.cluster;
  }

  /** A pass writes to no Deployment or Service but the record's own two,
      and to no record's fields but the reconciled record's status. */
  lemma PassTouchesOnlyItsOwn(c: ClusterState, req: Key, faults: Faults)
    requires WellKeyed(c)
    ensures var depKey := Key(req.namespace, DeploymentName(req.name));
      var svcKey := Key(req.namespace, ServiceName(req.name));
      var after := Reconciled(c, req, faults).cluster;
      && after.deployments.Keys <= c.deployments.Keys + {depKey}
      && (forall k :: k in c.deployments && k != depKey ==> k in after.deployments && after.deployments[k] == c.deployments[k])
      && after.services.Keys <= c.services.Keys + {svcKey}
      && (forall k :: k in c.services && k != svcKey ==> k in after.services && after.services[k] == c.services[k])
      && after.guestbooks.Keys == c.guestbooks.Keys
      && (forall k :: k in c.guestbooks ==> after.guestbooks[k] == c.guestbooks[k].(status := after.guestbooks[k].status))
      && (forall k :: k in c.guestbooks && k != req ==> after.guestbooks[k] == c.guestbooks[k])
  {
    if RecordFetched(c, req, faults) {
      PassStages(c, req, faults);
      var gb := Working(c, req);
      assert GuestbookKey(gb) == req;
      var labels := LabelsFor(gb.name);
      var dep := DeploymentStep(c, gb, WorkingImage(c, req), labels, faults);
      DeploymentStepTouchesOnlyItsKey(c, gb, WorkingImage(c, req), labels, faults);
      var svc := ServiceStep(dep.cluster, gb, labels, faults);
      ServiceStepTouchesOnlyItsKey(dep.cluster, gb, labels, faults);
      StatusStepTouchesOnlyStatus(svc.cluster, gb, faults);
    }
  }

  /** An existing Deployment keeps every field the controller does not
      own: it changes only in its replica count, its first container and
      its derived template labels, and template labels outside the derived
      set survive. */
  lemma PassPatchesDeploymentNarrowly(c: ClusterState, req: Key, faults: Faults)
    requires WellKeyed(c) && RecordFetched(c, req, faults)
    requires DeploymentKeyFor(Working(c, req)) in c.deployments
    ensures var depKey := DeploymentKeyFor(Working(c, req));
      var before := c.deployments[depKey];
      var after := Reconciled(c, req, faults).cluster.deployments;
      && depKey in after
      && after[depKey] == before.(replicas := after[depKey].replicas, containers := after[depKey].containers,
                                  templateLabels := after[depKey].templateLabels)
      && |after[depKey].containers| == |before.containers|
      && (|before.containers| > 0 ==> after[depKey].containers[1..] == before.containers[1..])
      && (forall k :: k in before.templateLabels && k !in DerivedKeys ==>
            k in after[depKey].templateLabels && after[depKey].templateLabels[k] == before.templateLabels[k])
  {
    PassStages(c, req, faults);
    var gb := Working(c, req);
    var labels := LabelsFor(gb.name);
    var dep := DeploymentStep(c, gb, WorkingImage(c, req), labels, faults);
    ExistingDeploymentPatchedNarrowly(c, gb, WorkingImage(c, req), labels, faults);
    var svc := ServiceStep(dep.cluster, gb, labels, faults);
    assert StatusStep(svc.cluster, gb, faults).cluster.deployments == dep.cluster.deployments;
    assert Reconciled(c, req, faults).cluster.deployments == dep.cluster.deployments;
  }

  /** An existing Service keeps every field the controller does not own:
      it changes only in its ports and its derived selector labels, and
      selector labels outside the derived set survive. */
  lemma PassPatchesServiceNarrowly(c: ClusterState, req: Key, faults: Faults)
    requires WellKeyed(c) && RecordFetched(c, req, faults)
    requires ServiceKeyFor(Working(c, req)) in c.services
    ensures var svcKey := ServiceKeyFor(Working(c, req));
      var before := c.services[svcKey];
      var after := Reconciled(c, req, faults).cluster.services;
      && svcKey in after
      && after[svcKey] == before.(ports := after[svcKey].ports, selector := after[svcKey].selector)
      && (forall k :: k in before.selector && k !in DerivedKeys ==>
            k in after[svcKey].selector && after[svcKey].selector[k] == before.selector[k])
  {
    PassStages(c, req, faults);
    var gb := Working(c, req);
    var labels := LabelsFor(gb.name);
    var dep := DeploymentStep(c, gb, WorkingImage(c, req), labels, faults);
    if dep.err.None? {
      var svc := ServiceStep(dep.cluster, gb, labels, faults);
      ExistingServicePatchedNarrowly(dep.cluster, gb, labels, faults);
      assert StatusStep(svc.cluster, gb, faults).cluster.services == svc.cluster.services;
    }
  }

  // ---------------------------------------------------------------------
  // Status

  /** After a pass whose re-read and status write are not faulted, the
      stored record mirrors the Deployment's ready count and carries the
      Ready condition for it, computed with the defaulted replica count and
      the record's generation. */
  lemma StatusMirrorsDeployment(c: ClusterState, req: Key, faults: Faults)
    requires WellKeyed(c) && RecordFetched(c, req, faults)
    requires RefetchDeploy !in faults && WriteStatus !in faults
    requires Reconciled(c, req, faults).err == None
    ensures var gb := Working(c, req);
      var after := Reconciled(c, req, faults).cluster;
      var depKey := DeploymentKeyFor(gb);
      && depKey in after.deployments && req in after.guestbooks
      && after.guestbooks[req].status ==
           ProjectedStatus(c.guestbooks[req].status, after.deployments[depKey].readyReplicas,
                           gb.spec.replicas, gb.generation)
      && after.guestbooks[req].status.readyReplicas == after.deployments[depKey].readyReplicas
      && FindCondition(after.guestbooks[req].status.conditions, ReadyType) ==
           Some(ReadyCondition(after.deployments[depKey].readyReplicas, gb.spec.replicas, gb.generation))
  {
    PassStages(c, req, faults);
    var gb := Working(c, req);
    assert GuestbookKey(gb) == req;
    var labels := LabelsFor(gb.name);
    var dep := DeploymentStep(c, gb, WorkingImage(c, req), labels, faults);
    DeploymentStepConverges(c, gb, WorkingImage(c, req), labels, faults);
    var svc := ServiceStep(dep.cluster, gb, labels, faults);
    var status := StatusStep(svc.cluster, gb, faults);
    StatusStepProjects(svc.cluster, gb, faults);
    assert Reconciled(c, req, faults).cluster == status.cluster;
    assert status.cluster.deployments == svc.cluster.deployments;
  }

  // ---------------------------------------------------------------------
  // Idempotence

  /** For an existing Deployment the stage sends an update exactly when it
      has drifted, and nothing otherwise. */
  lemma ExistingDeploymentWrites(c: ClusterState, gb: Guestbook, image: string, labels: Labels, faults: Faults)
    requires WellKeyed(c) && DeploymentKeyFor(gb) in c.deployments && GetDeploy !in faults
    ensures DeploymentStep(c, gb, image, labels, faults).writes ==
      if DeploymentConverged(c.deployments[DeploymentKeyFor(gb)], gb.spec, image, labels) then []
      else [Updated(DeploymentKind, DeploymentKeyFor(gb))]
  {
    var key := DeploymentKeyFor(gb);
    assert DeploymentKey(PatchedDeployment(c.deployments[key], gb.spec, image, labels)) == key;
  }

  /** For an existing Service the stage sends an update exactly when it has
      drifted, and nothing otherwise. */
  lemma ExistingServiceWrites(c: ClusterState, gb: Guestbook, labels: Labels, faults: Faults)
    requires WellKeyed(c) && ServiceKeyFor(gb) in c.services && GetSvc !in faults
    ensures var writes := ServiceStep(c, gb, labels, faults).writes;
      && (Updated(ServiceKind, ServiceKeyFor(gb)) in writes <==> !ServiceConverged(c.services[ServiceKeyFor(gb)], gb.spec, labels))
      && Created(ServiceKind, ServiceKeyFor(gb)) !in writes
  {
    var key := ServiceKeyFor(gb);
    assert ServiceKey(PatchedService(c.services[key], gb.spec, labels)) == key;
  }

  /** The Deployment writes of a pass are those of its Deployment stage. */
  lemma DeploymentWritesOfPass(c: ClusterState, req: Key, faults: Faults)
    requires RecordFetched(c, req, faults)
    ensures var gb := Working(c, req);
      var dep := DeploymentStep(c, gb, WorkingImage(c, req), LabelsFor(gb.name), faults);
      forall w :: w in Reconciled(c, req, faults).writes && Rank(w) == 0 <==> w in dep.writes
  {
    PassStages(c, req, faults);
    var gb := Working(c, req);
    var labels := LabelsFor(gb.name);
    var dep := DeploymentStep(c, gb, WorkingImage(c, req), labels, faults);
    if dep.err.None? {
      var rest := Reconciler.ServiceThenStatus(dep.cluster, gb, labels, faults);
      assert Reconciled(c, req, faults).writes == dep.writes + rest.writes;
    }
  }

  /** Once the Deployment stage has succeeded, the Service writes of a pass
      are those of its Service stage. */
  lemma ServiceWritesOfPass(c: ClusterState, req: Key, faults: Faults)
    requires RecordFetched(c, req, faults)
    requires DeploymentStep(c, Working(c, req), WorkingImage(c, req), LabelsFor(Working(c, req).name), faults).err == None
    ensures var gb := Working(c, req);
      var labels := LabelsFor(gb.name);
      var dep := DeploymentStep(c, gb, WorkingImage(c, req), labels, faults);
      var svc := ServiceStep(dep.cluster, gb, labels, faults);
      forall w :: w in Reconciled(c, req, faults).writes && Rank(w) == 1 <==> w in svc.writes
  {
    PassStages(c, req, faults);
    var gb := Working(c, req);
    var labels := LabelsFor(gb.name);
    var dep := DeploymentStep(c, gb, WorkingImage(c, req), labels, faults);
    var svc := ServiceStep(dep.cluster, gb, labels, faults);
    var later := if svc.err.Some? then [] else StatusStep(svc.cluster, gb, faults).writes;
    assert Reconciled(c, req, faults).writes == dep.writes + (svc.writes + later);
  }

  /** An existing Deployment is updated exactly when it has drifted, and is
      never re-created. */
  lemma DeploymentUpdatedIffDrifted(c: ClusterState, req: Key, faults: Faults)
    requires WellKeyed(c) && RecordFetched(c, req, faults)
    requires DeploymentKeyFor(Working(c, req)) in c.deployments && GetDeploy !in faults
    ensures var gb := Working(c, req);
      var depKey := DeploymentKeyFor(gb);
      var writes := Reconciled(c, req, faults).writes;
      && (Updated(DeploymentKind, depKey) in writes <==>
            !DeploymentConverged(c.deployments[depKey], gb.spec, WorkingImage(c, req), LabelsFor(gb.name)))
      && Created(DeploymentKind, depKey) !in writes
  {
    var gb := Working(c, req);
    var depKey := DeploymentKeyFor(gb);
    DeploymentWritesOfPass(c, req, faults);
    ExistingDeploymentWrites(c, gb, WorkingImage(c, req), LabelsFor(gb.name), faults);
    assert Rank(Updated(DeploymentKind, depKey)) == 0 && Rank(Created(DeploymentKind, depKey)) == 0;
  }

  /** An existing Service is updated exactly when it has drifted, and is
      never re-created, once the Deployment stage has succeeded. */
  lemma ServiceUpdatedIffDrifted(c: ClusterState, req: Key, faults: Faults)
    requires WellKeyed(c) && RecordFetched(c, req, faults)
    requires DeploymentStep(c, Working(c, req), WorkingImage(c, req), LabelsFor(Working(c, req).name), faults).err == None
    requires ServiceKeyFor(Working(c, req)) in c.services && GetSvc !in faults
    ensures var gb := Working(c, req);
      var svcKey := ServiceKeyFor(gb);
      var writes := Reconciled(c, req, faults).writes;
      && (Updated(ServiceKind, svcKey) in writes <==> !ServiceConverged(c.services[svcKey], gb.spec, LabelsFor(gb.name)))
      && Created(ServiceKind, svcKey) !in writes
  {
    var gb := Working(c, req);
    var svcKey := ServiceKeyFor(gb);
    var labels := LabelsFor(gb.name);
    ServiceWritesOfPass(c, req, faults);
    var dep := DeploymentStep(c, gb, WorkingImage(c, req), labels, faults);
    ExistingServiceWrites(dep.cluster, gb, labels, faults);
    var svc := ServiceStep(dep.cluster, gb, labels, faults);
    var writes := Reconciled(c, req, faults).writes;
    assert Rank(Updated(ServiceKind, svcKey)) == 1 && Rank(Created(ServiceKind, svcKey)) == 1;
    assert Updated(ServiceKind, svcKey) in writes <==> Updated(ServiceKind, svcKey) in svc.writes;
    assert Created(ServiceKind, svcKey) in writes <==> Created(ServiceKind, svcKey) in svc.writes;
  }

  /** With the record already showing the projection of its Deployment, the
      status stage sends its write and changes nothing. */
  lemma StatusStepRewritesSameStatus(c: ClusterState, gb: Guestbook)
    requires GuestbookKey(gb) in c.guestbooks && DeploymentKeyFor(gb) in c.deployments
    requires c.guestbooks[GuestbookKey(gb)].status ==
      ProjectedStatus(gb.status, c.deployments[DeploymentKeyFor(gb)].readyReplicas, gb.spec.replicas, gb.generation)
    ensures StatusStep(c, gb, map[]) == Step(c, [StatusUpdated(GuestbookKey(gb))], None)
  {
    var key := GuestbookKey(gb);
    var reported := Reported(gb, c.deployments[DeploymentKeyFor(gb)]);
    assert c.guestbooks[key].(status := reported.status) == c.guestbooks[key];
    assert c.guestbooks[key := c.guestbooks[key].(status := reported.status)] == c.guestbooks;
  }

  /** A pass over a converged cluster whose record already shows the
      projected status changes nothing and sends only the status write. */
  lemma ConvergedPassWritesOnlyStatus(c: ClusterState, req: Key)
    requires WellKeyed(c) && req in c.guestbooks
    requires var gb := Working(c, req);
      && DeploymentKeyFor(gb) in c.deployments
      && DeploymentConverged(c.deployments[DeploymentKeyFor(gb)], gb.spec, WorkingImage(c, req), LabelsFor(gb.name))
      && ServiceKeyFor(gb) in c.services
      && ServiceConverged(c.services[ServiceKeyFor(gb)], gb.spec, LabelsFor(gb.name))
      && gb.status == ProjectedStatus(gb.status, c.deployments[DeploymentKeyFor(gb)].readyReplicas,
                                      gb.spec.replicas, gb.generation)
    ensures Reconciled(c, req, map[]) == Step(c, [StatusUpdated(req)], None)
  {
    PassStages(c, req, map[]);
    var gb := Working(c, req);
    assert GuestbookKey(gb) == req;
    var labels := LabelsFor(gb.name);
    assert DeploymentStep(c, gb, WorkingImage(c, req), labels, map[]) == Step(c, [], None);
    assert ServiceStep(c, gb, labels, map[]) == Step(c, [], None);
    StatusStepRewritesSameStatus(c, gb);
  }

  /** Idempotence: after a fault-free pass, a second fault-free pass leaves
      the cluster as it is and sends only the status write. */
  lemma SecondPassChangesNothing(c: ClusterState, req: Key)
    requires WellKeyed(c) && req in c.guestbooks
    ensures var first := Reconciled(c, req, map[]);
      Reconciled(first.cluster, req, map[]) == Step(first.cluster, [StatusUpdated(req)], None)
  {
    var first := Reconciled(c, req, map[]);
    var gb := Working(c, req);
    FaultFreePassSucceeds(c, req);
    PassConverges(c, req, map[]);
    StatusMirrorsDeployment(c, req, map[]);
    PassTouchesOnlyItsOwn(c, req, map[]);
    var ready := first.cluster.deployments[DeploymentKeyFor(gb)].readyReplicas;
    ProjectedStatusIdempotent(c.guestbooks[req].status, ready, gb.spec.replicas, gb.generation);
    var again := Working(first.cluster, req);
    assert again == gb.(status := first.cluster.guestbooks[req].status);
    assert WorkingImage(first.cluster, req) == WorkingImage(c, req);
    ConvergedPassWritesOnlyStatus(first.cluster, req);
  }
}
