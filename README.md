# Guestbook controller reconciliation, modelled in Dafny

This project models the reconcile loop body of the Guestbook operator. That is
`Reconcile` in `internal/controller/guestbook_controller.go`, together with the
two builders `desiredDeployment` and `desiredService`. It then proves what one
reconciliation pass guarantees.

Given the name of a Guestbook custom resource, a pass does the following:

- it fetches the record;
- it defaults its image, port and replica count;
- it derives the label set `app.kubernetes.io/name`, `app.kubernetes.io/part-of`
  and `app.kubernetes.io/managed-by`;
- it brings the owned Deployment `<name>-deploy` in line, then the owned Service
  `<name>-svc`: each is created with a controller reference when missing, or
  patched on a small allow-list of fields and updated once when it has drifted;
- it re-reads the Deployment and writes the record's status: a ready-replica
  mirror and a `Ready` condition upserted by type.

Modules, one concept each:

- `Objects` (objects.dfy): the records, reduced to the fields the controller
  touches, and the API errors.
- `LabelMerge` (labels.dfy): the derived-label merge, as a function and as the
  loop the controller runs.
- `Drift` (drift.dfy): convergence predicates and the in-place patches of a
  fetched Deployment or Service.
- `Builders` (builders.dfy): defaulting, the label set, dependent names, the
  desired objects.
- `Status` (status.dfy): the `Ready` condition, the `%d` rendering of its
  message, and the upsert by type.
- `ApiStore` (apistore.dfy): the cluster store as a value. Its calls can be
  made to fail by an injected fault (`Faults` maps a call site to the error it
  reports), and every write request is journalled, failed ones included.
- `Reconciler` (reconciler.dfy): one pass as a function of the store state and
  the faults, one function per stage.
- `Controller` (controller.dfy): the store as a class whose fields the
  methods update in place. Its `Reconcile` method is proved to end in the state,
  journal and error that `Reconciler.Reconciled` specifies.
- `Guarantees` (guarantees.dfy): the properties of a pass. These are the error
  policy, convergence, field ownership, the status projection and idempotence.

A pass sends a status-subresource update whenever it can re-read the
Deployment, even when nothing changed. A second pass over a converged cluster
therefore sends exactly one write, a status update that leaves the store as it
is (`Guarantees.SecondPassChangesNothing`).

## Model

| member | source | states |
|---|---|---|
| `LabelMerge.MergeLabels` | internal/controller/guestbook_controller.go:112-120 | every derived key reads as its derived value; every other key of the current map keeps its value; no key outside the two maps appears |
| `LabelMerge.MergeChangesIffDrifted` | internal/controller/guestbook_controller.go:112-120 | the merge leaves the map unchanged exactly when no derived key reads differently (a missing key reads as "") |
| `LabelMerge.MergeIdempotent` | internal/controller/guestbook_controller.go:112-120 | after a merge nothing has drifted, and merging again changes nothing |
| `LabelMerge.EnsureLabels` | internal/controller/guestbook_controller.go:162-170 | the key-by-key loop yields the merge and sets its flag exactly when some key had drifted |
| `Drift.PatchedContainer` | internal/controller/guestbook_controller.go:99-110 | the first container ends with the wanted image and a first port equal to the wanted port; its ports are kept when the first already matches, else replaced by the single `http` port |
| `Drift.PatchedDeployment` | internal/controller/guestbook_controller.go:93-120 | the patched Deployment is converged; only the replica count, the first container and the template labels differ from the fetched one; containers after the first are untouched; the template labels are the merge |
| `Drift.DeploymentPatchChangesIffDrifted` | internal/controller/guestbook_controller.go:93-121 | patching changes the Deployment exactly when it is not converged |
| `Drift.DeploymentPatchIdempotent` | internal/controller/guestbook_controller.go:93-120 | patching a patched Deployment changes nothing |
| `Drift.PatchContainer` | internal/controller/guestbook_controller.go:99-110 | the step-by-step container patch computes the patched container and flags exactly a drifted one |
| `Drift.PatchDeployment` | internal/controller/guestbook_controller.go:93-120 | the step-by-step patch computes the patched Deployment; `updated` holds exactly when the Deployment had drifted, which is exactly when the patch changed it |
| `Drift.PatchedService` | internal/controller/guestbook_controller.go:147-170 | the patched Service is converged; its ports are kept when the first routes the port to itself, else replaced by the single TCP `http` port; its selector is the merge; every other field, the cluster IP included, is kept |
| `Drift.ServicePatchChangesIffDrifted` | internal/controller/guestbook_controller.go:147-171 | patching changes the Service exactly when it is not converged |
| `Drift.ServicePatchIdempotent` | internal/controller/guestbook_controller.go:147-170 | patching a patched Service changes nothing |
| `Drift.PatchService` | internal/controller/guestbook_controller.go:147-170 | the step-by-step patch computes the patched Service; `changed` holds exactly when it had drifted, which is exactly when the patch changed it |
| `Builders.ImageOrDefault` | internal/controller/guestbook_controller.go:55-58 | an empty image becomes `nginx:stable`, any other is kept; the result is never empty |
| `Builders.WithDefaults` | internal/controller/guestbook_controller.go:59-64 | a zero port becomes 80 and a zero replica count 1, non-zero values are kept, and the image is left to `ImageOrDefault` |
| `Builders.DefaultsIdempotent` | internal/controller/guestbook_controller.go:55-64 | defaulting twice is defaulting once |
| `Builders.LabelsFor` | internal/controller/guestbook_controller.go:66-70 | exactly the three derived keys, carrying the record name, `guestbook` and `guestbook-operator` |
| `Builders.DependentNamesInjective` | internal/controller/guestbook_controller.go:73 | distinct records get distinct `<name>-deploy` names, and likewise distinct `<name>-svc` names (line 130) |
| `Builders.DesiredDeployment` | internal/controller/guestbook_controller.go:207-230 | name, namespace, labels, selector and template labels are as given; replicas from the spec; one `web` container with the image and the `http` port; no owner yet; the result is already converged |
| `Builders.DesiredService` | internal/controller/guestbook_controller.go:232-249 | name, namespace, labels and selector as given; one TCP `http` port routing the spec port to itself; no owner yet; the result is already converged |
| `Status.NatDecimalRoundTrip` | internal/controller/guestbook_controller.go:195 | the digits written for a count read back as that count |
| `Status.Decimal` | internal/controller/guestbook_controller.go:195 | `%d` of any integer: its digits (after a `-` for a negative number) read back as its magnitude |
| `Status.ReadyCondition` | internal/controller/guestbook_controller.go:184-196 | type `Ready` with the record's generation; True with reason `AsExpected` and message `All replicas are ready` exactly when ready >= desired and desired > 0; otherwise False, `Progressing`, message `Ready <ready>/<desired>` |
| `Status.FindCondition` | internal/controller/guestbook_controller.go:197 | finds an entry of the type exactly when the list has one, and what it finds is an entry of that type |
| `Status.SetCondition` | internal/controller/guestbook_controller.go:197 | after the upsert, lookup by type finds the new condition; the length grows by one only when the type was absent; no other entry is added, and every entry of another type is kept |
| `Status.SetConditionKeepsTypesUnique` | internal/controller/guestbook_controller.go:197 | the upsert never creates a second entry of a type |
| `Status.SetConditionIdempotent` | internal/controller/guestbook_controller.go:197 | upserting the same condition again changes nothing |
| `Status.ProjectedStatus` | internal/controller/guestbook_controller.go:183-197 | the written status mirrors the ready count and carries the `Ready` condition for it; every other entry was already there, every condition of another type is kept, the list grows by one only when it had no `Ready` entry, and types stay unique |
| `Status.ProjectedStatusIdempotent` | internal/controller/guestbook_controller.go:183-197 | projecting the same observation twice gives the same status as once |
| `ApiStore.CreateDeploymentIn` | internal/controller/guestbook_controller.go:83-86 | a create stores the object under its own key, so the store stays well keyed |
| `ApiStore.UpdateDeploymentIn` | internal/controller/guestbook_controller.go:122-124 | an update stores the object under its own key, so the store stays well keyed |
| `ApiStore.CreateServiceIn` | internal/controller/guestbook_controller.go:139-141 | a create stores the object under its own key, so the store stays well keyed |
| `ApiStore.UpdateServiceIn` | internal/controller/guestbook_controller.go:172-174 | an update stores the object under its own key, so the store stays well keyed |
| `ApiStore.UpdateStatusIn` | internal/controller/guestbook_controller.go:198-201 | a status update changes only the stored record's status, so the store stays well keyed |
| `Reconciler.CreateOwnedDeployment` | internal/controller/guestbook_controller.go:78-87 | an owner-reference failure is returned with no write; otherwise a failed create is returned with the store unchanged; at most one Deployment write; records and Services untouched; the store stays well keyed |
| `Reconciler.UpdateDriftedDeployment` | internal/controller/guestbook_controller.go:91-127 | a converged Deployment gives no write and no error; a drifted one whose update fails returns that error with the store unchanged; at most one Deployment write; records and Services untouched |
| `Reconciler.DeploymentStep` | internal/controller/guestbook_controller.go:72-127 | at most one Deployment write; records and Services untouched; the store stays well keyed |
| `Reconciler.CreateOwnedService` | internal/controller/guestbook_controller.go:134-142 | an owner-reference failure is returned with no write; otherwise a failed create is returned with the store unchanged; at most one Service write; records and Deployments untouched; the store stays well keyed |
| `Reconciler.UpdateDriftedService` | internal/controller/guestbook_controller.go:146-177 | a converged Service gives no write and no error; a drifted one whose update fails returns that error with the store unchanged; at most one Service write; records and Deployments untouched |
| `Reconciler.ServiceStep` | internal/controller/guestbook_controller.go:129-177 | at most one Service write; records and Deployments untouched; the store stays well keyed |
| `Reconciler.StatusStep` | internal/controller/guestbook_controller.go:179-202 | never an error; at most one write, a status update of this record; Deployments and Services untouched |
| `Reconciler.ServiceThenStatus` | internal/controller/guestbook_controller.go:129-202 | writes in stage order, none of them to a Deployment |
| `Reconciler.DriveDependents` | internal/controller/guestbook_controller.go:72-204 | writes in stage order: at most one Deployment write, then at most one Service write, then at most one status write |
| `Reconciler.Reconciled` | internal/controller/guestbook_controller.go:45-205 | a pass writes in stage order, at most once per kind, and keeps the store well keyed |
| `Reconciler.MissingRecordIsNoOp` | internal/controller/guestbook_controller.go:50-51 | a record that is not found ends the pass successfully with no writes |
| `Reconciler.RecordFetchErrorIsReturned` | internal/controller/guestbook_controller.go:50-51 | any other error fetching the record is returned with no writes |
| `Controller.Cluster.GetGuestbook` | internal/controller/guestbook_controller.go:50 | a get returns the injected fault, else the stored record, else NotFound |
| `Controller.Cluster.GetDeployment` | internal/controller/guestbook_controller.go:75 | a get returns the injected fault, else the stored Deployment, else NotFound |
| `Controller.Cluster.GetService` | internal/controller/guestbook_controller.go:132 | a get returns the injected fault, else the stored Service, else NotFound |
| `Controller.Cluster.CreateDeployment` | internal/controller/guestbook_controller.go:83 | journals the request, then fails with the fault or AlreadyExists, or stores the object |
| `Controller.Cluster.UpdateDeployment` | internal/controller/guestbook_controller.go:122 | journals the request, then fails with the fault or NotFound, or replaces the object |
| `Controller.Cluster.CreateService` | internal/controller/guestbook_controller.go:139 | journals the request, then fails with the fault or AlreadyExists, or stores the object |
| `Controller.Cluster.UpdateService` | internal/controller/guestbook_controller.go:172 | journals the request, then fails with the fault or NotFound, or replaces the object |
| `Controller.Cluster.UpdateStatus` | internal/controller/guestbook_controller.go:198 | journals the request, then fails with the fault or NotFound, or replaces only the stored record's status |
| `Controller.Cluster.ReconcileDeployment` | internal/controller/guestbook_controller.go:72-127 | the in-place Deployment stage ends in the state, journal and error of `Reconciler.DeploymentStep` |
| `Controller.Cluster.ReconcileService` | internal/controller/guestbook_controller.go:129-177 | the in-place Service stage ends in the state, journal and error of `Reconciler.ServiceStep` |
| `Controller.Cluster.ReportStatus` | internal/controller/guestbook_controller.go:179-202 | the in-place status stage ends in the state and journal of `Reconciler.StatusStep` and reports nothing |
| `Controller.Cluster.ServiceThenStatus` | internal/controller/guestbook_controller.go:129-202 | the Service stage, then the status stage only if the Service stage succeeded |
| `Controller.Cluster.DriveDependents` | internal/controller/guestbook_controller.go:72-204 | the Deployment stage, then the rest only if it succeeded, as `Reconciler.DriveDependents` |
| `Controller.Cluster.Reconcile` | internal/controller/guestbook_controller.go:45-205 | one in-place pass ends in the state, journal and error of `Reconciler.Reconciled` and keeps the store well keyed |
| `Guarantees.PassStages` | internal/controller/guestbook_controller.go:72-204 | a pass runs the Deployment, Service and status stages in order, each only after the previous one succeeded |
| `Guarantees.DeploymentStepConverges` | internal/controller/guestbook_controller.go:77-127 | a successful Deployment stage leaves a converged Deployment under its key |
| `Guarantees.DeploymentStepTouchesOnlyItsKey` | internal/controller/guestbook_controller.go:72-127 | the Deployment stage writes to no other Deployment |
| `Guarantees.ExistingDeploymentPatchedNarrowly` | internal/controller/guestbook_controller.go:93-127 | an existing Deployment changes only in replicas, first container and template labels; later containers and non-derived template labels survive |
| `Guarantees.ServiceStepConverges` | internal/controller/guestbook_controller.go:134-177 | a successful Service stage leaves a converged Service under its key |
| `Guarantees.ServiceStepTouchesOnlyItsKey` | internal/controller/guestbook_controller.go:129-177 | the Service stage writes to no other Service |
| `Guarantees.ExistingServicePatchedNarrowly` | internal/controller/guestbook_controller.go:147-177 | an existing Service changes only in ports and selector; the cluster IP and non-derived selector labels survive |
| `Guarantees.StatusStepTouchesOnlyStatus` | internal/controller/guestbook_controller.go:181-201 | the status stage changes no record but this one, and of it only the status |
| `Guarantees.StatusStepProjects` | internal/controller/guestbook_controller.go:182-198 | with the re-read and the write unfaulted, one status write stores the projection of the observed Deployment |
| `Guarantees.RefetchFailureSkipsStatus` | internal/controller/guestbook_controller.go:182 | a failed re-read skips the status write and reports nothing |
| `Guarantees.DeploymentFetchErrorEndsPass` | internal/controller/guestbook_controller.go:88-90 | a Deployment fetch error other than NotFound is returned, with no writes |
| `Guarantees.MissingDeploymentIsCreated` | internal/controller/guestbook_controller.go:78-87 | a missing Deployment is created first, as the desired object owned by the record; an owner-reference failure is returned with no writes; a failed create is returned with the store unchanged |
| `Guarantees.DeploymentUpdateFailureIsReturned` | internal/controller/guestbook_controller.go:121-126 | when an existing Deployment has drifted and its update fails, the pass returns that error and the store is unchanged |
| `Guarantees.MissingServiceIsCreated` | internal/controller/guestbook_controller.go:134-142 | after a successful Deployment stage a missing Service is created as the desired object owned by the record; an owner-reference failure or a failed create is returned and the status is not written |
| `Guarantees.ServiceUpdateFailureIsReturned` | internal/controller/guestbook_controller.go:171-176 | when an existing Service has drifted and its update fails, the pass returns that error after the Deployment stage and the status is not written |
| `Guarantees.ServiceFetchErrorEndsPass` | internal/controller/guestbook_controller.go:143-145 | a Service fetch error other than NotFound ends the pass after the Deployment stage, without a status write |
| `Guarantees.DeploymentStepIgnoresStatusFaults` | internal/controller/guestbook_controller.go:72-127 | the Deployment stage does not depend on faults of the status calls |
| `Guarantees.ServiceStepIgnoresStatusFaults` | internal/controller/guestbook_controller.go:129-177 | the Service stage does not depend on faults of the status calls |
| `Guarantees.StatusFaultsNeverFail` | internal/controller/guestbook_controller.go:182-204 | a failed re-read or status write never changes the error the pass returns |
| `Guarantees.DeploymentStepSucceedsWithoutFaults` | internal/controller/guestbook_controller.go:72-127 | with no faults the Deployment stage succeeds on a well-keyed store |
| `Guarantees.ServiceStepSucceedsWithoutFaults` | internal/controller/guestbook_controller.go:129-177 | with no faults the Service stage succeeds on a well-keyed store |
| `Guarantees.FaultFreePassSucceeds` | internal/controller/guestbook_controller.go:45-205 | a pass with no faults returns no error |
| `Guarantees.PassConverges` | internal/controller/guestbook_controller.go:72-177 | after a successful pass both dependents exist and are converged with the defaulted record |
| `Guarantees.PassTouchesOnlyItsOwn` | internal/controller/guestbook_controller.go:45-205 | a pass writes no Deployment or Service but `<name>-deploy` and `<name>-svc`, and no record field but this record's status |
| `Guarantees.PassPatchesDeploymentNarrowly` | internal/controller/guestbook_controller.go:91-127 | over a whole pass, an existing Deployment changes only in its allow-listed fields; labels outside the derived set survive |
| `Guarantees.PassPatchesServiceNarrowly` | internal/controller/guestbook_controller.go:146-177 | over a whole pass, an existing Service changes only in ports and selector; selector labels outside the derived set survive |
| `Guarantees.StatusMirrorsDeployment` | internal/controller/guestbook_controller.go:181-198 | after a successful pass with the status calls unfaulted, the record mirrors the Deployment's ready count and carries its `Ready` condition for the defaulted replicas and the generation |
| `Guarantees.ExistingDeploymentWrites` | internal/controller/guestbook_controller.go:91-127 | for an existing Deployment the stage sends one update exactly when it has drifted |
| `Guarantees.ExistingServiceWrites` | internal/controller/guestbook_controller.go:146-177 | for an existing Service the stage sends one update exactly when it has drifted, and never a create |
| `Guarantees.DeploymentWritesOfPass` | internal/controller/guestbook_controller.go:72-204 | the Deployment writes of a pass are exactly those of its Deployment stage |
| `Guarantees.ServiceWritesOfPass` | internal/controller/guestbook_controller.go:129-204 | the Service writes of a pass are exactly those of its Service stage |
| `Guarantees.DeploymentUpdatedIffDrifted` | internal/controller/guestbook_controller.go:91-127 | a pass updates an existing Deployment exactly when it has drifted, and never re-creates it |
| `Guarantees.ServiceUpdatedIffDrifted` | internal/controller/guestbook_controller.go:146-177 | a pass updates an existing Service exactly when it has drifted, and never re-creates it |
| `Guarantees.StatusStepRewritesSameStatus` | internal/controller/guestbook_controller.go:182-201 | when the record already shows the projection, the status write changes nothing |
| `Guarantees.ConvergedPassWritesOnlyStatus` | internal/controller/guestbook_controller.go:45-205 | a pass over a converged store changes nothing and sends only the status update |
| `Guarantees.SecondPassChangesNothing` | internal/controller/guestbook_controller.go:45-205 | after a fault-free pass, a second one leaves the store as it is and sends one status update |

## Left out

- I/O: the API server, the client cache and the network are replaced by an in-memory store value. Failures of any call are injected through a fault map.
- Concurrency: other writers, watches, requeueing and resource-version conflicts are left out. A conflict is only an injectable error.
- Integer widths: `port`, `replicas`, `readyReplicas` and `generation` are unbounded integers, not `int32`/`int64`. The code does no arithmetic on them, only comparisons and `%d`.
- The `Replicas` pointer of a fetched Deployment is taken to be set. A nil pointer would crash the Go code, and that case is not modelled.
- `TargetPort` is taken as its integer value. A named (string) target port is left out.
- `SetControllerReference` is modelled as stamping `OwnerRef("Guestbook", name, controller: true)` or failing. The scheme lookup and its other checks are left out.
- The condition's `LastTransitionTime`, which `SetStatusCondition` updates only when the status flips, is not modelled. Conditions compare without it.
- Server-side fields such as the assigned cluster IP on create, defaulting by the API server, and the rest of the object metadata are left out. `clusterIP` stands for every unowned Service field.
- Logging, the request context, `SetupWithManager`, the RBAC markers and the reconciler's `Scheme` field are left out. They have no effect on the objects written.
- `Controller.Cluster.ReconcileDeployment` and the other in-place stage methods mirror the stage functions of `Reconciler`. Their contracts refer to those functions, and the properties are proved about the functions.
