/** Drift detection and patching of an existing Deployment or Service.
    Only an allow-list of fields is compared and written: on a Deployment
    the replica count, the first container's image and first port, and the
    pod-template labels; on a Service the first port and the selector.
    Everything else on the fetched object is left exactly as it was. */
module Drift {
  import opened Objects
  import opened LabelMerge

  /** The container port the controller creates or restores. */
  function HttpContainerPort(port: int): ContainerPort
  {
    ContainerPort("http", port)
  }

  /** The service port the controller creates or restores. */
  function HttpServicePort(port: int): ServicePort
  {
    ServicePort("http", port, TCP, port)
  }

  predicate ContainerConverged(c: Container, image: string, port: int)
  {
    c.image == image && |c.ports| > 0 && c.ports[0].containerPort == port
  }

  /** No allow-listed Deployment field differs from the desired values. */
  predicate DeploymentConverged(d: Deployment, spec: GuestbookSpec, image: string, labels: Labels)
  {
    && d.replicas == spec.replicas
    && (|d.containers| > 0 ==> ContainerConverged(d.containers[0], image, spec.port))
    && !Drifted(d.templateLabels, labels)
  }

  function PatchedContainer(c: Container, image: string, port: int): (r: Container)
    ensures ContainerConverged(r, image, port)
    ensures r.name == c.name
    ensures |c.ports| > 0 && c.ports[0].containerPort == port ==> r.ports == c.ports
    ensures |c.ports| == 0 || c.ports[0].containerPort != port ==> r.ports == [HttpContainerPort(port)]
  {
    c.(image := image,
       ports := if |c.ports| > 0 && c.ports[0].containerPort == port then c.ports else [HttpContainerPort(port)])
  }

  /** The fetched Deployment with every allow-listed field brought to its
      desired value. */
  function PatchedDeployment(d: Deployment, spec: GuestbookSpec, image: string, labels: Labels): (r: Deployment)
    ensures DeploymentConverged(r, spec, image, labels)
    ensures r.replicas == spec.replicas
    ensures |r.containers| == |d.containers|
    ensures |d.containers| > 0 ==>
      r.containers[0] == PatchedContainer(d.containers[0], image, spec.port) && r.containers[1..] == d.containers[1..]
    ensures r.templateLabels == MergeLabels(d.templateLabels, labels)
    ensures r == d.(replicas := r.replicas, containers := r.containers, templateLabels := r.templateLabels)
  {
    d.(replicas := spec.replicas,
       containers := if |d.containers| == 0 then d.containers
                     else [PatchedContainer(d.containers[0], image, spec.port)] + d.containers[1..],
       templateLabels := MergeLabels(d.templateLabels, labels))
  }

  /** Patching changes the Deployment exactly when it had drifted. */
  lemma DeploymentPatchChangesIffDrifted(d: Deployment, spec: GuestbookSpec, image: string, labels: Labels)
    ensures PatchedDeployment(d, spec, image, labels) == d <==> DeploymentConverged(d, spec, image, labels)
  {
    var r := PatchedDeployment(d, spec, image, labels);
    MergeChangesIffDrifted(d.templateLabels, labels);
    if DeploymentConverged(d, spec, image, labels) && |d.containers| > 0 {
      assert PatchedContainer(d.containers[0], image, spec.port) == d.containers[0];
      assert r.containers == d.containers;
    }
  }

  /** A second patch of a patched Deployment changes nothing. */
  lemma DeploymentPatchIdempotent(d: Deployment, spec: GuestbookSpec, image: string, labels: Labels)
    ensures var r := PatchedDeployment(d, spec, image, labels);
      PatchedDeployment(r, spec, image, labels) == r
  {
    DeploymentPatchChangesIffDrifted(PatchedDeployment(d, spec, image, labels), spec, image, labels);
  }

  /** The in-place patch of the first container: image and first port. */
  method PatchContainer(current: Container, image: string, port: int) returns (next: Container, updated: bool)
    ensures next == PatchedContainer(current, image, port)
    ensures updated == !ContainerConverged(current, image, port)
  {
    next, updated := current, false;
    if next.image != image {
      next := next.(image := image);
      updated := true;
    }
    if |next.ports| == 0 || next.ports[0].containerPort != port {
      next := next.(ports := [HttpContainerPort(port)]);
      updated := true;
    }
  }

  /** The in-place patch of a fetched Deployment: each allow-listed field
      is compared in turn, overwritten when it differs, and `updated`
      records whether anything was. */
  method PatchDeployment(current: Deployment, spec: GuestbookSpec, image: string, labels: Labels)
    returns (next: Deployment, updated: bool)
    ensures next == PatchedDeployment(current, spec, image, labels)
    ensures updated == !DeploymentConverged(current, spec, image, labels)
    ensures updated <==> next != current
  {
    next, updated := current, false;
    if next.replicas != spec.replicas {
      next := next.(replicas := spec.replicas);
      updated := true;
    }
    if |next.containers| > 0 {
      var c, repaired := PatchContainer(next.containers[0], image, spec.port);
      next := next.(containers := next.containers[0 := c]);
      updated := updated || repaired;
    }
    assert next.containers == PatchedDeployment(current, spec, image, labels).containers;
    var templateLabels, relabelled := EnsureLabels(next.templateLabels, labels);
    next := next.(templateLabels := templateLabels);
    updated := updated || relabelled;
    DeploymentPatchChangesIffDrifted(current, spec, image, labels);
  }

  /** The first service port already routes `port` to `port`. */
  predicate ServicePortsConverged(ports: seq<ServicePort>, port: int)
  {
    |ports| > 0 && ports[0].port == port && ports[0].targetPort == port
  }

  /** No allow-listed Service field differs from the desired values. */
  predicate ServiceConverged(s: Service, spec: GuestbookSpec, labels: Labels)
  {
    ServicePortsConverged(s.ports, spec.port) && !Drifted(s.selector, labels)
  }

  /** The fetched Service with its port and selector brought to their
      desired values; the cluster address and all else kept. */
  function PatchedService(s: Service, spec: GuestbookSpec, labels: Labels): (r: Service)
    ensures ServiceConverged(r, spec, labels)
    ensures ServicePortsConverged(s.ports, spec.port) ==> r.ports == s.ports
    ensures !ServicePortsConverged(s.ports, spec.port) ==> r.ports == [HttpServicePort(spec.port)]
    ensures r.selector == MergeLabels(s.selector, labels)
    ensures r == s.(ports := r.ports, selector := r.selector)
  {
    s.(ports := if ServicePortsConverged(s.ports, spec.port) then s.ports else [HttpServicePort(spec.port)],
       selector := MergeLabels(s.selector, labels))
  }

  /** Patching changes the Service exactly when it had drifted. */
  lemma ServicePatchChangesIffDrifted(s: Service, spec: GuestbookSpec, labels: Labels)
    ensures PatchedService(s, spec, labels) == s <==> ServiceConverged(s, spec, labels)
  {
    MergeChangesIffDrifted(s.selector, labels);
  }

  /** A second patch of a patched Service changes nothing. */
  lemma ServicePatchIdempotent(s: Service, spec: GuestbookSpec, labels: Labels)
    ensures var r := PatchedService(s, spec, labels);
      PatchedService(r, spec, labels) == r
  {
    ServicePatchChangesIffDrifted(PatchedService(s, spec, labels), spec, labels);
  }

  /** The in-place patch of a fetched Service: the port triple is replaced
      when it is missing or wrong, the selector is merged key by key, and
      `changed` records whether anything was written. */
  method PatchService(current: Service, spec: GuestbookSpec, labels: Labels)
    returns (next: Service, changed: bool)
    ensures next == PatchedService(current, spec, labels)
    ensures changed == !ServiceConverged(current, spec, labels)
    ensures changed <==> next != current
  {
    next, changed := current, false;
    if |next.ports| == 0 || next.ports[0].port != spec.port || next.ports[0].targetPort != spec.port {
      next := next.(ports := [HttpServicePort(spec.port)]);
      changed := true;
    }
    var selector, relabelled := EnsureLabels(next.selector, labels);
    next := next.(selector := selector);
    changed := changed || relabelled;
    ServicePatchChangesIffDrifted(current, spec, labels);
  }
}
