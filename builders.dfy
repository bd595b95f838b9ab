/** Field defaulting, the derived label set and the pure constructors of
    the desired Deployment and Service for a Guestbook. */
module Builders {
  import opened Objects
  import opened LabelMerge
  import opened Drift

  const AppNameLabel := "app.kubernetes.io/name"
  const AppPartLabel := "app.kubernetes.io/part-of"
  const ManagedByLabel := "app.kubernetes.io/managed-by"
  const OwnerPart := "guestbook"
  const ManagedBy := "guestbook-operator"

  const FallbackImage := "nginx:stable"
  const FallbackPort := 80
  const FallbackReplicas := 1

  /** The image the workload runs: the record's, or the fallback when empty. */
  function ImageOrDefault(image: string): (r: string)
    ensures r != ""
    ensures image == "" ==> r == FallbackImage
    ensures image != "" ==> r == image
  {
    if image == "" then FallbackImage else image
  }

  /** The record's spec with a zero port and a zero replica count replaced
      by their fallbacks; the image is defaulted separately and left as is. */
  function WithDefaults(spec: GuestbookSpec): (r: GuestbookSpec)
    ensures r.port != 0 && r.replicas != 0
    ensures spec.port == 0 ==> r.port == FallbackPort
    ensures spec.port != 0 ==> r.port == spec.port
    ensures spec.replicas == 0 ==> r.replicas == FallbackReplicas
    ensures spec.replicas != 0 ==> r.replicas == spec.replicas
    ensures r.image == spec.image
  {
    spec.(port := if spec.port == 0 then FallbackPort else spec.port,
          replicas := if spec.replicas == 0 then FallbackReplicas else spec.replicas)
  }

  /** Defaulting a defaulted spec changes nothing. */
  lemma DefaultsIdempotent(spec: GuestbookSpec, image: string)
    ensures WithDefaults(WithDefaults(spec)) == WithDefaults(spec)
    ensures ImageOrDefault(ImageOrDefault(image)) == ImageOrDefault(image)
  {
  }

  /** The keys of the derived label set. */
  const DerivedKeys: set<string> := {AppNameLabel, AppPartLabel, ManagedByLabel}

  /** The labels stamped on everything a Guestbook named `name` owns. */
  function LabelsFor(name: string): (r: Labels)
    ensures r.Keys == DerivedKeys
    ensures r[AppNameLabel] == name
    ensures r[AppPartLabel] == OwnerPart && r[ManagedByLabel] == ManagedBy
  {
    map[AppNameLabel := name, AppPartLabel := OwnerPart, ManagedByLabel := ManagedBy]
  }

  function DeploymentName(name: string): string { name + "-deploy" }

  function ServiceName(name: string): string { name + "-svc" }

  /** Dependent names are rediscoverable: distinct records own distinctly
      named Deployments and Services. */
  lemma DependentNamesInjective(a: string, b: string)
    ensures DeploymentName(a) == DeploymentName(b) ==> a == b
    ensures ServiceName(a) == ServiceName(b) ==> a == b
  {
    if DeploymentName(a) == DeploymentName(b) {
      assert a == DeploymentName(a)[..|a|];
      assert b == DeploymentName(b)[..|b|];
    }
    if ServiceName(a) == ServiceName(b) {
      assert a == ServiceName(a)[..|a|];
      assert b == ServiceName(b)[..|b|];
    }
  }

  /** The Deployment a Guestbook asks for, already converged in every
      field the drift check compares. */
  function DesiredDeployment(gb: Guestbook, name: string, labels: Labels, image: string): (d: Deployment)
    ensures d.name == name && d.namespace == gb.namespace && d.owner == None
    ensures d.labels == labels && d.selector == labels && d.templateLabels == labels
    ensures d.replicas == gb.spec.replicas
    ensures d.containers == [Container("web", image, [HttpContainerPort(gb.spec.port)])]
    ensures DeploymentConverged(d, gb.spec, image, labels)
  {
    var d := Deployment(
      name := name, namespace := gb.namespace, labels := labels, owner := None,
      replicas := gb.spec.replicas, selector := labels, templateLabels := labels,
      containers := [Container("web", image, [HttpContainerPort(gb.spec.port)])],
      readyReplicas := 0);
    assert !Drifted(labels, labels) by {
      forall k | k in labels ensures Lookup(labels, k) == labels[k] { }
    }
    d
  }

  /** The Service a Guestbook asks for, already converged in every field
      the drift check compares; its selector is the Deployment's template
      label set. */
  function DesiredService(gb: Guestbook, name: string, labels: Labels): (s: Service)
    ensures s.name == name && s.namespace == gb.namespace && s.owner == None
    ensures s.labels == labels && s.selector == labels
    ensures s.ports == [HttpServicePort(gb.spec.port)]
    ensures ServiceConverged(s, gb.spec, labels)
  {
    var s := Service(
      name := name, namespace := gb.namespace, labels := labels, owner := None,
      selector := labels, ports := [HttpServicePort(gb.spec.port)], clusterIP := "");
    assert !Drifted(labels, labels) by {
      forall k | k in labels ensures Lookup(labels, k) == labels[k] { }
    }
    s
  }
}
