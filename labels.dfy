/** The key-by-key label reconciliation the controller applies to a
    Deployment's pod-template labels and to a Service's selector: every
    derived label must read as its expected value, and keys the controller
    did not derive are left as they are. */
module LabelMerge {
  import opened Objects

  /** Some wanted key does not read as its wanted value (a missing key reads as ""). */
  predicate Drifted(current: Labels, want: Labels)
  {
    exists k :: k in want && Lookup(current, k) != want[k]
  }

  /** The wanted entries that `current` does not already read as wanted. */
  function Overrides(current: Labels, want: Labels): Labels
  {
    map k | k in want && Lookup(current, k) != want[k] :: want[k]
  }

  /** `current` after every drifted wanted key has been written. */
  function MergeLabels(current: Labels, want: Labels): (r: Labels)
    ensures forall k :: k in want ==> Lookup(r, k) == want[k]
    ensures forall k :: k in current && k !in want ==> k in r && r[k] == current[k]
    ensures forall k :: k in r ==> k in current || k in want
  {
    current + Overrides(current, want)
  }

  /** The merge writes something exactly when the labels had drifted. */
  lemma MergeChangesIffDrifted(current: Labels, want: Labels)
    ensures MergeLabels(current, want) == current <==> !Drifted(current, want)
  {
    if Drifted(current, want) {
      var k :| k in want && Lookup(current, k) != want[k];
      assert Lookup(MergeLabels(current, want), k) == want[k];
    } else {
      assert Overrides(current, want) == map[];
    }
  }

  /** A merged map has converged, so merging again changes nothing. */
  lemma MergeIdempotent(current: Labels, want: Labels)
    ensures !Drifted(MergeLabels(current, want), want)
    ensures MergeLabels(MergeLabels(current, want), want) == MergeLabels(current, want)
  {
    MergeChangesIffDrifted(MergeLabels(current, want), want);
  }

  /** The `for k, v := range labels` loop: write each drifted key, in
      whatever order the keys are visited, and report whether any was. */
  method EnsureLabels(current: Labels, want: Labels) returns (merged: Labels, changed: bool)
    ensures merged == MergeLabels(current, want)
    ensures changed == Drifted(current, want)
  {
    merged, changed := current, false;
    var pending := want.Keys;
    while pending != {}
      invariant pending <= want.Keys
      invariant forall k :: k in merged <==> k in current || (k in want && k !in pending && Lookup(current, k) != want[k])
      invariant forall k :: k in merged ==> merged[k] == if k in want && k !in pending && Lookup(current, k) != want[k] then want[k] else current[k]
      invariant changed <==> exists k :: k in want && k !in pending && Lookup(current, k) != want[k]
      decreases pending
    {
      var k :| k in pending;
      if Lookup(merged, k) != want[k] {
        merged := merged[k := want[k]];
        changed := true;
      }
      pending := pending - {k};
    }
    assert merged.Keys == MergeLabels(current, want).Keys;
  }
}
