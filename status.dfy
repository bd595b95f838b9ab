/** Status projection: the Ready condition derived from the observed
    Deployment, its upsert into the record's condition list by type, and
    the ready-replica mirror. */
module Status {
  import opened Objects

  const ReadyType := "Ready"

  function Digit(d: int): char
    requires 0 <= d < 10
  {
    "0123456789"[d]
  }

  predicate IsDigits(s: string)
  {
    forall i :: 0 <= i < |s| ==> '0' <= s[i] <= '9'
  }

  /** The value of a string of decimal digits. */
  function DigitsValue(s: string): nat
    requires IsDigits(s)
  {
    if s == [] then 0 else DigitsValue(s[..|s| - 1]) * 10 + (s[|s| - 1] - '0') as int
  }

  /** `%d` of a non-negative number: a non-empty string of digits. */
  function NatDecimal(n: nat): (s: string)
    ensures |s| > 0 && IsDigits(s)
    decreases n
  {
    if n < 10 then [Digit(n)] else NatDecimal(n / 10) + [Digit(n % 10)]
  }

  /** The digits written for `n` read back as `n`. */
  lemma {:induction false} NatDecimalRoundTrip(n: nat)
    ensures DigitsValue(NatDecimal(n)) == n
  {
    if n >= 10 {
      NatDecimalRoundTrip(n / 10);
      var s := NatDecimal(n);
      assert s[..|s| - 1] == NatDecimal(n / 10);
    }
  }

  /** `%d` of any integer. */
  function Decimal(n: int): (s: string)
    ensures |s| > 0
    ensures n >= 0 ==> IsDigits(s) && DigitsValue(s) == n
    ensures n < 0 ==> s[0] == '-' && IsDigits(s[1..]) && DigitsValue(s[1..]) == -n
  {
    if n < 0 then
      NatDecimalRoundTrip(-n);
      assert ("-" + NatDecimal(-n))[1..] == NatDecimal(-n);
      "-" + NatDecimal(-n)
    else
      NatDecimalRoundTrip(n);
      NatDecimal(n)
  }

  /** The Ready condition for `readyReplicas` observed out of `replicas` declared. */
  function ReadyCondition(readyReplicas: int, replicas: int, generation: int): (c: Condition)
    ensures c.conditionType == ReadyType && c.observedGeneration == generation
    ensures c.status == ConditionTrue <==> readyReplicas >= replicas && replicas > 0
    ensures c.status == ConditionTrue ==> c.reason == "AsExpected" && c.message == "All replicas are ready"
    ensures c.status == ConditionFalse ==>
      c.reason == "Progressing" && c.message == "Ready " + Decimal(readyReplicas) + "/" + Decimal(replicas)
  {
    if readyReplicas >= replicas && replicas > 0 then
      Condition(ReadyType, ConditionTrue, "AsExpected", "All replicas are ready", generation)
    else
      Condition(ReadyType, ConditionFalse, "Progressing",
                "Ready " + Decimal(readyReplicas) + "/" + Decimal(replicas), generation)
  }

  /** At most one entry per condition type. */
  predicate UniqueTypes(conditions: seq<Condition>)
  {
    forall i, j :: 0 <= i < j < |conditions| ==> conditions[i].conditionType != conditions[j].conditionType
  }

  predicate HasType(conditions: seq<Condition>, conditionType: string)
  {
    exists i :: 0 <= i < |conditions| && conditions[i].conditionType == conditionType
  }

  /** A non-empty list has a type exactly when its head or its tail has it. */
  lemma HasTypeSplit(conditions: seq<Condition>, conditionType: string)
    requires conditions != []
    ensures HasType(conditions, conditionType) <==>
      conditions[0].conditionType == conditionType || HasType(conditions[1..], conditionType)
    ensures forall x :: x in conditions <==> x == conditions[0] || x in conditions[1..]
  {
    if HasType(conditions, conditionType) && conditions[0].conditionType != conditionType {
      var i :| 0 <= i < |conditions| && conditions[i].conditionType == conditionType;
      assert conditions[1..][i - 1].conditionType == conditionType;
    }
    if HasType(conditions[1..], conditionType) {
      var i :| 0 <= i < |conditions[1..]| && conditions[1..][i].conditionType == conditionType;
      assert conditions[i + 1].conditionType == conditionType;
    }
    assert conditions == [conditions[0]] + conditions[1..];
  }

  /** The first condition of the given type, as readers look it up. */
  function FindCondition(conditions: seq<Condition>, conditionType: string): (r: Option<Condition>)
    ensures r.Some? <==> HasType(conditions, conditionType)
    ensures r.Some? ==> r.value in conditions && r.value.conditionType == conditionType
  {
    if conditions == [] then None
    else if conditions[0].conditionType == conditionType then Some(conditions[0])
    else
      HasTypeSplit(conditions, conditionType);
      FindCondition(conditions[1..], conditionType)
  }

  /** Upsert by type: the first entry of `c`'s type is replaced in place,
      or `c` is appended when there is none. */
  function SetCondition(conditions: seq<Condition>, c: Condition): (r: seq<Condition>)
    ensures FindCondition(r, c.conditionType) == Some(c)
    ensures |r| == if HasType(conditions, c.conditionType) then |conditions| else |conditions| + 1
    ensures forall x :: x in r ==> x == c || x in conditions
    ensures forall x :: x in conditions && x.conditionType != c.conditionType ==> x in r
  {
    if conditions == [] then [c]
    else if conditions[0].conditionType == c.conditionType then
      HasTypeSplit(conditions, c.conditionType);
      [c] + conditions[1..]
    else
      HasTypeSplit(conditions, c.conditionType);
      [conditions[0]] + SetCondition(conditions[1..], c)
  }

  /** A head whose type no tail entry shares keeps a unique-typed tail unique. */
  lemma PrependKeepsTypesUnique(head: Condition, tail: seq<Condition>)
    requires UniqueTypes(tail)
    requires forall x :: x in tail ==> x.conditionType != head.conditionType
    ensures UniqueTypes([head] + tail)
  {
    var r := [head] + tail;
    forall i, j | 0 <= i < j < |r| ensures r[i].conditionType != r[j].conditionType {
      assert r[j] == tail[j - 1];
      if i > 0 {
        assert r[i] == tail[i - 1];
      }
    }
  }

  /** The head and tail of a unique-typed list. */
  lemma UniqueTypesSplit(conditions: seq<Condition>)
    requires conditions != [] && UniqueTypes(conditions)
    ensures UniqueTypes(conditions[1..])
    ensures forall x :: x in conditions[1..] ==> x.conditionType != conditions[0].conditionType
  {
    var tail := conditions[1..];
    forall x | x in tail ensures x.conditionType != conditions[0].conditionType {
      var k :| 0 <= k < |tail| && tail[k] == x;
      assert conditions[k + 1] == x;
    }
    forall i, j | 0 <= i < j < |tail| ensures tail[i].conditionType != tail[j].conditionType {
      assert tail[i] == conditions[i + 1] && tail[j] == conditions[j + 1];
    }
  }

  /** The upsert never introduces a second entry of a type. */
  lemma {:induction false} SetConditionKeepsTypesUnique(conditions: seq<Condition>, c: Condition)
    ensures UniqueTypes(conditions) ==> UniqueTypes(SetCondition(conditions, c))
  {
    if UniqueTypes(conditions) && conditions != [] {
      var tail := conditions[1..];
      UniqueTypesSplit(conditions);
      if conditions[0].conditionType == c.conditionType {
        PrependKeepsTypesUnique(c, tail);
      } else {
        SetConditionKeepsTypesUnique(tail, c);
        PrependKeepsTypesUnique(conditions[0], SetCondition(tail, c));
      }
    }
  }

  /** Re-applying the condition just set changes nothing. */
  lemma {:induction false} SetConditionIdempotent(conditions: seq<Condition>, c: Condition)
    ensures SetCondition(SetCondition(conditions, c), c) == SetCondition(conditions, c)
  {
    if conditions != [] && conditions[0].conditionType != c.conditionType {
      SetConditionIdempotent(conditions[1..], c);
      var r := SetCondition(conditions, c);
      assert r[1..] == SetCondition(conditions[1..], c);
    }
  }

  /** The status written back: the mirrored ready-replica count and the
      Ready condition upserted into the record's conditions. */
  function ProjectedStatus(status: GuestbookStatus, readyReplicas: int, replicas: int, generation: int)
    : (r: GuestbookStatus)
    ensures r.readyReplicas == readyReplicas
    ensures FindCondition(r.conditions, ReadyType) == Some(ReadyCondition(readyReplicas, replicas, generation))
    ensures UniqueTypes(status.conditions) ==> UniqueTypes(r.conditions)
    ensures forall x :: x in status.conditions && x.conditionType != ReadyType ==> x in r.conditions
    ensures forall x :: x in r.conditions ==> x == ReadyCondition(readyReplicas, replicas, generation) || x in status.conditions
    ensures |r.conditions| == if HasType(status.conditions, ReadyType) then |status.conditions| else |status.conditions| + 1
  {
    SetConditionKeepsTypesUnique(status.conditions, ReadyCondition(readyReplicas, replicas, generation));
    GuestbookStatus(readyReplicas, SetCondition(status.conditions, ReadyCondition(readyReplicas, replicas, generation)))
  }

  /** Projecting the same observation twice writes the same status as once. */
  lemma ProjectedStatusIdempotent(status: GuestbookStatus, readyReplicas: int, replicas: int, generation: int)
    ensures var once := ProjectedStatus(status, readyReplicas, replicas, generation);
      ProjectedStatus(once, readyReplicas, replicas, generation) == once
  {
    SetConditionIdempotent(status.conditions, ReadyCondition(readyReplicas, replicas, generation));
  }
}
