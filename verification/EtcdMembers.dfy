/**
  Member sets of the etcd operator (pkg/util/etcdutil/member.go) and the
  quorum arithmetic that the operator relies on.

  A `MemberSet` maps a member's name to its etcd ID. The other fields of the
  source's `Member` are the same for every member of one cluster. ID 0 means
  that the ID is not known.
 */
module EtcdMembers {

  type Name = string
  type Id = nat
  type MemberSet = map<Name, Id>

  const UNKNOWN_ID: Id := 0

  /** `Diff`: the members of `ms` that are not in `other`, compared by name. */
  method Diff(ms: MemberSet, other: MemberSet) returns (diff: MemberSet)
    ensures diff == ms - other.Keys
  {
    diff := map[];
    var todo := ms.Keys;
    while todo != {}
      invariant todo <= ms.Keys
      invariant diff == map n | n in ms.Keys - todo && n !in other :: ms[n]
      decreases todo
    {
      var n :| n in todo;
      if n !in other {
        diff := diff[n := ms[n]];
      }
      todo := todo - {n};
    }
  }

  /** `IsEqual`: same names, whatever the IDs are. */
  method IsEqual(ms: MemberSet, other: MemberSet) returns (equal: bool)
    ensures equal <==> ms.Keys == other.Keys
  {
    if |ms| != |other| {
      return false;
    }
    var todo := ms.Keys;
    while todo != {}
      invariant todo <= ms.Keys
      invariant ms.Keys - todo <= other.Keys
      decreases todo
    {
      var n :| n in todo;
      if n !in other {
        return false;
      }
      todo := todo - {n};
    }
    SubsetOfSameSizeIsEqual(ms.Keys, other.Keys);
    return true;
  }

  lemma SubsetSize<T>(a: set<T>, b: set<T>)
    requires a <= b
    ensures |a| <= |b|
    ensures |b - a| == |b| - |a|
  {
    assert a + (b - a) == b;
  }

  lemma SubsetOfSameSizeIsEqual<T>(a: set<T>, b: set<T>)
    requires a <= b && |a| == |b|
    ensures a == b
  {
    SubsetSize(a, b);
    assert b - a == {};
  }

  /** The live members are a majority of all members. */
  ghost predicate Majority(live: set<Name>, all: set<Name>) {
    2 * |live * all| > |all|
  }

  /** At most one name is in one set and not in the other. */
  ghost predicate AtMostOneChange(a: set<Name>, b: set<Name>) {
    forall m, n :: (m in a <==> m !in b) && (n in a <==> n !in b) ==> m == n
  }

  lemma AtMostOneChangeSize(a: set<Name>, b: set<Name>)
    requires AtMostOneChange(a, b)
    ensures |a - b| + |b - a| <= 1
  {
    var change := (a - b) + (b - a);
    if n :| n in change {
      assert change == {n};
    }
    assert |change| == |a - b| + |b - a|;
  }

  /** The operator's test `L.Size() < members.Size()/2+1` is exactly "no majority". */
  lemma QuorumTestIsMajority(live: set<Name>, all: set<Name>)
    requires live <= all
    ensures |live| < |all| / 2 + 1 <==> !Majority(live, all)
  {
    assert live * all == live;
  }

  /**
    Why membership changes one member at a time are safe: every majority of the
    old membership meets every majority of the new one (section 4.1 of
    Ongaro's Raft dissertation).
   */
  lemma MajoritiesIntersect(a: set<Name>, b: set<Name>, qa: set<Name>, qb: set<Name>)
    requires AtMostOneChange(a, b)
    requires qa <= a && Majority(qa, a)
    requires qb <= b && Majority(qb, b)
    ensures qa * qb != {}
  {
    assert qa * a == qa && qb * b == qb;
    if qa * qb == {} {
      AtMostOneChangeSize(a, b);
      assert |qa + qb| == |qa| + |qb|;
      assert a + (b - a) == a + b && |a + b| == |a| + |b - a|;
      assert b + (a - b) == a + b && |a + b| == |b| + |a - b|;
      SubsetSize(qa + qb, a + b);
    }
  }
}
