/**
 Several replications may select one table into the same physical target. The
 older one keeps it, where age is creation time, then namespace, then name.
 */
module Claims {
  import opened Wrappers
  import opened Catalog

  // -------------------------------------------------------------------- rank

  datatype Rank = Rank(created: string, namespace: string, name: string)

  /** Lexicographic order of strings. */
  predicate Before(s: string, t: string) {
    t != [] && (s == [] || s[0] < t[0] || (s[0] == t[0] && Before(s[1..], t[1..])))
  }

  predicate Older(q: Rank, r: Rank) {
    || Before(q.created, r.created)
    || (q.created == r.created && Before(q.namespace, r.namespace))
    || (q.created == r.created && q.namespace == r.namespace && Before(q.name, r.name))
  }

  lemma {:induction false} BeforeTransitive(s: string, t: string, u: string)
    requires Before(s, t) && Before(t, u)
    ensures Before(s, u)
  {
    if s != [] && s[0] == t[0] == u[0] {
      BeforeTransitive(s[1..], t[1..], u[1..]);
    }
  }

  lemma {:induction false} BeforeTotal(s: string, t: string)
    ensures !(Before(s, t) && Before(t, s))
    ensures s != t ==> Before(s, t) || Before(t, s)
    ensures s == t ==> !Before(s, t)
  {
    if s != [] && t != [] {
      BeforeTotal(s[1..], t[1..]);
      if s[1..] == t[1..] && s[0] == t[0] {
        assert s == [s[0]] + s[1..] && t == [t[0]] + t[1..];
      }
    }
  }

  /** Age is a strict total order: two replications never each find the other older. */
  lemma OlderIsTotalOrder(q: Rank, r: Rank, s: Rank)
    ensures !Older(r, r)
    ensures !(Older(q, r) && Older(r, q))
    ensures q != r ==> Older(q, r) || Older(r, q)
    ensures Older(q, r) && Older(r, s) ==> Older(q, s)
  {
    BeforeTotal(r.created, r.created);
    BeforeTotal(r.namespace, r.namespace);
    BeforeTotal(r.name, r.name);
    BeforeTotal(q.created, r.created);
    BeforeTotal(q.namespace, r.namespace);
    BeforeTotal(q.name, r.name);
    if Older(q, r) && Older(r, s) {
      if Before(q.created, r.created) && Before(r.created, s.created) {
        BeforeTransitive(q.created, r.created, s.created);
      }
      if Before(q.namespace, r.namespace) && Before(r.namespace, s.namespace) {
        BeforeTransitive(q.namespace, r.namespace, s.namespace);
      }
      if Before(q.name, r.name) && Before(r.name, s.name) {
        BeforeTransitive(q.name, r.name, s.name);
      }
    }
  }

  // --------------------------------------------------------------- what age is

  /** A string comes first at the first place where it ends or has the smaller character. */
  lemma {:induction false} BeforeIff(s: string, t: string)
    ensures Before(s, t) <==> ComesFirst(s, t)
  {
    StartAlike(s, t);
    if s != [] && t != [] && s[0] == t[0] {
      BeforeIff(s[1..], t[1..]);
      forall k: nat ensures FirstDifference(s, t, k + 1) <==> FirstDifference(s[1..], t[1..], k) {
        if k <= |s| - 1 && k <= |t| - 1 {
          assert s[..k + 1] == [s[0]] + s[1..][..k] && t[..k + 1] == [t[0]] + t[1..][..k];
        }
      }
      if k: nat :| FirstDifference(s[1..], t[1..], k) && k < |t[1..]| && (k == |s[1..]| || s[1..][k] < t[1..][k]) {
        assert FirstDifference(s, t, k + 1);
      }
      if k: nat :| FirstDifference(s, t, k) && k < |t| && (k == |s| || s[k] < t[k]) {
        assert k > 0;
        assert FirstDifference(s[1..], t[1..], k - 1);
      }
    } else if t != [] {
      assert FirstDifference(s, t, 0);
    }
  }

  /** Where they first differ it has ended already, or has the smaller character. */
  ghost predicate ComesFirst(s: string, t: string) {
    exists k: nat :: FirstDifference(s, t, k) && k < |t| && (k == |s| || s[k] < t[k])
  }

  lemma StartAlike(s: string, t: string)
    ensures forall k: nat :: FirstDifference(s, t, k) && k > 0 ==> s != [] && t != [] && s[0] == t[0]
  {
    forall k: nat | FirstDifference(s, t, k) && k > 0 ensures s != [] && t != [] && s[0] == t[0] {
      assert s[..k][0] == s[0] && t[..k][0] == t[0];
    }
  }

  predicate FirstDifference(s: string, t: string, k: nat) {
    k <= |s| && k <= |t| && s[..k] == t[..k] && (k < |s| && k < |t| ==> s[k] != t[k])
  }

  /** Behind equally long strings, what follows decides only between equals. */
  lemma {:induction false} BeforeInParts(s: string, s': string, t: string, t': string)
    requires |s| == |t|
    ensures Before(s + s', t + t') <==> Before(s, t) || (s == t && Before(s', t'))
  {
    if s == [] {
      assert s + s' == s' && t + t' == t';
    } else {
      assert (s + s')[1..] == s[1..] + s' && (t + t')[1..] == t[1..] + t';
      BeforeInParts(s[1..], s', t[1..], t');
      assert s == [s[0]] + s[1..] && t == [t[0]] + t[1..];
    }
  }

  const DIGITS: string := "0123456789"

  function Power(width: nat): nat {
    if width == 0 then 1 else 10 * Power(width - 1)
  }

  /** A number in so many digits, zeros in front. */
  function Padded(n: nat, width: nat): (r: string)
    ensures |r| == width
  {
    if width == 0 then [] else Padded(n / 10, width - 1) + [DIGITS[n % 10]]
  }

  lemma {:induction false} PaddedOrders(a: nat, b: nat, width: nat)
    requires a < Power(width) && b < Power(width)
    ensures Before(Padded(a, width), Padded(b, width)) <==> a < b
    ensures Padded(a, width) == Padded(b, width) <==> a == b
  {
    if width > 0 {
      PaddedOrders(a / 10, b / 10, width - 1);
      BeforeInParts(Padded(a / 10, width - 1), [DIGITS[a % 10]], Padded(b / 10, width - 1), [DIGITS[b % 10]]);
      var first, second := Padded(a, width), Padded(b, width);
      assert first[..width - 1] == Padded(a / 10, width - 1) && second[..width - 1] == Padded(b / 10, width - 1);
      assert first[width - 1] == DIGITS[a % 10] && second[width - 1] == DIGITS[b % 10];
    }
  }

  /** One field of a stamp, and what follows it. */
  lemma FieldCompares(a: nat, b: nat, width: nat, s: string, t: string)
    requires a < Power(width) && b < Power(width)
    ensures Before(Padded(a, width) + s, Padded(b, width) + t) <==> a < b || (a == b && Before(s, t))
  {
    PaddedOrders(a, b, width);
    BeforeInParts(Padded(a, width), s, Padded(b, width), t);
  }

  /** A moment to the second, from the year down. */
  type Moment = m: seq<nat> | |m| == |WIDTHS| && forall i :: 0 <= i < |m| ==> m[i] < Power(WIDTHS[i])
    witness [0, 0, 0, 0, 0, 0]

  const WIDTHS: seq<nat> := [4, 2, 2, 2, 2, 2]

  const MARKS: string := "--T::Z"

  /** Two moments differ first in the largest of the units in which they differ. */
  predicate Earlier(a: seq<nat>, b: seq<nat>) {
    exists k: nat :: k < |a| && k < |b| && a[..k] == b[..k] && a[k] < b[k]
  }

  /** As Kubernetes stamps what it creates: 2024-06-01T12:30:00Z. */
  function StampOf(m: Moment): string {
    Written(m, WIDTHS, MARKS)
  }

  function Written(ns: seq<nat>, widths: seq<nat>, marks: string): string
    requires |ns| == |widths| == |marks|
  {
    if ns == [] then [] else Padded(ns[0], widths[0]) + ([marks[0]] + Written(ns[1..], widths[1..], marks[1..]))
  }

  lemma {:induction false} WrittenCompares(a: seq<nat>, b: seq<nat>, widths: seq<nat>, marks: string)
    requires |a| == |b| == |widths| == |marks|
    requires forall i :: 0 <= i < |a| ==> a[i] < Power(widths[i]) && b[i] < Power(widths[i])
    ensures Before(Written(a, widths, marks), Written(b, widths, marks)) <==> Earlier(a, b)
  {
    if a != [] {
      var s, t := Written(a[1..], widths[1..], marks[1..]), Written(b[1..], widths[1..], marks[1..]);
      FieldCompares(a[0], b[0], widths[0], [marks[0]] + s, [marks[0]] + t);
      BeforeInParts([marks[0]], s, [marks[0]], t);
      WrittenCompares(a[1..], b[1..], widths[1..], marks[1..]);
      EarlierInParts(a, b);
    }
  }

  lemma EarlierInParts(a: seq<nat>, b: seq<nat>)
    requires |a| == |b| > 0
    ensures Earlier(a, b) <==> a[0] < b[0] || (a[0] == b[0] && Earlier(a[1..], b[1..]))
  {
    if a[0] < b[0] {
      assert a[..0] == b[..0];
    }
    if k: nat :| k < |a| && a[..k] == b[..k] && a[k] < b[k] {
      if k > 0 {
        assert a[0] == a[..k][0] && b[0] == b[..k][0];
        assert a[1..][..k - 1] == a[..k][1..] && b[1..][..k - 1] == b[..k][1..];
      }
    }
    if a[0] == b[0] && Earlier(a[1..], b[1..]) {
      var k: nat :| k < |a[1..]| && a[1..][..k] == b[1..][..k] && a[1..][k] < b[1..][k];
      assert a[..k + 1] == [a[0]] + a[1..][..k] && b[..k + 1] == [b[0]] + b[1..][..k];
    }
  }

  /** Age is the order of creation: stamps compare as the moments they stand for. */
  lemma StampsCompare(a: Moment, b: Moment)
    ensures Before(StampOf(a), StampOf(b)) <==> Earlier(a, b)
  {
    WrittenCompares(a, b, WIDTHS, MARKS);
  }

  /** Whatever the names, the one created earlier is the older. */
  lemma EarlierIsOlder(q: Rank, r: Rank, a: Moment, b: Moment)
    requires q.created == StampOf(a) && r.created == StampOf(b) && Earlier(a, b)
    ensures Older(q, r) && !Older(r, q)
  {
    StampsCompare(a, b);
    OlderIsTotalOrder(q, r, q);
  }

  /** Created in the same second, the first in the alphabet is: the namespace decides, and then the name. */
  lemma NamesDecideTies(q: Rank, r: Rank)
    requires q.created == r.created
    ensures Older(q, r) <==>
      if q.namespace != r.namespace then ComesFirst(q.namespace, r.namespace) else ComesFirst(q.name, r.name)
  {
    BeforeTotal(q.created, r.created);
    BeforeTotal(q.namespace, r.namespace);
    BeforeIff(q.namespace, r.namespace);
    BeforeIff(q.name, r.name);
  }

  ghost predicate CreatedEarlier(q: Rank, r: Rank) {
    exists a: Moment, b: Moment :: q.created == StampOf(a) && r.created == StampOf(b) && Earlier(a, b)
  }

  lemma CreatedEarlierIsOlder(q: Rank, r: Rank)
    ensures CreatedEarlier(q, r) ==> Older(q, r) && !Older(r, q)
  {
    if CreatedEarlier(q, r) {
      var a: Moment, b: Moment :| q.created == StampOf(a) && r.created == StampOf(b) && Earlier(a, b);
      EarlierIsOlder(q, r, a, b);
    }
  }

  // ------------------------------------------------------------ reading claims

  /** Another replication as it is listed. Its target is unknown if status lacks it or it cannot be resolved. */
  datatype Listed = Listed(rank: Rank, deleting: bool, target: Option<Identity>, published: set<Name>)

  predicate Claims(other: Listed, mine: Rank, target: Identity, n: Name) {
    Older(other.rank, mine) && !other.deleting && other.target == Some(target) && n in other.published
  }

  /** The tables older replications already publish into the target, and who holds each. */
  method ClaimsElsewhere(mine: Rank, target: Identity, others: seq<Listed>) returns (claims: map<Name, Rank>)
    ensures forall n :: n in claims <==> exists other :: other in others && Claims(other, mine, target, n)
    ensures forall n :: n in claims ==>
      exists other :: other in others && Claims(other, mine, target, n) && other.rank == claims[n]
    ensures forall n :: n in claims ==> exists other ::
      && other in others && !other.deleting && other.target == Some(target) && n in other.published
      && other.rank == claims[n] && !CreatedEarlier(mine, other.rank)
    // To one created before all the others everything is free; to one created later, what the earlier publish is not.
    ensures (forall other :: other in others ==> CreatedEarlier(mine, other.rank)) ==> claims.Keys == {}
    ensures forall other ::
      other in others && CreatedEarlier(other.rank, mine) && !other.deleting && other.target == Some(target)
      ==> other.published <= claims.Keys
  {
    claims := map[];
    for k := 0 to |others|
      invariant forall n :: n in claims <==> exists other :: other in others[..k] && Claims(other, mine, target, n)
      invariant forall n :: n in claims ==>
        exists other :: other in others[..k] && Claims(other, mine, target, n) && other.rank == claims[n]
    {
      var other := others[k];
      ghost var before := claims;
      if Older(other.rank, mine) && !other.deleting && other.target == Some(target) {
        claims := (map n | n in other.published :: other.rank) + claims;
      }
      assert others[..k + 1] == others[..k] + [other];
      assert forall n :: n in claims <==> n in before || Claims(other, mine, target, n);
      forall n | n in claims
        ensures exists o :: o in others[..k + 1] && Claims(o, mine, target, n) && o.rank == claims[n]
      {
        if n in before {
          var o :| o in others[..k] && Claims(o, mine, target, n) && o.rank == before[n];
          assert o in others[..k + 1];
        } else {
          assert other in others[..k + 1];
        }
      }
    }
    assert others[..|others|] == others;
    FirstCreatedFindsNone(mine, target, others, claims.Keys);
    ClaimsAreLive(mine, target, others, claims);
    EarlierClaims(mine, target, others, claims.Keys);
  }

  lemma ClaimsAreLive(mine: Rank, target: Identity, others: seq<Listed>, claims: map<Name, Rank>)
    requires forall n :: n in claims ==>
      exists other :: other in others && Claims(other, mine, target, n) && other.rank == claims[n]
    ensures forall n :: n in claims ==> exists other ::
      && other in others && !other.deleting && other.target == Some(target) && n in other.published
      && other.rank == claims[n] && !CreatedEarlier(mine, other.rank)
  {
    forall n | n in claims ensures exists other ::
      && other in others && !other.deleting && other.target == Some(target) && n in other.published
      && other.rank == claims[n] && !CreatedEarlier(mine, other.rank)
    {
      var other :| other in others && Claims(other, mine, target, n) && other.rank == claims[n];
      CreatedEarlierIsOlder(mine, other.rank);
    }
  }

  lemma FirstCreatedFindsNone(mine: Rank, target: Identity, others: seq<Listed>, found: set<Name>)
    requires forall n :: n in found ==> exists other :: other in others && Claims(other, mine, target, n)
    ensures (forall other :: other in others ==> CreatedEarlier(mine, other.rank)) ==> found == {}
  {
    if (forall other :: other in others ==> CreatedEarlier(mine, other.rank)) && found != {} {
      var n :| n in found;
      var other :| other in others && Claims(other, mine, target, n);
      CreatedEarlierIsOlder(mine, other.rank);
    }
  }

  lemma EarlierClaims(mine: Rank, target: Identity, others: seq<Listed>, found: set<Name>)
    requires forall other, n :: other in others && Claims(other, mine, target, n) ==> n in found
    ensures forall other ::
      other in others && CreatedEarlier(other.rank, mine) && !other.deleting && other.target == Some(target)
      ==> other.published <= found
  {
    forall other | other in others && CreatedEarlier(other.rank, mine) && !other.deleting && other.target == Some(target)
      ensures other.published <= found
    {
      CreatedEarlierIsOlder(other.rank, mine);
      forall n | n in other.published ensures n in found {
        assert Claims(other, mine, target, n);
      }
    }
  }
}
