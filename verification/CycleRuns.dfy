/**
 No cycle of replications ever converges, however replications are created,
 checked, converged and deleted between one another's steps.
 */
module CycleRuns {
  import opened Wrappers
  import opened Catalog
  import opened Paths

  /** A replication as the cycle check lists it; one that cannot resolve has no ends. */
  datatype Listed = Listed(name: Label, deleting: bool, ends: Option<Ends>)
  datatype Ends = Ends(source: Identity, target: Identity)

  /** Whether a listed replication adds an edge to the graph another one is checked against. */
  predicate Counts(other: Listed, me: Label) {
    other.name != me && !other.deleting && other.ends.Some?
  }

  /** The hops out of a node that the listed replications make. */
  ghost function HopsFrom(others: seq<Listed>, me: Label, n: Identity): set<Hop> {
    set other <- others | Counts(other, me) && other.ends.value.source == n :: Hop(other.ends.value.target, other.name)
  }

  /** A way from the replication's target to its source along the listed ones. */
  ghost predicate LeadsBack(others: seq<Listed>, me: Label, ends: Ends, walk: seq<Hop>) {
    && (forall i :: 0 <= i < |walk| ==> walk[i] in HopsFrom(others, me, End(ends.target, walk[..i])))
    && End(ends.target, walk) == ends.source
  }

  /**
   Refuses a replication that would close a loop: builds the graph of all the
   others and looks for a way back from the target to the source.
   */
  method RefuseCycles(me: Label, ends: Ends, others: seq<Listed>) returns (loop: Option<seq<Label>>)
    ensures loop.None? <==> forall walk :: !LeadsBack(others, me, ends, walk)
    ensures loop.Some? ==> exists walk ::
      && LeadsBack(others, me, ends, walk) && Labels(walk) == loop.value
      && forall other :: LeadsBack(others, me, ends, other) ==> |walk| <= |other|
  {
    var graph: Edges := map[];
    for k := 0 to |others|
      invariant forall n :: Out(graph, n) == HopsFrom(others[..k], me, n)
    {
      var other := others[k];
      ghost var before := graph;
      if Counts(other, me) {
        var from := other.ends.value.source;
        graph := graph[from := Out(graph, from) + {Hop(other.ends.value.target, other.name)}];
      }
      assert others[..k + 1] == others[..k] + [other];
      forall n ensures Out(graph, n) == HopsFrom(others[..k + 1], me, n) {
        assert Out(before, n) == HopsFrom(others[..k], me, n);
      }
    }
    assert others[..|others|] == others;
    forall walk ensures Leads(graph, ends.target, walk, ends.source) == LeadsBack(others, me, ends, walk) {
    }
    loop := Path(graph, ends.target, ends.source);
  }

  // -------------------------------------------------------------- the protocol

  /** `born` orders creations. `checked` is this pass's outcome; `converged` means objects exist. */
  datatype Rep = Rep(ends: Ends, resolves: bool, born: nat, deleting: bool, checked: bool, converged: bool)
  datatype State = State(reps: map<Label, Rep>, clock: nat)

  datatype Step =
    | Create(name: Label, ends: Ends, resolves: bool)
    | Check(name: Label)               // a pass resolves both ends and checks for cycles
    | Converge(name: Label)            // the same pass goes on to create its objects
    | Delete(name: Label)              // deletionTimestamp is set
    | Remove(name: Label)              // teardown is done
    | Resolution(name: Label, resolves: bool)

  /** Which replications a graph is made of. */
  datatype View =
    | Streaming               // those that replicate and mean to go on
    | Standing                // those that have passed a check or have objects, being deleted or not
    | SeenBy(me: Label)       // what one replication's cycle check sees
    | Elders(born: nat)       // of those, the ones created before

  predicate InView(v: View, l: Label, r: Rep) {
    match v
    case Streaming => r.converged && !r.deleting
    case Standing => Stands(r)
    case SeenBy(me) => l != me && !r.deleting && r.resolves
    case Elders(born) => !r.deleting && r.resolves && r.born < born
  }

  predicate Stands(r: Rep) {
    r.checked || r.converged
  }

  ghost function Hops(s: State, v: View, n: Identity): set<Hop> {
    set l | l in s.reps && InView(v, l, s.reps[l]) && s.reps[l].ends.source == n :: Hop(s.reps[l].ends.target, l)
  }

  ghost function Sources(s: State): set<Identity> {
    set l | l in s.reps :: s.reps[l].ends.source
  }

  ghost function Graph(s: State, v: View): (edges: Edges)
    ensures forall n :: Out(edges, n) == Hops(s, v, n)
  {
    map n | n in Sources(s) :: Hops(s, v, n)
  }

  ghost predicate NoWayBack(edges: Edges, ends: Ends) {
    forall walk :: !Leads(edges, ends.target, walk, ends.source)
  }

  ghost function Next(s: State, step: Step): State {
    match step
    case Create(l, ends, resolves) =>
      if l in s.reps then s
      else State(s.reps[l := Rep(ends, resolves, s.clock, false, false, false)], s.clock + 1)
    case Check(l) =>
      if l !in s.reps || s.reps[l].deleting then s
      else
        var passes := s.reps[l].resolves && NoWayBack(Graph(s, SeenBy(l)), s.reps[l].ends);
        s.(reps := s.reps[l := s.reps[l].(checked := passes)])
    case Converge(l) =>
      if l in s.reps && s.reps[l].checked then s.(reps := s.reps[l := s.reps[l].(converged := true)]) else s
    case Delete(l) =>
      if l in s.reps then s.(reps := s.reps[l := s.reps[l].(deleting := true)]) else s
    case Remove(l) =>
      if l in s.reps && s.reps[l].deleting then s.(reps := s.reps - {l}) else s
    case Resolution(l, resolves) =>
      if l in s.reps then s.(reps := s.reps[l := s.reps[l].(resolves := resolves)]) else s
  }

  ghost function Run(steps: seq<Step>): State {
    if steps == [] then State(map[], 0) else Next(Run(steps[..|steps| - 1]), steps[|steps| - 1])
  }

  /** The listing a pass reads is of the replications there are. */
  ghost predicate Lists(others: seq<Listed>, s: State) {
    && (forall other :: other in others ==> other.name in s.reps && other == AsListed(other.name, s.reps[other.name]))
    && (forall l :: l in s.reps ==> AsListed(l, s.reps[l]) in others)
  }

  function AsListed(l: Label, r: Rep): Listed {
    Listed(l, r.deleting, if r.resolves then Some(r.ends) else None)
  }

  /** So `RefuseCycles` refuses exactly what the protocol's check does. */
  lemma CheckIsRefuseCycles(s: State, others: seq<Listed>, me: Label, ends: Ends)
    requires Lists(others, s)
    ensures NoWayBack(Graph(s, SeenBy(me)), ends) <==> forall walk :: !LeadsBack(others, me, ends, walk)
  {
    forall n ensures HopsFrom(others, me, n) == Hops(s, SeenBy(me), n) {
      forall hop | hop in Hops(s, SeenBy(me), n) ensures hop in HopsFrom(others, me, n) {
        assert AsListed(hop.replication, s.reps[hop.replication]) in others;
      }
    }
    forall walk
      ensures Leads(Graph(s, SeenBy(me)), ends.target, walk, ends.source) == LeadsBack(others, me, ends, walk)
    {
    }
  }

  ghost predicate Acyclic(edges: Edges) {
    forall n, walk :: walk != [] ==> !Leads(edges, n, walk, n)
  }

  // --------------------------------------------------------------- invariant

  ghost predicate Inv(s: State) {
    && (forall l :: l in s.reps ==> s.reps[l].born < s.clock)
    && (forall l, k :: l in s.reps && k in s.reps && l != k ==> s.reps[l].born != s.reps[k].born)
    && (forall l :: l in s.reps && Committed(s.reps[l]) ==> s.reps[l].resolves && NoWayBackToElders(s, s.reps[l]))
  }

  predicate Committed(r: Rep) {
    Stands(r) && !r.deleting
  }

  ghost predicate NoWayBackToElders(s: State, r: Rep) {
    NoWayBack(Graph(s, Elders(r.born)), r.ends)
  }

  /** A graph with fewer hops has fewer walks. */
  lemma FewerWalks(edges: Edges, edges': Edges, ends: Ends)
    requires NoWayBack(edges, ends)
    requires forall n :: Out(edges', n) <= Out(edges, n)
    ensures NoWayBack(edges', ends)
  {
    forall walk ensures !Leads(edges', ends.target, walk, ends.source) {
      if Leads(edges', ends.target, walk, ends.source) {
        assert Leads(edges, ends.target, walk, ends.source);
      }
    }
  }

  /** A step adds no edge among those a replication was checked against. */
  lemma EldersOnlyLeave(s: State, step: Step, born: nat)
    requires !step.Resolution? && born <= s.clock
    ensures forall n :: Out(Graph(Next(s, step), Elders(born)), n) <= Out(Graph(s, Elders(born)), n)
  {
  }

  lemma StepKeepsInv(s: State, step: Step)
    requires Inv(s) && !step.Resolution?
    ensures Inv(Next(s, step))
  {
    var s' := Next(s, step);
    forall l | l in s'.reps && Committed(s'.reps[l])
      ensures s'.reps[l].resolves && NoWayBackToElders(s', s'.reps[l])
    {
      CommittedStaysClear(s, step, l);
    }
  }

  lemma CommittedStaysClear(s: State, step: Step, l: Label)
    requires Inv(s) && !step.Resolution?
    requires l in Next(s, step).reps && Committed(Next(s, step).reps[l])
    ensures var s' := Next(s, step); s'.reps[l].resolves && NoWayBackToElders(s', s'.reps[l])
  {
    var s' := Next(s, step);
    var r := s'.reps[l];
    assert l in s.reps && s.reps[l].born == r.born && s.reps[l].ends == r.ends;
    if step == Check(l) && r.checked {
      FewerWalks(Graph(s, SeenBy(l)), Graph(s', Elders(r.born)), r.ends);
    } else {
      assert NoWayBackToElders(s, s.reps[l]);
      EldersOnlyLeave(s, step, r.born);
      FewerWalks(Graph(s, Elders(r.born)), Graph(s', Elders(r.born)), r.ends);
    }
  }

  // ---------------------------------------------------------- closing the loop

  lemma EndWithin(from: Identity, walk: seq<Hop>, i: nat, k: nat)
    requires i + k <= |walk|
    ensures End(End(from, walk[..i]), walk[i..i + k]) == End(from, walk[..i + k])
  {
    if k == 0 {
      assert walk[..i] == walk[..i + 0];
    } else {
      assert walk[i..i + k][k - 1] == walk[..i + k][i + k - 1];
    }
  }

  lemma Subwalk(edges: Edges, from: Identity, walk: seq<Hop>, i: nat, j: nat, a: Identity, b: Identity)
    requires IsWalk(edges, from, walk) && i <= j <= |walk|
    requires a == End(from, walk[..i]) && b == End(from, walk[..j])
    ensures Leads(edges, a, walk[i..j], b)
  {
    var part := walk[i..j];
    EndWithin(from, walk, i, j - i);
    forall k | 0 <= k < |part| ensures part[k] in Out(edges, End(a, part[..k])) {
      EndWithin(from, walk, i, k);
      assert part[..k] == walk[i..i + k] && part[k] == walk[i + k];
    }
  }

  lemma Concat(edges: Edges, a: Identity, first: seq<Hop>, b: Identity, second: seq<Hop>, c: Identity)
    requires Leads(edges, a, first, b) && Leads(edges, b, second, c)
    ensures Leads(edges, a, first + second, c)
  {
    var walk := first + second;
    forall k | 0 <= k < |walk| ensures walk[k] in Out(edges, End(a, walk[..k])) {
      if k < |first| {
        assert walk[..k] == first[..k];
      } else {
        assert walk[..k] == first + second[..k - |first|];
      }
    }
  }

  // An order in which replications came, or passed.
  type Ranks = map<Label, nat>

  ghost predicate AllRanked(ranks: Ranks, walk: seq<Hop>) {
    forall k :: 0 <= k < |walk| ==> walk[k].replication in ranks
  }

  ghost predicate AllBelow(ranks: Ranks, walk: seq<Hop>, bound: nat) {
    forall k :: 0 <= k < |walk| ==> walk[k].replication in ranks && ranks[walk[k].replication] < bound
  }

  /** No way leads back from a replication's target to its source along those ranked lower. */
  ghost predicate NoWayBackBelow(s: State, v: View, ranks: Ranks, l: Label)
    requires l in s.reps && l in ranks
  {
    forall back :: AllBelow(ranks, back, ranks[l]) ==>
      !Leads(Graph(s, v), s.reps[l].ends.target, back, s.reps[l].ends.source)
  }

  ghost predicate Ranked(s: State, v: View, ranks: Ranks) {
    && (forall l :: l in s.reps && InView(v, l, s.reps[l]) ==> l in ranks && NoWayBackBelow(s, v, ranks, l))
    && (forall l, k :: l in s.reps && k in s.reps && l in ranks && k in ranks && l != k ==> ranks[l] != ranks[k])
  }

  /** The hop of a walk that is ranked highest. */
  lemma {:induction false} Highest(ranks: Ranks, walk: seq<Hop>) returns (m: nat)
    requires walk != [] && AllRanked(ranks, walk)
    ensures m < |walk|
    ensures forall k :: 0 <= k < |walk| ==> ranks[walk[k].replication] <= ranks[walk[m].replication]
  {
    m := 0;
    for k := 1 to |walk|
      invariant m < |walk|
      invariant forall j :: 0 <= j < k ==> ranks[walk[j].replication] <= ranks[walk[m].replication]
    {
      if ranks[walk[k].replication] > ranks[walk[m].replication] {
        m := k;
      }
    }
  }

  /** From after a hop, round a closed walk, to before it. */
  lemma Rotate(edges: Edges, n: Identity, walk: seq<Hop>, m: nat)
    requires Leads(edges, n, walk, n) && m < |walk|
    ensures Leads(edges, walk[m].to, walk[m + 1..] + walk[..m], End(n, walk[..m]))
  {
    assert walk[..|walk|] == walk && walk[m + 1..|walk|] == walk[m + 1..] && walk[0..m] == walk[..m];
    EndAfter(n, walk, m);
    Subwalk(edges, n, walk, m + 1, |walk|, walk[m].to, n);
    Subwalk(edges, n, walk, 0, m, n, End(n, walk[..m]));
    Concat(edges, walk[m].to, walk[m + 1..], n, walk[..m], End(n, walk[..m]));
  }

  /** Between two hops with one end a walk comes back to it. */
  lemma Between(edges: Edges, n: Identity, walk: seq<Hop>, i: nat, j: nat)
    requires IsWalk(edges, n, walk) && i < j < |walk| && walk[i].to == walk[j].to
    ensures Leads(edges, walk[j].to, walk[i + 1..j + 1], walk[j].to)
  {
    EndAfter(n, walk, i);
    EndAfter(n, walk, j);
    Subwalk(edges, n, walk, i + 1, j + 1, walk[j].to, walk[j].to);
  }

  lemma EndAfter(n: Identity, walk: seq<Hop>, k: nat)
    requires k < |walk|
    ensures End(n, walk[..k + 1]) == walk[k].to
  {
  }

  /** Each hop of a walk is one of the replications in view. */
  lemma HopIsRep(s: State, v: View, n: Identity, walk: seq<Hop>, k: nat)
    requires IsWalk(Graph(s, v), n, walk) && k < |walk|
    ensures var l := walk[k].replication;
      && l in s.reps && InView(v, l, s.reps[l])
      && s.reps[l].ends == Ends(End(n, walk[..k]), walk[k].to)
  {
    assert walk[k] in Hops(s, v, End(n, walk[..k]));
  }

  lemma RepIsHop(s: State, v: View, l: Label)
    requires l in s.reps && InView(v, l, s.reps[l])
    ensures Hop(s.reps[l].ends.target, l) in Out(Graph(s, v), s.reps[l].ends.source)
  {
  }

  /** A closed walk would lead back to its highest hop along lower ones. */
  lemma {:induction false} NoClosedWalk(s: State, v: View, ranks: Ranks, n: Identity, walk: seq<Hop>)
    requires Ranked(s, v, ranks) && walk != []
    ensures !Leads(Graph(s, v), n, walk, n)
    decreases |walk|
  {
    var edges := Graph(s, v);
    if Leads(edges, n, walk, n) {
      forall k | 0 <= k < |walk| ensures walk[k].replication in s.reps && walk[k].replication in ranks {
        HopIsRep(s, v, n, walk, k);
      }
      var m := Highest(ranks, walk);
      HopIsRep(s, v, n, walk, m);
      if k :| 0 <= k < |walk| && k != m && walk[k].replication == walk[m].replication {
        // The walk passes the same replication twice: cut out the part between.
        HopIsRep(s, v, n, walk, k);
        var i, j := if k < m then k else m, if k < m then m else k;
        Between(edges, n, walk, i, j);
        NoClosedWalk(s, v, ranks, walk[j].to, walk[i + 1..j + 1]);
      } else {
        Rotate(edges, n, walk, m);
        RestIsBelow(s, v, ranks, walk, m);
      }
    }
  }

  lemma RestIsBelow(s: State, v: View, ranks: Ranks, walk: seq<Hop>, m: nat)
    requires Ranked(s, v, ranks) && AllRanked(ranks, walk) && m < |walk|
    requires forall k :: 0 <= k < |walk| ==> walk[k].replication in s.reps
    requires forall k :: 0 <= k < |walk| ==> ranks[walk[k].replication] <= ranks[walk[m].replication]
    requires forall k :: 0 <= k < |walk| && k != m ==> walk[k].replication != walk[m].replication
    ensures AllBelow(ranks, walk[m + 1..] + walk[..m], ranks[walk[m].replication])
  {
    var back := walk[m + 1..] + walk[..m];
    forall k | 0 <= k < |back|
      ensures back[k].replication in ranks && ranks[back[k].replication] < ranks[walk[m].replication]
    {
      var i := if k < |walk| - m - 1 then k + m + 1 else k - (|walk| - m - 1);
      assert back[k] == walk[i] && i != m;
    }
  }

  ghost function Births(s: State): Ranks {
    map l | l in s.reps :: s.reps[l].born
  }

  /** A way back made of older replications is one the check would have found. */
  lemma BirthsRank(s: State)
    requires Inv(s)
    ensures Ranked(s, Streaming, Births(s))
  {
    var streaming := Graph(s, Streaming);
    forall l | l in s.reps && InView(Streaming, l, s.reps[l]) ensures NoWayBackBelow(s, Streaming, Births(s), l) {
      var r := s.reps[l];
      var elders := Graph(s, Elders(r.born));
      assert NoWayBackToElders(s, r);
      forall back | AllBelow(Births(s), back, r.born) ensures !Leads(streaming, r.ends.target, back, r.ends.source) {
        if Leads(streaming, r.ends.target, back, r.ends.source) {
          OldWalkIsElders(s, r.born, r.ends.target, back);
          assert Leads(elders, r.ends.target, back, r.ends.source);
        }
      }
    }
  }

  lemma OldWalkIsElders(s: State, born: nat, from: Identity, back: seq<Hop>)
    requires Inv(s) && AllBelow(Births(s), back, born) && IsWalk(Graph(s, Streaming), from, back)
    ensures IsWalk(Graph(s, Elders(born)), from, back)
  {
    forall k | 0 <= k < |back| ensures back[k] in Out(Graph(s, Elders(born)), End(from, back[..k])) {
      HopIsRep(s, Streaming, from, back, k);
    }
  }

  // ------------------------------------------------------------ main results

  ghost predicate FixedResolution(steps: seq<Step>) {
    forall k :: 0 <= k < |steps| ==> !steps[k].Resolution?
  }

  lemma {:induction false} RunKeepsInv(steps: seq<Step>)
    requires FixedResolution(steps)
    ensures Inv(Run(steps))
  {
    if steps != [] {
      RunKeepsInv(steps[..|steps| - 1]);
      StepKeepsInv(Run(steps[..|steps| - 1]), steps[|steps| - 1]);
    }
  }

  /** In every run the databases that stream into each other form no cycle. */
  lemma NeverACycle(steps: seq<Step>)
    requires FixedResolution(steps)
    ensures Acyclic(Graph(Run(steps), Streaming))
  {
    RunKeepsInv(steps);
    BirthsRank(Run(steps));
    RankedIsAcyclic(Run(steps), Streaming, Births(Run(steps)));
  }

  lemma RankedIsAcyclic(s: State, v: View, ranks: Ranks)
    requires Ranked(s, v, ranks)
    ensures Acyclic(Graph(s, v))
  {
    forall n, walk: seq<Hop> | walk != [] ensures !Leads(Graph(s, v), n, walk, n) {
      NoClosedWalk(s, v, ranks, n, walk);
    }
  }

  // ------------------------------- with deletions counted, and changing resolution

  /** A check that lets a replication in: it stood for nothing before, and passes. */
  ghost predicate LetsIn(s: State, l: Label) {
    l in s.reps && !s.reps[l].deleting && !Stands(s.reps[l])
    && s.reps[l].resolves && NoWayBack(Graph(s, SeenBy(l)), s.reps[l].ends)
  }

  /** Every other one that stands is seen by the check: it resolves and is not being deleted. */
  ghost predicate SeesAll(s: State, me: Label) {
    forall l :: l in s.reps && l != me && Stands(s.reps[l]) ==> s.reps[l].resolves && !s.reps[l].deleting
  }

  /** No replication is let in while one that stands is out of its sight. */
  ghost predicate Attentive(steps: seq<Step>) {
    forall k :: 0 <= k < |steps| && steps[k].Check? && LetsIn(Run(steps[..k]), steps[k].name) ==>
      SeesAll(Run(steps[..k]), steps[k].name)
  }

  /** When each of those that stand was let in. */
  ghost function Entries(steps: seq<Step>): Ranks {
    if steps == [] then map[]
    else
      var before, s, t := Entries(steps[..|steps| - 1]), Run(steps[..|steps| - 1]), Run(steps);
      map l | l in t.reps && Stands(t.reps[l]) ::
        if l in s.reps && Stands(s.reps[l]) && l in before then before[l] else |steps|
  }

  ghost predicate EntriesInOrder(s: State, entries: Ranks, now: nat) {
    && (forall l :: l in entries <==> l in s.reps && Stands(s.reps[l]))
    && (forall l :: l in entries ==> entries[l] <= now)
    && (forall l, k :: l in entries && k in entries && l != k ==> entries[l] != entries[k])
  }

  lemma StandingSteps(s: State, step: Step, l: Label)
    requires l in Next(s, step).reps && Stands(Next(s, step).reps[l])
    ensures l in s.reps && s.reps[l].ends == Next(s, step).reps[l].ends
    ensures !Stands(s.reps[l]) ==> step == Check(l) && LetsIn(s, l)
  {
  }

  lemma {:induction false} EntriesHold(steps: seq<Step>)
    ensures EntriesInOrder(Run(steps), Entries(steps), |steps|)
  {
    if steps != [] {
      var before, last := steps[..|steps| - 1], steps[|steps| - 1];
      EntriesHold(before);
      forall l | l in Run(steps).reps && Stands(Run(steps).reps[l])
        ensures l in Entries(before) || last == Check(l)
      {
        StandingSteps(Run(before), last, l);
      }
    }
  }

  /** What stands and is ranked below one that stood before has itself stood, and leads where it led. */
  lemma BelowIsFromBefore(steps: seq<Step>, l: Label, from: Identity, back: seq<Hop>)
    requires steps != [] && l in Entries(steps) && AllBelow(Entries(steps), back, Entries(steps)[l])
    requires IsWalk(Graph(Run(steps), Standing), from, back)
    ensures IsWalk(Graph(Run(steps[..|steps| - 1]), Standing), from, back)
    ensures l in Entries(steps[..|steps| - 1]) ==>
      AllBelow(Entries(steps[..|steps| - 1]), back, Entries(steps[..|steps| - 1])[l])
    ensures l !in Entries(steps[..|steps| - 1]) ==> forall k :: 0 <= k < |back| ==> back[k].replication != l
  {
    var before := steps[..|steps| - 1];
    EntriesHold(before);
    EntriesHold(steps);
    forall k | 0 <= k < |back|
      ensures back[k] in Out(Graph(Run(before), Standing), End(from, back[..k]))
      ensures back[k].replication in Entries(before)
      ensures Entries(before)[back[k].replication] == Entries(steps)[back[k].replication]
    {
      HopIsRep(Run(steps), Standing, from, back, k);
      StandingSteps(Run(before), steps[|steps| - 1], back[k].replication);
    }
  }

  lemma {:induction false} EntriesRank(steps: seq<Step>)
    requires Attentive(steps)
    ensures Ranked(Run(steps), Standing, Entries(steps))
  {
    EntriesHold(steps);
    if steps != [] {
      var before := steps[..|steps| - 1];
      EntriesHold(before);
      forall k | 0 <= k < |before| && before[k].Check? && LetsIn(Run(before[..k]), before[k].name)
        ensures SeesAll(Run(before[..k]), before[k].name)
      {
        assert before[..k] == steps[..k];
      }
      EntriesRank(before);
      forall l | l in Entries(steps) ensures NoWayBackBelow(Run(steps), Standing, Entries(steps), l) {
        EntryHasNoWayBack(steps, l);
      }
    }
  }

  lemma EntryHasNoWayBack(steps: seq<Step>, l: Label)
    requires Attentive(steps) && steps != [] && l in Entries(steps) && l in Run(steps).reps
    requires Ranked(Run(steps[..|steps| - 1]), Standing, Entries(steps[..|steps| - 1]))
    ensures NoWayBackBelow(Run(steps), Standing, Entries(steps), l)
  {
    EntriesHold(steps);
    var ends := Run(steps).reps[l].ends;
    forall back | AllBelow(Entries(steps), back, Entries(steps)[l])
      ensures !Leads(Graph(Run(steps), Standing), ends.target, back, ends.source)
    {
      if Leads(Graph(Run(steps), Standing), ends.target, back, ends.source) {
        BelowIsFromBefore(steps, l, ends.target, back);
        if l in Entries(steps[..|steps| - 1]) {
          EnteredEarlier(steps, l, back);
        } else {
          EnteredNow(steps, l, back);
        }
      }
    }
  }

  lemma EnteredEarlier(steps: seq<Step>, l: Label, back: seq<Hop>)
    requires steps != [] && l in Entries(steps[..|steps| - 1]) && l in Run(steps).reps
    requires Stands(Run(steps).reps[l])
    requires Ranked(Run(steps[..|steps| - 1]), Standing, Entries(steps[..|steps| - 1]))
    requires AllBelow(Entries(steps[..|steps| - 1]), back, Entries(steps[..|steps| - 1])[l])
    ensures var ends := Run(steps).reps[l].ends;
      !Leads(Graph(Run(steps[..|steps| - 1]), Standing), ends.target, back, ends.source)
  {
    EntriesHold(steps[..|steps| - 1]);
    StandingSteps(Run(steps[..|steps| - 1]), steps[|steps| - 1], l);
    assert NoWayBackBelow(Run(steps[..|steps| - 1]), Standing, Entries(steps[..|steps| - 1]), l);
  }

  lemma EnteredNow(steps: seq<Step>, l: Label, back: seq<Hop>)
    requires Attentive(steps) && steps != [] && l !in Entries(steps[..|steps| - 1])
    requires l in Run(steps).reps && Stands(Run(steps).reps[l])
    requires forall k :: 0 <= k < |back| ==> back[k].replication != l
    ensures var ends := Run(steps).reps[l].ends;
      !Leads(Graph(Run(steps[..|steps| - 1]), Standing), ends.target, back, ends.source)
  {
    var s, ends := Run(steps[..|steps| - 1]), Run(steps).reps[l].ends;
    EntriesHold(steps[..|steps| - 1]);
    StandingSteps(s, steps[|steps| - 1], l);
    assert SeesAll(s, l) && s.reps[l].ends == ends;
    if Leads(Graph(s, Standing), ends.target, back, ends.source) {
      SeenWalk(s, l, ends.target, back);
      assert Leads(Graph(s, SeenBy(l)), ends.target, back, ends.source);
    }
  }

  /** A check that sees all that stand sees every walk along them. */
  lemma SeenWalk(s: State, me: Label, from: Identity, back: seq<Hop>)
    requires SeesAll(s, me) && IsWalk(Graph(s, Standing), from, back)
    requires forall k :: 0 <= k < |back| ==> back[k].replication != me
    ensures IsWalk(Graph(s, SeenBy(me)), from, back)
  {
    forall k | 0 <= k < |back| ensures back[k] in Out(Graph(s, SeenBy(me)), End(from, back[..k])) {
      HopIsRep(s, Standing, from, back, k);
    }
  }

  /**
   In a run in which none is let in while one that stands is out of its sight,
   no cycle forms even counting those being deleted, whatever resolves when.
   */
  lemma AttentiveNeverACycle(steps: seq<Step>)
    requires Attentive(steps)
    ensures Acyclic(Graph(Run(steps), Standing))
    ensures Acyclic(Graph(Run(steps), Streaming))
  {
    EntriesRank(steps);
    RankedIsAcyclic(Run(steps), Standing, Entries(steps));
    var s := Run(steps);
    forall n, walk: seq<Hop> | walk != [] ensures !Leads(Graph(s, Streaming), n, walk, n) {
      if Leads(Graph(s, Streaming), n, walk, n) {
        forall k | 0 <= k < |walk| ensures walk[k] in Out(Graph(s, Standing), End(n, walk[..k])) {
          HopIsRep(s, Streaming, n, walk, k);
        }
        assert Leads(Graph(s, Standing), n, walk, n);
      }
    }
  }

  // --------------------------------------------- exactly when a cycle forms

  /** A way back along those that stand, whether a check would see it or not. */
  ghost predicate HasWayBack(s: State, l: Label)
    requires l in s.reps
  {
    exists back :: Leads(Graph(s, Standing), s.reps[l].ends.target, back, s.reps[l].ends.source)
  }

  ghost predicate Avoids(walk: seq<Hop>, l: Label) {
    forall k :: 0 <= k < |walk| ==> walk[k].replication != l
  }

  /** A walk without the one let in is a walk from before. */
  lemma WithoutTheNew(s: State, step: Step, from: Identity, walk: seq<Hop>, to: Identity)
    requires Leads(Graph(Next(s, step), Standing), from, walk, to)
    requires step.Check? && LetsIn(s, step.name) ==> Avoids(walk, step.name)
    ensures Leads(Graph(s, Standing), from, walk, to)
  {
    forall k | 0 <= k < |walk| ensures walk[k] in Out(Graph(s, Standing), End(from, walk[..k])) {
      HopIsRep(Next(s, step), Standing, from, walk, k);
      StandingSteps(s, step, walk[k].replication);
    }
  }

  /** A walk from a replication's target to its source has a part without it that does as well. */
  lemma {:induction false} FirstReturn(s: State, l: Label, back: seq<Hop>) returns (part: seq<Hop>)
    requires l in s.reps && Leads(Graph(s, Standing), s.reps[l].ends.target, back, s.reps[l].ends.source)
    ensures Leads(Graph(s, Standing), s.reps[l].ends.target, part, s.reps[l].ends.source) && Avoids(part, l)
    decreases |back|
  {
    part := back;
    if k :| 0 <= k < |back| && back[k].replication == l {
      HopIsRep(s, Standing, s.reps[l].ends.target, back, k);
      assert back[0..k] == back[..k] && back[..0] == [];
      Subwalk(Graph(s, Standing), s.reps[l].ends.target, back, 0, k, s.reps[l].ends.target, s.reps[l].ends.source);
      part := FirstReturn(s, l, back[..k]);
    }
  }

  /** Letting one in closes a loop exactly when there is a way back, then one the check overlooked. */
  lemma LettingInClosesIff(s: State, l: Label)
    requires Acyclic(Graph(s, Standing)) && LetsIn(s, l)
    ensures Acyclic(Graph(Next(s, Check(l)), Standing)) <==> !HasWayBack(s, l)
  {
    var t, ends := Next(s, Check(l)), s.reps[l].ends;
    if HasWayBack(s, l) {
      var back :| Leads(Graph(s, Standing), ends.target, back, ends.source);
      WayBackCloses(s, l, back);
    } else {
      forall n, walk: seq<Hop> | walk != [] ensures !Leads(Graph(t, Standing), n, walk, n) {
        if Leads(Graph(t, Standing), n, walk, n) {
          ClosedHasWayBack(s, l, n, walk);
        }
      }
    }
  }

  lemma WayBackCloses(s: State, l: Label, back: seq<Hop>)
    requires LetsIn(s, l) && Leads(Graph(s, Standing), s.reps[l].ends.target, back, s.reps[l].ends.source)
    ensures !Acyclic(Graph(Next(s, Check(l)), Standing))
  {
    var t, ends := Next(s, Check(l)), s.reps[l].ends;
    forall k | 0 <= k < |back| ensures back[k] in Out(Graph(t, Standing), End(ends.target, back[..k])) {
      HopIsRep(s, Standing, ends.target, back, k);
      RepIsHop(t, Standing, back[k].replication);
    }
    var hop := [Hop(ends.target, l)];
    RepIsHop(t, Standing, l);
    assert hop[..0] == [];
    Concat(Graph(t, Standing), ends.target, back, ends.source, hop, ends.target);
    assert back + hop != [];
  }

  lemma ClosedHasWayBack(s: State, l: Label, n: Identity, walk: seq<Hop>)
    requires Acyclic(Graph(s, Standing)) && LetsIn(s, l)
    requires walk != [] && Leads(Graph(Next(s, Check(l)), Standing), n, walk, n)
    ensures HasWayBack(s, l)
  {
    var t, ends := Next(s, Check(l)), s.reps[l].ends;
    if Avoids(walk, l) {
      WithoutTheNew(s, Check(l), n, walk, n);
    } else {
      var m :| 0 <= m < |walk| && walk[m].replication == l;
      HopIsRep(t, Standing, n, walk, m);
      Rotate(Graph(t, Standing), n, walk, m);
      var part := FirstReturn(t, l, walk[m + 1..] + walk[..m]);
      WithoutTheNew(s, Check(l), ends.target, part, ends.source);
    }
  }

  lemma OtherStepsCloseNone(s: State, step: Step)
    requires Acyclic(Graph(s, Standing)) && !(step.Check? && LetsIn(s, step.name))
    ensures Acyclic(Graph(Next(s, step), Standing))
  {
    forall n, walk: seq<Hop> | walk != [] ensures !Leads(Graph(Next(s, step), Standing), n, walk, n) {
      if Leads(Graph(Next(s, step), Standing), n, walk, n) {
        WithoutTheNew(s, step, n, walk, n);
      }
    }
  }

  /** No replication is let in while one it does not see closes its way back. */
  ghost predicate NoneOverlooked(steps: seq<Step>) {
    forall k :: 0 <= k < |steps| && steps[k].Check? && LetsIn(Run(steps[..k]), steps[k].name) ==>
      !HasWayBack(Run(steps[..k]), steps[k].name)
  }

  /**
   In every run, whatever is deleted and whatever resolves when: no cycle is
   ever there, counting those being deleted, exactly when no replication is let
   in by a check that overlooks its way back.
   */
  lemma AcyclicThroughoutIff(steps: seq<Step>)
    ensures (forall k :: 0 <= k <= |steps| ==> Acyclic(Graph(Run(steps[..k]), Standing))) <==> NoneOverlooked(steps)
  {
    if NoneOverlooked(steps) {
      forall k | 0 <= k <= |steps| ensures Acyclic(Graph(Run(steps[..k]), Standing)) {
        AcyclicUpTo(steps, k);
      }
    }
    if forall k :: 0 <= k <= |steps| ==> Acyclic(Graph(Run(steps[..k]), Standing)) {
      forall k | 0 <= k < |steps| && steps[k].Check? && LetsIn(Run(steps[..k]), steps[k].name)
        ensures !HasWayBack(Run(steps[..k]), steps[k].name)
      {
        assert steps[..k + 1][..k] == steps[..k];
        assert Acyclic(Graph(Run(steps[..k]), Standing)) && Acyclic(Graph(Run(steps[..k + 1]), Standing));
        LettingInClosesIff(Run(steps[..k]), steps[k].name);
      }
    }
  }

  lemma {:induction false} AcyclicUpTo(steps: seq<Step>, k: nat)
    requires NoneOverlooked(steps) && k <= |steps|
    ensures Acyclic(Graph(Run(steps[..k]), Standing))
  {
    if k > 0 {
      AcyclicUpTo(steps, k - 1);
      assert steps[..k][..k - 1] == steps[..k - 1];
      var s, step := Run(steps[..k - 1]), steps[k - 1];
      if step.Check? && LetsIn(s, step.name) {
        LettingInClosesIff(s, step.name);
      } else {
        OtherStepsCloseNone(s, step);
      }
    }
  }

  // ------------------------------------------------- what the check overlooks

  const EAST := Identity("east", 5432, "app")
  const WEST := Identity("west", 5432, "app")
  const OUTBOUND := Label("team", "outbound")
  const INBOUND := Label("team", "inbound")

  /** What converged replications still stream, those being deleted included. */
  ghost predicate StillStreams(s: State, l: Label) {
    l in s.reps && s.reps[l].converged
  }

  /** A graph without edges leads nowhere else. */
  lemma NoHops(edges: Edges, ends: Ends)
    requires ends.source != ends.target
    requires forall n :: Out(edges, n) == {}
    ensures NoWayBack(edges, ends)
  {
    forall walk ensures !Leads(edges, ends.target, walk, ends.source) {
      if walk != [] {
        var last := |walk| - 1;
        assert walk[last] !in Out(edges, End(ends.target, walk[..last]));
      }
    }
  }

  lemma RunStep(steps: seq<Step>, step: Step)
    ensures Run(steps + [step]) == Next(Run(steps), step)
  {
    assert (steps + [step])[..|steps|] == steps;
  }

  /** A replication whose check finds nothing goes on to converge. */
  lemma Converges(steps: seq<Step>, l: Label, ends: Ends) returns (longer: seq<Step>)
    requires l !in Run(steps).reps && ends.source != ends.target
    requires forall k :: k in Run(steps).reps ==> Run(steps).reps[k].deleting || !Run(steps).reps[k].resolves
    ensures Run(longer).reps == Run(steps).reps[l := Rep(ends, true, Run(steps).clock, false, true, true)]
    ensures FixedResolution(steps) ==> FixedResolution(longer)
  {
    ThreeSteps(Run(steps), l, ends);
    RunStep(steps, Create(l, ends, true));
    RunStep(steps + [Create(l, ends, true)], Check(l));
    RunStep(steps + [Create(l, ends, true)] + [Check(l)], Converge(l));
    longer := steps + [Create(l, ends, true)] + [Check(l)] + [Converge(l)];
  }

  lemma ThreeSteps(s: State, l: Label, ends: Ends)
    requires l !in s.reps && ends.source != ends.target
    requires forall k :: k in s.reps ==> s.reps[k].deleting || !s.reps[k].resolves
    ensures Next(Next(Next(s, Create(l, ends, true)), Check(l)), Converge(l)).reps
         == s.reps[l := Rep(ends, true, s.clock, false, true, true)]
  {
    var created := Next(s, Create(l, ends, true));
    NoHops(Graph(created, SeenBy(l)), ends);
  }

  /** Two replications in view that stream against each other close a loop. */
  lemma ThereAndBack(s: State, v: View)
    requires OUTBOUND in s.reps && s.reps[OUTBOUND].ends == Ends(EAST, WEST) && InView(v, OUTBOUND, s.reps[OUTBOUND])
    requires INBOUND in s.reps && s.reps[INBOUND].ends == Ends(WEST, EAST) && InView(v, INBOUND, s.reps[INBOUND])
    ensures !Acyclic(Graph(s, v))
  {
    var there, back := Hop(WEST, OUTBOUND), Hop(EAST, INBOUND);
    assert there in Hops(s, v, EAST) && back in Hops(s, v, WEST);
    assert IsWalk(Graph(s, v), EAST, [there, back]) by {
      assert [there, back][..0] == [] && [there, back][..1] == [there];
    }
    assert Leads(Graph(s, v), EAST, [there, back], EAST);
  }

  /**
   A replication being deleted streams until its teardown is done, and until
   then a loop can form round it: its way back is one the check overlooks.
   */
  lemma DeletionHidesALoop() returns (steps: seq<Step>)
    ensures var s := Run(steps);
      && StillStreams(s, OUTBOUND) && s.reps[OUTBOUND].ends == Ends(EAST, WEST) && s.reps[OUTBOUND].deleting
      && StillStreams(s, INBOUND) && s.reps[INBOUND].ends == Ends(WEST, EAST) && !s.reps[INBOUND].deleting
    ensures !Acyclic(Graph(Run(steps), Standing)) && !NoneOverlooked(steps)
    ensures FixedResolution(steps) && Acyclic(Graph(Run(steps), Streaming))
  {
    var alone := Converges([], OUTBOUND, Ends(EAST, WEST));
    RunStep(alone, Delete(OUTBOUND));
    steps := Converges(alone + [Delete(OUTBOUND)], INBOUND, Ends(WEST, EAST));
    ThereAndBack(Run(steps), Standing);
    AcyclicThroughoutIff(steps);
    assert steps[..|steps|] == steps;
    NeverACycle(steps);
  }

  /** One whose database cannot be resolved for a while is overlooked too: fixed resolution is needed. */
  lemma ResolutionHidesALoop() returns (steps: seq<Step>)
    ensures !Acyclic(Graph(Run(steps), Streaming))
  {
    var alone := Converges([], OUTBOUND, Ends(EAST, WEST));
    RunStep(alone, Resolution(OUTBOUND, false));
    steps := Converges(alone + [Resolution(OUTBOUND, false)], INBOUND, Ends(WEST, EAST));
    ThereAndBack(Run(steps), Streaming);
  }
}
