/**
 The search behind the cycle check: a breadth-first walk of the graph whose
 nodes are physical databases and whose edges are replications.
 */
module Paths {
  import opened Wrappers
  import opened Catalog

  /** An edge, seen from its source: where it leads, and the replication it is. */
  datatype Hop = Hop(to: Identity, replication: Label)
  type Edges = map<Identity, set<Hop>>

  function Out(edges: Edges, n: Identity): set<Hop> {
    if n in edges then edges[n] else {}
  }

  /** Where a walk stands after its hops. */
  function End(from: Identity, walk: seq<Hop>): Identity {
    if walk == [] then from else walk[|walk| - 1].to
  }

  /** Each hop leaves from where the one before it led. */
  predicate IsWalk(edges: Edges, from: Identity, walk: seq<Hop>) {
    forall i :: 0 <= i < |walk| ==> walk[i] in Out(edges, End(from, walk[..i]))
  }

  function Labels(walk: seq<Hop>): seq<Label> {
    seq(|walk|, i requires 0 <= i < |walk| => walk[i].replication)
  }

  ghost predicate Leads(edges: Edges, from: Identity, walk: seq<Hop>, to: Identity) {
    IsWalk(edges, from, walk) && End(from, walk) == to
  }

  /** Reachable in at most `k` hops. */
  ghost predicate Within(edges: Edges, from: Identity, to: Identity, k: int) {
    exists walk :: Leads(edges, from, walk, to) && |walk| <= k
  }

  lemma WithinZero(edges: Edges, from: Identity, to: Identity)
    ensures Within(edges, from, to, 0) <==> to == from
    ensures !Within(edges, from, to, -1)
  {
    if to == from {
      assert Leads(edges, from, [], to);
    }
  }

  /** One more hop, from somewhere reachable already. */
  lemma WithinSucc(edges: Edges, from: Identity, to: Identity, k: nat) returns (before: Identity, hop: Hop)
    requires Within(edges, from, to, k + 1) && !Within(edges, from, to, k)
    ensures Within(edges, from, before, k) && hop.to == to && hop in Out(edges, before)
  {
    var walk :| Leads(edges, from, walk, to) && |walk| <= k + 1;
    var prefix := walk[..|walk| - 1];
    before, hop := End(from, prefix), walk[|walk| - 1];
    PrefixIsWalk(edges, from, walk);
    assert Leads(edges, from, prefix, before);
  }

  lemma PrefixIsWalk(edges: Edges, from: Identity, walk: seq<Hop>)
    requires walk != [] && IsWalk(edges, from, walk)
    ensures IsWalk(edges, from, walk[..|walk| - 1])
  {
    var prefix := walk[..|walk| - 1];
    forall i | 0 <= i < |prefix| ensures prefix[i] in Out(edges, End(from, prefix[..i])) {
      assert prefix[..i] == walk[..i];
    }
  }

  lemma Extend(edges: Edges, from: Identity, walk: seq<Hop>, hop: Hop)
    requires IsWalk(edges, from, walk) && hop in Out(edges, End(from, walk))
    ensures Leads(edges, from, walk + [hop], hop.to)
    ensures Labels(walk + [hop]) == Labels(walk) + [hop.replication]
  {
    var longer := walk + [hop];
    forall i | 0 <= i < |longer| ensures longer[i] in Out(edges, End(from, longer[..i])) {
      assert longer[..i] == walk[..i];
      assert walk[..|walk|] == walk;
    }
  }

  // --------------------------------------------------------------- the search

  /** An entry of the queue, and a walk it stands for. */
  datatype Entry = Entry(node: Identity, via: seq<Label>)

  /** The queue's entries stand for the walks, node by node. */
  ghost predicate Stand(edges: Edges, from: Identity, queue: seq<Entry>, walks: seq<seq<Hop>>) {
    && |queue| == |walks|
    && forall i :: 0 <= i < |queue| ==>
         Leads(edges, from, walks[i], queue[i].node) && Labels(walks[i]) == queue[i].via
  }

  /** Entries are distinct, in order of length, and span at most two lengths; none has a shorter walk. */
  ghost predicate Ordered(edges: Edges, from: Identity, queue: seq<Entry>) {
    && (forall i, j :: 0 <= i < j < |queue| ==>
          queue[i].node != queue[j].node && |queue[i].via| <= |queue[j].via| <= |queue[0].via| + 1)
    && (forall i :: 0 <= i < |queue| ==> !Within(edges, from, queue[i].node, |queue[i].via| - 1))
  }

  ghost function Nodes(queue: seq<Entry>): set<Identity> {
    set e <- queue :: e.node
  }

  /** Whatever leaves a finished node has been seen. */
  ghost predicate ClosedIn(edges: Edges, done: set<Identity>, seen: set<Identity>) {
    forall n, hop :: n in done && hop in Out(edges, n) ==> hop.to in seen
  }

  /** Everything nearer than `d` is finished, and everything as near as `d` is seen. */
  ghost predicate Covers(edges: Edges, from: Identity, done: set<Identity>, seen: set<Identity>, d: nat) {
    && (forall n :: Within(edges, from, n, d - 1) ==> n in done)
    && (forall n :: Within(edges, from, n, d) ==> n in seen)
  }

  function Ends(hops: set<Hop>): set<Identity> {
    set hop <- hops :: hop.to
  }

  /** Where a node's edges lead. */
  function Successors(edges: Edges, n: Identity): set<Identity> {
    Ends(Out(edges, n))
  }

  /** Entries for exactly the unseen ends of some hops, one each and one hop longer. */
  ghost predicate FreshAmong(hops: set<Hop>, entry: Entry, added: seq<Entry>, seen: set<Identity>) {
    && Nodes(added) == Ends(hops) - seen
    && (forall i :: 0 <= i < |added| ==> |added[i].via| == |entry.via| + 1)
    && (forall i, j :: 0 <= i < j < |added| ==> added[i].node != added[j].node)
  }

  ghost predicate Fresh(edges: Edges, entry: Entry, added: seq<Entry>, seen: set<Identity>) {
    FreshAmong(Out(edges, entry.node), entry, added, seen)
  }

  /** The entries a node's edges add to the queue. */
  method Expand(edges: Edges, from: Identity, entry: Entry, seen: set<Identity>, ghost walk: seq<Hop>)
    returns (added: seq<Entry>, seen': set<Identity>, ghost walks: seq<seq<Hop>>)
    requires Leads(edges, from, walk, entry.node) && Labels(walk) == entry.via
    ensures Stand(edges, from, added, walks)
    ensures Fresh(edges, entry, added, seen)
    ensures seen' == seen + Successors(edges, entry.node)
  {
    added, seen', walks := [], seen, [];
    var rest := Out(edges, entry.node);
    ghost var taken: set<Hop> := {};
    while rest != {}
      invariant rest !! taken && rest + taken == Out(edges, entry.node)
      invariant Stand(edges, from, added, walks)
      invariant FreshAmong(taken, entry, added, seen)
      invariant seen' == seen + Nodes(added)
      decreases rest
    {
      var hop :| hop in rest;
      if hop.to !in seen' {
        Extend(edges, from, walk, hop);
        var e := Entry(hop.to, entry.via + [hop.replication]);
        NodesAppend(added, [e]);
        FreshStep(taken, hop, entry, added, e, seen);
        seen', added, walks := seen' + {hop.to}, added + [e], walks + [walk + [hop]];
      }
      rest, taken := rest - {hop}, taken + {hop};
    }
  }

  lemma FreshStep(taken: set<Hop>, hop: Hop, entry: Entry, added: seq<Entry>, e: Entry, seen: set<Identity>)
    requires FreshAmong(taken, entry, added, seen)
    requires e.node == hop.to && hop.to !in seen + Nodes(added) && |e.via| == |entry.via| + 1
    ensures FreshAmong(taken + {hop}, entry, added + [e], seen)
  {
    NodesAppend(added, [e]);
    assert forall i :: 0 <= i < |added| ==> added[i].node in Nodes(added);
    assert Ends(taken + {hop}) == Ends(taken) + {hop.to};
  }

  lemma NodesAppend(queue: seq<Entry>, added: seq<Entry>)
    ensures Nodes(queue + added) == Nodes(queue) + Nodes(added)
  {
    forall e ensures e in queue + added <==> e in queue || e in added {
    }
  }

  /** The replications on a shortest path, if there is a path at all. */
  method Path(edges: Edges, start: Identity, goal: Identity) returns (loop: Option<seq<Label>>)
    ensures loop.Some? ==> exists walk :: Leads(edges, start, walk, goal) && Labels(walk) == loop.value
    ensures loop.Some? ==> forall walk :: Leads(edges, start, walk, goal) ==> |loop.value| <= |walk|
    ensures loop.None? ==> forall walk :: !Leads(edges, start, walk, goal)
  {
    var queue, seen := [Entry(start, [])], {start};
    ghost var walks: seq<seq<Hop>>, done: set<Identity> := [[]], {};
    SearchStarts(edges, start);
    while queue != []
      invariant Sound(edges, start, goal, queue, walks, done, seen)
      decreases Reaches(edges, start) - done
    {
      var entry := queue[0];
      if entry.node == goal {
        assert Leads(edges, start, walks[0], goal);
        Shortest(edges, start, queue, goal);
        return Some(entry.via);
      }
      var added, seen';
      ghost var found;
      added, seen', found := Expand(edges, start, entry, seen, walks[0]);
      SoundStep(edges, start, goal, queue, walks, added, found, done, seen);
      queue, seen, walks, done := queue[1..] + added, seen', walks[1..] + found, done + {entry.node};
    }
    NowhereElse(edges, start, goal, walks, done, seen);
    loop := None;
  }

  /** All that holds of the search between two turns. */
  ghost predicate Sound(
    edges: Edges, start: Identity, goal: Identity, queue: seq<Entry>, walks: seq<seq<Hop>>, done: set<Identity>,
    seen: set<Identity>)
  {
    && Stand(edges, start, queue, walks)
    && Searching(edges, start, queue, done, seen)
    && goal !in done && seen <= Reaches(edges, start)
  }

  lemma SoundStep(
    edges: Edges, start: Identity, goal: Identity, queue: seq<Entry>, walks: seq<seq<Hop>>, added: seq<Entry>,
    found: seq<seq<Hop>>, done: set<Identity>, seen: set<Identity>)
    requires queue != [] && Sound(edges, start, goal, queue, walks, done, seen) && queue[0].node != goal
    requires Stand(edges, start, added, found) && Fresh(edges, queue[0], added, seen)
    ensures Sound(edges, start, goal, queue[1..] + added, walks[1..] + found, done + {queue[0].node},
                  seen + Successors(edges, queue[0].node))
    ensures queue[0].node in Reaches(edges, start) - done
  {
    SearchStep(edges, start, queue, added, done, seen);
    StandConcat(edges, start, queue, walks, added, found);
    PopNodes(edges, start, queue);
    SuccessorsReached(edges, start, queue[0].node);
  }

  /** An exhausted search has finished everything reachable, and the goal is not among it. */
  lemma NowhereElse(
    edges: Edges, start: Identity, goal: Identity, walks: seq<seq<Hop>>, done: set<Identity>, seen: set<Identity>)
    requires Sound(edges, start, goal, [], walks, done, seen)
    ensures forall walk :: !Leads(edges, start, walk, goal)
  {
    assert Nodes([]) == {};
    forall walk | IsWalk(edges, start, walk) ensures End(start, walk) in done {
      ClosedHolds(edges, start, walk, done);
    }
  }

  lemma StandConcat(
    edges: Edges, from: Identity, queue: seq<Entry>, walks: seq<seq<Hop>>, added: seq<Entry>, found: seq<seq<Hop>>)
    requires queue != [] && Stand(edges, from, queue, walks) && Stand(edges, from, added, found)
    ensures Stand(edges, from, queue[1..] + added, walks[1..] + found)
  {
  }

  lemma SuccessorsReached(edges: Edges, start: Identity, n: Identity)
    ensures Successors(edges, n) <= Reaches(edges, start)
  {
  }

  /** Every database an edge leads to, and the start: the nodes a search can see. */
  ghost function Reaches(edges: Edges, start: Identity): set<Identity> {
    {start} + set n, hop | n in edges && hop in edges[n] :: hop.to
  }

  /** The invariant of the search: `done` have been expanded, the rest of `seen` are queued. */
  ghost predicate Searching(
    edges: Edges, from: Identity, queue: seq<Entry>, done: set<Identity>, seen: set<Identity>)
  {
    && Ordered(edges, from, queue)
    && done !! Nodes(queue) && seen == done + Nodes(queue) && from in seen
    && ClosedIn(edges, done, seen)
    && (queue != [] ==> Covers(edges, from, done, seen, |queue[0].via|))
  }

  lemma SearchStarts(edges: Edges, start: Identity)
    ensures Searching(edges, start, [Entry(start, [])], {}, {start})
  {
    forall n ensures (Within(edges, start, n, 0) <==> n == start) && !Within(edges, start, n, -1) {
      WithinZero(edges, start, n);
    }
    assert [Entry(start, [])][0].node in Nodes([Entry(start, [])]);
  }

  lemma Shortest(edges: Edges, start: Identity, queue: seq<Entry>, goal: Identity)
    requires queue != [] && queue[0].node == goal && Ordered(edges, start, queue)
    ensures forall walk :: Leads(edges, start, walk, goal) ==> |queue[0].via| <= |walk|
  {
    assert !Within(edges, start, queue[0].node, |queue[0].via| - 1);
  }

  lemma PopNodes(edges: Edges, from: Identity, queue: seq<Entry>)
    requires queue != [] && Ordered(edges, from, queue)
    ensures Nodes(queue) == Nodes(queue[1..]) + {queue[0].node} && queue[0].node !in Nodes(queue[1..])
  {
    NodesAppend([queue[0]], queue[1..]);
    assert queue == [queue[0]] + queue[1..];
    FirstIsAlone(edges, from, queue);
  }

  lemma FirstIsAlone(edges: Edges, from: Identity, queue: seq<Entry>)
    requires queue != [] && Ordered(edges, from, queue)
    ensures forall e :: e in queue[1..] ==> e.node != queue[0].node
  {
    forall i | 0 <= i < |queue[1..]| ensures queue[1..][i].node != queue[0].node {
      assert queue[1..][i] == queue[i + 1];
    }
  }

  /** Taking an entry off the queue and expanding it keeps the search's invariant. */
  lemma SearchStep(
    edges: Edges, from: Identity, queue: seq<Entry>, added: seq<Entry>, done: set<Identity>, seen: set<Identity>)
    requires queue != [] && Searching(edges, from, queue, done, seen)
    requires Fresh(edges, queue[0], added, seen)
    ensures Searching(edges, from, queue[1..] + added, done + {queue[0].node},
                      seen + Successors(edges, queue[0].node))
  {
    var node := queue[0].node;
    PopNodes(edges, from, queue);
    NodesAppend(queue[1..], added);
    StepOrdered(edges, from, queue, added, done, seen);
    assert ClosedIn(edges, done + {node}, seen + Successors(edges, node));
    if queue[1..] + added != [] {
      StepCovers(edges, from, queue, added, done, seen);
    }
  }

  lemma StepOrdered(
    edges: Edges, from: Identity, queue: seq<Entry>, added: seq<Entry>, done: set<Identity>, seen: set<Identity>)
    requires queue != [] && Searching(edges, from, queue, done, seen)
    requires Fresh(edges, queue[0], added, seen)
    ensures Ordered(edges, from, queue[1..] + added)
  {
    var rest, d := queue[1..], |queue[0].via|;
    RestIsSeen(edges, from, queue, done, seen);
    forall i | 0 <= i < |added| ensures added[i].node !in seen && !Within(edges, from, added[i].node, d) {
      assert added[i].node in Nodes(added);
    }
  }

  lemma RestIsSeen(edges: Edges, from: Identity, queue: seq<Entry>, done: set<Identity>, seen: set<Identity>)
    requires queue != [] && Searching(edges, from, queue, done, seen)
    ensures forall i :: 0 <= i < |queue[1..]| ==> queue[1..][i] == queue[i + 1] && queue[1..][i].node in seen
  {
    forall i | 0 <= i < |queue[1..]| ensures queue[1..][i].node in seen {
      assert queue[1..][i] in queue;
    }
  }

  /** Once the next entry is longer, all of the queue is a hop further away. */
  lemma RestIsFar(edges: Edges, from: Identity, queue: seq<Entry>, added: seq<Entry>)
    requires queue != [] && Ordered(edges, from, queue)
    requires queue[1..] + added != [] && |(queue[1..] + added)[0].via| == |queue[0].via| + 1
    ensures forall n :: n in Nodes(queue[1..]) ==> !Within(edges, from, n, |queue[0].via|)
  {
    forall e | e in queue[1..] ensures !Within(edges, from, e.node, |queue[0].via|) {
      var i :| 0 <= i < |queue[1..]| && queue[1..][i] == e;
      assert queue[i + 1] == e && |queue[1].via| <= |e.via| <= |queue[0].via| + 1;
    }
  }

  lemma StepCovers(
    edges: Edges, from: Identity, queue: seq<Entry>, added: seq<Entry>, done: set<Identity>, seen: set<Identity>)
    requires queue != [] && Searching(edges, from, queue, done, seen)
    requires Fresh(edges, queue[0], added, seen)
    requires queue[1..] + added != []
    ensures Covers(edges, from, done + {queue[0].node}, seen + Successors(edges, queue[0].node),
                   |(queue[1..] + added)[0].via|)
  {
    var d, d' := |queue[0].via|, |(queue[1..] + added)[0].via|;
    var done', seen' := done + {queue[0].node}, seen + Successors(edges, queue[0].node);
    if d' == d + 1 {
      RestIsFar(edges, from, queue, added);
      PopNodes(edges, from, queue);
      forall n | Within(edges, from, n, d + 1) ensures n in seen' {
        if !Within(edges, from, n, d) {
          var before, hop := WithinSucc(edges, from, n, d);
          assert ClosedIn(edges, done', seen');
        }
      }
    }
  }

  /** A set closed under the edges holds whatever is reachable from it. */
  lemma {:induction false} ClosedHolds(edges: Edges, from: Identity, walk: seq<Hop>, closed: set<Identity>)
    requires from in closed && ClosedIn(edges, closed, closed)
    requires IsWalk(edges, from, walk)
    ensures End(from, walk) in closed
  {
    if walk != [] {
      var last := |walk| - 1;
      var prefix := walk[..last];
      forall i | 0 <= i < |prefix| ensures prefix[i] in Out(edges, End(from, prefix[..i])) {
        assert prefix[..i] == walk[..i];
      }
      ClosedHolds(edges, from, prefix, closed);
      assert walk[last] in Out(edges, End(from, prefix));
    }
  }
}
