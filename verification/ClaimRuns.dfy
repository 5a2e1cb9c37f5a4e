/**
 Arbitration between replications over interleaved passes. A pass looks which
 tables have rows, reads the others' status, converges its publication and only
 then writes its own status, so another may run between any two of these.
 */
module ClaimRuns {
  import opened Wrappers
  import opened Catalog
  import opened Claims
  import opened Eligibility
  import Publication

  /**
   A replication's fixed part: what is publishable but for rows already in its
   target, and what beside that would be kept once published.
   */
  datatype Rep = Rep(target: Identity, wants: set<Name>, keeps: set<Name>)

  datatype Phase = Idle | Looked(filled: set<Name>) | Read(claimed: set<Name>, filled: set<Name>) | Converged

  /**
   Its publication on the source, what its status says of it, the pass in
   progress, and which tables it cannot begin: they have rows in its target that
   it did not bring, a rival's copies for one, or the source refuses to add them.
   */
  datatype Live = Live(publication: set<Name>, status: set<Name>, phase: Phase, filled: set<Name>)

  type Reps = map<Rank, Rep>
  type State = map<Rank, Live>

  datatype Step =
    | LookAtRows(who: Rank) | ReadClaims(who: Rank) | Converge(who: Rank) | WriteStatus(who: Rank) | Fail(who: Rank)
    // Converging fails with only some of the tables dropped and added.
    | Halt(who: Rank, some: set<Name>)
    // Rows appear in its target, whatever it is doing, or it subscribes to tables it publishes.
    | Fill(who: Rank, tables: set<Name>)

  ghost function Elders(reps: Reps, r: Rank): set<Rank> {
    set q | q in reps && Older(q, r)
  }

  /** What older replications into the same target say they publish. */
  ghost function Claimed(reps: Reps, s: State, r: Rank): set<Name>
    requires s.Keys == reps.Keys && r in reps
  {
    set q, n | q in reps && Older(q, r) && reps[q].target == reps[r].target && n in s[q].status :: n
  }

  /** The membership a pass leaves: a claimed table goes, whether it was new or kept; a filled one is not begun. */
  function Membership(rep: Rep, publication: set<Name>, claimed: set<Name>, filled: set<Name>): set<Name> {
    ((rep.wants - filled) + (rep.wants + rep.keeps) * publication) - claimed
  }

  /** What is in both stays, and of what is to go or to come, some is there. */
  function Halfway(before: set<Name>, after: set<Name>, some: set<Name>): (m: set<Name>)
    ensures before * after <= m <= before + after
    ensures before * after <= some <= before + after ==> m == some
  {
    before * after + (before + after) * some
  }

  /** The listing a pass reads is of the replications there are. */
  ghost predicate Lists(others: seq<Listed>, reps: Reps, s: State)
    requires s.Keys == reps.Keys
  {
    && (forall other :: other in others ==>
          other.rank in reps && other == Listed(other.rank, false, Some(reps[other.rank].target), s[other.rank].status))
    && (forall q :: q in reps ==> Listed(q, false, Some(reps[q].target), s[q].status) in others)
  }

  /** So what `ClaimsElsewhere` finds is what is claimed. */
  lemma ClaimedIsClaimsElsewhere(reps: Reps, s: State, others: seq<Listed>, r: Rank, n: Name)
    requires s.Keys == reps.Keys && r in reps && Lists(others, reps, s)
    ensures n in Claimed(reps, s, r) <==> exists other :: other in others && Claims.Claims(other, r, reps[r].target, n)
  {
    if n in Claimed(reps, s, r) {
      var q :| q in reps && Older(q, r) && reps[q].target == reps[r].target && n in s[q].status;
      var other := Listed(q, false, Some(reps[q].target), s[q].status);
      assert other in others && Claims.Claims(other, r, reps[r].target, n);
    }
  }

  /** What a replication's tables are judged by but the rows in its target and what others claim. */
  datatype Judgement = Judgement(
    candidates: map<Name, Candidate>, catalog: map<Name, SourceTable>, targets: map<Name, TargetTable>,
    setting: Setting)
  {
    ghost predicate RaisedFor(i: Issue, n: Name, now: Setting)
      requires n in candidates
    {
      Raised(i, candidates[n], Source(n), targets, now)
    }

    function Source(n: Name): Option<SourceTable> {
      if n in catalog then Some(catalog[n]) else None
    }

    /** The table is there to be published, so all its checks are made. */
    predicate Applies(n: Name) {
      n in catalog && !catalog[n].isPartition && catalog[n].Publishable()
    }

    /** With no rows in the target and nothing claimed. */
    function Bare(): Setting {
      setting.(subscribed := {}, nonempty := {}, claimed := false)
    }

    /** The setting of a pass, for one of the tables. */
    function Now(subscribed: set<Name>, nonempty: set<Name>, claimed: set<Name>, n: Name): Setting {
      setting.(subscribed := subscribed, nonempty := nonempty, claimed := n in claimed)
    }

    ghost function RepOf(target: Identity): Rep {
      Rep(
        target,
        set n <- candidates.Keys | forall i :: !RaisedFor(i, n, Bare()),
        set n <- candidates.Keys | forall i :: RaisedFor(i, n, Bare()) ==> SideOf(i.reason) == TargetSide)
    }

    /** The tables found filled: begun now, the initial copy would meet rows. */
    ghost function Filled(subscribed: set<Name>, nonempty: set<Name>): set<Name> {
      set n <- candidates.Keys |
        exists at :: RaisedFor(Issue(TargetTableNotEmpty, at), n, Now(subscribed, nonempty, {}, n))
    }
  }

  /** The verdicts of a replication, of which only what others claim and what has rows changes. */
  ghost predicate Judged(rep: Rep, claimed: set<Name>, filled: set<Name>, vs: Publication.Verdicts) {
    forall n ::
      && (Publication.Publishes(vs, n) <==> n in rep.wants && n !in filled && n !in claimed)
      && (Publication.Keeps(vs, n) <==> n in (rep.keeps - rep.wants) + rep.wants * filled && n !in claimed)
  }

  /** Rows in the target and claims decide one reason each, and no other. */
  lemma RowsAndClaimsDecideTheirOwn(
    j: Judgement, subscribed: set<Name>, nonempty: set<Name>, claimed: set<Name>, n: Name, i: Issue)
    requires n in j.candidates && j.Applies(n)
    ensures var now, unclaimed := j.Now(subscribed, nonempty, claimed, n), j.Now(subscribed, nonempty, {}, n);
      j.RaisedFor(i, n, now) <==>
        || j.RaisedFor(i, n, j.Bare())
        || (i.reason == TargetTableNotEmpty && j.RaisedFor(i, n, unclaimed))
        || (n in claimed && i == Issue(TableTargetedTwice, j.candidates[n].name))
    ensures j.RaisedFor(i, n, j.Bare()) ==> i.reason != TargetTableNotEmpty && i.reason != TableTargetedTwice
  {
    var s, c, bare, now := j.catalog[n], j.candidates[n], j.Bare(), j.Now(subscribed, nonempty, claimed, n);
    var published := PublishedColumns(c, s);
    assert forall rel :: TargetRaises(i.reason, rel, published, j.targets, bare) <==>
      i.reason != TargetTableNotEmpty && TargetRaises(i.reason, rel, published, j.targets, now);
  }

  /** The same of all issues at once. */
  lemma RowsAndClaimsDecide(
    j: Judgement, subscribed: set<Name>, nonempty: set<Name>, claimed: set<Name>, n: Name)
    requires n in j.candidates && j.Applies(n)
    ensures var now, unclaimed := j.Now(subscribed, nonempty, claimed, n), j.Now(subscribed, nonempty, {}, n);
      && (forall i :: j.RaisedFor(i, n, j.Bare()) ==>
            j.RaisedFor(i, n, now) && i.reason != TargetTableNotEmpty && i.reason != TableTargetedTwice)
      && (forall at :: j.RaisedFor(Issue(TargetTableNotEmpty, at), n, unclaimed) <==>
            j.RaisedFor(Issue(TargetTableNotEmpty, at), n, now))
      && (j.RaisedFor(Issue(TableTargetedTwice, j.candidates[n].name), n, now) <==> n in claimed)
      && (forall i :: j.RaisedFor(i, n, now) && i.reason == TableTargetedTwice ==> n in claimed)
      && (forall i :: j.RaisedFor(i, n, now) && i.reason != TargetTableNotEmpty && i.reason != TableTargetedTwice ==>
            j.RaisedFor(i, n, j.Bare()))
  {
    forall i: Issue {
      RowsAndClaimsDecideTheirOwn(j, subscribed, nonempty, claimed, n, i);
    }
  }

  /** A verdict with no issues, or none that would unpublish, in terms of what is raised. */
  lemma VerdictSays(j: Judgement, now: Setting, v: Verdict, n: Name)
    requires n in j.candidates && IsVerdict(v, j.candidates[n], j.Source(n), j.targets, now)
    ensures v.Publishable() <==> forall i :: !j.RaisedFor(i, n, now)
    ensures v.KeepsMembership() <==>
      forall i :: j.RaisedFor(i, n, now) ==> SideOf(i.reason) == TargetSide && i.reason != TableTargetedTwice
  {
    if v.issues != [] {
      assert v.issues[0] in v.issues && j.RaisedFor(v.issues[0], n, now);
    }
  }

  /** An unfit table keeps a source-side issue, whatever the rows and claims. */
  lemma UnfitIsNeither(j: Judgement, now: Setting, target: Identity, n: Name)
    requires n in j.candidates && !j.Applies(n)
    ensures n !in j.RepOf(target).wants && n !in j.RepOf(target).keeps
    ensures exists i :: j.RaisedFor(i, n, now) && SideOf(i.reason) == SourceSide
  {
    var issue := Issue(if n in j.catalog then NotPublishable else SourceTableMissing, j.candidates[n].name);
    assert j.RaisedFor(issue, n, now) && j.RaisedFor(issue, n, j.Bare());
  }

  lemma WantedIff(
    j: Judgement, subscribed: set<Name>, nonempty: set<Name>, claimed: set<Name>, target: Identity, n: Name)
    requires n in j.candidates
    ensures (forall i :: !j.RaisedFor(i, n, j.Now(subscribed, nonempty, claimed, n))) <==>
      n in j.RepOf(target).wants && n !in j.Filled(subscribed, nonempty) && n !in claimed
  {
    if j.Applies(n) {
      RowsAndClaimsDecide(j, subscribed, nonempty, claimed, n);
    } else {
      UnfitIsNeither(j, j.Now(subscribed, nonempty, claimed, n), target, n);
    }
  }

  lemma KeptIff(
    j: Judgement, subscribed: set<Name>, nonempty: set<Name>, claimed: set<Name>, target: Identity, n: Name)
    requires n in j.candidates
    ensures var now := j.Now(subscribed, nonempty, claimed, n);
      (forall i :: j.RaisedFor(i, n, now) ==> SideOf(i.reason) == TargetSide && i.reason != TableTargetedTwice) <==>
      n in j.RepOf(target).keeps && n !in claimed
  {
    if j.Applies(n) {
      RowsAndClaimsDecide(j, subscribed, nonempty, claimed, n);
    } else {
      UnfitIsNeither(j, j.Now(subscribed, nonempty, claimed, n), target, n);
    }
  }

  /** A pass with these catalogs, rows and claims judges its tables just so. */
  lemma VerdictsAreJudged(
    j: Judgement, subscribed: set<Name>, nonempty: set<Name>, claimed: set<Name>, vs: Publication.Verdicts,
    target: Identity)
    requires vs.Keys == j.candidates.Keys
    requires forall n :: n in vs ==>
      IsVerdict(vs[n], j.candidates[n], j.Source(n), j.targets, j.Now(subscribed, nonempty, claimed, n))
    ensures Judged(j.RepOf(target), claimed, j.Filled(subscribed, nonempty), vs)
  {
    forall n | n in vs
      ensures Publication.Publishes(vs, n) <==>
        n in j.RepOf(target).wants && n !in j.Filled(subscribed, nonempty) && n !in claimed
      ensures Publication.Keeps(vs, n) <==>
        var rep := j.RepOf(target);
        n in (rep.keeps - rep.wants) + rep.wants * j.Filled(subscribed, nonempty) && n !in claimed
    {
      VerdictSays(j, j.Now(subscribed, nonempty, claimed, n), vs[n], n);
      WantedIff(j, subscribed, nonempty, claimed, target, n);
      KeptIff(j, subscribed, nonempty, claimed, target, n);
    }
  }

  /** And what converging the tables by those verdicts leaves is the membership; a refused ADD counts as rows do. */
  lemma MembershipIsConverged(
    rep: Rep, members: Publication.Members, claimed: set<Name>, filled: set<Name>, vs: Publication.Verdicts,
    recs: Publication.Records, refusals: Publication.Refusals)
    requires Judged(rep, claimed, filled, vs)
    ensures Publication.After(members, vs, recs, refusals).Keys
         == Membership(rep, members.Keys, claimed, filled + refusals.adds)
  {
    forall n
      ensures n in Publication.After(members, vs, recs, refusals).Keys
         <==> n in Membership(rep, members.Keys, claimed, filled + refusals.adds)
    {
      assert Publication.Publishes(vs, n) <==> n in rep.wants && n !in filled && n !in claimed;
      assert Publication.Keeps(vs, n) <==> n in (rep.keeps - rep.wants) + rep.wants * filled && n !in claimed;
    }
  }

  /** A pass whose DROP is refused leaves one of those between. */
  lemma RefusedDropIsHalfway(
    rep: Rep, members: Publication.Members, claimed: set<Name>, filled: set<Name>, vs: Publication.Verdicts,
    left: set<Name>)
    requires Judged(rep, claimed, filled, vs)
    requires members.Keys - Publication.Dropped(members, vs) <= left <= members.Keys
    ensures left == Halfway(members.Keys, Membership(rep, members.Keys, claimed, filled), left)
  {
    MembershipIsConverged(rep, members, claimed, filled, vs, map[], Publication.NO_REFUSALS);
  }

  /** A step of a pass; one out of turn does nothing. Looking at rows starts a new pass. */
  ghost function Take(reps: Reps, s: State, step: Step): State
    requires s.Keys == reps.Keys
  {
    if step.who !in reps then s
    else
      var r, live := step.who, s[step.who];
      match step
      case LookAtRows(_) => s[r := live.(phase := Looked(live.filled))]
      case ReadClaims(_) =>
        if live.phase.Looked? then s[r := live.(phase := Read(Claimed(reps, s, r), live.phase.filled))] else s
      case Fail(_) => s[r := live.(phase := Idle)]
      case Converge(_) =>
        if live.phase.Read? then
          var m := Membership(reps[r], live.publication, live.phase.claimed, live.phase.filled);
          s[r := live.(publication := m, phase := Converged)]
        else s
      case Halt(_, some) =>
        if live.phase.Read? then
          var m := Membership(reps[r], live.publication, live.phase.claimed, live.phase.filled);
          s[r := live.(publication := Halfway(live.publication, m, some), phase := Idle)]
        else s
      case WriteStatus(_) =>
        if live.phase.Converged? then s[r := live.(status := live.publication, phase := Idle)] else s
      case Fill(_, tables) => s[r := live.(filled := live.filled - live.publication + tables)]
  }

  ghost function TakeAll(reps: Reps, s: State, steps: seq<Step>): (s': State)
    requires s.Keys == reps.Keys
    ensures s'.Keys == reps.Keys
  {
    if steps == [] then s else Take(reps, TakeAll(reps, s, steps[..|steps| - 1]), steps[|steps| - 1])
  }

  /** Not a step of this replication's passes. */
  predicate LeavesAlone(step: Step, r: Rank) {
    step.who != r || step.Fill?
  }

  /** Within the steps, the replication makes one pass from start to end. */
  ghost predicate Completes(steps: seq<Step>, r: Rank) {
    exists turns :: PassAt(steps, r, turns)
  }

  /** When each of its steps is taken. */
  datatype Turns = Turns(look: nat, read: nat, converge: nat, write: nat)

  ghost predicate PassAt(steps: seq<Step>, r: Rank, turns: Turns) {
    && turns.look < turns.read < turns.converge < turns.write < |steps|
    && steps[turns.look] == LookAtRows(r) && steps[turns.read] == ReadClaims(r)
    && steps[turns.converge] == Converge(r) && steps[turns.write] == WriteStatus(r)
    && forall j :: turns.look < j < turns.write && j != turns.read && j != turns.converge ==> LeavesAlone(steps[j], r)
  }

  // --------------------------------------------------------------- stability

  /** Nothing about the replication will change while its claims do not. */
  ghost predicate Stable(reps: Reps, s: State, r: Rank)
    requires s.Keys == reps.Keys && r in reps
  {
    && s[r].status == s[r].publication == Membership(reps[r], s[r].publication, Claimed(reps, s, r), s[r].filled)
    && (s[r].phase.Read? ==> s[r].phase.claimed == Claimed(reps, s, r))
    && (s[r].phase.Looked? || s[r].phase.Read? ==>
          Membership(reps[r], s[r].publication, Claimed(reps, s, r), s[r].phase.filled) == s[r].publication)
  }

  /** A set of replications with every older one in it, all of them stable. */
  ghost predicate SettledOnes(reps: Reps, s: State, settled: set<Rank>)
    requires s.Keys == reps.Keys
  {
    && settled <= reps.Keys
    && (forall r :: r in settled ==> Elders(reps, r) <= settled)
    && (forall r :: r in settled ==> Stable(reps, s, r))
  }

  ghost predicate EldersIn(reps: Reps, settled: set<Rank>, r: Rank) {
    r in reps && Elders(reps, r) <= settled
  }

  /** The older replications' status is all that claims depend on. */
  lemma ClaimsDependOnOlder(reps: Reps, s: State, s': State, r: Rank)
    requires s.Keys == s'.Keys == reps.Keys && r in reps
    requires forall q :: q in Elders(reps, r) ==> s[q].status == s'[q].status
    ensures Claimed(reps, s, r) == Claimed(reps, s', r)
  {
    assert forall q :: q in reps && Older(q, r) ==> q in Elders(reps, r);
  }

  /** No step of anyone disturbs the settled. */
  lemma StepKeepsSettled(reps: Reps, s: State, step: Step, settled: set<Rank>)
    requires s.Keys == reps.Keys && SettledOnes(reps, s, settled)
    ensures var s' := Take(reps, s, step);
      && SettledOnes(reps, s', settled)
      && forall r :: r in settled ==> s'[r].publication == s[r].publication && s'[r].status == s[r].status
  {
    var s' := Take(reps, s, step);
    if step.who in settled {
      assert Stable(reps, s, step.who);
      MembershipSettles(
        reps[step.who], s[step.who].publication, Claimed(reps, s, step.who), s[step.who].filled, s'[step.who].filled);
    }
    forall r | r in settled ensures Stable(reps, s', r) {
      assert Stable(reps, s, r);
      ClaimsDependOnOlder(reps, s, s', r);
    }
  }

  lemma {:induction false} RunKeepsSettled(reps: Reps, s: State, steps: seq<Step>, settled: set<Rank>)
    requires s.Keys == reps.Keys && SettledOnes(reps, s, settled)
    ensures var s' := TakeAll(reps, s, steps);
      && SettledOnes(reps, s', settled)
      && forall r :: r in settled ==> s'[r].publication == s[r].publication && s'[r].status == s[r].status
  {
    if steps != [] {
      RunKeepsSettled(reps, s, steps[..|steps| - 1], settled);
      StepKeepsSettled(reps, TakeAll(reps, s, steps[..|steps| - 1]), steps[|steps| - 1], settled);
    }
  }

  lemma {:induction false} TakeAllSplit(reps: Reps, s: State, first: seq<Step>, second: seq<Step>)
    requires s.Keys == reps.Keys
    ensures TakeAll(reps, s, first + second) == TakeAll(reps, TakeAll(reps, s, first), second)
  {
    if second == [] {
      assert first + second == first;
    } else {
      var steps := first + second;
      assert steps[..|steps| - 1] == first + second[..|second| - 1];
      TakeAllSplit(reps, s, first, second[..|second| - 1]);
    }
  }

  /** The same, but that more may be filled of what it does not publish. */
  predicate SameButFilled(before: Live, after: Live) {
    after.(filled := before.filled) == before && before.filled - before.publication <= after.filled
  }

  /** Others' steps leave a replication as it is, and so do rows appearing. */
  lemma {:induction false} OthersLeaveAlone(reps: Reps, s: State, steps: seq<Step>, r: Rank)
    requires s.Keys == reps.Keys && r in reps
    requires forall j :: 0 <= j < |steps| ==> LeavesAlone(steps[j], r)
    ensures SameButFilled(s[r], TakeAll(reps, s, steps)[r])
  {
    if steps != [] {
      OthersLeaveAlone(reps, s, steps[..|steps| - 1], r);
    }
  }

  /** A second pass with the same claims would change nothing, however much has filled since. */
  lemma MembershipSettles(
    rep: Rep, publication: set<Name>, claimed: set<Name>, filled: set<Name>, later: set<Name>)
    requires filled - publication - Membership(rep, publication, claimed, filled) <= later
    ensures var m := Membership(rep, publication, claimed, filled); Membership(rep, m, claimed, later) == m
  {
  }

  /** What one complete pass leaves of its replication, given what it claims throughout. */
  lemma PassOutcome(reps: Reps, s: State, steps: seq<Step>, r: Rank, claimed: set<Name>, turns: Turns)
    requires s.Keys == reps.Keys && r in reps
    requires PassAt(steps, r, turns)
    requires Claimed(reps, TakeAll(reps, s, steps[..turns.read]), r) == claimed
    ensures var first, last := TakeAll(reps, s, steps[..turns.look])[r], TakeAll(reps, s, steps[..turns.write + 1])[r];
            var m := Membership(reps[r], first.publication, claimed, first.filled);
      last == Live(m, m, Idle, last.filled) && first.filled - first.publication - m <= last.filled
  {
    LookedAndRead(reps, s, steps, r, claimed, turns);
    assert steps[..turns.converge + 1][..turns.converge] == steps[..turns.converge];
    SegmentKeeps(reps, s, steps, turns.converge + 1, turns.write, r);
    assert steps[..turns.write + 1][..turns.write] == steps[..turns.write];
  }

  lemma LookedAndRead(reps: Reps, s: State, steps: seq<Step>, r: Rank, claimed: set<Name>, turns: Turns)
    requires s.Keys == reps.Keys && r in reps
    requires PassAt(steps, r, turns)
    requires Claimed(reps, TakeAll(reps, s, steps[..turns.read]), r) == claimed
    ensures var first, now := TakeAll(reps, s, steps[..turns.look])[r], TakeAll(reps, s, steps[..turns.converge])[r];
      now == Live(first.publication, first.status, Read(claimed, first.filled), now.filled)
      && first.filled - first.publication <= now.filled
  {
    LookedAt(reps, s, steps, r, turns);
    assert steps[..turns.read + 1][..turns.read] == steps[..turns.read];
    SegmentKeeps(reps, s, steps, turns.read + 1, turns.converge, r);
  }

  lemma LookedAt(reps: Reps, s: State, steps: seq<Step>, r: Rank, turns: Turns)
    requires s.Keys == reps.Keys && r in reps
    requires PassAt(steps, r, turns)
    ensures var first, now := TakeAll(reps, s, steps[..turns.look])[r], TakeAll(reps, s, steps[..turns.read])[r];
      now == Live(first.publication, first.status, Looked(first.filled), now.filled)
      && first.filled - first.publication <= now.filled
  {
    assert steps[..turns.look + 1][..turns.look] == steps[..turns.look];
    SegmentKeeps(reps, s, steps, turns.look + 1, turns.read, r);
  }

  /** One complete pass settles a replication whose elders are settled. */
  lemma PassSettles(reps: Reps, s: State, steps: seq<Step>, settled: set<Rank>, r: Rank)
    requires s.Keys == reps.Keys && SettledOnes(reps, s, settled)
    requires EldersIn(reps, settled, r)
    requires Completes(steps, r)
    ensures SettledOnes(reps, TakeAll(reps, s, steps), settled + {r})
  {
    var at := PassEnds(reps, s, steps, settled, r);
    StableStays(reps, s, steps, settled, r, at);
  }

  lemma PassEnds(reps: Reps, s: State, steps: seq<Step>, settled: set<Rank>, r: Rank) returns (at: nat)
    requires s.Keys == reps.Keys && SettledOnes(reps, s, settled)
    requires EldersIn(reps, settled, r) && Completes(steps, r)
    ensures at <= |steps| && Stable(reps, TakeAll(reps, s, steps[..at]), r)
  {
    var turns := PassWithin(steps, r);
    at := PassLeavesStable(reps, s, steps, settled, r, turns);
  }

  lemma PassWithin(steps: seq<Step>, r: Rank) returns (turns: Turns)
    requires Completes(steps, r)
    ensures PassAt(steps, r, turns)
  {
    turns :| PassAt(steps, r, turns);
  }

  /** Once stable, with its elders settled, a replication joins them for good. */
  lemma StableStays(reps: Reps, s: State, steps: seq<Step>, settled: set<Rank>, r: Rank, at: nat)
    requires s.Keys == reps.Keys && SettledOnes(reps, s, settled)
    requires EldersIn(reps, settled, r)
    requires at <= |steps| && Stable(reps, TakeAll(reps, s, steps[..at]), r)
    ensures SettledOnes(reps, TakeAll(reps, s, steps), settled + {r})
  {
    var written := TakeAll(reps, s, steps[..at]);
    RunKeepsSettled(reps, s, steps[..at], settled);
    AddSettled(reps, written, settled, r);
    RunKeepsSettled(reps, written, steps[at..], settled + {r});
    TakeAllSplit(reps, s, steps[..at], steps[at..]);
    assert steps[..at] + steps[at..] == steps;
  }

  lemma PassLeavesStable(reps: Reps, s: State, steps: seq<Step>, settled: set<Rank>, r: Rank, turns: Turns)
    returns (at: nat)
    requires s.Keys == reps.Keys && SettledOnes(reps, s, settled)
    requires EldersIn(reps, settled, r)
    requires PassAt(steps, r, turns)
    ensures at <= |steps| && Stable(reps, TakeAll(reps, s, steps[..at]), r)
  {
    at := turns.write + 1;
    var claimed, first := Claimed(reps, s, r), TakeAll(reps, s, steps[..turns.look])[r];
    ClaimsStay(reps, s, steps[..turns.read], settled, r);
    ClaimsStay(reps, s, steps[..at], settled, r);
    PassOutcome(reps, s, steps, r, claimed, turns);
    OutcomeIsStable(reps, TakeAll(reps, s, steps[..at]), r, first.publication, claimed, first.filled);
  }

  lemma OutcomeIsStable(
    reps: Reps, s: State, r: Rank, publication: set<Name>, claimed: set<Name>, filled: set<Name>)
    requires s.Keys == reps.Keys && r in reps && Claimed(reps, s, r) == claimed
    requires var m := Membership(reps[r], publication, claimed, filled);
      s[r] == Live(m, m, Idle, s[r].filled) && filled - publication - m <= s[r].filled
    ensures Stable(reps, s, r)
  {
    MembershipSettles(reps[r], publication, claimed, filled, s[r].filled);
  }

  lemma AddSettled(reps: Reps, s: State, settled: set<Rank>, r: Rank)
    requires s.Keys == reps.Keys && SettledOnes(reps, s, settled)
    requires EldersIn(reps, settled, r)
    requires Stable(reps, s, r)
    ensures SettledOnes(reps, s, settled + {r})
  {
  }

  /** While the elders are settled, claims do not change. */
  lemma ClaimsStay(reps: Reps, s: State, steps: seq<Step>, settled: set<Rank>, r: Rank)
    requires s.Keys == reps.Keys && SettledOnes(reps, s, settled)
    requires EldersIn(reps, settled, r)
    ensures Claimed(reps, TakeAll(reps, s, steps), r) == Claimed(reps, s, r)
  {
    RunKeepsSettled(reps, s, steps, settled);
    ClaimsDependOnOlder(reps, s, TakeAll(reps, s, steps), r);
  }

  /** Between two steps of its pass a replication does not change. */
  lemma SegmentKeeps(reps: Reps, s: State, steps: seq<Step>, lo: nat, hi: nat, r: Rank)
    requires s.Keys == reps.Keys && r in reps
    requires lo <= hi <= |steps|
    requires forall j :: lo <= j < hi ==> LeavesAlone(steps[j], r)
    ensures SameButFilled(TakeAll(reps, s, steps[..lo])[r], TakeAll(reps, s, steps[..hi])[r])
  {
    assert steps[..hi] == steps[..lo] + steps[lo..hi];
    TakeAllSplit(reps, s, steps[..lo], steps[lo..hi]);
    OthersLeaveAlone(reps, TakeAll(reps, s, steps[..lo]), steps[lo..hi], r);
  }

  // ------------------------------------------------------------ main results

  /** How many replications are older. */
  ghost function Position(reps: Reps, r: Rank): nat {
    |Elders(reps, r)|
  }

  lemma PositionIncreases(reps: Reps, q: Rank, r: Rank)
    requires q in reps && Older(q, r)
    ensures Position(reps, q) < Position(reps, r)
  {
    var mine, theirs := Elders(reps, q), Elders(reps, r);
    forall k | k in mine ensures k in theirs {
      OlderIsTotalOrder(k, q, r);
    }
    OlderIsTotalOrder(q, q, q);
    assert q in theirs && q !in mine;
    SmallerSet(mine, theirs, q);
  }

  lemma SmallerSet<T>(small: set<T>, large: set<T>, x: T)
    requires small <= large && x in large && x !in small
    ensures |small| < |large|
  {
    assert large == small + {x} + (large - small - {x});
  }

  ghost predicate Round(reps: Reps, steps: seq<Step>) {
    forall r :: r in reps ==> Completes(steps, r)
  }

  ghost function Flatten(rounds: seq<seq<Step>>): seq<Step> {
    if rounds == [] then [] else Flatten(rounds[..|rounds| - 1]) + rounds[|rounds| - 1]
  }

  /** The `m` oldest replications. */
  ghost function Oldest(reps: Reps, m: nat): set<Rank> {
    set r | r in reps && Position(reps, r) < m
  }

  /** A round extends the settled by one. */
  lemma RoundSettlesNext(reps: Reps, s: State, round: seq<Step>, m: nat)
    requires s.Keys == reps.Keys && Round(reps, round)
    requires SettledOnes(reps, s, Oldest(reps, m))
    ensures SettledOnes(reps, TakeAll(reps, s, round), Oldest(reps, m + 1))
  {
    forall r | r in Oldest(reps, m + 1) ensures Elders(reps, r) <= Oldest(reps, m) {
      forall q | q in Elders(reps, r) ensures q in Oldest(reps, m) {
        PositionIncreases(reps, q, r);
      }
    }
    forall r | r in Oldest(reps, m + 1) ensures Stable(reps, TakeAll(reps, s, round), r) {
      PassSettles(reps, s, round, Oldest(reps, m), r);
    }
  }

  /** After m rounds the m oldest are settled, however the passes interleave and whichever others fail. */
  lemma {:induction false} RoundsSettle(reps: Reps, s: State, rounds: seq<seq<Step>>)
    requires s.Keys == reps.Keys
    requires forall k :: 0 <= k < |rounds| ==> Round(reps, rounds[k])
    ensures SettledOnes(reps, TakeAll(reps, s, Flatten(rounds)), Oldest(reps, |rounds|))
  {
    if rounds == [] {
      assert Oldest(reps, 0) == {};
    } else {
      var last := |rounds| - 1;
      var before := TakeAll(reps, s, Flatten(rounds[..last]));
      RoundsSettle(reps, s, rounds[..last]);
      TakeAllSplit(reps, s, Flatten(rounds[..last]), rounds[last]);
      assert TakeAll(reps, s, Flatten(rounds)) == TakeAll(reps, before, rounds[last]);
      RoundSettlesNext(reps, before, rounds[last], last);
    }
  }

  /** Two replications publish no table into the same target. */
  ghost predicate Exclusive(reps: Reps, s: State)
    requires s.Keys == reps.Keys
  {
    forall q, r :: q in reps && r in reps && q != r && reps[q].target == reps[r].target ==>
      s[q].publication !! s[r].publication
  }

  /** Nobody yields a table that no one then publishes: only rows already there, or a refusal, keep a table out. */
  ghost predicate NoneDropped(reps: Reps, s: State)
    requires s.Keys == reps.Keys
  {
    forall r, n :: r in reps && n in reps[r].wants && n !in s[r].filled ==>
      exists q :: q in reps && reps[q].target == reps[r].target && n in s[q].publication
  }

  /** Every replication is among the `|reps|` oldest. */
  lemma AllAreOldest(reps: Reps, m: nat)
    requires m >= |reps|
    ensures Oldest(reps, m) == reps.Keys
  {
    forall r | r in reps ensures Position(reps, r) < m {
      OlderIsTotalOrder(r, r, r);
      SmallerSet(Elders(reps, r), reps.Keys, r);
    }
  }

  lemma StableIsExclusive(reps: Reps, s: State)
    requires s.Keys == reps.Keys
    requires forall r :: r in reps ==> Stable(reps, s, r)
    ensures Exclusive(reps, s)
  {
    forall q, r | q in reps && r in reps && q != r && reps[q].target == reps[r].target
      ensures s[q].publication !! s[r].publication
    {
      OlderIsTotalOrder(q, r, r);
      assert Stable(reps, s, q) && Stable(reps, s, r);
      if Older(q, r) {
        assert s[q].status <= Claimed(reps, s, r);
      } else {
        assert s[r].status <= Claimed(reps, s, q);
      }
    }
  }

  lemma StableDropsNone(reps: Reps, s: State)
    requires s.Keys == reps.Keys
    requires forall r :: r in reps ==> Stable(reps, s, r)
    ensures NoneDropped(reps, s)
  {
    forall r, n | r in reps && n in reps[r].wants && n !in s[r].filled
      ensures exists q :: q in reps && reps[q].target == reps[r].target && n in s[q].publication
    {
      assert Stable(reps, s, r);
      if n in Claimed(reps, s, r) {
        var q :| q in reps && Older(q, r) && reps[q].target == reps[r].target && n in s[q].status;
        assert Stable(reps, s, q);
      }
    }
  }

  /**
   As many rounds as replications end with every table in at most one
   publication per target, and in one if any wants it and can begin it.
   */
  lemma ArbitrationConverges(reps: Reps, s: State, rounds: seq<seq<Step>>)
    requires s.Keys == reps.Keys
    requires |rounds| >= |reps|
    requires forall k :: 0 <= k < |rounds| ==> Round(reps, rounds[k])
    ensures var s' := TakeAll(reps, s, Flatten(rounds)); Exclusive(reps, s') && NoneDropped(reps, s')
  {
    RoundsSettle(reps, s, rounds);
    AllAreOldest(reps, |rounds|);
    StableIsExclusive(reps, TakeAll(reps, s, Flatten(rounds)));
    StableDropsNone(reps, TakeAll(reps, s, Flatten(rounds)));
  }

  ghost predicate OldestInto(reps: Reps, r: Rank) {
    r in reps && forall q :: q in reps && reps[q].target == reps[r].target ==> !Older(q, r)
  }

  /** That is the one created first, by the clock. */
  lemma CreatedFirstIsOldest(reps: Reps, r: Rank)
    requires r in reps
    requires forall q :: q in reps && q != r && reps[q].target == reps[r].target ==> CreatedEarlier(r, q)
    ensures OldestInto(reps, r)
  {
    OlderIsTotalOrder(r, r, r);
    forall q | q in reps && reps[q].target == reps[r].target ensures !Older(q, r) {
      CreatedEarlierIsOlder(r, q);
    }
  }

  lemma OldestKeeps(reps: Reps, s: State, step: Step, r: Rank)
    requires s.Keys == reps.Keys && OldestInto(reps, r)
    requires s[r].phase.Read? ==> s[r].phase.claimed == {}
    ensures var s' := Take(reps, s, step);
      && (s'[r].phase.Read? ==> s'[r].phase.claimed == {})
      && reps[r].wants * s[r].publication <= s'[r].publication
  {
  }

  /** The oldest replication into a target gives up nothing it wants, in any run. */
  lemma {:induction false} OldestNeverYields(reps: Reps, s: State, steps: seq<Step>, r: Rank)
    requires s.Keys == reps.Keys && OldestInto(reps, r)
    requires s[r].phase.Read? ==> s[r].phase.claimed == {}
    ensures var s' := TakeAll(reps, s, steps);
      && (s'[r].phase.Read? ==> s'[r].phase.claimed == {})
      && reps[r].wants * s[r].publication <= s'[r].publication
  {
    if steps != [] {
      OldestNeverYields(reps, s, steps[..|steps| - 1], r);
      OldestKeeps(reps, TakeAll(reps, s, steps[..|steps| - 1]), steps[|steps| - 1], r);
    }
  }
}
