/**
 What convergence of a publication means over many passes: nothing unsafe is
 ever published, a settled publication is left alone, and when the filter
 records a pass leaves behind can be believed by the next.
 */
module PublicationRuns {
  import opened Wrappers
  import opened Catalog
  import opened Eligibility
  import opened Publication

  /** The publication and the records in status between passes. */
  datatype State = State(members: Members, records: Records)

  /** One pass: the verdicts it reached, and the statements the server refused. */
  datatype Pass = Pass(vs: Verdicts, refusals: Refusals)

  function Next(s: State, p: Pass): State {
    var m' := After(s.members, p.vs, s.records, p.refusals);
    State(m', RowFilters(m', p.vs))
  }

  function Run(s: State, ps: seq<Pass>): State {
    if ps == [] then s else Next(Run(s, ps[..|ps| - 1]), ps[|ps| - 1])
  }

  // ----------------------------------------------------------- safety of one

  /** No published table has a source-side issue or is claimed by an older replication. */
  lemma PublishedIsSafe(s: State, p: Pass, n: Name, i: Issue)
    requires n in Next(s, p).members
    ensures n in p.vs
    ensures i in p.vs[n].issues ==>
      SideOf(i.reason) == TargetSide && i.reason != TableTargetedTwice && n in s.members
  {
    assert n in s.members || n in p.vs;
  }

  // ---------------------------------------------------------- filter records

  /** A record an accepted apply wrote: the server's text is that of the filter hashed. */
  predicate Honest(recs: Records, n: Name) {
    n in recs ==> recs[n].applied == Some(Deparsed(recs[n].specHash))
  }

  /** Judged by an honest record, a member that matches has the spec's columns and filter. */
  lemma MatchIsRight(c: Candidate, member: Member, recs: Records)
    requires Honest(recs, c.name)
    ensures Matches(c, member, RecordOf(recs, c.name)) ==> member == Wanted(c)
    ensures member == Wanted(c) && (c.rowFilter.Some? ==> c.name in recs && recs[c.name].specHash == c.rowFilter.value)
      ==> Matches(c, member, RecordOf(recs, c.name))
  {
  }

  /**
   With an honest record, a publishable table that does not have the spec's
   shape after a pass is reported, and a table reported has its old shape.
   */
  lemma OldShapesAreReported(s: State, p: Pass, n: Name)
    requires Honest(s.records, n) && n in s.members && Publishes(p.vs, n)
    ensures Next(s, p).members[n] != Wanted(p.vs[n].candidate) ==>
      n in StaleAmong(p.vs.Keys, s.members, p.vs, s.records, p.refusals)
    ensures n in StaleAmong(p.vs.Keys, s.members, p.vs, s.records, p.refusals) ==>
      n in p.refusals.swaps && Next(s, p).members[n] == s.members[n]
  {
    MatchIsRight(p.vs[n].candidate, s.members[n], s.records);
  }

  /** A pass leaves a member's filter as it was, though the spec asks for another. */
  predicate LeavesOldFilter(s: State, p: Pass, n: Name) {
    && n in s.members && n in p.vs
    && s.members[n].rowFilter != Wanted(p.vs[n].candidate).rowFilter
    && (Keeps(p.vs, n) || n in p.refusals.swaps)
  }

  /**
   Exactly when a pass writes a record that misleads the next one: it left an
   old filter in place, by keeping the table or by a refused replacement, and
   still recorded the new filter's hash beside it.
   */
  lemma RecordHonestIff(s: State, p: Pass, n: Name)
    requires Honest(s.records, n)
    requires n in Next(s, p).records
    ensures Honest(Next(s, p).records, n) <==> !LeavesOldFilter(s, p, n)
  {
    MatchIsRight(p.vs[n].candidate, if n in s.members then s.members[n] else Wanted(p.vs[n].candidate), s.records);
  }

  /** Every pass wants the table published with this filter and these columns. */
  ghost predicate Wants(ps: seq<Pass>, c: Candidate) {
    forall p :: p in ps ==> Publishes(p.vs, c.name) && p.vs[c.name].candidate == c
  }

  /**
   And what then happens: later passes, however many, take the old filter for
   the new one and issue nothing, even if the server would accept it.
   */
  lemma {:induction false} OldFilterStays(s: State, p: Pass, c: Candidate, later: seq<Pass>)
    requires LeavesOldFilter(s, p, c.name) && p.vs[c.name].candidate == c
    requires c.rowFilter.Some? && s.members[c.name].columns == c.columns
    requires Honest(s.records, c.name)
    requires Publishes(p.vs, c.name) || Keeps(p.vs, c.name)
    requires Wants(later, c)
    ensures var s' := Run(Next(s, p), later);
      && c.name in s'.members && s'.members[c.name] == s.members[c.name] != Wanted(c)
      && c.name in s'.records && s'.records[c.name] == Record(c.rowFilter.value, s.members[c.name].rowFilter)
      && forall vs: Verdicts :: c.name in vs && vs[c.name].candidate == c && Publishes(vs, c.name) ==>
           c.name !in Touched(s'.members, vs, s'.records)
  {
    if later != [] {
      OldFilterStays(s, p, c, later[..|later| - 1]);
      assert later[|later| - 1] in later;
    } else {
      MatchIsRight(c, s.members[c.name], s.records);
    }
  }

  ghost predicate Accepts(ps: seq<Pass>, n: Name) {
    forall p :: p in ps ==> n !in p.refusals.swaps
  }

  /** The member is as wanted, and no record will make a pass think otherwise. */
  predicate Repaired(s: State, c: Candidate) {
    && c.name in s.members && s.members[c.name] == Wanted(c)
    && (c.rowFilter.Some? ==> RecordOf(s.records, c.name) == Some(Record(c.rowFilter.value, Wanted(c).rowFilter)))
  }

  lemma OneRepairs(s: State, p: Pass, q: Pass, c: Candidate)
    requires LeavesOldFilter(s, p, c.name) && p.vs[c.name].candidate == c && Honest(s.records, c.name)
    requires Publishes(p.vs, c.name) || Keeps(p.vs, c.name)
    requires c.rowFilter.None? || s.members[c.name].columns != c.columns
    requires Wants([q], c) && c.name !in q.refusals.swaps
    ensures Repaired(Next(Next(s, p), q), c)
  {
    assert q in [q];
    MatchIsRight(c, s.members[c.name], s.records);
  }

  lemma RepairedStays(s: State, q: Pass, c: Candidate)
    requires Repaired(s, c) && Wants([q], c)
    ensures Repaired(Next(s, q), c)
  {
    assert q in [q];
  }

  lemma {:induction false} LaterRepair(s: State, p: Pass, c: Candidate, later: seq<Pass>)
    requires LeavesOldFilter(s, p, c.name) && p.vs[c.name].candidate == c && Honest(s.records, c.name)
    requires Publishes(p.vs, c.name) || Keeps(p.vs, c.name)
    requires c.rowFilter.None? || s.members[c.name].columns != c.columns
    requires Wants(later, c) && Accepts(later, c.name) && later != []
    ensures Repaired(Run(Next(s, p), later), c)
  {
    var last := later[|later| - 1];
    assert last in later;
    if |later| == 1 {
      assert later[..0] == [];
      OneRepairs(s, p, last, c);
    } else {
      LaterRepair(s, p, c, later[..|later| - 1]);
      RepairedStays(Run(Next(s, p), later[..|later| - 1]), last, c);
    }
  }

  /**
   Exactly when an old filter that a pass leaves stays, though every later pass
   wants the new one and the server accepts it: when the spec has a filter and
   the columns were right already. With other columns, or with no filter asked
   for, the first later pass sets it.
   */
  lemma OldFilterStaysIff(s: State, p: Pass, c: Candidate, later: seq<Pass>)
    requires LeavesOldFilter(s, p, c.name) && p.vs[c.name].candidate == c && Honest(s.records, c.name)
    requires Publishes(p.vs, c.name) || Keeps(p.vs, c.name)
    requires Wants(later, c) && Accepts(later, c.name) && later != []
    ensures c.name in Run(Next(s, p), later).members
    ensures Run(Next(s, p), later).members[c.name] != Wanted(c)
       <==> c.rowFilter.Some? && s.members[c.name].columns == c.columns
  {
    if c.rowFilter.Some? && s.members[c.name].columns == c.columns {
      OldFilterStays(s, p, c, later);
    } else {
      LaterRepair(s, p, c, later);
    }
  }

  // --------------------------------------------------- stability over a run

  /** Two verdicts that differ at most in whether the target already holds rows. */
  ghost predicate SameButRows(v: Verdict, v': Verdict) {
    && v.candidate == v'.candidate
    && forall i: Issue :: i.reason != TargetTableNotEmpty ==> (i in v.issues <==> i in v'.issues)
  }

  ghost predicate SameSelection(vs: Verdicts, vs': Verdicts) {
    && vs.Keys == vs'.Keys
    && forall n :: n in vs ==> SameButRows(vs[n], vs'[n])
  }

  /** Row counts and the subscription's progress change a verdict in no other way. */
  lemma OnlyRowsEvolve(
    v: Verdict, v': Verdict, c: Candidate, source: Option<SourceTable>, targets: map<Name, TargetTable>,
    setting: Setting, set': Setting)
    requires IsVerdict(v, c, source, targets, setting) && IsVerdict(v', c, source, targets, set')
    requires set' == setting.(subscribed := set'.subscribed, nonempty := set'.nonempty)
    ensures SameButRows(v, v')
  {
    forall i: Issue | i.reason != TargetTableNotEmpty
      ensures Raised(i, c, source, targets, setting) <==> Raised(i, c, source, targets, set')
    {
      if source.Some? {
        var s := source.value;
        var rels, published := TargetRelations(s, setting.viaRoot), PublishedColumns(c, s);
        assert forall rel ::
          TargetRaises(i.reason, rel, published, targets, setting) == TargetRaises(i.reason, rel, published, targets, set');
        assert SourceRaises(i.reason, c, s, setting) == SourceRaises(i.reason, c, s, set');
        assert RaisedByRelation(i, rels, published, targets, setting) == RaisedByRelation(i, rels, published, targets, set');
      }
    }
  }

  /** Passes over one spec, catalog and set of claims, with a server that accepts every statement. */
  ghost predicate Steady(ps: seq<Pass>) {
    && (forall p :: p in ps ==> p.refusals == NO_REFUSALS)
    && (forall p, p' :: p in ps && p' in ps ==> SameSelection(p.vs, p'.vs))
  }

  /** Once a pass has run, a steady publication never loses a table. */
  lemma NothingLost(s: State, p: Pass, p': Pass)
    requires Steady([p, p'])
    ensures Next(s, p).members.Keys <= Next(Next(s, p), p').members.Keys
  {
    assert p in [p, p'] && p' in [p, p'];
    forall n | n in Next(s, p).members ensures n in Next(Next(s, p), p').members {
      assert p.vs[n].KeepsMembership();
      assert SameButRows(p.vs[n], p'.vs[n]);
      forall i | i in p'.vs[n].issues ensures SideOf(i.reason) == TargetSide && i.reason != TableTargetedTwice {
        if i.reason != TargetTableNotEmpty {
          assert i in p.vs[n].issues;
        }
      }
    }
  }

  /** What is published before the run and after each pass. */
  ghost function Snapshots(s: State, ps: seq<Pass>): seq<set<Name>> {
    seq(|ps| + 1, k requires 0 <= k <= |ps| => Run(s, ps[..k]).members.Keys)
  }

  /** How many elements appear along a sequence of sets, counting reappearances. */
  ghost function Additions<T>(sets: seq<set<T>>): nat {
    if |sets| < 2 then 0
    else Additions(sets[..|sets| - 1]) + |sets[|sets| - 1] - sets[|sets| - 2]|
  }

  lemma {:induction false} AdditionsAreGrowth<T>(sets: seq<set<T>>)
    requires |sets| >= 2
    requires forall k :: 1 <= k < |sets| - 1 ==> sets[k] <= sets[k + 1]
    ensures Additions(sets) <= |sets[|sets| - 1]|
  {
    var was, now := sets[|sets| - 2], sets[|sets| - 1];
    if |sets| == 2 {
      SubsetSize(now - was, now);
    } else {
      AdditionsAreGrowth(sets[..|sets| - 1]);
      assert now == was + (now - was);
    }
  }

  /** After a run only candidates are published. */
  lemma RunWithinCandidates(s: State, ps: seq<Pass>)
    requires Steady(ps) && ps != []
    ensures Run(s, ps).members.Keys <= ps[0].vs.Keys
  {
    var p := ps[|ps| - 1];
    assert p in ps && ps[0] in ps;
    assert p.vs.Keys == ps[0].vs.Keys;
  }

  /** Another pass only adds to what a run has published. */
  lemma RunGrows(s: State, ps: seq<Pass>)
    requires Steady(ps) && |ps| >= 2
    ensures Run(s, ps[..|ps| - 1]).members.Keys <= Run(s, ps).members.Keys
  {
    var p, q := ps[|ps| - 1], ps[|ps| - 2];
    SteadyPair(ps, q, p);
    RunEndsWith(s, ps);
    NothingLost(Run(s, ps[..|ps| - 2]), q, p);
  }

  lemma SteadyPair(ps: seq<Pass>, p: Pass, q: Pass)
    requires Steady(ps) && p in ps && q in ps
    ensures Steady([p, q])
  {
  }

  lemma RunEndsWith(s: State, ps: seq<Pass>)
    requires |ps| >= 2
    ensures Run(s, ps[..|ps| - 1]) == Next(Run(s, ps[..|ps| - 2]), ps[|ps| - 2])
    ensures Run(s, ps) == Next(Run(s, ps[..|ps| - 1]), ps[|ps| - 1])
  {
    var earlier := ps[..|ps| - 1];
    assert earlier[..|earlier| - 1] == ps[..|ps| - 2] && earlier[|earlier| - 1] == ps[|ps| - 2];
  }

  lemma SnapshotsGrow(s: State, ps: seq<Pass>, k: nat)
    requires Steady(ps) && 1 <= k < |ps|
    ensures Snapshots(s, ps)[k] <= Snapshots(s, ps)[k + 1]
  {
    SteadyPrefix(ps, k + 1);
    RunGrows(s, ps[..k + 1]);
    assert ps[..k + 1][..k] == ps[..k];
  }

  lemma SteadyPrefix(ps: seq<Pass>, k: nat)
    requires Steady(ps) && k <= |ps|
    ensures Steady(ps[..k])
  {
    assert forall q :: q in ps[..k] ==> q in ps;
  }

  /** However many passes run, each candidate is added at most once. */
  lemma AdditionsBounded(s: State, ps: seq<Pass>)
    requires Steady(ps) && ps != []
    ensures Additions(Snapshots(s, ps)) <= |ps[0].vs.Keys|
  {
    var sets := Snapshots(s, ps);
    forall k | 1 <= k < |sets| - 1 ensures sets[k] <= sets[k + 1] {
      SnapshotsGrow(s, ps, k);
    }
    AdditionsAreGrowth(sets);
    FinalSnapshot(s, ps);
  }

  lemma FinalSnapshot(s: State, ps: seq<Pass>)
    requires Steady(ps) && ps != []
    ensures |Snapshots(s, ps)[|ps|]| <= |ps[0].vs.Keys|
  {
    assert ps[..|ps|] == ps;
    RunWithinCandidates(s, ps);
    SubsetSize(Run(s, ps).members.Keys, ps[0].vs.Keys);
  }

  lemma SubsetSize<T>(small: set<T>, large: set<T>)
    requires small <= large
    ensures |small| <= |large|
  {
    assert large == small + (large - small);
  }

  /** A table publishable in two passes has the spec's shape after the first, and is let be by the second. */
  lemma ShapeSettles(s: State, p: Pass, p': Pass, n: Name)
    requires p.refusals == NO_REFUSALS
    requires Honest(s.records, n)
    requires Publishes(p.vs, n) && Publishes(p'.vs, n) && p.vs[n].candidate == p'.vs[n].candidate
    ensures var s' := Next(s, p);
      n in s'.members && s'.members[n] == Wanted(p'.vs[n].candidate) && !Reshapes(s'.members, p'.vs, s'.records, n)
    ensures var c, member := p.vs[n].candidate, Next(s, p).members[n];
      && member.columns == c.columns
      && (member.rowFilter.Some? <==> c.rowFilter.Some?)
      && (c.rowFilter.Some? ==> member.rowFilter.value.of == c.rowFilter.value)
  {
    if n in s.members {
      MatchIsRight(p.vs[n].candidate, s.members[n], s.records);
    }
  }

  /**
   After an accepted pass the next one issues statements only for tables that
   newly qualify - none, then, once the verdicts have settled - and every
   table that qualified both times has the spec's columns and filter.
   */
  lemma QuietOnceConverged(s: State, p: Pass, p': Pass, n: Name)
    requires Steady([p, p'])
    requires Honest(s.records, n)
    ensures var s' := Next(s, p);
      && (n in Touched(s'.members, p'.vs, s'.records) ==> Publishes(p'.vs, n) && !Publishes(p.vs, n))
      && (Publishes(p.vs, n) && Publishes(p'.vs, n) ==>
            && n in s'.members && n in Next(s', p').members
            && s'.members[n] == Next(s', p').members[n] == Wanted(p'.vs[n].candidate))
  {
    NothingLost(s, p, p');
    if Publishes(p.vs, n) && Publishes(p'.vs, n) {
      SettledIsQuiet(s, p, p', n);
    } else if !Publishes(p'.vs, n) {
      UnfitIsQuiet(s, p, p', n);
    }
  }

  lemma SettledIsQuiet(s: State, p: Pass, p': Pass, n: Name)
    requires Steady([p, p']) && Honest(s.records, n)
    requires Publishes(p.vs, n) && Publishes(p'.vs, n)
    ensures var s' := Next(s, p);
      && n !in Touched(s'.members, p'.vs, s'.records)
      && n in s'.members && n in Next(s', p').members
      && s'.members[n] == Next(s', p').members[n] == Wanted(p'.vs[n].candidate)
  {
    assert p in [p, p'] && p' in [p, p'];
    assert SameButRows(p.vs[n], p'.vs[n]);
    ShapeSettles(s, p, p', n);
  }

  lemma UnfitIsQuiet(s: State, p: Pass, p': Pass, n: Name)
    requires Steady([p, p']) && !Publishes(p'.vs, n)
    requires Next(s, p).members.Keys <= Next(Next(s, p), p').members.Keys
    ensures n !in Touched(Next(s, p).members, p'.vs, Next(s, p).records)
  {
  }
}
