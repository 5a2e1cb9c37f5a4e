/**
 The publication on the source, and how a pass converges its tables: which are
 dropped, added and replaced, what the server may refuse, and what is recorded
 about row filters for the next pass.
 */
module Publication {
  import opened Wrappers
  import opened Catalog
  import opened Eligibility

  /** The server's own rendering of a filter it holds. It never equals the text sent. */
  datatype Text = Deparsed(of: RowFilter)

  /** A table's membership, as the server holds it. No columns publishes all of them. */
  datatype Member = Member(columns: set<Column>, rowFilter: Option<Text>)

  /**
   What status keeps per filtered table: a hash of the spec's filter, here the
   filter itself, and the server's text after the pass.
   */
  datatype Record = Record(specHash: RowFilter, applied: Option<Text>)

  type Members = map<Name, Member>
  type Records = map<Name, Record>

  /** Verdicts by table; each is about the table it stands under. */
  type Verdicts = vs: map<Name, Verdict> | forall n :: n in vs ==> vs[n].candidate.name == n
    witness map[]

  /** The tables whose ADD, whose DROP, and whose drop-and-add the server refuses. */
  datatype Refusals = Refusals(adds: set<Name>, drops: set<Name>, swaps: set<Name>)

  const NO_REFUSALS := Refusals({}, {}, {})

  /** The shape the spec asks for. */
  function Wanted(c: Candidate): Member {
    Member(c.columns, if c.rowFilter.Some? then Some(Deparsed(c.rowFilter.value)) else None)
  }

  /** Whether a member is taken to have the candidate's shape already. */
  predicate Matches(c: Candidate, member: Member, record: Option<Record>) {
    && member.columns == c.columns
    && (match c.rowFilter
        case None => member.rowFilter.None?
        case Some(f) => record.Some? && record.value.specHash == f && record.value.applied == member.rowFilter)
  }

  function RecordOf(recs: Records, n: Name): Option<Record> {
    if n in recs then Some(recs[n]) else None
  }

  predicate Publishes(vs: Verdicts, n: Name) {
    n in vs && vs[n].Publishable()
  }

  /** Published before and not publishable now, but only for target-side reasons. */
  predicate Keeps(vs: Verdicts, n: Name) {
    n in vs && !vs[n].Publishable() && vs[n].KeepsMembership()
  }

  /** Whether a pass sets the table's shape: it is publishable, and new or not matching. */
  predicate Reshapes(m: Members, vs: Verdicts, recs: Records, n: Name) {
    Publishes(vs, n) && (n !in m || !Matches(vs[n].candidate, m[n], RecordOf(recs, n)))
  }

  /** Whether the server refuses the statement that would set the table's shape. */
  predicate Refused(m: Members, refusals: Refusals, n: Name) {
    if n in m then n in refusals.swaps else n in refusals.adds
  }

  /** The membership a pass leaves, when no DROP is refused. */
  function After(m: Members, vs: Verdicts, recs: Records, refusals: Refusals): (m': Members)
    ensures m'.Keys == (set n <- vs.Keys | Publishes(vs, n) && (n in m || n !in refusals.adds))
                     + (set n <- m.Keys | Keeps(vs, n))
  {
    map n | n in m.Keys + vs.Keys && Remains(m, vs, refusals, n) :: ShapeAfter(m, vs, recs, refusals, n)
  }

  predicate Remains(m: Members, vs: Verdicts, refusals: Refusals, n: Name) {
    (Publishes(vs, n) && (n in m || n !in refusals.adds)) || (n in m && Keeps(vs, n))
  }

  function ShapeAfter(m: Members, vs: Verdicts, recs: Records, refusals: Refusals, n: Name): Member
    requires Remains(m, vs, refusals, n)
  {
    if Reshapes(m, vs, recs, n) && !Refused(m, refusals, n) then Wanted(vs[n].candidate) else m[n]
  }

  /** The filter records a pass writes: the spec's filter beside whatever the server holds. */
  function RowFilters(m': Members, vs: Verdicts): Records {
    map n | n in vs && n in m' && vs[n].candidate.rowFilter.Some? ::
      Record(vs[n].candidate.rowFilter.value, m'[n].rowFilter)
  }

  /** The tables a pass issues a statement for. */
  function Touched(m: Members, vs: Verdicts, recs: Records): set<Name> {
    Dropped(m, vs) + set n <- vs.Keys | Reshapes(m, vs, recs, n)
  }

  /** Published tables that are neither publishable nor kept. */
  function Dropped(m: Members, vs: Verdicts): set<Name> {
    set n <- m.Keys | !Publishes(vs, n) && !Keeps(vs, n)
  }

  // ---------------------------------------------------------------- the pass

  /** The publication on the source server. */
  class ServerPublication {
    var members: Members

    constructor (members: Members)
      ensures this.members == members
    {
      this.members := members;
    }

    method DropTable(n: Name, refused: bool) returns (ok: bool)
      modifies this
      ensures ok == !refused
      ensures members == if ok then old(members) - {n} else old(members)
    {
      ok := !refused;
      if ok {
        members := members - {n};
      }
    }

    method AddTable(n: Name, shape: Member, refused: bool) returns (ok: bool)
      modifies this
      ensures ok == !refused
      ensures members == if ok then old(members)[n := shape] else old(members)
    {
      ok := !refused;
      if ok {
        members := members[n := shape];
      }
    }

    /** Drops and adds in one transaction, so a refusal leaves the previous shape. */
    method ReplaceTable(n: Name, shape: Member, refused: bool) returns (ok: bool)
      modifies this
      ensures ok == !refused
      ensures members == if ok then old(members)[n := shape] else old(members)
    {
      var before := members;
      ok := DropTable(n, false);
      ok := AddTable(n, shape, refused);
      if !ok {
        members := before;
      }
    }
  }

  /** What a pass reports about the tables. */
  class TableReport {
    var published: set<Name>
    var excluded: set<Name>
    var kept: set<Name>
    var stillOldShape: set<Name>  // a refused replacement: the previous shape is still published
    var rowFilters: Records

    constructor ()
      ensures published == excluded == kept == stillOldShape == {} && rowFilters == map[]
    {
      published, excluded, kept, stillOldShape, rowFilters := {}, {}, {}, {}, map[];
    }
  }

  /**
   The tables of the publication, dropped and then added or replaced. A refused
   DROP fails the pass before anything is added.
   */
  method ConvergeTables(pub: ServerPublication, vs: Verdicts, recs: Records, refusals: Refusals, report: TableReport)
    returns (ok: bool)
    requires report.excluded == report.kept == report.stillOldShape == {}
    modifies pub, report
    ensures ok <==> Dropped(old(pub.members), vs) !! refusals.drops
    ensures ok ==> pub.members == After(old(pub.members), vs, recs, refusals)
    ensures !ok ==>
      && old(pub.members).Keys - Dropped(old(pub.members), vs) <= pub.members.Keys <= old(pub.members).Keys
      && forall n :: n in pub.members ==> pub.members[n] == old(pub.members)[n]
    ensures ok ==>
      && report.published == pub.members.Keys
      && report.excluded == vs.Keys - pub.members.Keys
      && report.kept == KeptAmong(vs.Keys, old(pub.members), vs)
      && report.stillOldShape == StaleAmong(vs.Keys, old(pub.members), vs, recs, refusals)
      && report.rowFilters == RowFilters(pub.members, vs)
  {
    var current := pub.members;
    ok := DropUnfit(pub, vs, refusals);
    if !ok {
      return;
    }
    ConvergeEach(pub, current, vs, recs, refusals, report);
    report.published := pub.members.Keys;
    report.rowFilters := RowFilters(pub.members, vs);
  }

  /** Gives every candidate its turn. */
  method ConvergeEach(
    pub: ServerPublication, current: Members, vs: Verdicts, recs: Records, refusals: Refusals, report: TableReport)
    requires pub.members == current - Dropped(current, vs)
    requires report.excluded == report.kept == report.stillOldShape == {}
    modifies pub, report
    ensures pub.members == After(current, vs, recs, refusals)
    ensures report.excluded == vs.Keys - pub.members.Keys
    ensures report.kept == KeptAmong(vs.Keys, current, vs)
    ensures report.stillOldShape == StaleAmong(vs.Keys, current, vs, recs, refusals)
  {
    var rest := vs.Keys;
    ghost var done := {};
    while rest != {}
      invariant rest !! done && rest + done == vs.Keys
      invariant Midway(pub.members, done, current, vs, recs, refusals)
      invariant Reported(report.excluded, report.kept, report.stillOldShape, done, current, vs, recs, refusals)
      decreases rest
    {
      var n :| n in rest;
      assert Settled(pub.members, n, done, current, vs, recs, refusals);
      ghost var before := pub.members;
      ghost var x, k, s := report.excluded, report.kept, report.stillOldShape;
      ConvergeTable(pub, n, current, vs, recs, refusals, report);
      ReportedStep(x, k, s, n, done, current, vs, recs, refusals);
      MidwayStep(before, pub.members, n, done, current, vs, recs, refusals);
      rest, done := rest - {n}, done + {n};
    }
    MidwayEnd(pub.members, current, vs, recs, refusals);
  }

  /** What has been reported of the tables that had their turn. */
  ghost predicate Reported(
    excluded: set<Name>, kept: set<Name>, stale: set<Name>, done: set<Name>, m: Members, vs: Verdicts,
    recs: Records, refusals: Refusals)
  {
    && excluded == ExcludedAmong(done, m, vs, refusals)
    && kept == KeptAmong(done, m, vs)
    && stale == StaleAmong(done, m, vs, recs, refusals)
  }

  lemma ReportedStep(
    excluded: set<Name>, kept: set<Name>, stale: set<Name>, n: Name, done: set<Name>, m: Members, vs: Verdicts,
    recs: Records, refusals: Refusals)
    requires Reported(excluded, kept, stale, done, m, vs, recs, refusals)
    ensures Reported(
      excluded + (if Remains(m, vs, refusals, n) then {} else {n}),
      kept + (if n in m && Keeps(vs, n) then {n} else {}),
      stale + (if n in m && Reshapes(m, vs, recs, n) && n in refusals.swaps then {n} else {}),
      done + {n}, m, vs, recs, refusals)
  {
  }

  ghost predicate Midway(now: Members, done: set<Name>, m: Members, vs: Verdicts, recs: Records, refusals: Refusals) {
    forall n :: Settled(now, n, done, m, vs, recs, refusals)
  }

  lemma MidwayStep(
    before: Members, now: Members, n: Name, done: set<Name>, m: Members, vs: Verdicts, recs: Records,
    refusals: Refusals)
    requires Midway(before, done, m, vs, recs, refusals)
    requires forall k :: k != n ==> (k in now <==> k in before)
    requires forall k :: k != n && k in now ==> now[k] == before[k]
    requires Settled(now, n, {n}, m, vs, recs, refusals)
    ensures Midway(now, done + {n}, m, vs, recs, refusals)
  {
    forall k ensures Settled(now, k, done + {n}, m, vs, recs, refusals) {
      assert Settled(before, k, done, m, vs, recs, refusals);
    }
  }

  lemma MidwayEnd(now: Members, m: Members, vs: Verdicts, recs: Records, refusals: Refusals)
    requires Midway(now, vs.Keys, m, vs, recs, refusals)
    ensures now == After(m, vs, recs, refusals)
  {
    var m' := After(m, vs, recs, refusals);
    forall n ensures (n in now <==> n in m') && (n in now ==> now[n] == m'[n]) {
      assert Settled(now, n, vs.Keys, m, vs, recs, refusals);
    }
  }

  /** Where one table stands midway through a pass: had its turn, or only survived the drops. */
  ghost predicate Settled(
    now: Members, n: Name, done: set<Name>, m: Members, vs: Verdicts, recs: Records, refusals: Refusals)
  {
    if n in done then
      && (n in now <==> Remains(m, vs, refusals, n))
      && (n in now ==> now[n] == ShapeAfter(m, vs, recs, refusals, n))
    else
      && (n in now <==> n in m && n !in Dropped(m, vs))
      && (n in now ==> now[n] == m[n])
  }

  function ExcludedAmong(names: set<Name>, m: Members, vs: Verdicts, refusals: Refusals): set<Name> {
    set n <- names | !Remains(m, vs, refusals, n)
  }

  function KeptAmong(names: set<Name>, m: Members, vs: Verdicts): set<Name> {
    set n <- names | n in m && Keeps(vs, n)
  }

  /** Tables whose replacement is refused. */
  function StaleAmong(names: set<Name>, m: Members, vs: Verdicts, recs: Records, refusals: Refusals): set<Name> {
    set n <- names | n in m && Reshapes(m, vs, recs, n) && n in refusals.swaps
  }

  /** Drops what is published but neither publishable nor kept. */
  method DropUnfit(pub: ServerPublication, vs: Verdicts, refusals: Refusals) returns (ok: bool)
    modifies pub
    ensures ok <==> Dropped(old(pub.members), vs) !! refusals.drops
    ensures ok ==> pub.members == old(pub.members) - Dropped(old(pub.members), vs)
    ensures !ok ==>
      && old(pub.members).Keys - Dropped(old(pub.members), vs) <= pub.members.Keys <= old(pub.members).Keys
      && forall n :: n in pub.members ==> pub.members[n] == old(pub.members)[n]
  {
    var current := pub.members;
    var rest, gone := current.Keys, {};
    while rest != {}
      invariant rest <= current.Keys
      invariant gone == Dropped(current, vs) - rest
      invariant gone !! refusals.drops
      invariant pub.members == current - gone
      decreases rest
    {
      var n :| n in rest;
      rest := rest - {n};
      if !Publishes(vs, n) && !Keeps(vs, n) {
        ok := pub.DropTable(n, n in refusals.drops);
        if !ok {
          assert n in Dropped(current, vs);
          return;
        }
        gone := gone + {n};
      }
    }
    ok := true;
  }

  /** One table's turn: kept, excluded, left alone, added or replaced. */
  method ConvergeTable(
    pub: ServerPublication, n: Name, current: Members, vs: Verdicts, recs: Records, refusals: Refusals,
    report: TableReport)
    requires n in vs
    requires n in pub.members <==> n in current && n !in Dropped(current, vs)
    requires n in pub.members ==> pub.members[n] == current[n]
    modifies pub, report
    ensures forall k :: k != n ==> (k in pub.members <==> k in old(pub.members))
    ensures forall k :: k != n && k in pub.members ==> pub.members[k] == old(pub.members)[k]
    ensures n in pub.members <==> Remains(current, vs, refusals, n)
    ensures n in pub.members ==> pub.members[n] == ShapeAfter(current, vs, recs, refusals, n)
    ensures report.excluded == old(report.excluded) + if Remains(current, vs, refusals, n) then {} else {n}
    ensures report.kept == old(report.kept) + if n in current && Keeps(vs, n) then {n} else {}
    ensures report.stillOldShape == old(report.stillOldShape)
      + if n in current && Reshapes(current, vs, recs, n) && n in refusals.swaps then {n} else {}
  {
    var v := vs[n];
    if !v.Publishable() {
      if n in current && v.KeepsMembership() {
        report.kept := report.kept + {n};
      } else {
        report.excluded := report.excluded + {n};
      }
      return;
    }
    if n !in current {
      var ok := pub.AddTable(n, Wanted(v.candidate), n in refusals.adds);
      if !ok {
        report.excluded := report.excluded + {n};
      }
    } else if !Matches(v.candidate, current[n], RecordOf(recs, n)) {
      var ok := pub.ReplaceTable(n, Wanted(v.candidate), n in refusals.swaps);
      if !ok {
        report.stillOldShape := report.stillOldShape + {n};
      }
    }
  }
}
