/**
 Why the slot is made before the subscription: creating a slot waits for every
 older transaction on its server, and a pass that waits holds no transaction
 anywhere else. Had the subscription made its own slot, inside its transaction
 on the target, a ring of replications would wait for each other for ever.
 */
module SlotOrdering {
  import opened Wrappers

  type Server = nat

  datatype Transaction = Transaction(server: Server, start: nat)

  /** What one pass, or any other client of the servers, is doing. */
  datatype Phase =
    | Idle
    | Working(t: Transaction, next: Option<Server>)               // ends, or goes on to make a slot there
    | Creating(enclosing: Option<Transaction>, slot: Transaction)  // waiting to make a slot

  datatype State = State(clock: nat, phases: seq<Phase>)

  datatype Action = Rest | Open(server: Server, next: Option<Server>) | CreateSlot(server: Server)

  datatype Turn = Turn(pass: nat, action: Action)

  predicate Older(u: Transaction, t: Transaction) {
    u.server == t.server && u.start < t.start
  }

  predicate HoldsOlder(p: Phase, t: Transaction) {
    match p
    case Idle => false
    case Working(u, _) => Older(u, t)
    case Creating(enclosing, u) => Older(u, t) || (enclosing.Some? && Older(enclosing.value, t))
  }

  /** The others a slot creation by `pass` waits for. */
  function WaitsFor(s: State, pass: nat, t: Transaction): set<nat> {
    set j: nat | j < |s.phases| && j != pass && HoldsOlder(s.phases[j], t)
  }

  function Take(s: State, turn: Turn): (r: State)
    requires turn.pass < |s.phases|
    ensures |r.phases| == |s.phases|
  {
    var p := s.phases[turn.pass];
    match p
    case Idle =>
      (match turn.action
       case Rest => s
       case Open(server, next) =>
         State(s.clock + 1, s.phases[turn.pass := Working(Transaction(server, s.clock), next)])
       case CreateSlot(server) =>
         State(s.clock + 1, s.phases[turn.pass := Creating(None, Transaction(server, s.clock))]))
    case Working(t, None) => s.(phases := s.phases[turn.pass := Idle])
    case Working(t, Some(source)) =>
      State(s.clock + 1, s.phases[turn.pass := Creating(Some(t), Transaction(source, s.clock))])
    case Creating(_, t) =>
      if WaitsFor(s, turn.pass, t) == {} then s.(phases := s.phases[turn.pass := Idle]) else s
  }

  ghost predicate TurnsOf(n: nat, turns: seq<Turn>) {
    forall k :: 0 <= k < |turns| ==> turns[k].pass < n
  }

  function Run(s: State, turns: seq<Turn>): (r: State)
    requires TurnsOf(|s.phases|, turns)
    ensures |r.phases| == |s.phases|
    decreases |turns|
  {
    if turns == [] then s else Run(Take(s, turns[0]), turns[1..])
  }

  // -------------------------------------- slots made in transactions of their own

  /** No transaction encloses or is to enclose the making of a slot. */
  ghost predicate Separate(p: Phase) {
    (p.Working? ==> p.next.None?) && (p.Creating? ==> p.enclosing.None?)
  }

  ghost predicate SeparateTurns(turns: seq<Turn>) {
    forall k :: 0 <= k < |turns| ==> (turns[k].action.Open? ==> turns[k].action.next.None?)
  }

  function Current(p: Phase): Transaction
    requires !p.Idle?
  {
    if p.Working? then p.t else p.slot
  }

  ghost predicate Settled(p: Phase, clock: nat) {
    Separate(p) && (!p.Idle? ==> Current(p).start < clock)
  }

  ghost predicate Inv(s: State) {
    forall j: nat :: j < |s.phases| ==> Settled(s.phases[j], s.clock)
  }

  /** One turn keeps the order of starts, and no later transaction gets in front of one that waits. */
  lemma TurnKeeps(s: State, turn: Turn)
    requires Inv(s) && turn.pass < |s.phases| && SeparateTurns([turn])
    ensures Inv(Take(s, turn)) && Take(s, turn).clock >= s.clock
    ensures forall pass: nat, t: Transaction :: t.start < s.clock ==>
              WaitsFor(Take(s, turn), pass, t) <= WaitsFor(s, pass, t)
    ensures forall j: nat :: j < |s.phases| && j != turn.pass ==> Take(s, turn).phases[j] == s.phases[j]
  {
    assert [turn][0] == turn;
  }

  /** Waiting follows the order of starts, so no chain of waits comes back to where it began. */
  lemma {:induction false} NoCircularWait(s: State, chain: seq<nat>)
    requires Inv(s) && |chain| > 1
    requires forall k :: 0 <= k < |chain| ==> chain[k] < |s.phases| && !s.phases[chain[k]].Idle?
    requires forall k :: 0 <= k < |chain| - 1 ==>
               chain[k + 1] in WaitsFor(s, chain[k], Current(s.phases[chain[k]]))
    ensures Older(Current(s.phases[chain[|chain| - 1]]), Current(s.phases[chain[0]]))
    ensures chain[0] != chain[|chain| - 1]
  {
    assert chain[0 + 1] in WaitsFor(s, chain[0], Current(s.phases[chain[0]]));
    assert Settled(s.phases[chain[1]], s.clock);
    if |chain| > 2 {
      var rest := chain[1..];
      forall k | 0 <= k < |rest| - 1 ensures rest[k + 1] in WaitsFor(s, rest[k], Current(s.phases[rest[k]])) {
        assert chain[k + 1 + 1] in WaitsFor(s, chain[k + 1], Current(s.phases[chain[k + 1]]));
      }
      NoCircularWait(s, rest);
    }
  }

  /** The transaction that waits, still there after some turns or not. */
  predicate Waiting(s: State, pass: nat, t: Transaction) {
    pass < |s.phases| && s.phases[pass] == Creating(None, t)
  }

  predicate Takes(turns: seq<Turn>, pass: nat) {
    exists k :: 0 <= k < |turns| && turns[k].pass == pass
  }

  lemma {:induction false} RunKeeps(s: State, turns: seq<Turn>, pass: nat, t: Transaction)
    requires Inv(s) && TurnsOf(|s.phases|, turns) && SeparateTurns(turns) && t.start < s.clock
    ensures Inv(Run(s, turns)) && Run(s, turns).clock >= s.clock
    ensures WaitsFor(Run(s, turns), pass, t) <= WaitsFor(s, pass, t)
    ensures Waiting(Run(s, turns), pass, t) ==> Waiting(s, pass, t)
    decreases |turns|
  {
    if turns != [] {
      var next := Take(s, turns[0]);
      assert turns[0].action.Open? ==> turns[0].action.next.None?;
      TurnKeeps(s, turns[0]);
      RunKeeps(next, turns[1..], pass, t);
    }
  }

  /** A transaction with nothing older in its way is over once its turn has come. */
  lemma {:induction false} UnblockedEnds(s: State, turns: seq<Turn>, j: nat, pass: nat, t: Transaction)
    requires Inv(s) && TurnsOf(|s.phases|, turns) && SeparateTurns(turns) && t.start < s.clock
    requires j < |s.phases| && Takes(turns, j)
    requires !s.phases[j].Idle? && WaitsFor(s, j, Current(s.phases[j])) == {}
    ensures j !in WaitsFor(Run(s, turns), pass, t)
    ensures Waiting(s, j, t) ==> !Waiting(Run(s, turns), j, t)
    decreases |turns|
  {
    var next := Take(s, turns[0]);
    assert turns[0].action.Open? ==> turns[0].action.next.None?;
    TurnKeeps(s, turns[0]);
    if turns[0].pass == j {
      assert next.phases[j] == Idle;
      RunKeeps(next, turns[1..], pass, t);
      RunKeeps(next, turns[1..], j, t);
    } else {
      var k :| 0 <= k < |turns| && turns[k].pass == j;
      assert turns[1..][k - 1].pass == j;
      UnblockedEnds(next, turns[1..], j, pass, t);
    }
  }

  /** Of those a transaction waits for, the oldest waits for nobody. */
  lemma {:induction false} OldestIsFree(s: State, pass: nat) returns (j: nat)
    requires Inv(s) && pass < |s.phases| && !s.phases[pass].Idle?
    requires WaitsFor(s, pass, Current(s.phases[pass])) != {}
    ensures j in WaitsFor(s, pass, Current(s.phases[pass]))
    ensures WaitsFor(s, j, Current(s.phases[j])) == {}
    decreases Current(s.phases[pass]).start
  {
    assert Settled(s.phases[pass], s.clock);
    j :| j in WaitsFor(s, pass, Current(s.phases[pass]));
    assert Settled(s.phases[j], s.clock);
    if WaitsFor(s, j, Current(s.phases[j])) != {} {
      var i := OldestIsFree(s, j);
      assert Settled(s.phases[i], s.clock);
      assert HoldsOlder(s.phases[i], Current(s.phases[pass]));
      j := i;
    }
  }

  lemma Smaller(a: set<nat>, b: set<nat>, x: nat)
    requires a <= b && x in b && x !in a
    ensures |a| < |b|
  {
    Within(a, b - {x});
  }

  lemma Within(a: set<nat>, b: set<nat>)
    requires a <= b
    ensures |a| <= |b|
  {
    if a != {} {
      var x :| x in a;
      Within(a - {x}, b - {x});
    }
  }

  /** A stretch in which everybody has a turn, doing whatever they like but enclosing a slot. */
  ghost predicate IsRound(n: nat, turns: seq<Turn>) {
    TurnsOf(n, turns) && SeparateTurns(turns) && forall j: nat :: j < n ==> Takes(turns, j)
  }

  function RunRounds(s: State, rounds: seq<seq<Turn>>): (r: State)
    requires forall k :: 0 <= k < |rounds| ==> IsRound(|s.phases|, rounds[k])
    ensures |r.phases| == |s.phases|
    decreases |rounds|
  {
    if rounds == [] then s
    else
      assert IsRound(|s.phases|, rounds[0]);
      RunRounds(Run(s, rounds[0]), rounds[1..])
  }

  /** A round in which a slot is not made removes one of those it waits for, for good. */
  lemma RoundCounts(s: State, turns: seq<Turn>, pass: nat, t: Transaction)
    requires Inv(s) && Waiting(s, pass, t) && IsRound(|s.phases|, turns)
    requires Waiting(Run(s, turns), pass, t)
    ensures |WaitsFor(Run(s, turns), pass, t)| < |WaitsFor(s, pass, t)|
  {
    assert Current(s.phases[pass]) == t && t.start < s.clock;
    assert Takes(turns, pass);
    if WaitsFor(s, pass, t) == {} {
      UnblockedEnds(s, turns, pass, pass, t);
    } else {
      var j := OldestIsFree(s, pass);
      assert Takes(turns, j);
      UnblockedEnds(s, turns, j, pass, t);
      RunKeeps(s, turns, pass, t);
      Smaller(WaitsFor(Run(s, turns), pass, t), WaitsFor(s, pass, t), j);
    }
  }

  /**
   However many replications run in whatever ring, a slot is made within one
   round more than the number of transactions it found running on its server.
   */
  lemma {:induction false} SlotIsMade(s: State, rounds: seq<seq<Turn>>, pass: nat, t: Transaction)
    requires Inv(s) && Waiting(s, pass, t)
    requires forall k :: 0 <= k < |rounds| ==> IsRound(|s.phases|, rounds[k])
    requires |rounds| > |WaitsFor(s, pass, t)|
    ensures !Waiting(RunRounds(s, rounds), pass, t)
    decreases |rounds|
  {
    assert Current(s.phases[pass]) == t && t.start < s.clock;
    var next, rest := Run(s, rounds[0]), rounds[1..];
    assert IsRound(|s.phases|, rounds[0]);
    RunKeeps(s, rounds[0], pass, t);
    if Waiting(next, pass, t) {
      RoundCounts(s, rounds[0], pass, t);
      SlotIsMade(next, rest, pass, t);
    } else {
      StaysOver(next, rest, pass, t);
    }
  }

  lemma {:induction false} StaysOver(s: State, rounds: seq<seq<Turn>>, pass: nat, t: Transaction)
    requires Inv(s) && !Waiting(s, pass, t) && t.start < s.clock
    requires forall k :: 0 <= k < |rounds| ==> IsRound(|s.phases|, rounds[k])
    ensures !Waiting(RunRounds(s, rounds), pass, t)
    decreases |rounds|
  {
    if rounds != [] {
      assert IsRound(|s.phases|, rounds[0]);
      RunKeeps(s, rounds[0], pass, t);
      StaysOver(Run(s, rounds[0]), rounds[1..], pass, t);
    }
  }

  // --------------------------------- slots made inside the subscription's transaction

  /** Pass `i` replicates from server `i` to the next one round the ring. */
  function Next(i: nat, n: nat): nat
    requires i < n
  {
    if i + 1 == n then 0 else i + 1
  }

  function Prior(i: nat, n: nat): (j: nat)
    requires i < n
    ensures j < n && Next(j, n) == i
  {
    if i == 0 then n - 1 else i - 1
  }

  /** All subscriptions begin on their targets, then all ask for their slots. */
  function RingTurns(n: nat): seq<Turn> {
    seq(n, i requires 0 <= i < n => Turn(i, Open(Next(i, n), Some(i)))) + seq(n, i requires 0 <= i < n => Turn(i, Rest))
  }

  function Begun(n: nat, k: nat): State
    requires k <= n
  {
    State(k, seq(n, i requires 0 <= i < n => if i < k then Working(Transaction(Next(i, n), i), Some(i)) else Idle))
  }

  function Asked(n: nat, k: nat): State
    requires k <= n
  {
    State(n + k, seq(n, i requires 0 <= i < n =>
      if i < k then Creating(Some(Transaction(Next(i, n), i)), Transaction(i, n + i))
      else Working(Transaction(Next(i, n), i), Some(i))))
  }

  lemma {:induction false} RingBegins(n: nat, k: nat)
    requires k <= n
    ensures TurnsOf(n, RingTurns(n)[k..])
    ensures Run(Begun(n, k), RingTurns(n)[k..]) == Run(Asked(n, 0), RingTurns(n)[n..])
    decreases n - k
  {
    var turns := RingTurns(n);
    if k == n {
      assert Begun(n, n) == Asked(n, 0);
    } else {
      assert turns[k..][0] == Turn(k, Open(Next(k, n), Some(k)));
      assert turns[k..][1..] == turns[k + 1..];
      assert Take(Begun(n, k), turns[k]).phases == Begun(n, k + 1).phases;
      RingBegins(n, k + 1);
    }
  }

  lemma {:induction false} RingAsks(n: nat, k: nat)
    requires k <= n
    ensures TurnsOf(n, RingTurns(n)[n + k..])
    ensures Run(Asked(n, k), RingTurns(n)[n + k..]) == Asked(n, n)
    decreases n - k
  {
    var turns := RingTurns(n);
    if k < n {
      assert turns[n + k..][0] == Turn(k, Rest);
      assert turns[n + k..][1..] == turns[n + k + 1..];
      assert Take(Asked(n, k), turns[n + k]).phases == Asked(n, k + 1).phases;
      RingAsks(n, k + 1);
    }
  }

  lemma EveryoneWaits(n: nat, i: nat)
    requires n >= 2 && i < n
    ensures Prior(i, n) in WaitsFor(Asked(n, n), i, Transaction(i, n + i))
  {
    var j := Prior(i, n);
    assert Asked(n, n).phases[j] == Creating(Some(Transaction(i, j)), Transaction(j, n + j));
  }

  lemma {:induction false} NobodyMoves(n: nat, turns: seq<Turn>)
    requires n >= 2 && TurnsOf(n, turns)
    ensures Run(Asked(n, n), turns) == Asked(n, n)
  {
    if turns != [] {
      var i := turns[0].pass;
      EveryoneWaits(n, i);
      assert Asked(n, n).phases[i] == Creating(Some(Transaction(Next(i, n), i)), Transaction(i, n + i));
      NobodyMoves(n, turns[1..]);
    }
  }

  /**
   The same ring with each slot made inside the subscription's transaction, of
   any size from two: it reaches a state in which every replication waits for
   another, and no turn ever changes anything again.
   */
  lemma EnclosedSlotsDeadlock(n: nat, later: seq<Turn>)
    requires n >= 2 && TurnsOf(n, later)
    ensures var idle := State(0, seq(n, _ => Idle));
      && TurnsOf(n, RingTurns(n))
      && var stuck := Run(idle, RingTurns(n));
      && (forall i: nat :: i < n ==> stuck.phases[i].Creating?)
      && (forall i: nat :: i < n ==> WaitsFor(stuck, i, stuck.phases[i].slot) != {})
      && Run(stuck, later) == stuck
  {
    assert State(0, seq(n, _ => Idle)) == Begun(n, 0);
    assert RingTurns(n)[0..] == RingTurns(n);
    assert RingTurns(n)[n..] == RingTurns(n)[n + 0..];
    RingBegins(n, 0);
    RingAsks(n, 0);
    forall i: nat | i < n ensures WaitsFor(Asked(n, n), i, Asked(n, n).phases[i].slot) != {} {
      EveryoneWaits(n, i);
    }
    NobodyMoves(n, later);
  }
}
