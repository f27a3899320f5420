/**
 * Replication of the mainnet operator set to a rollup. Transactions once sent may execute at any
 * later time or never, whatever their sender was told, and retries send them again. Rollups share
 * nothing, so one rollup is modelled.
 */
module Replication {
  import opened Sums
  import opened OperatorSetDelta
  import opened RollupRegistry

  // ---------------------------------------------------------------------------------------------
  // What one transaction does

  /** The weights of `ws` are those of the list. */
  ghost predicate Matches(ws: Weights, ops: seq<Operator>) {
    forall p :: WeightIn(ws, p) == Weight(ops, p)
  }

  lemma {:induction false} AppliedWeight(ws: Weights, ops: seq<Operator>, p: Pubkey)
    ensures WeightIn(Applied(ws, ops), p) == if Occurs(ops, p) then Weight(ops, p) else WeightIn(ws, p)
  {
    if ops != [] {
      var front, o := ops[..|ops| - 1], ops[|ops| - 1];
      AppliedWeight(ws, front, p);
      OccursSnoc(front, o, p);
      assert ops == front + [o];
    }
  }

  lemma {:induction false} DistinctIsUpdatable(ws: Weights, ops: seq<Operator>)
    requires forall i, j :: 0 <= i < j < |ops| ==> ops[i].pubkey != ops[j].pubkey
    ensures Updatable(ws, ops) <==> forall i :: 0 <= i < |ops| ==> ops[i].weight != WeightIn(ws, ops[i].pubkey)
  {
    if ops != [] {
      var n := |ops| - 1;
      DistinctIsUpdatable(ws, ops[..n]);
      AppliedWeight(ws, ops[..n], ops[n].pubkey);
      assert !Occurs(ops[..n], ops[n].pubkey);
    }
  }

  /** The contract writes the delta on the set it was taken from if the totals fit, and it yields the next set. */
  lemma DeltaApplies(ws: Weights, previous: seq<Operator>, next: seq<Operator>, delta: seq<Operator>)
    requires Matches(ws, previous) && IsDelta(previous, next, delta)
    ensures (Writes(ws, delta) <==> Fits(ws, delta)) && Matches(Applied(ws, delta), next)
  {
    DistinctIsUpdatable(ws, delta);
    forall p ensures WeightIn(Applied(ws, delta), p) == Weight(next, p) {
      AppliedWeight(ws, delta, p);
      DeltaRoundTrip(previous, next, delta, p);
    }
  }

  /** Writing a whole list over a weightless set yields the list. */
  lemma InitialApplies(ws: Weights, ops: seq<Operator>)
    requires TotalOf(ws) == 0
    ensures Matches(Applied(ws, ops), ops)
  {
    NoTotalIffNoMembers(ws);
    forall p ensures WeightIn(Applied(ws, ops), p) == Weight(ops, p) {
      AppliedWeight(ws, ops, p);
      NoWeightUnlessListed(ops, p);
    }
  }

  /** Over a weightless set the total only grows, so that it fits throughout if it fits at the end. */
  lemma {:induction false} InitialFitsIff(ws: Weights, ops: seq<Operator>)
    requires forall i, j :: 0 <= i < j < |ops| ==> ops[i].pubkey != ops[j].pubkey
    requires TotalOf(ws) == 0
    ensures Fits(ws, ops) <==> TotalOf(Applied(ws, ops)) < U128
  {
    if ops != [] {
      var n := |ops| - 1;
      InitialFitsIff(ws, ops[..n]);
      NoTotalIffNoMembers(ws);
      AppliedWeight(ws, ops[..n], ops[n].pubkey);
      TotalAfter(Applied(ws, ops[..n]), ops[n].pubkey, ops[n].weight);
      assert !Occurs(ops[..n], ops[n].pubkey);
    }
  }

  /** A list without repeated keys initialises a rollup exactly if nobody on it lacks weight and the total fits. */
  lemma InitialisesIff(ws: Weights, ops: seq<Operator>)
    requires forall i, j :: 0 <= i < j < |ops| ==> ops[i].pubkey != ops[j].pubkey
    requires TotalOf(ws) == 0
    ensures Writes(ws, ops) <==>
      (forall i :: 0 <= i < |ops| ==> ops[i].weight != 0) && TotalOf(Applied(ws, ops)) < U128
  {
    NoTotalIffNoMembers(ws);
    DistinctIsUpdatable(ws, ops);
    InitialFitsIff(ws, ops);
  }

  // ---------------------------------------------------------------------------------------------
  // The system

  datatype Tx =
    | InitTx(k: nat, ops: seq<Operator>)
    | UpdateTx(id: nat, delta: seq<Operator>)

  /** `history[k]` is the mainnet set of update `k`; `log` has the rollup's next id after each change. */
  datatype System = System(history: seq<seq<Operator>>, replica: Replica, sent: seq<Tx>, log: seq<nat>)

  datatype Action =
    | MainnetUpdate(ops: seq<Operator>)
    | Send(tx: Tx)
    | Execute(i: nat, verified: bool)

  ghost function Previous(history: seq<seq<Operator>>, id: nat): seq<Operator>
    requires id <= |history|
  {
    if id == 0 then [] else history[id - 1]
  }

  /** Initialisation sends a mainnet set; update messages carry the delta of their id. */
  ghost predicate TxOk(history: seq<seq<Operator>>, tx: Tx) {
    match tx
    case InitTx(k, ops) => k < |history| && ops == history[k]
    case UpdateTx(id, delta) => id < |history| && IsDelta(Previous(history, id), history[id], delta)
  }

  ghost predicate Enabled(s: System, a: Action) {
    match a
    case MainnetUpdate(_) => true
    case Send(tx) => TxOk(s.history, tx)
    case Execute(i, _) => i < |s.sent|
  }

  ghost function Effect(s: System, tx: Tx, verified: bool): Replica {
    match tx
    case InitTx(k, ops) => SetInitial(s.replica, ops, k + 1)
    case UpdateTx(id, delta) => UpdateSet(s.replica, id, delta, verified)
  }

  /** An executed transaction stays available, as it may have been sent more than once. */
  ghost function Next(s: System, a: Action): System
    requires Enabled(s, a)
  {
    match a
    case MainnetUpdate(ops) => s.(history := s.history + [ops])
    case Send(tx) => s.(sent := s.sent + [tx])
    case Execute(i, verified) =>
      var r := Effect(s, s.sent[i], verified);
      s.(replica := r, log := if r == s.replica then s.log else s.log + [r.next])
  }

  ghost predicate Init(s: System) {
    s.replica == Replica(map[], 0) && s.sent == [] && s.log == []
  }

  /** A mainnet set in which nobody has weight. */
  ghost predicate Weightless(ops: seq<Operator>) {
    forall p :: Weight(ops, p) == 0
  }

  ghost predicate InStep(s: System) {
    s.replica.next <= |s.history| && Matches(s.replica.weights, Previous(s.history, s.replica.next))
  }

  /** Each change goes to the next id, unless it starts from a weightless set. */
  ghost predicate LogOk(s: System) {
    && (if s.log == [] then s.replica.next == 0 else s.log[|s.log| - 1] == s.replica.next)
    && (forall i :: 0 <= i < |s.log| ==> 0 < s.log[i] <= |s.history|)
    && (forall i :: 0 < i < |s.log| ==> s.log[i] == s.log[i - 1] + 1 || Weightless(s.history[s.log[i - 1] - 1]))
  }

  ghost predicate Inv(s: System) {
    (forall tx <- s.sent :: TxOk(s.history, tx)) && InStep(s) && LogOk(s)
  }

  lemma TxStaysOk(history: seq<seq<Operator>>, ops: seq<Operator>, tx: Tx)
    requires TxOk(history, tx)
    ensures TxOk(history + [ops], tx)
  {
  }

  /** What a transaction that changes the rollup does. */
  lemma EffectIsNext(s: System, tx: Tx, verified: bool)
    requires InStep(s) && TxOk(s.history, tx) && Effect(s, tx, verified) != s.replica
    ensures var r := Effect(s, tx, verified);
      && 0 < r.next <= |s.history| && Matches(r.weights, s.history[r.next - 1])
      && match tx
         case InitTx(k, _) => r.next == k + 1 && Weightless(Previous(s.history, s.replica.next))
         case UpdateTx(id, _) => id == s.replica.next && r.next == id + 1 && !Weightless(Previous(s.history, id))
  {
    NoTotalIffNoMembers(s.replica.weights);
    match tx
    case InitTx(k, ops) =>
      InitialApplies(s.replica.weights, ops);
    case UpdateTx(id, delta) =>
      DeltaApplies(s.replica.weights, Previous(s.history, id), s.history[id], delta);
  }

  lemma MainnetKeepsInv(s: System, ops: seq<Operator>)
    requires Inv(s)
    ensures Inv(Next(s, MainnetUpdate(ops)))
  {
    var t := Next(s, MainnetUpdate(ops));
    forall tx | tx in s.sent ensures TxOk(t.history, tx) {
      TxStaysOk(s.history, ops, tx);
    }
    assert Previous(t.history, s.replica.next) == Previous(s.history, s.replica.next);
    forall i | 0 < i < |t.log| ensures t.log[i] == t.log[i - 1] + 1 || Weightless(t.history[t.log[i - 1] - 1]) {
      assert t.history[t.log[i - 1] - 1] == s.history[s.log[i - 1] - 1];
    }
  }

  lemma LogKeepsOk(s: System, r: Replica)
    requires InStep(s) && LogOk(s) && 0 < r.next <= |s.history|
    requires r.next == s.replica.next + 1 || Weightless(Previous(s.history, s.replica.next))
    ensures LogOk(s.(replica := r, log := s.log + [r.next]))
  {
  }

  lemma ExecuteKeepsInv(s: System, i: nat, verified: bool)
    requires Inv(s) && i < |s.sent|
    ensures Inv(Next(s, Execute(i, verified)))
  {
    var r := Effect(s, s.sent[i], verified);
    assert TxOk(s.history, s.sent[i]);
    if r == s.replica {
      assert Next(s, Execute(i, verified)) == s;
    } else {
      EffectIsNext(s, s.sent[i], verified);
      LogKeepsOk(s, r);
    }
  }

  lemma NextKeepsInv(s: System, a: Action)
    requires Inv(s) && Enabled(s, a)
    ensures Inv(Next(s, a))
  {
    match a
    case MainnetUpdate(ops) => MainnetKeepsInv(s, ops);
    case Send(_) =>
    case Execute(i, verified) => ExecuteKeepsInv(s, i, verified);
  }

  ghost predicate IsRun(states: seq<System>, actions: seq<Action>) {
    && |states| == |actions| + 1 && Init(states[0])
    && forall i {:trigger actions[i]} :: 0 <= i < |actions| ==>
      Enabled(states[i], actions[i]) && states[i + 1] == Next(states[i], actions[i])
  }

  lemma {:induction false} InvThroughout(states: seq<System>, actions: seq<Action>, n: nat)
    requires IsRun(states, actions) && n < |states|
    ensures Inv(states[n])
  {
    if n > 0 {
      InvThroughout(states, actions, n - 1);
      assert states[n] == Next(states[n - 1], actions[n - 1]);
      NextKeepsInv(states[n - 1], actions[n - 1]);
    }
  }

  /** In every state of every run the rollup holds exactly the mainnet set before its next id. */
  lemma ReplicaMatchesMainnet(states: seq<System>, actions: seq<Action>, n: nat, p: Pubkey)
    requires IsRun(states, actions) && n < |states|
    ensures var r := states[n].replica;
      && r.next <= |states[n].history|
      && WeightIn(r.weights, p) == if r.next == 0 then 0 else Weight(states[n].history[r.next - 1], p)
  {
    InvThroughout(states, actions, n);
  }

  /**
   * No update is skipped or applied twice: after each change the rollup goes on to the very next id,
   * unless the mainnet set it then held was weightless.
   */
  lemma UpdatesInOrder(states: seq<System>, actions: seq<Action>, n: nat, i: nat)
    requires IsRun(states, actions) && n < |states| && 0 < i < |states[n].log|
    ensures var log := states[n].log;
      && 0 < log[i - 1] <= |states[n].history|
      && (log[i] == log[i - 1] + 1 || Weightless(states[n].history[log[i - 1] - 1]))
  {
    InvThroughout(states, actions, n);
  }

  /** The ids the rollup goes to only rise. */
  ghost predicate Rising(log: seq<nat>) {
    forall i :: 0 < i < |log| ==> log[i - 1] < log[i]
  }

  /** They rise by one. */
  ghost predicate Consecutive(log: seq<nat>) {
    forall i :: 0 < i < |log| ==> log[i] == log[i - 1] + 1
  }

  /** A step that initialises the rollup with list `k`, which the contract writes as the set held is weightless. */
  ghost predicate Initialises(s: System, a: Action, k: nat) {
    && a.Execute? && a.i < |s.sent| && s.sent[a.i].InitTx? && s.sent[a.i].k == k
    && s.replica.next <= |s.history| && Weightless(Previous(s.history, s.replica.next))
    && Writes(s.replica.weights, s.sent[a.i].ops)
    && Replica(Applied(s.replica.weights, s.sent[a.i].ops), k + 1) != s.replica
  }

  /** It takes the rollup to an id no higher than the one it has. */
  ghost predicate GoesBack(s: System, a: Action) {
    exists k: nat :: Initialises(s, a, k) && k + 1 <= s.replica.next
  }

  /** It takes a rollup that was initialised before to another id than the next. */
  ghost predicate Jumps(s: System, a: Action) {
    s.log != [] && exists k: nat :: Initialises(s, a, k) && k != s.replica.next
  }

  /** A step changes the log exactly by the id it takes the rollup to. */
  lemma StepLogs(s: System, a: Action)
    requires Inv(s) && Enabled(s, a)
    ensures var t := Next(s, a);
      || (t.log == s.log && forall k: nat :: !Initialises(s, a, k))
      || (t.log == s.log + [s.replica.next + 1] && forall k: nat :: !Initialises(s, a, k))
      || (exists k: nat :: t.log == s.log + [k + 1] && Initialises(s, a, k))
  {
    if a.Execute? {
      var tx := s.sent[a.i];
      NoTotalIffNoMembers(s.replica.weights);
      assert TxOk(s.history, tx);
      if Effect(s, tx, a.verified) != s.replica {
        EffectIsNext(s, tx, a.verified);
        if tx.InitTx? {
          assert Initialises(s, a, tx.k);
        }
      }
    }
  }

  lemma StepRisesIff(s: System, a: Action)
    requires Inv(s) && Enabled(s, a)
    ensures Rising(Next(s, a).log) <==> Rising(s.log) && !GoesBack(s, a)
    ensures Consecutive(Next(s, a).log) <==> Consecutive(s.log) && !Jumps(s, a)
  {
    StepLogs(s, a);
    var t := Next(s, a);
    if t.log != s.log {
      LogAppend(s.log, t.log[|s.log|]);
    }
  }

  lemma LogAppend(log: seq<nat>, id: nat)
    ensures Rising(log + [id]) <==> Rising(log) && (log == [] || log[|log| - 1] < id)
    ensures Consecutive(log + [id]) <==> Consecutive(log) && (log == [] || id == log[|log| - 1] + 1)
  {
    var after := log + [id];
    forall i | 0 < i < |log|
      ensures after[i - 1] < after[i] <==> log[i - 1] < log[i]
      ensures after[i] == after[i - 1] + 1 <==> log[i] == log[i - 1] + 1
    {
    }
    if log != [] {
      assert after[|log|] == id && after[|log| - 1] == log[|log| - 1];
    }
  }

  ghost predicate SomeStepGoesBack(states: seq<System>, actions: seq<Action>, n: nat)
    requires n <= |actions| <= |states|
  {
    exists k {:trigger actions[k]} :: 0 <= k < n && GoesBack(states[k], actions[k])
  }

  ghost predicate SomeStepJumps(states: seq<System>, actions: seq<Action>, n: nat)
    requires n <= |actions| <= |states|
  {
    exists k {:trigger actions[k]} :: 0 <= k < n && Jumps(states[k], actions[k])
  }

  lemma GoesBackNext(states: seq<System>, actions: seq<Action>, n: nat, before: bool)
    requires n < |actions| <= |states| && (before <==> !SomeStepGoesBack(states, actions, n))
    ensures before && !GoesBack(states[n], actions[n]) <==> !SomeStepGoesBack(states, actions, n + 1)
  {
  }

  lemma JumpsNext(states: seq<System>, actions: seq<Action>, n: nat, before: bool)
    requires n < |actions| <= |states| && (before <==> !SomeStepJumps(states, actions, n))
    ensures before && !Jumps(states[n], actions[n]) <==> !SomeStepJumps(states, actions, n + 1)
  {
  }

  lemma RunStep(states: seq<System>, actions: seq<Action>, n: nat)
    requires IsRun(states, actions) && n < |actions|
    ensures Rising(states[n + 1].log) <==> Rising(states[n].log) && !GoesBack(states[n], actions[n])
    ensures Consecutive(states[n + 1].log) <==> Consecutive(states[n].log) && !Jumps(states[n], actions[n])
  {
    InvThroughout(states, actions, n);
    StepRisesIff(states[n], actions[n]);
  }

  /** In every run the ids rise exactly if no initialisation goes back. */
  lemma {:induction false} IdsRiseIff(states: seq<System>, actions: seq<Action>, n: nat)
    requires IsRun(states, actions) && n < |states|
    ensures Rising(states[n].log) <==> !SomeStepGoesBack(states, actions, n)
  {
    if n == 0 {
      assert states[0].log == [];
    } else {
      IdsRiseIff(states, actions, n - 1);
      RunStep(states, actions, n - 1);
      GoesBackNext(states, actions, n - 1, Rising(states[n - 1].log));
    }
  }

  /** No update is skipped or applied twice exactly if no initialisation jumps. */
  lemma {:induction false} IdsConsecutiveIff(states: seq<System>, actions: seq<Action>, n: nat)
    requires IsRun(states, actions) && n < |states|
    ensures Consecutive(states[n].log) <==> !SomeStepJumps(states, actions, n)
  {
    if n == 0 {
      assert states[0].log == [];
    } else {
      IdsConsecutiveIff(states, actions, n - 1);
      RunStep(states, actions, n - 1);
      JumpsNext(states, actions, n - 1, Consecutive(states[n - 1].log));
    }
  }

  /**
   * Which transactions change the rollup: an update exactly when it is the next one, is verified, the
   * set it applies to has weight, and the totals fit; an initialisation exactly when that set is weightless, its list
   * is one the contract can write, and it is not the state already.
   */
  lemma ExecutesIff(states: seq<System>, actions: seq<Action>, n: nat, i: nat, verified: bool)
    requires IsRun(states, actions) && n < |states| && i < |states[n].sent|
    ensures states[n].replica.next <= |states[n].history|
    ensures var s := states[n];
      var here := Previous(s.history, s.replica.next);
      match s.sent[i]
      case InitTx(k, ops) =>
        Effect(s, s.sent[i], verified) == if Weightless(here) && Writes(s.replica.weights, ops)
                                          then Replica(Applied(s.replica.weights, ops), k + 1) else s.replica
      case UpdateTx(id, delta) =>
        Effect(s, s.sent[i], verified).next ==
          if id == s.replica.next && verified && !Weightless(here) && Fits(s.replica.weights, delta)
          then id + 1 else s.replica.next
  {
    InvThroughout(states, actions, n);
    var s := states[n];
    assert TxOk(s.history, s.sent[i]);
    NoTotalIffNoMembers(s.replica.weights);
    if s.sent[i].UpdateTx? && s.sent[i].id == s.replica.next {
      DeltaApplies(s.replica.weights, Previous(s.history, s.replica.next), s.history[s.sent[i].id], s.sent[i].delta);
    }
  }

  /** So a rollup that reached a weightless set takes no update again until it is initialised anew. */
  lemma WeightlessIsStuck(s: System, id: nat, delta: seq<Operator>, verified: bool)
    requires InStep(s) && Weightless(Previous(s.history, s.replica.next))
    ensures Effect(s, UpdateTx(id, delta), verified) == s.replica
  {
    NoTotalIffNoMembers(s.replica.weights);
  }

  lemma OneEntry(ws: Weights, o: Operator)
    ensures Applied(ws, [o]) == ws[o.pubkey := o.weight]
    ensures Writes(ws, [o]) <==>
      o.weight != WeightIn(ws, o.pubkey) && TotalOf(ws) - WeightIn(ws, o.pubkey) + o.weight < U128
  {
    assert [o][..0] == [];
    assert Applied(ws, [o][..0]) == ws && Writes(ws, [o][..0]);
    TotalAfter(ws, o.pubkey, o.weight);
  }

  /** Until the rollup is initialised with one operator. */
  lemma InitialisedRun(p: Pubkey) returns (states: seq<System>, actions: seq<Action>)
    ensures IsRun(states, actions)
    ensures states[|actions|] == System([[Operator(p, 1)]], Replica(map[p := 1], 1), [InitTx(0, [Operator(p, 1)])], [1])
  {
    var ops := [Operator(p, 1)];
    var s0 := System([], Replica(map[], 0), [], []);
    var s1 := s0.(history := [ops]);
    var s2 := s1.(sent := [InitTx(0, ops)]);
    var s3 := s2.(replica := Replica(map[p := 1], 1), log := [1]);
    NoTotalIffNoMembers(map[]);
    OneEntry(map[], Operator(p, 1));
    actions := [MainnetUpdate(ops), Send(InitTx(0, ops)), Execute(0, true)];
    states := [s0, s1, s2, s3];
    assert s1 == Next(s0, actions[0]) && s2 == Next(s1, actions[1]) && s3 == Next(s2, actions[2]);
  }

  lemma Extend(states: seq<System>, actions: seq<Action>, a: Action)
    requires IsRun(states, actions) && Enabled(states[|actions|], a)
    ensures IsRun(states + [Next(states[|actions|], a)], actions + [a])
  {
  }

  lemma OneMember(p: Pubkey)
    ensures TotalOf(map[p := 1]) == 1
  {
    var ws: Weights := map[p := 1];
    assert ws.Keys == {p};
    SumSingleton(ws, p);
  }

  /** The operator leaves and the rollup follows, to a weightless set. */
  lemma WeightlessRun(p: Pubkey) returns (states: seq<System>, actions: seq<Action>)
    ensures IsRun(states, actions)
    ensures var s := states[|actions|];
      s.replica == Replica(map[p := 0], 2) && |s.sent| > 0 && s.sent[0] == InitTx(0, [Operator(p, 1)])
  {
    states, actions := InitialisedRun(p);
    var s, gone := states[|actions|], UpdateTx(1, [Operator(p, 0)]);
    Extend(states, actions, MainnetUpdate([]));
    s := s.(history := s.history + [[]]);
    states, actions := states + [s], actions + [MainnetUpdate([])];
    LeavingIsDelta(p);
    Extend(states, actions, Send(gone));
    s := s.(sent := s.sent + [gone]);
    states, actions := states + [s], actions + [Send(gone)];
    OneMember(p);
    OneEntry(map[p := 1], Operator(p, 0));
    Extend(states, actions, Execute(1, true));
    states, actions := states + [Next(s, Execute(1, true))], actions + [Execute(1, true)];
  }

  lemma LeavingIsDelta(p: Pubkey)
    ensures IsDelta([Operator(p, 1)], [], [Operator(p, 0)])
  {
    assert [Operator(p, 1)][..0] == [];
    assert [Operator(p, 0)][0].pubkey == p;
  }

  /**
   * A late copy of the initialisation then takes the rollup back to an old id. Transactions of one
   * account execute in the order of their nonces, so here the update between the two copies was
   * submitted by another account, as `updateOperatorSet` allows.
   */
  lemma LateInitGoesBack(p: Pubkey) returns (states: seq<System>, actions: seq<Action>)
    ensures IsRun(states, actions) && |actions| > 0
    ensures states[|actions| - 1].replica.next == 2 && states[|actions|].replica.next == 1
  {
    states, actions := WeightlessRun(p);
    var s := states[|actions|];
    NoTotalIffNoMembers(map[p := 0]);
    OneEntry(map[p := 0], Operator(p, 1));
    Extend(states, actions, Execute(0, true));
    states, actions := states + [Next(s, Execute(0, true))], actions + [Execute(0, true)];
  }

  // ---------------------------------------------------------------------------------------------
  // The writer

  const RETRIES := 5

  /** What happens to one attempt. A sent transaction may execute whether or not an error is returned. */
  datatype Attempt = Attempt(
    optsOk: bool, readOk: bool, assembleOk: bool, executes: bool, verified: bool, sendOk: bool, cancelled: bool)

  datatype WriteResult = Written | Cancelled | RetriesExhausted

  /** The transaction of such an attempt gets to change the rollup. */
  predicate UpdateLands(a: Attempt) {
    a.optsOk && a.readOk && a.assembleOk && a.executes && a.verified
  }

  /** One of the first `n` attempts landed. */
  ghost predicate UpdateLanded(attempts: seq<Attempt>, n: nat)
    requires n <= |attempts|
  {
    exists j :: 0 <= j < n && UpdateLands(attempts[j])
  }

  /** The update is the next one of a set with weight, and the contract can write it. */
  ghost predicate Applicable(r: Replica, id: nat, delta: seq<Operator>) {
    r.next == id && TotalOf(r.weights) != 0 && Writes(r.weights, delta)
  }

  /**
   * The attempt ends without error: it reads that the update is not the next one, from the start or
   * because an earlier attempt has landed, or its transaction is sent.
   */
  ghost predicate UpdateSucceeds(r: Replica, id: nat, delta: seq<Operator>, attempts: seq<Attempt>, i: nat)
    requires i < |attempts|
  {
    && attempts[i].optsOk && attempts[i].readOk
    && (|| r.next != id
        || (Applicable(r, id, delta) && UpdateLanded(attempts, i))
        || (attempts[i].assembleOk && attempts[i].sendOk))
  }

  /** What the loop has made of the rollup after `n` attempts. */
  ghost predicate UpdateWrote(r: Replica, id: nat, delta: seq<Operator>, attempts: seq<Attempt>, n: nat, now: Replica)
    requires n <= |attempts|
  {
    now ==
      if Applicable(r, id, delta) && UpdateLanded(attempts, n) then Replica(Applied(r.weights, delta), id + 1) else r
  }

  lemma LandedMore(attempts: seq<Attempt>, n: nat)
    requires n < |attempts|
    ensures UpdateLanded(attempts, n + 1) <==> UpdateLanded(attempts, n) || UpdateLands(attempts[n])
  {
  }

  /**
   * `RollupWriter.UpdateOperatorSet`: the retry loop. It makes at most five attempts, and stops before
   * that exactly at the first that succeeds or is cancelled; whatever happens to them, the update is
   * applied once if one of them landed and it was applicable, and otherwise nothing is.
   */
  method UpdateOperatorSet(rollup: OperatorSet, id: nat, delta: seq<Operator>, attempts: seq<Attempt>)
      returns (result: WriteResult, ghost made: nat)
    requires rollup.Valid() && |attempts| == 5
    modifies rollup
    ensures rollup.Valid() && 1 <= made <= 5
    ensures forall i :: 0 <= i < made - 1 ==>
      !UpdateSucceeds(old(rollup.State()), id, delta, attempts, i) && !attempts[i].cancelled
    ensures var succeeds := UpdateSucceeds(old(rollup.State()), id, delta, attempts, made - 1);
      && (result == Written <==> succeeds)
      && (result == Cancelled <==> !succeeds && attempts[made - 1].cancelled)
      && (result == RetriesExhausted <==> made == 5 && !succeeds && !attempts[4].cancelled)
    ensures UpdateWrote(old(rollup.State()), id, delta, attempts, made, rollup.State())
  {
    ghost var r := rollup.State();
    for i := 0 to RETRIES
      invariant rollup.Valid() && UpdateWrote(r, id, delta, attempts, i, rollup.State())
      invariant forall j :: 0 <= j < i ==> !UpdateSucceeds(r, id, delta, attempts, j) && !attempts[j].cancelled
    {
      var a := attempts[i];
      made := i + 1;
      LandedMore(attempts, i);
      if a.optsOk && a.readOk {
        if id != rollup.nextOperatorUpdateId {
          return Written, made;
        }
        if a.assembleOk {
          if a.executes {
            var _ := rollup.UpdateOperatorSet(id, delta, a.verified);
          }
          if a.sendOk {
            return Written, made;
          }
        }
      }
      if a.cancelled {
        return Cancelled, made;
      }
    }
    return RetriesExhausted, 5;
  }

  /** Writing the same list again changes nothing. */
  lemma InitTwice(r: Replica, ops: seq<Operator>, next: nat)
    ensures SetInitial(SetInitial(r, ops, next), ops, next) == SetInitial(r, ops, next)
  {
    var once := Applied(r.weights, ops);
    AppliedTwice(r.weights, ops);
  }

  lemma AppliedTwice(ws: Weights, ops: seq<Operator>)
    ensures Applied(Applied(ws, ops), ops) == Applied(ws, ops)
  {
    var once := Applied(ws, ops);
    var twice := Applied(once, ops);
    AppliedKeys(ws, ops);
    AppliedKeys(once, ops);
    forall p | p in once ensures twice[p] == once[p] {
      AppliedWeight(ws, ops, p);
      AppliedWeight(once, ops, p);
    }
  }

  lemma {:induction false} AppliedKeys(ws: Weights, ops: seq<Operator>)
    ensures Applied(ws, ops).Keys == ws.Keys + set o <- ops :: o.pubkey
  {
    if ops != [] {
      var front, o := ops[..|ops| - 1], ops[|ops| - 1];
      AppliedKeys(ws, front);
      assert ops == front + [o];
    }
  }

  /** One of the first `n` attempts got to execute. */
  ghost predicate InitLanded(attempts: seq<Attempt>, n: nat)
    requires n <= |attempts|
  {
    exists j :: 0 <= j < n && attempts[j].optsOk && attempts[j].assembleOk && attempts[j].executes
  }

  ghost predicate InitWrote(r: Replica, ops: seq<Operator>, id: nat, attempts: seq<Attempt>, n: nat, now: Replica)
    requires n <= |attempts|
  {
    now == if TotalOf(r.weights) == 0 && Writes(r.weights, ops) && InitLanded(attempts, n)
           then Replica(Applied(r.weights, ops), id + 1) else r
  }

  predicate InitSucceeds(a: Attempt) {
    a.optsOk && a.assembleOk && a.sendOk
  }

  /**
   * `RollupWriter.InitializeOperatorSet`: at most five attempts, up to the first that succeeds or is
   * cancelled. The loop has no guard of its own, so every attempt may execute; the result is the same
   * as if one had.
   */
  method InitializeOperatorSet(rollup: OperatorSet, operators: seq<Operator>, id: nat, attempts: seq<Attempt>)
      returns (result: WriteResult, ghost made: nat)
    requires rollup.Valid() && |attempts| == 5
    modifies rollup
    ensures rollup.Valid() && 1 <= made <= 5
    ensures forall i :: 0 <= i < made - 1 ==> !InitSucceeds(attempts[i]) && !attempts[i].cancelled
    ensures var succeeds := InitSucceeds(attempts[made - 1]);
      && (result == Written <==> succeeds)
      && (result == Cancelled <==> !succeeds && attempts[made - 1].cancelled)
      && (result == RetriesExhausted <==> made == 5 && !succeeds && !attempts[4].cancelled)
    ensures InitWrote(old(rollup.State()), operators, id, attempts, made, rollup.State())
  {
    ghost var r := rollup.State();
    InitTwice(r, operators, id + 1);
    for i := 0 to RETRIES
      invariant rollup.Valid() && InitWrote(r, operators, id, attempts, i, rollup.State())
      invariant forall j :: 0 <= j < i ==> !InitSucceeds(attempts[j]) && !attempts[j].cancelled
    {
      var a := attempts[i];
      made := i + 1;
      assert InitLanded(attempts, made) <==> InitLanded(attempts, i) || (a.optsOk && a.assembleOk && a.executes);
      if a.optsOk && a.assembleOk {
        if a.executes {
          var _ := rollup.SetInitialOperatorSet(operators, id + 1);
        }
        if a.sendOk {
          return Written, made;
        }
      }
      if a.cancelled {
        return Cancelled, made;
      }
    }
    return RetriesExhausted, 5;
  }
}
