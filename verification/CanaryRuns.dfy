/**
 * Canaries over runs of the control plane: what the tables hold and what subscribers were told,
 * from a successful start on, whatever else the control plane is asked to do in between.
 */
module CanaryRuns {
  import opened Wrappers
  import opened Sequences
  import opened Wire
  import opened Store
  import opened Registration
  import opened Canary
  import opened StoreRuns
  import opened Decisions

  // ---- Calls that concern one canary -------------------------------------------------------

  /** Without a namespace a move is refused or changes nothing. */
  predicate Moves(op: Op, key: Key, path: string) {
    op.MoveOp? && op.Target() == key && op.path == path && op.namespace.Some?
  }

  predicate Restarts(op: Op, key: Key, path: string) {
    op.StartOp? && op.Target() == key && op.path == path && op.namespace.Some? && LadderFor(op.steps).Ok?
  }

  predicate Removes(op: Op, key: Key) {
    (op.DeleteOp? || op.DeleteIfExistsOp?) && op.Target() == key
  }

  /** No further start of the canary, and its policy stays. */
  predicate Calm(ops: seq<Op>, key: Key, path: string) {
    ops != [] ==>
      && Calm(ops[..|ops| - 1], key, path)
      && !Restarts(ops[|ops| - 1], key, path) && !Removes(ops[|ops| - 1], key)
  }

  function MovesOf(ops: seq<Op>, key: Key, path: string): seq<Move> {
    if ops == [] then []
    else
      var before, op := MovesOf(ops[..|ops| - 1], key, path), ops[|ops| - 1];
      if Moves(op, key, path) then before + [op.move] else before
  }

  /** The row stored for the canary. */
  predicate Tracks(t: Tables, key: Key, path: string, row: CanaryRow) {
    var p := Find(t.policies, key);
    p.Some? && (t.policies[p.value].id, path) in t.canaries && t.canaries[(t.policies[p.value].id, path)] == row
  }

  // ---- Decisions that concern it -----------------------------------------------------------

  predicate IsCanaryDecision(d: Decision) {
    d.reason == "canary-start" || d.reason == "canary-promote" || d.reason == "canary-rollback"
  }

  /** Decisions about the canary, however their reference spells the namespace. */
  function Concerning(key: Key, path: string): Decision -> bool {
    (d: Decision) => IsCanaryDecision(d) && (NamespaceOrDefault(Some(d.ref.namespace)), d.ref.name) == key
      && d.path == path
  }

  function ShiftOf(d: Decision): Shift {
    Shift(d.oldWeight, d.newWeight)
  }

  function ReasonOf(m: Move): string {
    if m.Promote? then "canary-promote" else "canary-rollback"
  }

  /** What a move publishes. */
  function Announced(row: CanaryRow, op: Op): seq<Decision>
    requires Sound(row) && op.MoveOp? && op.namespace.Some?
  {
    var shifts := Shifts(row, op.move);
    if shifts == [] then []
    else [Announce(RouteRef(op.namespace.value, op.name), op.path, row.canaryVersion, shifts[0], ReasonOf(op.move))]
  }

  // ---- One call ----------------------------------------------------------------------------

  lemma FoundStays(t: Tables, op: Op, key: Key)
    requires SoundCanaries(t) && KeysAreUnique(t.policies) && Find(t.policies, key).Some? && !Removes(op, key)
    ensures
      var t' := Step(t, op);
      && Find(t'.policies, key).Some?
      && t'.policies[Find(t'.policies, key).value].id == t.policies[Find(t.policies, key).value].id
  {
    StepHasItsEffect(t, op);
    var e, i := EffectOf(t, op), Find(t.policies, key).value;
    EffectIsInRange(t, op);
    hide Step, Op.Target;
    PoliciesKeepKey(t, e, i);
    var rows := Policies(t, e);
    var j := if e.Removed? && e.i < i then i - 1 else i;
    assert KeyOf(rows[j]) == key;
  }

  lemma EffectIsInRange(t: Tables, op: Op)
    ensures
      var e := EffectOf(t, op);
      && (e.Inserted? ==> forall i :: 0 <= i < |t.policies| ==> KeyOf(t.policies[i]) != KeyOf(e.row))
      && (e.Revised? || e.Removed? ==> e.i < |t.policies|)
      && (e.Removed? ==> Removes(op, KeyOf(t.policies[e.i])))
  {
  }

  lemma PoliciesKeepKey(t: Tables, e: Effect, i: nat)
    requires KeysAreUnique(t.policies) && i < |t.policies|
    requires e.Inserted? ==> KeyOf(e.row) != KeyOf(t.policies[i])
    requires e.Revised? || e.Removed? ==> e.i < |t.policies|
    requires e.Removed? ==> e.i != i
    ensures
      var rows, j := Policies(t, e), if e.Removed? && e.i < i then i - 1 else i;
      && j < |rows| && KeyOf(rows[j]) == KeyOf(t.policies[i])
      && forall k :: 0 <= k < |rows| && KeyOf(rows[k]) == KeyOf(t.policies[i]) ==> rows[k].id == t.policies[i].id
  {
    var rows := Policies(t, e);
    if e.Removed? {
      Survivors(t.policies, e.i);
    }
    forall k | 0 <= k < |rows| && KeyOf(rows[k]) == KeyOf(t.policies[i]) ensures rows[k].id == t.policies[i].id {
      var origin := if e.Removed? && e.i <= k then k + 1 else k;
      assert origin < |t.policies| && KeyOf(rows[k]) == KeyOf(t.policies[origin])
          && rows[k].id == t.policies[origin].id;
      assert origin == i;
    }
  }

  /** A call that neither restarts the canary nor removes its policy moves its row, or leaves it alone. */
  lemma CalmStepTracks(t: Tables, op: Op, key: Key, path: string, row: CanaryRow)
    requires SoundCanaries(t) && KeysAreUnique(t.policies) && Tracks(t, key, path, row)
    requires !Restarts(op, key, path) && !Removes(op, key)
    ensures Sound(row)
    ensures Tracks(Step(t, op), key, path, if Moves(op, key, path) then Apply(row, op.move) else row)
  {
    FoundStays(t, op, key);
    var id := t.policies[Find(t.policies, key).value].id;
    CanaryStays(t, op, key, id, path);
    hide Step, Removes, Restarts;
  }

  lemma CanaryStays(t: Tables, op: Op, key: Key, id: Uuid, path: string)
    requires SoundCanaries(t) && KeysAreUnique(t.policies)
    requires Find(t.policies, key).Some? && id == t.policies[Find(t.policies, key).value].id && (id, path) in t.canaries
    requires !Restarts(op, key, path) && !Removes(op, key)
    ensures
      var row, t' := t.canaries[(id, path)], Step(t, op);
      && (id, path) in t'.canaries
      && t'.canaries[(id, path)] == if Moves(op, key, path) then Apply(row, op.move) else row
  {
    var found := Find(t.policies, op.Target());
    assert found.Some? ==> (t.policies[found.value].id == id <==> op.Target() == key);
    hide KeysAreUnique, WithoutPolicy, Changes, ConfigOf, Find, Apply, Shifts, Sound, LadderFor;
    match op
    case StartOp(_, _, _, _, _, _) => StartTouchesItsOwn(t, op);
    case MoveOp(_, _, _, _) => MoveTouchesItsOwn(t, op);
    case _ =>
  }

  lemma StartTouchesItsOwn(t: Tables, op: Op)
    requires SoundCanaries(t) && op.StartOp?
    ensures
      var found, t' := Find(t.policies, op.Target()), Step(t, op);
      forall id, path :: (id, path) in t.canaries ==>
        || ((id, path) in t'.canaries && t'.canaries[(id, path)] == t.canaries[(id, path)])
        || (found.Some? && t.policies[found.value].id == id && op.path == path && op.namespace.Some?
            && LadderFor(op.steps).Ok?)
  {
    hide Find, LadderFor, NamespaceOrDefault, Fresh;
  }

  lemma MoveTouchesItsOwn(t: Tables, op: Op)
    requires SoundCanaries(t) && op.MoveOp?
    ensures
      var found, t' := Find(t.policies, op.Target()), Step(t, op);
      forall id, path :: (id, path) in t.canaries ==>
        && (id, path) in t'.canaries
        && t'.canaries[(id, path)] ==
           if found.Some? && t.policies[found.value].id == id && op.path == path && op.namespace.Some?
           then Apply(t.canaries[(id, path)], op.move) else t.canaries[(id, path)]
  {
    hide Find, NamespaceOrDefault;
    var found := Find(t.policies, op.Target());
    if found.Some? && (t.policies[found.value].id, op.path) in t.canaries {
      SilentMoveChangesNothing(t.canaries[(t.policies[found.value].id, op.path)], op.move);
    }
    hide Apply, Shifts, Sound;
  }

  lemma SilentMoveChangesNothing(row: CanaryRow, m: Move)
    requires Sound(row)
    ensures Shifts(row, m) == [] ==> Apply(row, m) == row
  {
  }

  function Published(t: Tables, op: Op): seq<Decision>
    requires SoundCanaries(t)
  {
    var all := Step(t, op).decisions;
    if |t.decisions| <= |all| then all[|t.decisions|..] else []
  }

  /** The log of decisions only grows; a move of the canary adds its announcement, any other call nothing about it. */
  lemma CalmStepPublishes(t: Tables, op: Op, key: Key, path: string, row: CanaryRow)
    requires SoundCanaries(t) && KeysAreUnique(t.policies) && Tracks(t, key, path, row) && Sound(row)
    requires !Restarts(op, key, path)
    ensures Step(t, op).decisions == t.decisions + Published(t, op)
    ensures if Moves(op, key, path) then Published(t, op) == Announced(row, op)
            else forall d :: d in Published(t, op) ==> !Concerning(key, path)(d)
  {
    hide KeysAreUnique, WithoutPolicy, ConfigOf, Changes;
    if op.RegisterOp? {
      var previous := TryGet(t, Some(op.spec.ref.namespace), op.spec.ref.name);
      if previous.Some? {
        ChangesAreNoCanaryDecisions(op.spec.ref, WeightsOf(previous.value.spec.rules), op.spec.rules);
      }
    }
  }

  lemma {:induction false} VersionChangesAreNoCanaryDecisions(ref: RouteRef, path: string, prior: map<string, int>,
                                                              versions: seq<RouteVersionSpec>)
    ensures forall d :: d in VersionChanges(ref, path, prior, versions) ==> !IsCanaryDecision(d)
  {
    if versions != [] {
      VersionChangesAreNoCanaryDecisions(ref, path, prior, versions[..|versions| - 1]);
    }
  }

  lemma {:induction false} ChangesAreNoCanaryDecisions(ref: RouteRef, prior: WeightTable, rules: seq<RulePolicy>)
    ensures forall d :: d in Changes(ref, prior, rules) ==> !IsCanaryDecision(d)
  {
    if rules != [] {
      var rule := rules[|rules| - 1];
      ChangesAreNoCanaryDecisions(ref, prior, rules[..|rules| - 1]);
      VersionChangesAreNoCanaryDecisions(ref, rule.path, OldWeights(prior, rule.path), rule.versions);
    }
  }

  // ---- From a given state onward -----------------------------------------------------------

  function RunFrom(t: Tables, ops: seq<Op>): (t': Tables)
    requires SoundCanaries(t)
    ensures SoundCanaries(t')
  {
    if ops == [] then t else Step(RunFrom(t, ops[..|ops| - 1]), ops[|ops| - 1])
  }

  /** What the calls publish. */
  function News(t: Tables, ops: seq<Op>): seq<Decision>
    requires SoundCanaries(t)
  {
    if ops == [] then []
    else News(t, ops[..|ops| - 1]) + Published(RunFrom(t, ops[..|ops| - 1]), ops[|ops| - 1])
  }

  ghost predicate UniqueThroughout(t: Tables, ops: seq<Op>)
    requires SoundCanaries(t)
  {
    KeysAreUnique(RunFrom(t, ops).policies) && (ops != [] ==> UniqueThroughout(t, ops[..|ops| - 1]))
  }

  /** Everything published about the canary after its start: one shift per effective move. */
  function Tail(row: CanaryRow, moves: seq<Move>): seq<Shift>
    requires Sound(row)
  {
    if moves == [] then []
    else
      var before := moves[..|moves| - 1];
      Tail(row, before) + Shifts(Canary.After(row, before), moves[|moves| - 1])
  }

  lemma {:induction false} LogIsStartAndTail(row: CanaryRow, moves: seq<Move>)
    requires Sound(row)
    ensures Log(row, moves) == [Shift(0, row.steps[0])] + Tail(row, moves)
  {
    if moves != [] {
      LogIsStartAndTail(row, moves[..|moves| - 1]);
    }
  }

  lemma OneMoreMove(ops: seq<Op>, key: Key, path: string, row: CanaryRow)
    requires Sound(row) && ops != []
    ensures
      var before, op := MovesOf(ops[..|ops| - 1], key, path), ops[|ops| - 1];
      var moves := MovesOf(ops, key, path);
      && Canary.After(row, moves)
        == (if Moves(op, key, path) then Apply(Canary.After(row, before), op.move) else Canary.After(row, before))
      && Tail(row, moves)
        == Tail(row, before) + (if Moves(op, key, path) then Shifts(Canary.After(row, before), op.move) else [])
  {
    var before, op := MovesOf(ops[..|ops| - 1], key, path), ops[|ops| - 1];
    if Moves(op, key, path) {
      assert (before + [op.move])[..|before|] == before;
    } else {
      assert Tail(row, before) + [] == Tail(row, before);
    }
  }

  /** The stored row follows the canary's own moves, whatever else is called. */
  lemma {:induction false} RowFollowsMoves(t: Tables, ops: seq<Op>, key: Key, path: string, row: CanaryRow)
    requires SoundCanaries(t) && Sound(row) && Tracks(t, key, path, row) && UniqueThroughout(t, ops)
        && Calm(ops, key, path)
    ensures Tracks(RunFrom(t, ops), key, path, Canary.After(row, MovesOf(ops, key, path)))
  {
    hide Step, KeysAreUnique, Tracks, Canary.After, Sound, Moves, Restarts, Removes;
    if ops == [] {
      NoMoves(key, path, row);
    } else {
      var before, op := ops[..|ops| - 1], ops[|ops| - 1];
      RowFollowsMoves(t, before, key, path, row);
      OneMoreMove(ops, key, path, row);
      UniqueBefore(t, ops);
      CalmStepTracks(RunFrom(t, before), op, key, path, Canary.After(row, MovesOf(before, key, path)));
    }
  }

  lemma UniqueBefore(t: Tables, ops: seq<Op>)
    requires SoundCanaries(t) && UniqueThroughout(t, ops)
    ensures KeysAreUnique(RunFrom(t, ops).policies)
    ensures ops != [] ==> KeysAreUnique(RunFrom(t, ops[..|ops| - 1]).policies)
  {
    hide KeysAreUnique, RunFrom;
  }

  lemma {:induction false} NothingKept<T>(p: T -> bool, s: seq<T>)
    requires forall x :: x in s ==> !p(x)
    ensures Filter(p, s) == []
  {
    if s != [] {
      NothingKept(p, s[..|s| - 1]);
    }
  }

  lemma KeepOne<T>(p: T -> bool, x: T)
    ensures Filter(p, [x]) == if p(x) then [x] else []
  {
    assert [x] == [] + [x];
    FilterOneMore(p, [], x);
  }

  function Told(p: Decision -> bool, decisions: seq<Decision>): seq<Shift> {
    Map(ShiftOf, Filter(p, decisions))
  }

  lemma ToldConcat(p: Decision -> bool, a: seq<Decision>, b: seq<Decision>)
    ensures Told(p, a + b) == Told(p, a) + Told(p, b)
  {
    FilterConcat(p, a, b);
    MapConcat(ShiftOf, Filter(p, a), Filter(p, b));
  }

  lemma ToldNothing(p: Decision -> bool, decisions: seq<Decision>)
    requires forall d :: d in decisions ==> !p(d)
    ensures Told(p, decisions) == []
  {
    NothingKept(p, decisions);
  }

  /** Seen with the canary in mind, a move tells its shifts. */
  lemma MoveIsTold(row: CanaryRow, op: Op, key: Key, path: string)
    requires Sound(row) && Moves(op, key, path)
    ensures Told(Concerning(key, path), Announced(row, op)) == Shifts(row, op.move)
  {
    var ds := Announced(row, op);
    if ds != [] {
      KeepOne(Concerning(key, path), ds[0]);
    } else {
      ToldNothing(Concerning(key, path), ds);
    }
    MoveShiftsAtMostOnce(row, op.move);
  }

  lemma MoveShiftsAtMostOnce(row: CanaryRow, m: Move)
    requires Sound(row)
    ensures |Shifts(row, m)| <= 1
  {
  }

  lemma {:induction false} NewsIsTheTail(t: Tables, ops: seq<Op>, key: Key, path: string, row: CanaryRow)
    requires SoundCanaries(t) && Sound(row) && Tracks(t, key, path, row) && UniqueThroughout(t, ops)
        && Calm(ops, key, path)
    ensures Told(Concerning(key, path), News(t, ops)) == Tail(row, MovesOf(ops, key, path))
  {
    hide Step, KeysAreUnique, Tracks, Canary.After, Sound, Moves, Restarts, Removes, Told, Concerning, Published,
         MovesOf, RunFrom;
    if ops == [] {
      ToldNothing(Concerning(key, path), []);
      NoMoves(key, path, row);
    } else {
      var before, op := ops[..|ops| - 1], ops[|ops| - 1];
      NewsIsTheTail(t, before, key, path, row);
      RowFollowsMoves(t, before, key, path, row);
      OneMoreMove(ops, key, path, row);
      UniqueBefore(t, ops);
      var now := Canary.After(row, MovesOf(before, key, path));
      CalmStepPublishes(RunFrom(t, before), op, key, path, now);
      ToldConcat(Concerning(key, path), News(t, before), Published(RunFrom(t, before), op));
      if Moves(op, key, path) {
        MoveIsTold(now, op, key, path);
      } else {
        ToldNothing(Concerning(key, path), Published(RunFrom(t, before), op));
      }
    }
  }

  lemma NoMoves(key: Key, path: string, row: CanaryRow)
    requires Sound(row)
    ensures MovesOf([], key, path) == [] && Canary.After(row, []) == row && Tail(row, []) == []
  {
  }

  // ---- From a start of the run onward ------------------------------------------------------

  function StartedRow(op: Op): (row: CanaryRow)
    requires op.StartOp? && LadderFor(op.steps).Ok?
    ensures Sound(row) && row.status == PROGRESSING
  {
    Fresh(op.stable, op.canary, LadderFor(op.steps).value)
  }

  /** The call starts a canary, successfully. */
  predicate Starts(t: Tables, op: Op) {
    op.StartOp? && StartCanary(t, op.namespace, op.name, op.path, op.stable, op.canary, op.steps).0.Ok?
  }

  lemma StartOpens(t: Tables, op: Op)
    requires SoundCanaries(t) && Starts(t, op)
    ensures LadderFor(op.steps).Ok? && op.namespace.Some?
    ensures Tracks(Step(t, op), op.Target(), op.path, StartedRow(op))
    ensures
      var first := Shift(0, StartedRow(op).steps[0]);
      Step(t, op).decisions
        == t.decisions + [Announce(RouteRef(op.namespace.value, op.name), op.path, op.canary, first, "canary-start")]
  {
  }

  lemma {:induction false} RunContinues(before: seq<Op>, rest: seq<Op>)
    requires FreshIds(before + rest)
    ensures RunFrom(StoreRuns.After(before), rest) == StoreRuns.After(before + rest)
    ensures UniqueThroughout(StoreRuns.After(before), rest)
  {
    var all := before + rest;
    EveryRunIsHistorical(all);
    if rest == [] {
      assert all == before;
    } else {
      assert all[..|all| - 1] == before + rest[..|rest| - 1];
      RunContinues(before, rest[..|rest| - 1]);
    }
    hide KeysAreUnique;
  }

  lemma {:induction false} DecisionsOnlyGrow(t: Tables, ops: seq<Op>, key: Key, path: string, row: CanaryRow)
    requires SoundCanaries(t) && Sound(row) && Tracks(t, key, path, row) && UniqueThroughout(t, ops)
        && Calm(ops, key, path)
    ensures RunFrom(t, ops).decisions == t.decisions + News(t, ops)
  {
    hide Step, KeysAreUnique, Tracks, Canary.After, Sound, Moves, Restarts, Removes, Published, MovesOf;
    if ops == [] {
      assert t.decisions + [] == t.decisions;
    } else {
      var before := ops[..|ops| - 1];
      DecisionsOnlyGrow(t, before, key, path, row);
      RowFollowsMoves(t, before, key, path, row);
      UniqueBefore(t, ops);
      CalmStepPublishes(RunFrom(t, before), ops[|ops| - 1], key, path, Canary.After(row, MovesOf(before, key, path)));
    }
  }

  /** What a run published since its first n decisions. */
  function Since(t: Tables, n: nat): seq<Decision> {
    if n <= |t.decisions| then t.decisions[n..] else []
  }

  lemma StartContinues(before: seq<Op>, start: Op, rest: seq<Op>)
    requires FreshIds(before + [start] + rest) && Starts(StoreRuns.After(before), start)
    requires Calm(rest, start.Target(), start.path)
    ensures LadderFor(start.steps).Ok? && start.namespace.Some?
    ensures
      var t, row := StoreRuns.After(before + [start]), StartedRow(start);
      && Tracks(t, start.Target(), start.path, row) && UniqueThroughout(t, rest)
      && RunFrom(t, rest) == StoreRuns.After(before + [start] + rest)
      && Since(StoreRuns.After(before + [start] + rest), |StoreRuns.After(before).decisions|)
         == [Announce(RouteRef(start.namespace.value, start.name), start.path, start.canary, Shift(0, row.steps[0]),
           "canary-start")]
            + News(t, rest)
  {
    hide Step, Tracks, Calm, UniqueThroughout, RunFrom, News, FreshIds, Starts, LadderFor, StoreRuns.After, Fresh;
    var t0, t := StoreRuns.After(before), StoreRuns.After(before + [start]);
    var row := StartedRowOf(before, start);
    RunContinues(before + [start], rest);
    DecisionsOnlyGrow(t, rest, start.Target(), start.path, row);
    var first :=
      [Announce(RouteRef(start.namespace.value, start.name), start.path, start.canary, Shift(0, row.steps[0]),
        "canary-start")];
    SinceIs(StoreRuns.After(before + [start] + rest), t0.decisions, first + News(t, rest));
  }

  lemma StartedRowOf(before: seq<Op>, start: Op) returns (row: CanaryRow)
    requires Starts(StoreRuns.After(before), start)
    ensures start.StartOp? && LadderFor(start.steps).Ok? && start.namespace.Some? && row == StartedRow(start)
    ensures Tracks(StoreRuns.After(before + [start]), start.Target(), start.path, row)
    ensures StoreRuns.After(before + [start]).decisions == StoreRuns.After(before).decisions +
      [Announce(RouteRef(start.namespace.value, start.name), start.path, start.canary, Shift(0, row.steps[0]),
        "canary-start")]
  {
    assert (before + [start])[..|before|] == before;
    StartOpens(StoreRuns.After(before), start);
    hide Step, Tracks, Starts, LadderFor;
    row := StartedRow(start);
  }

  lemma SinceIs(t: Tables, early: seq<Decision>, late: seq<Decision>)
    requires t.decisions == early + late
    ensures Since(t, |early|) == late
  {
  }

  /**
   * From its start on, until it is started again or its policy removed, the stored row follows the
   * canary's own moves, and the published decisions about it are exactly the log of those moves.
   */
  lemma PublishedLogIsTheLog(before: seq<Op>, start: Op, rest: seq<Op>)
    requires FreshIds(before + [start] + rest) && Starts(StoreRuns.After(before), start)
    requires Calm(rest, start.Target(), start.path)
    ensures LadderFor(start.steps).Ok?
    ensures
      var key, path, row := start.Target(), start.path, StartedRow(start);
      var t, moves := StoreRuns.After(before + [start] + rest), MovesOf(rest, key, path);
      && Tracks(t, key, path, Canary.After(row, moves))
      && Told(Concerning(key, path), Since(t, |StoreRuns.After(before).decisions|)) == Log(row, moves)
  {
    StartContinues(before, start, rest);
    StartIsTold(start);
    hide Step, Tracks, Calm, UniqueThroughout, RunFrom, News, FreshIds, Starts, LadderFor, Told, StoreRuns.After,
         Since, Canary.After, Log, MovesOf, Concerning, Announce, NamespaceOrDefault, Op.Target, Fresh;
    var key, path, row := start.Target(), start.path, StartedRow(start);
    var t1 := StoreRuns.After(before + [start]);
    RowFollowsMoves(t1, rest, key, path, row);
    NewsIsTheTail(t1, rest, key, path, row);
    LogIsStartAndTail(row, MovesOf(rest, key, path));
    var first := Announce(RouteRef(start.namespace.value, start.name), path, start.canary, Shift(0, row.steps[0]),
        "canary-start");
    ToldConcat(Concerning(key, path), [first], News(t1, rest));
  }

  lemma StartIsTold(start: Op)
    requires start.StartOp? && start.namespace.Some? && LadderFor(start.steps).Ok?
    ensures
      var ref, shift := RouteRef(start.namespace.value, start.name), Shift(0, StartedRow(start).steps[0]);
      var first := [Announce(ref, start.path, start.canary, shift, "canary-start")];
      && start.Target() == (NamespaceOrDefault(Some(ref.namespace)), ref.name)
      && Told(Concerning(start.Target(), start.path), first) == [shift]
  {
    var ref, shift := RouteRef(start.namespace.value, start.name), Shift(0, StartedRow(start).steps[0]);
    ToldOne(Concerning(start.Target(), start.path), Announce(ref, start.path, start.canary, shift, "canary-start"));
  }

  lemma ToldOne(p: Decision -> bool, d: Decision)
    ensures Told(p, [d]) == if p(d) then [ShiftOf(d)] else []
  {
    KeepOne(p, d);
  }

  /** The last weight anyone was told about a canary is the weight the tables give it. */
  lemma LastPublishedWeightIsInForce(before: seq<Op>, start: Op, rest: seq<Op>)
    requires FreshIds(before + [start] + rest) && Starts(StoreRuns.After(before), start)
    requires Calm(rest, start.Target(), start.path)
    ensures
      var t, key, path := StoreRuns.After(before + [start] + rest), start.Target(), start.path;
      var told := Told(Concerning(key, path), Since(t, |StoreRuns.After(before).decisions|));
      told != [] && exists row :: Sound(row) && Tracks(t, key, path, row) && told[|told| - 1].newWeight == WeightOf(row)
  {
    PublishedLogIsTheLog(before, start, rest);
    var moves, row := MovesOf(rest, start.Target(), start.path), StartedRow(start);
    hide Step, Tracks, Calm, FreshIds, Starts, LadderFor, Told, StoreRuns.After, Since, Log, MovesOf, Canary.After,
         Sound;
    StartedLadder(start);
    LogEndsAtTheWeightInForce(start.stable, start.canary, row.steps, moves);
    assert Tracks(StoreRuns.After(before + [start] + rest), start.Target(), start.path, Canary.After(row, moves));
  }

  lemma {:induction false} NewsNamesTheCanary(t: Tables, ops: seq<Op>, key: Key, path: string, row: CanaryRow)
    requires SoundCanaries(t) && Sound(row) && Tracks(t, key, path, row) && UniqueThroughout(t, ops)
        && Calm(ops, key, path)
    ensures forall d :: d in News(t, ops) && Concerning(key, path)(d) ==> d.version == row.canaryVersion
  {
    hide Step, KeysAreUnique, Tracks, Canary.After, Sound, Moves, Restarts, Removes, Published, MovesOf, RunFrom,
         Concerning, Shifts;
    if ops != [] {
      var before, op := ops[..|ops| - 1], ops[|ops| - 1];
      NewsNamesTheCanary(t, before, key, path, row);
      RowFollowsMoves(t, before, key, path, row);
      MovesKeepTheVersions(row, MovesOf(before, key, path));
      UniqueBefore(t, ops);
      CalmStepPublishes(RunFrom(t, before), op, key, path, Canary.After(row, MovesOf(before, key, path)));
    }
  }

  /** The ladder a call asks for; without one it gets the default. */
  function LadderAsked(op: Op): seq<int>
    requires op.StartOp?
  {
    if op.steps.None? || op.steps.value == [] then [5, 10, 20, 30, 50, 100] else op.steps.value
  }

  /** The canary gets this weight of the path's traffic and the stable version the rest. */
  ghost predicate InForce(t: Tables, key: Key, path: string, stable: string, canary: string, weight: int)
    requires SoundCanaries(t)
  {
    exists i :: 0 <= i < |t.policies| && KeyOf(t.policies[i]) == key &&
      EffectiveWeights(t, t.policies[i].id, path) ==
        Some(if stable == canary then map[canary := 100 - weight] else map[canary := weight, stable := 100 - weight])
  }

  /** One rung for every promote, and nothing after a rollback. */
  function WeightCalledFor(start: Op, moves: seq<Move>): int
    requires start.StartOp?
  {
    var ladder := LadderAsked(start);
    if Rollback in moves then 0 else if |moves| < |ladder| then ladder[|moves|] else ladder[|ladder| - 1]
  }

  lemma RowWeighsAsCalledFor(start: Op, moves: seq<Move>)
    requires start.StartOp? && LadderFor(start.steps).Ok?
    ensures
      var row, log := Canary.After(StartedRow(start), moves), Log(StartedRow(start), moves);
      && WeightOf(row) == WeightCalledFor(start, moves)
      && row.stableVersion == start.stable && row.canaryVersion == start.canary
      && log != [] && log[|log| - 1].newWeight == WeightCalledFor(start, moves)
  {
    hide ValidLadder, Canary.After, Log, Fresh, LadderAsked;
    StartedFromTheCall(start);
    LogEndsAtTheWeightInForce(start.stable, start.canary, LadderAsked(start), moves);
    WeightAfterMoves(start.stable, start.canary, LadderAsked(start), moves);
    MovesKeepTheVersions(StartedRow(start), moves);
    hide StartedRow;
  }

  /**
   * From its start on the weights in force are those of the versions the call named: the first rung
   * of the ladder it asked for, one rung more for every promote, and nothing after a rollback. The
   * last weight published is that weight.
   */
  lemma WeightsFollowTheCalls(before: seq<Op>, start: Op, rest: seq<Op>)
    requires FreshIds(before + [start] + rest) && Starts(StoreRuns.After(before), start)
    requires Calm(rest, start.Target(), start.path)
    ensures
      var t, key, path := StoreRuns.After(before + [start] + rest), start.Target(), start.path;
      var weight := WeightCalledFor(start, MovesOf(rest, key, path));
      var told := Told(Concerning(key, path), Since(t, |StoreRuns.After(before).decisions|));
      && InForce(t, key, path, start.stable, start.canary, weight)
      && told != [] && told[|told| - 1].newWeight == weight
  {
    PublishedLogIsTheLog(before, start, rest);
    hide Step, Tracks, Calm, FreshIds, Starts, LadderFor, Told, StoreRuns.After, Since, Canary.After, Log, MovesOf,
         Concerning, StartedRow, WeightCalledFor, InForce, Sound, WeightOf;
    var moves := MovesOf(rest, start.Target(), start.path);
    RowWeighsAsCalledFor(start, moves);
    TrackedWeights(StoreRuns.After(before + [start] + rest), start.Target(), start.path,
                   Canary.After(StartedRow(start), moves));
  }

  /** And every decision published about the canary names the version the call started. */
  lemma DecisionsNameTheCanary(before: seq<Op>, start: Op, rest: seq<Op>)
    requires FreshIds(before + [start] + rest) && Starts(StoreRuns.After(before), start)
    requires Calm(rest, start.Target(), start.path)
    ensures
      var t, key, path := StoreRuns.After(before + [start] + rest), start.Target(), start.path;
      forall d :: d in Since(t, |StoreRuns.After(before).decisions|) && Concerning(key, path)(d) ==>
        d.version == start.canary
  {
    StartContinues(before, start, rest);
    StartNamesTheCanary(start);
    StartedFromTheCall(start);
    hide Step, Tracks, Calm, UniqueThroughout, RunFrom, News, FreshIds, Starts, LadderFor, StoreRuns.After, Since,
         Concerning, Announce, StartedRow, Fresh, LadderAsked;
    NewsNamesTheCanary(StoreRuns.After(before + [start]), rest, start.Target(), start.path, StartedRow(start));
  }

  /** The row a start leaves, in the call's own words. */
  lemma StartedFromTheCall(op: Op)
    requires op.StartOp? && LadderFor(op.steps).Ok?
    ensures LadderAsked(op) != [] && ValidLadder(LadderAsked(op))
    ensures StartedRow(op) == Fresh(op.stable, op.canary, LadderAsked(op))
    ensures StartedRow(op).stableVersion == op.stable && StartedRow(op).canaryVersion == op.canary
  {
  }

  lemma StartNamesTheCanary(start: Op)
    requires start.StartOp? && start.namespace.Some? && LadderFor(start.steps).Ok?
    ensures
      var first := Announce(RouteRef(start.namespace.value, start.name), start.path, start.canary,
                            Shift(0, StartedRow(start).steps[0]), "canary-start");
      first.version == start.canary
  {
  }

  lemma TrackedWeights(t: Tables, key: Key, path: string, row: CanaryRow)
    requires SoundCanaries(t) && Sound(row) && Tracks(t, key, path, row)
    ensures InForce(t, key, path, row.stableVersion, row.canaryVersion, WeightOf(row))
  {
    var i := Find(t.policies, key).value;
    assert KeyOf(t.policies[i]) == key;
    var weight := WeightOf(row);
    assert EffectivePair(row) ==
      if row.stableVersion == row.canaryVersion then map[row.canaryVersion := 100 - weight]
      else map[row.canaryVersion := weight, row.stableVersion := 100 - weight];
  }

  lemma StartedLadder(op: Op)
    requires op.StartOp? && LadderFor(op.steps).Ok?
    ensures
      var row := StartedRow(op);
      ValidLadder(row.steps) && row == Fresh(op.stable, op.canary, row.steps)
  {
  }

  /** Published old and new weights chain from 0 exactly as long as the canary is rolled back at most once. */
  lemma PublishedLogTelescopesIff(before: seq<Op>, start: Op, rest: seq<Op>)
    requires FreshIds(before + [start] + rest) && Starts(StoreRuns.After(before), start)
    requires Calm(rest, start.Target(), start.path)
    ensures
      var t, key, path := StoreRuns.After(before + [start] + rest), start.Target(), start.path;
      Telescopes(Told(Concerning(key, path), Since(t, |StoreRuns.After(before).decisions|)))
      <==> Rollbacks(MovesOf(rest, key, path)) <= 1
  {
    PublishedLogIsTheLog(before, start, rest);
    hide Step, Tracks, Calm, FreshIds, Starts, LadderFor, Told, StoreRuns.After, Since, Log, MovesOf, Canary.After,
         Sound, Telescopes, Rollbacks;
    StartedLadder(start);
    LogTelescopesIffOneRollback(start.stable, start.canary, StartedRow(start).steps,
      MovesOf(rest, start.Target(), start.path));
  }

  /** Whatever the control plane is asked to do, a rolled-back canary stays at 0 until started again or removed. */
  lemma RollbackSticksInTheTables(before: seq<Op>, rest: seq<Op>, key: Key, path: string, row: CanaryRow)
    requires FreshIds(before + rest) && Calm(rest, key, path)
    requires Sound(row) && row.status == ROLLED_BACK && Tracks(StoreRuns.After(before), key, path, row)
    ensures exists row' ::
      && Sound(row') && Tracks(StoreRuns.After(before + rest), key, path, row')
      && row'.status == ROLLED_BACK && WeightOf(row') == 0
  {
    RunContinues(before, rest);
    hide Step, Tracks, Calm, FreshIds, StoreRuns.After, RunFrom, UniqueThroughout, MovesOf, Canary.After, Sound;
    RowFollowsMoves(StoreRuns.After(before), rest, key, path, row);
    RollbackSticks(row, MovesOf(rest, key, path));
    assert RolledBack(row) == row;
    assert Tracks(StoreRuns.After(before + rest), key, path, Canary.After(row, MovesOf(rest, key, path)));
  }

  // ---- How the namespace is spelled --------------------------------------------------------

  /** Every move that announces anything spells the namespace like this. */
  predicate SpelledAlike(row: CanaryRow, ops: seq<Op>, key: Key, path: string, namespace: string)
    requires Sound(row)
  {
    ops != [] ==>
      var before, op := ops[..|ops| - 1], ops[|ops| - 1];
      && SpelledAlike(row, before, key, path, namespace)
      && (Moves(op, key, path) && Shifts(Canary.After(row, MovesOf(before, key, path)), op.move) != [] ==>
            op.namespace == Some(namespace))
  }

  /** Every decision about the canary asks for a reconcile of this object. */
  ghost predicate AllWake(ref: RouteRef, key: Key, path: string, decisions: seq<Decision>) {
    forall d :: d in decisions && Concerning(key, path)(d) ==> Woken(d) == ref
  }

  lemma AllWakeConcat(ref: RouteRef, key: Key, path: string, a: seq<Decision>, b: seq<Decision>)
    ensures AllWake(ref, key, path, a + b) <==> AllWake(ref, key, path, a) && AllWake(ref, key, path, b)
  {
    hide Concerning, Woken;
    assert forall d :: d in a + b <==> d in a || d in b;
  }

  lemma MoveWakesIff(row: CanaryRow, op: Op, key: Key, path: string, ref: RouteRef)
    requires Sound(row) && Moves(op, key, path) && ref.name == key.1
    ensures AllWake(ref, key, path, Announced(row, op)) <==>
      (Shifts(row, op.move) != [] ==> op.namespace == Some(ref.namespace))
  {
    hide Shifts;
    var ds := Announced(row, op);
    if ds != [] {
      assert ds[0] in ds && Concerning(key, path)(ds[0]);
    }
  }

  lemma {:induction false} NewsWakesIff(t: Tables, ops: seq<Op>, key: Key, path: string, row: CanaryRow, ref: RouteRef)
    requires SoundCanaries(t) && Sound(row) && Tracks(t, key, path, row) && UniqueThroughout(t, ops)
        && Calm(ops, key, path)
    requires ref.name == key.1
    ensures AllWake(ref, key, path, News(t, ops)) <==> SpelledAlike(row, ops, key, path, ref.namespace)
  {
    hide Step, KeysAreUnique, Tracks, Canary.After, Sound, Moves, Restarts, Removes, Published, MovesOf, RunFrom,
         Shifts, Concerning, Woken;
    if ops != [] {
      var before, op := ops[..|ops| - 1], ops[|ops| - 1];
      NewsWakesIff(t, before, key, path, row, ref);
      RowFollowsMoves(t, before, key, path, row);
      UniqueBefore(t, ops);
      var now, more := Canary.After(row, MovesOf(before, key, path)), Published(RunFrom(t, before), op);
      CalmStepPublishes(RunFrom(t, before), op, key, path, now);
      AllWakeConcat(ref, key, path, News(t, before), more);
      if Moves(op, key, path) {
        MoveWakesIff(now, op, key, path, ref);
      }
    }
  }

  /**
   * The route that serves a canary is reconciled on account of each of its published shifts, from
   * the start on, exactly when the start and every later move that shifts anything spelled the
   * namespace as the route's own.
   */
  lemma EveryShiftWakesTheRouteIff(before: seq<Op>, start: Op, rest: seq<Op>, ref: RouteRef)
    requires FreshIds(before + [start] + rest) && Starts(StoreRuns.After(before), start)
    requires Calm(rest, start.Target(), start.path)
    requires start.Target() == (NamespaceOrDefault(Some(ref.namespace)), ref.name)
    ensures LadderFor(start.steps).Ok? && start.namespace.Some?
    ensures
      var key, path, t := start.Target(), start.path, StoreRuns.After(before + [start] + rest);
      AllWake(ref, key, path, Since(t, |StoreRuns.After(before).decisions|))
      <==> start.namespace == Some(ref.namespace) && SpelledAlike(StartedRow(start), rest, key, path, ref.namespace)
  {
    StartContinues(before, start, rest);
    var key, path, row := start.Target(), start.path, StartedRow(start);
    StartWakesIff(start, ref);
    hide Step, Tracks, Calm, UniqueThroughout, RunFrom, News, FreshIds, Starts, LadderFor, StoreRuns.After, Since,
         SpelledAlike, AllWake, Announce, NamespaceOrDefault, Fresh;
    var first := Announce(RouteRef(start.namespace.value, start.name), path, start.canary, Shift(0, row.steps[0]),
        "canary-start");
    NewsWakesIff(StoreRuns.After(before + [start]), rest, key, path, row, ref);
    AllWakeConcat(ref, key, path, [first], News(StoreRuns.After(before + [start]), rest));
  }

  lemma StartWakesIff(start: Op, ref: RouteRef)
    requires start.StartOp? && start.namespace.Some? && LadderFor(start.steps).Ok?
    requires start.Target() == (NamespaceOrDefault(Some(ref.namespace)), ref.name)
    ensures
      var shift := Shift(0, StartedRow(start).steps[0]);
      var first := Announce(RouteRef(start.namespace.value, start.name), start.path, start.canary, shift,
          "canary-start");
      AllWake(ref, start.Target(), start.path, [first]) <==> start.namespace == Some(ref.namespace)
  {
    var shift := Shift(0, StartedRow(start).steps[0]);
    var first := Announce(RouteRef(start.namespace.value, start.name), start.path, start.canary, shift, "canary-start");
    assert first in [first] && Concerning(start.Target(), start.path)(first);
  }

  /**
   * The run that fails: the route "default/r" is registered and its canary started; promoting it
   * with a blank namespace moves the stored row, but the one decision published wakes no "default/r".
   */
  lemma BlankNamespacePromotesUnheard(before: seq<Op>, row: CanaryRow)
    requires FreshIds(before + [MoveOp(Some(""), "r", "/", Move.Promote)])
    requires Sound(row) && row.status == PROGRESSING && Tracks(StoreRuns.After(before), ("default", "r"), "/", row)
    ensures
      var t := StoreRuns.After(before + [MoveOp(Some(""), "r", "/", Move.Promote)]);
      && Tracks(t, ("default", "r"), "/", Promoted(row))
      && t.decisions == StoreRuns.After(before).decisions +
           [Announce(RouteRef("", "r"), "/", row.canaryVersion, PromoteShifts(row)[0], "canary-promote")]
      && Woken(t.decisions[|t.decisions| - 1]) != RouteRef("default", "r")
  {
    var op := MoveOp(Some(""), "r", "/", Move.Promote);
    assert (before + [op])[..|before|] == before;
    EveryRunIsHistorical(before);
    assert op.Target() == ("default", "r") && Moves(op, ("default", "r"), "/");
    hide Step, Tracks, Historical, FreshIds;
    CalmStepTracks(StoreRuns.After(before), op, ("default", "r"), "/", row);
    CalmStepPublishes(StoreRuns.After(before), op, ("default", "r"), "/", row);
  }

  /** Such a run is reachable: register, start, promote. */
  lemma {:induction false} BlankNamespaceRunIsReachable(spec: RouteSpec, stable: string, canary: string)
    requires spec.ref == RouteRef("default", "r")
    ensures
      var before := [RegisterOp(spec, 0), StartOp(Some("default"), "r", "/", stable, canary, None)];
      && FreshIds(before + [MoveOp(Some(""), "r", "/", Move.Promote)])
      && Tracks(StoreRuns.After(before), ("default", "r"), "/", Fresh(stable, canary, DEFAULT_STEPS))
      && Sound(Fresh(stable, canary, DEFAULT_STEPS))
  {
    var register, start := RegisterOp(spec, 0), StartOp(Some("default"), "r", "/", stable, canary, None);
    var before, promote := [register, start], MoveOp(Some(""), "r", "/", Move.Promote);
    assert !IsWhitespace("default"[0]);
    assert NamespaceOrDefault(Some("default")) == "default";
    assert before[..|before| - 1] == [register] && [register][..|[register]| - 1] == [];
    assert (before + [promote])[..|before + [promote]| - 1] == before;
    assert StoreRuns.After([]) == EMPTY && FreshIds([]);
    var registered := StoreRuns.After([register]);
    assert registered == Step(EMPTY, register) && FreshIds([register]);
    RegisteredFirst(spec);
    hide Step;
    assert StoreRuns.After(before) == Step(registered, start) && FreshIds(before);
    StartSucceedsIff(registered, start);
    StartOpens(registered, start);
  }

  lemma RegisteredFirst(spec: RouteSpec)
    requires spec.ref == RouteRef("default", "r") && NamespaceOrDefault(Some("default")) == "default"
    ensures Step(EMPTY, RegisterOp(spec, 0)).policies == [PolicyRow(0, "default", "r", spec, 1)]
  {
    StepHasItsEffect(EMPTY, RegisterOp(spec, 0));
    hide Step;
  }

  /**
   * A canary starts exactly when its policy exists, its ladder is valid and a namespace is given;
   * leaving it to the default never works.
   */
  lemma StartSucceedsIff(t: Tables, op: Op)
    requires op.StartOp?
    ensures Starts(t, op) <==> TryGet(t, op.namespace, op.name).Some? && LadderFor(op.steps).Ok? && op.namespace.Some?
  {
  }
}
