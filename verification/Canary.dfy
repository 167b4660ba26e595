/** The canary ladder, the canary row as a mutable entity, and the progression service. */
module Canary {
  import opened Wrappers
  import opened Wire
  import opened Store
  import PolicyService

  const DEFAULT_STEPS := [5, 10, 20, 30, 50, 100]

  // ---- CanaryLadder ------------------------------------------------------------------------

  predicate Ascending(steps: seq<int>) {
    forall i, j :: 0 <= i < j < |steps| ==> steps[i] < steps[j]
  }

  /** Strictly ascending within 1..100 and ending at 100. */
  predicate ValidLadder(steps: seq<int>) {
    steps != [] && steps[0] > 0 && Ascending(steps) && steps[|steps| - 1] == 100
  }

  function LadderFor(steps: Option<seq<int>>): Result<seq<int>, Error> {
    if steps.None? || steps.value == [] then Ok(DEFAULT_STEPS)
    else if ValidLadder(steps.value) then Ok(steps.value)
    else Err(BadLadder)
  }

  method Validate(steps: Option<seq<int>>) returns (r: Result<seq<int>, Error>)
    ensures r == LadderFor(steps)
    ensures r.Ok? ==> ValidLadder(r.value)
  {
    if steps.None? || steps.value == [] {
      return Ok(DEFAULT_STEPS);
    }
    var prev := 0;
    for i := 0 to |steps.value|
      invariant prev == if i == 0 then 0 else steps.value[i - 1]
      invariant i > 0 ==> steps.value[0] > 0 && prev <= 100
      invariant Ascending(steps.value[..i])
    {
      var step := steps.value[i];
      if step <= prev || step > 100 {
        NotALadder(steps.value, i);
        return Err(BadLadder);
      }
      prev := step;
      assert steps.value[..i + 1][..i] == steps.value[..i];
    }
    assert steps.value[..|steps.value|] == steps.value;
    if prev != 100 {
      return Err(BadLadder);
    }
    return Ok(steps.value);
  }

  lemma NotALadder(steps: seq<int>, i: nat)
    requires i < |steps|
    requires steps[i] <= (if i == 0 then 0 else steps[i - 1]) || steps[i] > 100
    ensures !ValidLadder(steps)
  {
  }

  // ---- One canary row as a state machine ---------------------------------------------------

  /** A weight transition as it is published. */
  datatype Shift = Shift(oldWeight: int, newWeight: int)

  /** The invariant of every stored row. */
  predicate Sound(row: CanaryRow) {
    && ValidLadder(row.steps)
    && 0 <= row.stepIndex < |row.steps|
    && (row.status == PROMOTED ==> row.stepIndex == |row.steps| - 1)
    && (row.status == PROGRESSING ==> row.stepIndex < |row.steps| - 1 || |row.steps| == 1)
  }

  function WeightOf(row: CanaryRow): int
    requires Sound(row)
  {
    match row.status
    case ROLLED_BACK => 0
    case PROMOTED => 100
    case PROGRESSING => row.steps[row.stepIndex]
  }

  function Fresh(stable: string, canary: string, steps: seq<int>): CanaryRow {
    CanaryRow(stable, canary, steps, 0, PROGRESSING)
  }

  function Promoted(row: CanaryRow): CanaryRow
    requires Sound(row)
  {
    if row.status != PROGRESSING then row
    else
      var next := if row.stepIndex + 1 < |row.steps| then row.stepIndex + 1 else |row.steps| - 1;
      row.(stepIndex := next, status := if row.steps[next] >= 100 then PROMOTED else PROGRESSING)
  }

  /** What a promote publishes; nothing in a terminal state. */
  function PromoteShifts(row: CanaryRow): seq<Shift>
    requires Sound(row)
  {
    if row.status != PROGRESSING then []
    else [Shift(row.steps[row.stepIndex], row.steps[Promoted(row).stepIndex])]
  }

  function RolledBack(row: CanaryRow): CanaryRow {
    row.(status := ROLLED_BACK)
  }

  function RollbackShifts(row: CanaryRow): seq<Shift>
    requires Sound(row)
  {
    [Shift(row.steps[row.stepIndex], 0)]
  }

  /** Progress never lowers the canary's weight and only ends at the last rung. */
  lemma PromoteIsSoundAndMonotone(row: CanaryRow)
    requires Sound(row)
    ensures Sound(Promoted(row)) && WeightOf(Promoted(row)) >= WeightOf(row)
    ensures Promoted(row).status == PROGRESSING ==> WeightOf(Promoted(row)) > WeightOf(row)
  {
    var next := Promoted(row).stepIndex;
    if row.status == PROGRESSING && next < |row.steps| - 1 {
      assert row.steps[row.stepIndex] < row.steps[next] < row.steps[|row.steps| - 1];
    }
  }

  datatype Move = Promote | Rollback

  function Apply(row: CanaryRow, m: Move): (r: CanaryRow)
    requires Sound(row)
    ensures Sound(r)
  {
    PromoteIsSoundAndMonotone(row);
    match m
    case Promote => Promoted(row)
    case Rollback => RolledBack(row)
  }

  function Shifts(row: CanaryRow, m: Move): seq<Shift>
    requires Sound(row)
  {
    match m
    case Promote => PromoteShifts(row)
    case Rollback => RollbackShifts(row)
  }

  /** The row after a start and any moves, which are only ever promotes and rollbacks. */
  function After(row: CanaryRow, moves: seq<Move>): (r: CanaryRow)
    requires Sound(row)
    ensures Sound(r)
  {
    if moves == [] then row else Apply(After(row, moves[..|moves| - 1]), moves[|moves| - 1])
  }

  /** Everything published from the start on: the start's own shift, then one per effective move. */
  function Log(row: CanaryRow, moves: seq<Move>): seq<Shift>
    requires Sound(row)
  {
    if moves == [] then [Shift(0, row.steps[0])]
    else
      var before := moves[..|moves| - 1];
      Log(row, before) + Shifts(After(row, before), moves[|moves| - 1])
  }

  function Promotes(k: nat): seq<Move> {
    seq(k, _ => Promote)
  }

  /** A ladder of n rungs takes exactly max(1, n-1) promotes. */
  lemma {:induction false} PromotesToTheTop(stable: string, canary: string, steps: seq<int>, k: nat)
    requires ValidLadder(steps)
    ensures
      var row, top := After(Fresh(stable, canary, steps), Promotes(k)), if |steps| > 2 then |steps| - 1 else 1;
      && (row.status == PROMOTED <==> k >= top)
      && (k < top ==> row == Fresh(stable, canary, steps).(stepIndex := k))
      && (k >= top ==> row.stepIndex == |steps| - 1)
  {
    if k > 0 {
      assert Promotes(k)[..k - 1] == Promotes(k - 1);
      PromotesToTheTop(stable, canary, steps, k - 1);
      var before := After(Fresh(stable, canary, steps), Promotes(k - 1));
      if before.status == PROGRESSING && k < |steps| - 1 {
        assert steps[k] < steps[|steps| - 1];
      }
    }
  }

  /** Once rolled back, nothing but a new start gives the canary traffic again. */
  lemma {:induction false} RollbackSticks(row: CanaryRow, moves: seq<Move>)
    requires Sound(row)
    ensures WeightOf(After(RolledBack(row), moves)) == 0 && After(RolledBack(row), moves).status == ROLLED_BACK
  {
    if moves != [] {
      RollbackSticks(row, moves[..|moves| - 1]);
    }
  }

  lemma {:induction false} MovesKeepTheVersions(row: CanaryRow, moves: seq<Move>)
    requires Sound(row)
    ensures
      var r := After(row, moves);
      r.canaryVersion == row.canaryVersion && r.stableVersion == row.stableVersion && r.steps == row.steps
  {
    if moves != [] {
      MovesKeepTheVersions(row, moves[..|moves| - 1]);
    }
  }

  /** Each promote is worth one rung, a single rollback costs everything, and nothing brings it back. */
  lemma {:induction false} WeightAfterMoves(stable: string, canary: string, steps: seq<int>, moves: seq<Move>)
    requires ValidLadder(steps)
    ensures
      var top := |steps| - 1;
      WeightOf(After(Fresh(stable, canary, steps), moves)) ==
        if Rollback in moves then 0 else steps[if |moves| < top then |moves| else top]
  {
    if Rollback in moves {
      RolledBackIsZero(Fresh(stable, canary, steps), moves);
    } else {
      OnlyPromotes(moves);
      PromotesToTheTop(stable, canary, steps, |moves|);
      hide After;
      assert |moves| < |steps| - 1 ==> WeightOf(After(Fresh(stable, canary, steps), moves)) == steps[|moves|];
    }
  }

  lemma {:induction false} RolledBackIsZero(row: CanaryRow, moves: seq<Move>)
    requires Sound(row) && Rollback in moves
    ensures After(row, moves).status == ROLLED_BACK
  {
    var before, last := moves[..|moves| - 1], moves[|moves| - 1];
    if last != Rollback {
      assert Rollback in before;
      RolledBackIsZero(row, before);
    }
  }

  lemma OnlyPromotes(moves: seq<Move>)
    requires Rollback !in moves
    ensures moves == Promotes(|moves|)
  {
    forall i | 0 <= i < |moves| ensures moves[i] == Promote {
      assert moves[i] in moves;
    }
  }

  function Rollbacks(moves: seq<Move>): nat {
    if moves == [] then 0
    else Rollbacks(moves[..|moves| - 1]) + if moves[|moves| - 1] == Rollback then 1 else 0
  }

  /** Begins at zero, and every old weight is the weight announced just before. */
  predicate Telescopes(log: seq<Shift>) {
    log != [] && log[0].oldWeight == 0 && forall i :: 1 <= i < |log| ==> log[i].oldWeight == log[i - 1].newWeight
  }

  lemma {:induction false} RolledBackOrNot(row: CanaryRow, moves: seq<Move>)
    requires Sound(row) && row.status == PROGRESSING
    ensures After(row, moves).status == ROLLED_BACK <==> Rollbacks(moves) > 0
  {
    if moves != [] {
      RolledBackOrNot(row, moves[..|moves| - 1]);
    }
  }

  lemma {:induction false} LogNeverShrinks(row: CanaryRow, moves: seq<Move>)
    requires Sound(row)
    ensures Log(row, moves) != []
  {
    if moves != [] {
      LogNeverShrinks(row, moves[..|moves| - 1]);
    }
  }

  /** The last announced weight is always the weight in force. */
  lemma {:induction false} LogEndsAtTheWeightInForce(stable: string, canary: string, steps: seq<int>, moves: seq<Move>)
    requires ValidLadder(steps)
    ensures
      var row, log := Fresh(stable, canary, steps), Log(Fresh(stable, canary, steps), moves);
      log != [] && log[|log| - 1].newWeight == WeightOf(After(row, moves))
  {
    var row := Fresh(stable, canary, steps);
    LogNeverShrinks(row, moves);
    if moves != [] {
      var before, m := moves[..|moves| - 1], moves[|moves| - 1];
      LogEndsAtTheWeightInForce(stable, canary, steps, before);
      var log, now := Log(row, before), After(row, before);
      MoveAnnouncesItsWeight(now, m);
      hide Sound, WeightOf, Apply, Shifts;
      assert Log(row, moves) == log + Shifts(now, m);
    }
  }

  lemma MoveAnnouncesItsWeight(row: CanaryRow, m: Move)
    requires Sound(row)
    ensures
      var shifts := Shifts(row, m);
      && |shifts| <= 1
      && WeightOf(Apply(row, m)) == if shifts == [] then WeightOf(row) else shifts[0].newWeight
  {
    if row.status == PROGRESSING {
      TopRungIsPromoted(row);
    }
  }

  lemma TopRungIsPromoted(row: CanaryRow)
    requires Sound(row) && row.status == PROGRESSING
    ensures WeightOf(Promoted(row)) == row.steps[Promoted(row).stepIndex]
  {
    PromoteIsSoundAndMonotone(row);
    var next := Promoted(row).stepIndex;
    if next < |row.steps| - 1 {
      assert row.steps[next] < row.steps[|row.steps| - 1];
    }
  }

  /** The published log telescopes exactly as long as at most one rollback happened. */
  lemma {:induction false} LogTelescopesIffOneRollback(stable: string, canary: string, steps: seq<int>,
                                                       moves: seq<Move>)
    requires ValidLadder(steps)
    ensures Telescopes(Log(Fresh(stable, canary, steps), moves)) <==> Rollbacks(moves) <= 1
  {
    var row := Fresh(stable, canary, steps);
    if moves != [] {
      var before, m := moves[..|moves| - 1], moves[|moves| - 1];
      LogTelescopesIffOneRollback(stable, canary, steps, before);
      LogEndsAtTheWeightInForce(stable, canary, steps, before);
      RolledBackOrNot(row, before);
      var log, more, now := Log(row, before), Shifts(After(row, before), m), After(row, before);
      RungIsPositive(now);
      if more != [] {
        TelescopesOneMore(log, more[0]);
        assert log + more == log + [more[0]];
      } else {
        assert log + more == log;
      }
    }
  }

  lemma RungIsPositive(row: CanaryRow)
    requires Sound(row)
    ensures row.steps[row.stepIndex] > 0
    ensures row.status != ROLLED_BACK ==> row.steps[row.stepIndex] == WeightOf(row)
  {
    if row.stepIndex > 0 {
      assert row.steps[0] < row.steps[row.stepIndex];
    }
  }

  lemma TelescopesOneMore(log: seq<Shift>, s: Shift)
    requires log != []
    ensures Telescopes(log + [s]) <==> Telescopes(log) && s.oldWeight == log[|log| - 1].newWeight
  {
    var longer := log + [s];
    if Telescopes(longer) {
      assert longer[|log|].oldWeight == longer[|log| - 1].newWeight;
      forall i | 1 <= i < |log| ensures log[i].oldWeight == log[i - 1].newWeight {
        assert longer[i].oldWeight == longer[i - 1].newWeight;
      }
    }
  }

  // ---- Effective weights -------------------------------------------------------------------

  /** The pair is put into one map, canary first and stable last. */
  function EffectivePair(row: CanaryRow): map<string, int>
    requires Sound(row)
  {
    map[row.canaryVersion := WeightOf(row)][row.stableVersion := 100 - WeightOf(row)]
  }

  /** The canary's entry survives unless both roles name one version. */
  lemma PairNamesTheCanaryWeight(row: CanaryRow)
    requires Sound(row)
    ensures EffectivePair(row)[row.canaryVersion] == WeightOf(row)
            <==> row.canaryVersion != row.stableVersion || WeightOf(row) == 50
  {
  }

  function EffectiveWeights(t: Tables, id: Uuid, path: string): Option<map<string, int>>
    requires SoundCanaries(t)
  {
    if (id, path) in t.canaries then Some(EffectivePair(t.canaries[(id, path)])) else None
  }

  predicate SoundCanaries(t: Tables) {
    forall k | k in t.canaries :: Sound(t.canaries[k])
  }

  // ---- CanaryService as values -------------------------------------------------------------

  function CanaryTarget(namespace: Option<string>, name: string, path: string): string {
    Target(NamespaceOrDefault(namespace), name) + path
  }

  function Announce(ref: RouteRef, path: string, version: string, s: Shift, reason: string): Decision {
    Decision(ref, path, version, s.oldWeight, s.newWeight, reason)
  }

  function StartCanary(t: Tables, namespace: Option<string>, name: string, path: string,
                       stable: string, canary: string, steps: Option<seq<int>>)
    : (Result<CanaryRow, Error>, Tables)
  {
    var policy, ladder := TryGet(t, namespace, name), LadderFor(steps);
    if policy.None? then (Err(NotFound), t)
    else if ladder.Err? then (Err(ladder.error), t)
    else if namespace.None? then (Err(NullReference), t)
    else
      var row := Fresh(stable, canary, ladder.value);
      var first := Shift(0, ladder.value[0]);
      (Ok(row),
       t.(canaries := t.canaries[(policy.value.id, path) := row],
          audit := t.audit + [AuditRow(CanaryStart, CanaryTarget(namespace, name, path),
                                       StartDetail(stable, canary, first.newWeight))],
          decisions := t.decisions + [Announce(RouteRef(namespace.value, name), path, canary, first, "canary-start")]))
  }

  /** Shared shape of promote and rollback: the row moves, and each shift is audited and announced. */
  function MoveCanary(t: Tables, namespace: Option<string>, name: string, path: string, m: Move)
    : (Result<CanaryRow, Error>, Tables)
    requires SoundCanaries(t)
  {
    var policy := TryGet(t, namespace, name);
    if policy.None? || (policy.value.id, path) !in t.canaries then (Err(NotFound), t)
    else
      var key := (policy.value.id, path);
      var row, shifts := t.canaries[key], Shifts(t.canaries[key], m);
      if shifts == [] then (Ok(row), t)
      else if namespace.None? then (Err(NullReference), t)
      else
        var moved, s := Apply(row, m), shifts[0];
        (Ok(moved),
         t.(canaries := t.canaries[key := moved],
            audit := t.audit + [AuditRow(if m.Promote? then CanaryPromote else CanaryRollback,
                                         CanaryTarget(namespace, name, path), MoveDetail(s.oldWeight, s.newWeight))],
            decisions := t.decisions + [Announce(RouteRef(namespace.value, name), path, row.canaryVersion, s,
                                                 if m.Promote? then "canary-promote" else "canary-rollback")]))
  }

  // ---- Entity and service ------------------------------------------------------------------

  /** The canary row while a transaction holds it. */
  class CanaryEntity {
    var stableVersion: string
    var canaryVersion: string
    var steps: seq<int>
    var stepIndex: int
    var status: CanaryStatus

    constructor (stableVersion: string, canaryVersion: string, steps: seq<int>, status: CanaryStatus)
      ensures Row() == CanaryRow(stableVersion, canaryVersion, steps, 0, status)
    {
      this.stableVersion, this.canaryVersion, this.steps := stableVersion, canaryVersion, steps;
      this.stepIndex, this.status := 0, status;
    }

    /** An entity loaded from its stored row. */
    constructor Load(row: CanaryRow)
      ensures Row() == row
    {
      stableVersion, canaryVersion, steps := row.stableVersion, row.canaryVersion, row.steps;
      stepIndex, status := row.stepIndex, row.status;
    }

    function Row(): CanaryRow
      reads this
    {
      CanaryRow(stableVersion, canaryVersion, steps, stepIndex, status)
    }

    method Reinitialize(stableVersion: string, canaryVersion: string, steps: seq<int>, status: CanaryStatus)
      modifies this
      ensures Row() == CanaryRow(stableVersion, canaryVersion, steps, 0, status)
    {
      this.stableVersion, this.canaryVersion, this.steps := stableVersion, canaryVersion, steps;
      this.stepIndex, this.status := 0, status;
    }

    method SetStepIndex(stepIndex: int)
      modifies this
      ensures Row() == old(Row()).(stepIndex := stepIndex)
    {
      this.stepIndex := stepIndex;
    }

    method SetStatus(status: CanaryStatus)
      modifies this
      ensures Row() == old(Row()).(status := status)
    {
      this.status := status;
    }
  }

  class Service {
    const db: PolicyService.Database

    constructor (db: PolicyService.Database)
      ensures this.db == db
    {
      this.db := db;
    }

    /**
     * Refuses a null namespace in the source; the callers below check for it first, as the rollback
     * undoes the rest.
     */
    method Publish(decision: Decision)
      modifies db`decisions
      ensures db.decisions == old(db.decisions) + [decision]
    {
      db.decisions := db.decisions + [decision];
    }

    method Start(namespace: Option<string>, name: string, path: string,
                 stable: string, canary: string, requestedSteps: Option<seq<int>>)
      returns (r: Result<CanaryRow, Error>)
      modifies db
      ensures (r, db.View()) == StartCanary(old(db.View()), namespace, name, path, stable, canary, requestedSteps)
    {
      var policy := TryGet(db.View(), namespace, name);
      if policy.None? {
        return Err(NotFound);
      }
      var ladder := Validate(requestedSteps);
      if ladder.Err? {
        return Err(ladder.error);
      }
      if namespace.None? {
        return Err(NullReference);
      }
      var steps, key := ladder.value, (policy.value.id, path);
      var entity;
      if key in db.canaries {
        entity := new CanaryEntity.Load(db.canaries[key]);
        entity.Reinitialize(stable, canary, steps, PROGRESSING);
      } else {
        entity := new CanaryEntity(stable, canary, steps, PROGRESSING);
      }
      db.canaries := db.canaries[key := entity.Row()];
      var firstWeight := steps[0];
      db.Record(CanaryStart, CanaryTarget(namespace, name, path), StartDetail(stable, canary, firstWeight));
      Publish(Decision(RouteRef(namespace.value, name), path, canary, 0, firstWeight, "canary-start"));
      return Ok(entity.Row());
    }

    method Promote(namespace: Option<string>, name: string, path: string) returns (r: Result<CanaryRow, Error>)
      requires SoundCanaries(db.View())
      modifies db
      ensures (r, db.View()) == MoveCanary(old(db.View()), namespace, name, path, Move.Promote)
    {
      var policy := TryGet(db.View(), namespace, name);
      if policy.None? || (policy.value.id, path) !in db.canaries {
        return Err(NotFound);
      }
      var key := (policy.value.id, path);
      var entity := new CanaryEntity.Load(db.canaries[key]);
      if entity.status == PROMOTED || entity.status == ROLLED_BACK {
        return Ok(entity.Row());
      }
      if namespace.None? {
        return Err(NullReference);
      }
      var oldWeight := entity.steps[entity.stepIndex];
      var nextIndex := if entity.stepIndex + 1 < |entity.steps| - 1 then entity.stepIndex + 1 else |entity.steps| - 1;
      var newWeight := entity.steps[nextIndex];
      entity.SetStepIndex(nextIndex);
      if newWeight >= 100 {
        entity.SetStatus(PROMOTED);
      }
      db.canaries := db.canaries[key := entity.Row()];
      db.Record(CanaryPromote, CanaryTarget(namespace, name, path), MoveDetail(oldWeight, newWeight));
      Publish(Decision(RouteRef(namespace.value, name), path, entity.canaryVersion, oldWeight, newWeight,
        "canary-promote"));
      return Ok(entity.Row());
    }

    method Rollback(namespace: Option<string>, name: string, path: string) returns (r: Result<CanaryRow, Error>)
      requires SoundCanaries(db.View())
      modifies db
      ensures (r, db.View()) == MoveCanary(old(db.View()), namespace, name, path, Move.Rollback)
    {
      var policy := TryGet(db.View(), namespace, name);
      if policy.None? || (policy.value.id, path) !in db.canaries {
        return Err(NotFound);
      }
      if namespace.None? {
        return Err(NullReference);
      }
      var key := (policy.value.id, path);
      var entity := new CanaryEntity.Load(db.canaries[key]);
      var oldWeight := entity.steps[entity.stepIndex];
      entity.SetStatus(ROLLED_BACK);
      db.canaries := db.canaries[key := entity.Row()];
      db.Record(CanaryRollback, CanaryTarget(namespace, name, path), MoveDetail(oldWeight, 0));
      Publish(Decision(RouteRef(namespace.value, name), path, entity.canaryVersion, oldWeight, 0, "canary-rollback"));
      return Ok(entity.Row());
    }
  }
}
