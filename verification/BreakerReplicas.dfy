/**
 * Replicas share one Redis, and each service call is a read followed later by writes, so calls of
 * different replicas interleave between any two store operations, and any operation may fail over
 * to the replica's own store. Safety that survives all of it.
 */
module BreakerReplicas {
  import opened Wrappers
  import opened Integers
  import opened CircuitBreaker
  import opened BreakerHistory

  /** How far one replica's current call has come; `failing` tells recordFailure from get. */
  datatype Phase =
    | Idle
    | Recovering(key: string, updated: Record, failing: bool)
    | Checked(key: string, current: Record)
    | Resetting(key: string)

  datatype Replica = Replica(local: Records, phase: Phase)

  /** `failureWrites` counts, key by key, the records recordFailure wrote. */
  datatype World = World(primary: Records, replicas: seq<Replica>, failureWrites: map<string, nat>) {
    function Writes(key: string): nat {
      if key in failureWrites then failureWrites[key] else 0
    }

    function StoresOf(r: nat): Stores
      requires r < |replicas|
    {
      Stores(primary, replicas[r].local)
    }

    function With(r: nat, stores: Stores, phase: Phase): World
      requires r < |replicas|
    {
      this.(primary := stores.primary, replicas := replicas[r := Replica(stores.local, phase)])
    }
  }

  datatype Action =
    | StartRead(key: string, failing: bool, recovery: int, now: int)
    | StartReset(key: string)
    | WriteRecovery
    | WriteFailure(now: int)
    | WriteReset

  /** One atomic store operation of replica r, with whatever contact it has to Redis. */
  function Step(w: World, r: nat, a: Action, contact: Contact, threshold: int): World
    requires r < |w.replicas|
  {
    var s, phase := w.StoresOf(r), w.replicas[r].phase;
    match a
    case StartRead(key, failing, recovery, now) =>
      if phase != Idle then w
      else
        var current := s.Get(key, contact);
        var updated := WithRecoveryCheck(current, recovery, now);
        w.With(r, s, if updated != current then Recovering(key, updated, failing)
                     else if failing then Checked(key, current)
                     else Idle)
    case StartReset(key) =>
      if phase != Idle then w else w.With(r, s, Resetting(key))
    case WriteRecovery =>
      if !phase.Recovering? then w
      else
        var next := if phase.failing then Checked(phase.key, phase.updated) else Idle;
        w.With(r, s.Put(phase.key, phase.updated, contact), next)
    case WriteFailure(now) =>
      if !phase.Checked? then w
      else
        w.With(r, s.Put(phase.key, OnFailure(phase.current, threshold, now), contact), Idle)
         .(failureWrites := w.failureWrites[phase.key := w.Writes(phase.key) + 1])
    case WriteReset =>
      if !phase.Resetting? then w else w.With(r, s.Put(phase.key, CLOSED_RECORD, contact), Idle)
  }

  datatype Move = Move(replica: nat, action: Action, contact: Contact)

  function Start(replicas: nat): World {
    World(map[], seq(replicas, i => Replica(map[], Idle)), map[])
  }

  function Run(replicas: nat, moves: seq<Move>, threshold: int): (w: World)
    requires forall m :: m in moves ==> m.replica < replicas
    ensures |w.replicas| == replicas
  {
    if moves == [] then Start(replicas)
    else
      var m := moves[|moves| - 1];
      Step(Run(replicas, moves[..|moves| - 1], threshold), m.replica, m.action, m.contact, threshold)
  }

  /** CLOSED, no opening time and a count below the threshold are one and the same condition. */
  predicate Coherent(record: Record, threshold: int, writes: nat) {
    && 0 <= record.consecutiveFailures <= writes
    && (record.state == CLOSED <==> record.openedAt.None?)
    && (record.state == CLOSED <==> record.consecutiveFailures < Effective(threshold))
  }

  ghost predicate AllCoherent(records: Records, threshold: int, w: World) {
    forall k :: k in records ==> Coherent(records[k], threshold, w.Writes(k))
  }

  ghost predicate PhaseCoherent(phase: Phase, threshold: int, w: World) {
    match phase
    case Recovering(key, updated, _) => Coherent(updated, threshold, w.Writes(key))
    case Checked(key, current) => Coherent(current, threshold, w.Writes(key))
    case _ => true
  }

  ghost predicate Safe(w: World, threshold: int) {
    && AllCoherent(w.primary, threshold, w)
    && forall r :: 0 <= r < |w.replicas| ==>
         && AllCoherent(w.replicas[r].local, threshold, w)
         && PhaseCoherent(w.replicas[r].phase, threshold, w)
  }

  ghost predicate CountsFitInt(w: World) {
    forall k :: w.Writes(k) <= MAX_INT
  }

  lemma StepKeepsSafe(w: World, r: nat, a: Action, contact: Contact, threshold: int)
    requires r < |w.replicas| && Safe(w, threshold)
    requires CountsFitInt(Step(w, r, a, contact, threshold))
    ensures Safe(Step(w, r, a, contact, threshold), threshold)
  {
    var w', s, phase := Step(w, r, a, contact, threshold), w.StoresOf(r), w.replicas[r].phase;
    WritesOnlyGrow(w, r, a, contact, threshold);
    match a
    case StartRead(key, failing, recovery, now) =>
      assert Coherent(s.Get(key, contact), threshold, w.Writes(key));
    case WriteFailure(now) =>
      if phase.Checked? {
        var updated := OnFailure(phase.current, threshold, now);
        assert w'.Writes(phase.key) == w.Writes(phase.key) + 1;
        assert Coherent(updated, threshold, w'.Writes(phase.key));
        GrownIsSafe(w, w'.failureWrites, threshold);
        PutIsSafe(w.(failureWrites := w'.failureWrites), r, phase.key, updated, contact, Idle, threshold);
      }
    case WriteRecovery =>
      if phase.Recovering? {
        PutIsSafe(w, r, phase.key, phase.updated, contact, w'.replicas[r].phase, threshold);
      }
    case WriteReset =>
      if phase.Resetting? {
        PutIsSafe(w, r, phase.key, CLOSED_RECORD, contact, Idle, threshold);
      }
    case StartReset(key) =>
  }

  /** Writing a coherent record, wherever it lands, and moving on to a coherent phase. */
  lemma PutIsSafe(w: World, r: nat, key: string, record: Record, contact: Contact, phase: Phase, threshold: int)
    requires r < |w.replicas| && Safe(w, threshold)
    requires Coherent(record, threshold, w.Writes(key)) && PhaseCoherent(phase, threshold, w)
    ensures Safe(w.With(r, w.StoresOf(r).Put(key, record, contact), phase), threshold)
  {
    hide Coherent;
  }

  lemma GrownIsSafe(w: World, writes: map<string, nat>, threshold: int)
    requires Safe(w, threshold) && forall k :: w.Writes(k) <= w.(failureWrites := writes).Writes(k)
    ensures Safe(w.(failureWrites := writes), threshold)
  {
  }

  /**
   * In every interleaving, with any errors, every stored record is coherent and counts no more
   * failures than were ever written for its key, for as long as those numbers fit a Java int.
   */
  lemma {:induction false} EveryInterleavingIsSafe(replicas: nat, moves: seq<Move>, threshold: int)
    requires forall m :: m in moves ==> m.replica < replicas
    requires CountsFitInt(Run(replicas, moves, threshold))
    ensures Safe(Run(replicas, moves, threshold), threshold)
  {
    if moves != [] {
      var m, before := moves[|moves| - 1], moves[..|moves| - 1];
      WritesOnlyGrow(Run(replicas, before, threshold), m.replica, m.action, m.contact, threshold);
      EveryInterleavingIsSafe(replicas, before, threshold);
      StepKeepsSafe(Run(replicas, before, threshold), m.replica, m.action, m.contact, threshold);
    }
  }

  lemma WritesOnlyGrow(w: World, r: nat, a: Action, contact: Contact, threshold: int)
    requires r < |w.replicas|
    ensures forall k :: w.Writes(k) <= Step(w, r, a, contact, threshold).Writes(k)
  {
  }

  /** A call that nobody interrupts is the service's own method. */
  lemma UninterruptedCallIsTheService(
      w: World, r: nat, key: string, threshold: int, recovery: int, checkedAt: int, failedAt: int, io: Contacts)
    requires r < |w.replicas| && w.replicas[r].phase == Idle
    ensures
      var w1 := Step(w, r, StartRead(key, true, recovery, checkedAt), io.read, threshold);
      var w2 := Step(w1, r, WriteRecovery, io.recover, threshold);
      var w3 := Step(w2, r, WriteFailure(failedAt), io.write, threshold);
      w3.StoresOf(r) == Fail(w.StoresOf(r), key, threshold, recovery, checkedAt, failedAt, io).1
      && w3.replicas[r].phase == Idle
  {
  }

  /** The count is only an upper bound: two overlapping calls can record one failure. */
  lemma {:induction false} OverlappingCallsLoseAFailure(threshold: int)
    requires threshold > 2
    ensures
      var moves := [ Move(0, StartRead("k", true, 1, 0), Up), Move(1, StartRead("k", true, 1, 0), Up),
                     Move(0, WriteFailure(0), Up), Move(1, WriteFailure(0), Up) ];
      var w := Run(2, moves, threshold);
      w.Writes("k") == 2 && Lookup(w.primary, "k") == Record(CLOSED, 1, None)
  {
    var moves := [ Move(0, StartRead("k", true, 1, 0), Up), Move(1, StartRead("k", true, 1, 0), Up),
                   Move(0, WriteFailure(0), Up), Move(1, WriteFailure(0), Up) ];
    var one, two, three := moves[..1], moves[..2], moves[..3];
    assert moves[..|moves| - 1] == three && three[..|three| - 1] == two && two[..|two| - 1] == one;
    assert one[..|one| - 1] == [] && one[0] == moves[0] && two[1] == moves[1] && three[2] == moves[2];
    var w1 := Step(Start(2), 0, moves[0].action, Up, threshold);
    assert Run(2, one, threshold) == w1;
    var w2 := Step(w1, 1, moves[1].action, Up, threshold);
    assert Run(2, two, threshold) == w2;
    assert Run(2, three, threshold) == Step(w2, 0, moves[2].action, Up, threshold);
  }
}
