/**
 * The stored, lazily updated record of every circuit is a function of its event history. Threshold
 * and recovery time are arguments of each call; with the same ones on every call the record does
 * not depend on how often it is polled in between.
 */
module BreakerHistory {
  import opened Wrappers
  import opened Integers
  import opened CircuitBreaker

  datatype Event =
    | Failure(key: string, threshold: int, recovery: int, checkedAt: int, failedAt: int)
    | Success(key: string, at: int)
    | Poll(key: string, recovery: int, at: int)
  {
    function Begin(): int {
      if Failure? then checkedAt else at
    }

    function End(): int {
      if Failure? then failedAt else at
    }
  }

  const ALL_UP := Contacts(Up, Up, Up)

  function StepVia(s: Stores, e: Event, io: Contacts): Stores {
    match e
    case Failure(key, threshold, recovery, checkedAt, failedAt) =>
      Fail(s, key, threshold, recovery, checkedAt, failedAt, io).1
    case Success(key, _) => Succeed(s, key, io).1
    case Poll(key, recovery, at) => Read(s, key, recovery, at, io).1
  }

  function Step(s: Stores, e: Event): Stores {
    StepVia(s, e, ALL_UP)
  }

  function After(events: seq<Event>): Stores {
    if events == [] then Stores(map[], map[]) else Step(After(events[..|events| - 1]), events[|events| - 1])
  }

  /** What `get` answers after a history. */
  function Answer(events: seq<Event>, key: string, recovery: int, now: int): Record {
    Read(After(events), key, recovery, now, ALL_UP).0
  }

  /** The clock never runs backwards, within an event or between events. */
  predicate ClockIsMonotone(events: seq<Event>) {
    && (forall i :: 0 <= i < |events| ==> events[i].Begin() <= events[i].End())
    && (forall i, j :: 0 <= i < j < |events| ==> events[i].End() <= events[j].Begin())
  }

  predicate NotBefore(events: seq<Event>, now: int) {
    forall i :: 0 <= i < |events| ==> events[i].End() <= now
  }

  // ---- The reference -----------------------------------------------------------------------

  /** Failures of a key since its last success. */
  function Trail(events: seq<Event>, key: string): nat {
    if events == [] then 0
    else
      var before, e := events[..|events| - 1], events[|events| - 1];
      if e.key != key || e.Poll? then Trail(before, key)
      else if e.Success? then 0
      else Trail(before, key) + 1
  }

  /** When the key last failed; meaningful while its trail is not empty. */
  function LastFailure(events: seq<Event>, key: string): int {
    if events == [] then 0
    else
      var before, e := events[..|events| - 1], events[|events| - 1];
      if e.key == key && e.Failure? then e.failedAt else LastFailure(before, key)
  }

  /**
   * A failure opens a circuit if it reaches the threshold it is reported with, or fails a trial;
   * only a success or a failure that does neither closes it again.
   */
  predicate IsOpen(events: seq<Event>, key: string)
    decreases |events|, 0
  {
    events != [] &&
    var before, e := events[..|events| - 1], events[|events| - 1];
    if e.key != key || e.Poll? then IsOpen(before, key)
    else e.Failure? && (Trail(events, key) >= e.threshold || MayTry(before, key, e.recovery, e.checkedAt))
  }

  /** An open circuit is on trial from the moment some poll since the last failure found recovery due. */
  predicate OnTrial(events: seq<Event>, key: string)
    decreases |events|, 0
  {
    events != [] &&
    var before, e := events[..|events| - 1], events[|events| - 1];
    if e.key != key then OnTrial(before, key)
    else e.Poll? && MayTry(before, key, e.recovery, e.at)
  }

  /** Whoever asks for this recovery time now may try: the circuit is on trial already, or due. */
  predicate MayTry(events: seq<Event>, key: string, recovery: int, now: int)
    decreases |events|, 1
  {
    IsOpen(events, key) && (OnTrial(events, key) || now >= LastFailure(events, key) + recovery)
  }

  /** What a reader at `now` is owed. */
  function Expected(events: seq<Event>, key: string, recovery: int, now: int): Record {
    var n, last := Trail(events, key), LastFailure(events, key);
    if !IsOpen(events, key) then Record(CLOSED, n, None)
    else if MayTry(events, key, recovery, now) then Record(HALF_OPEN, n, Some(last))
    else Record(OPEN, n, Some(last))
  }

  // ---- The store follows -------------------------------------------------------------------

  /** The stored record lags behind what is due: it leaves OPEN only when a reader notices. */
  lemma {:induction false} StoreFollowsHistory(events: seq<Event>, key: string)
    requires Trail(events, key) <= MAX_INT
    ensures
      var n, last := Trail(events, key), LastFailure(events, key);
      Lookup(After(events).primary, key) ==
        if !IsOpen(events, key) then Record(CLOSED, n, None)
        else Record(if OnTrial(events, key) then HALF_OPEN else OPEN, n, Some(last))
  {
    if events != [] && Trail(events[..|events| - 1], key) <= MAX_INT {
      StoreFollowsHistory(events[..|events| - 1], key);
    }
  }

  /** Whatever thresholds and recovery times the calls name, a read answers what the history calls for. */
  lemma GetFollowsHistory(events: seq<Event>, key: string, recovery: int, now: int)
    requires Trail(events, key) <= MAX_INT
    ensures Answer(events, key, recovery, now) == Expected(events, key, recovery, now)
  {
    StoreFollowsHistory(events, key);
    hide IsOpen, OnTrial, Trail, LastFailure, After;
  }

  /** The count is the trailing run of failures exactly as long as that run fits a Java int. */
  lemma CountIsTrailIffItFits(events: seq<Event>, key: string)
    ensures Lookup(After(events).primary, key).consecutiveFailures == Trail(events, key)
            <==> Trail(events, key) <= MAX_INT
  {
    if Trail(events, key) <= MAX_INT {
      StoreFollowsHistory(events, key);
    } else {
      CountFitsInt(events, key);
    }
  }

  lemma {:induction false} CountFitsInt(events: seq<Event>, key: string)
    ensures Lookup(After(events).primary, key).consecutiveFailures <= MAX_INT
  {
    if events != [] {
      CountFitsInt(events[..|events| - 1], key);
    }
  }

  // ---- The same settings on every call -----------------------------------------------------

  /** A threshold below one still takes one failure to open. */
  function Effective(threshold: int): int {
    if threshold < 1 then 1 else threshold
  }

  predicate FixedThreshold(events: seq<Event>, key: string, threshold: int) {
    forall i :: 0 <= i < |events| && events[i].Failure? && events[i].key == key ==> events[i].threshold == threshold
  }

  predicate FixedRecovery(events: seq<Event>, key: string, recovery: int) {
    forall i :: 0 <= i < |events| && !events[i].Success? && events[i].key == key ==> events[i].recovery == recovery
  }

  /** With one threshold for a key, its circuit is open exactly from the threshold on. */
  lemma {:induction false} FixedThresholdOpensIff(events: seq<Event>, key: string, threshold: int)
    requires FixedThreshold(events, key, threshold)
    ensures IsOpen(events, key) <==> Trail(events, key) >= Effective(threshold)
  {
    if events != [] {
      var before, e := events[..|events| - 1], events[|events| - 1];
      assert FixedThreshold(before, key, threshold) by {
        assert forall i :: 0 <= i < |before| ==> before[i] == events[i];
      }
      FixedThresholdOpensIff(before, key, threshold);
      assert e.Failure? && e.key == key ==> e.threshold == threshold;
    }
  }

  /** With one recovery time for a key, a circuit on trial is due for every later reader. */
  lemma {:induction false} TrialIsDue(events: seq<Event>, key: string, recovery: int, now: int)
    requires NotBefore(events, now) && FixedRecovery(events, key, recovery)
    ensures OnTrial(events, key) ==> IsOpen(events, key) && now >= LastFailure(events, key) + recovery
  {
    if events != [] {
      var before, e := events[..|events| - 1], events[|events| - 1];
      assert FixedRecovery(before, key, recovery) && NotBefore(before, now) by {
        assert forall i :: 0 <= i < |before| ==> before[i] == events[i];
      }
      TrialIsDue(before, key, recovery, now);
      if e.key == key && e.Poll? && MayTry(before, key, e.recovery, e.at) {
        assert e.recovery == recovery && e.at <= now;
      }
    }
  }

  /**
   * CLOSED while fewer than the threshold failed since the last success, else HALF_OPEN once the
   * recovery time has passed since the last failure, else OPEN.
   */
  lemma FixedSettingsAnswer(events: seq<Event>, key: string, threshold: int, recovery: int, now: int)
    requires NotBefore(events, now) && Trail(events, key) <= MAX_INT
    requires FixedThreshold(events, key, threshold) && FixedRecovery(events, key, recovery)
    ensures
      var n, last := Trail(events, key), LastFailure(events, key);
      Answer(events, key, recovery, now) ==
        if n < Effective(threshold) then Record(CLOSED, n, None)
        else if now >= last + recovery then Record(HALF_OPEN, n, Some(last))
        else Record(OPEN, n, Some(last))
  {
    hide IsOpen, OnTrial, Answer, Trail, LastFailure;
    GetFollowsHistory(events, key, recovery, now);
    FixedThresholdOpensIff(events, key, threshold);
    TrialIsDue(events, key, recovery, now);
  }

  // ---- Polling -----------------------------------------------------------------------------

  function WithoutPolls(events: seq<Event>): seq<Event> {
    if events == [] then []
    else
      var before, e := events[..|events| - 1], events[|events| - 1];
      if e.Poll? then WithoutPolls(before) else WithoutPolls(before) + [e]
  }

  lemma {:induction false} PollsLeaveNoTrail(events: seq<Event>, key: string, recovery: int)
    requires ClockIsMonotone(events) && FixedRecovery(events, key, recovery)
    ensures Trail(WithoutPolls(events), key) == Trail(events, key)
    ensures LastFailure(WithoutPolls(events), key) == LastFailure(events, key)
    ensures IsOpen(WithoutPolls(events), key) == IsOpen(events, key)
    ensures !OnTrial(WithoutPolls(events), key)
  {
    if events != [] {
      var before, e := events[..|events| - 1], events[|events| - 1];
      assert ClockIsMonotone(before) && FixedRecovery(before, key, recovery) && NotBefore(before, e.Begin()) by {
        assert forall i :: 0 <= i < |before| ==> before[i] == events[i];
      }
      PollsLeaveNoTrail(before, key, recovery);
      TrialIsDue(before, key, recovery, e.Begin());
      var rest := WithoutPolls(before) + [e];
      assert rest[..|rest| - 1] == WithoutPolls(before);
      assert e.key == key && e.Failure? ==> e.recovery == recovery;
      hide ClockIsMonotone, NotBefore, FixedRecovery;
    }
  }

  /** With one recovery time for a key, its polls, anywhere in the history, never change a later answer. */
  lemma PollingIsInvisible(events: seq<Event>, key: string, recovery: int, now: int)
    requires ClockIsMonotone(events) && NotBefore(events, now) && FixedRecovery(events, key, recovery)
    requires Trail(events, key) <= MAX_INT
    ensures Answer(events, key, recovery, now) == Answer(WithoutPolls(events), key, recovery, now)
  {
    hide Answer, Trail, LastFailure, IsOpen, OnTrial, WithoutPolls, ClockIsMonotone, FixedRecovery, NotBefore;
    PollsLeaveNoTrail(events, key, recovery);
    TrialIsDue(events, key, recovery, now);
    GetFollowsHistory(events, key, recovery, now);
    GetFollowsHistory(WithoutPolls(events), key, recovery, now);
  }

  /** In general a poll shows exactly when it puts a circuit on trial that the reader would still find open. */
  lemma PollShowsIff(events: seq<Event>, poll: Event, key: string, recovery: int, now: int)
    requires poll.Poll? && Trail(events, key) <= MAX_INT
    ensures
      Answer(events + [poll], key, recovery, now) != Answer(events, key, recovery, now)
      <==> poll.key == key && Answer(events, key, recovery, now).state == OPEN
           && poll.at >= LastFailure(events, key) + poll.recovery
  {
    var more := events + [poll];
    assert more[..|more| - 1] == events && more[|more| - 1] == poll;
    GetFollowsHistory(more, key, recovery, now);
    GetFollowsHistory(events, key, recovery, now);
    hide Answer;
  }

  // ---- A raised threshold ------------------------------------------------------------------

  /**
   * Another failure closes an open circuit exactly when the threshold was raised beyond it and
   * recovery is not yet due.
   */
  lemma RaisedThresholdCloses(s: Stores, key: string, n: nat, at: int, threshold: int, recovery: int, checkedAt: int,
                              failedAt: int)
    requires n < MAX_INT && Lookup(s.primary, key) == Record(OPEN, n, Some(at))
    ensures Fail(s, key, threshold, recovery, checkedAt, failedAt, ALL_UP).0.state == CLOSED
            <==> threshold > n + 1 && checkedAt < at + recovery
  {
  }

  /** The same read off after any history that left the circuit open. */
  lemma OpenCircuitReadsClosedIff(events: seq<Event>, failure: Event, recovery: int, now: int)
    requires failure.Failure? && IsOpen(events, failure.key) && Trail(events, failure.key) < MAX_INT
    ensures
      var key := failure.key;
      Answer(events + [failure], key, recovery, now).state == CLOSED
      <==> failure.threshold > Trail(events, key) + 1 && !MayTry(events, key, failure.recovery, failure.checkedAt)
  {
    var more := events + [failure];
    assert more[..|more| - 1] == events && more[|more| - 1] == failure;
    GetFollowsHistory(more, failure.key, recovery, now);
    hide Answer, OnTrial;
  }
}
