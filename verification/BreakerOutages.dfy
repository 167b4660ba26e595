/**
 * A replica that loses Redis goes on with its own store. Each of the two stores then follows the
 * history of exactly the calls that reached it, and answers by it.
 */
module BreakerOutages {
  import opened Integers
  import opened CircuitBreaker
  import opened BreakerHistory

  /** What was written is read back by whoever has the same kind of contact, and no other key changes. */
  lemma WrittenIsRead(s: Stores, key: string, record: Record, contact: Contact, reader: Contact)
    ensures (contact == Up <==> reader == Up) ==> s.Put(key, record, contact).Get(key, reader) == record
    ensures contact == Lost ==> s.Put(key, record, contact).Get(key, reader) == record
    ensures forall other :: other != key ==> s.Put(key, record, contact).Get(other, reader) == s.Get(other, reader)
  {
  }

  /** One call, with one kind of contact to Redis throughout. */
  datatype Visit = Visit(event: Event, contact: Contact)

  function Throughout(contact: Contact): Contacts {
    Contacts(contact, contact, contact)
  }

  function Visited(visits: seq<Visit>): Stores {
    if visits == [] then Stores(map[], map[])
    else
      var v := visits[|visits| - 1];
      StepVia(Visited(visits[..|visits| - 1]), v.event, Throughout(v.contact))
  }

  /** What `get` answers after such a run. */
  function AnswerVia(visits: seq<Visit>, key: string, recovery: int, now: int, contact: Contact): Record {
    Read(Visited(visits), key, recovery, now, Throughout(contact)).0
  }

  /** The calls that were made with Redis, or without. */
  function Handled(visits: seq<Visit>, online: bool): seq<Event> {
    if visits == [] then []
    else
      var before, v := Handled(visits[..|visits| - 1], online), visits[|visits| - 1];
      if (v.contact == Up) == online then before + [v.event] else before
  }

  /** Errors strike before the operation took effect; a lost reply leaves the record in both stores. */
  predicate NothingLost(visits: seq<Visit>) {
    forall i :: 0 <= i < |visits| ==> visits[i].contact != Lost
  }

  lemma CallReachesOneStore(s: Stores, e: Event, contact: Contact)
    ensures contact == Up ==>
      StepVia(s, e, Throughout(contact)) == Stores(Step(Stores(s.primary, map[]), e).primary, s.local)
    ensures contact != Up ==> StepVia(s, e, Throughout(contact)).local == Step(Stores(s.local, map[]), e).primary
    ensures contact == Down ==> StepVia(s, e, Throughout(contact)).primary == s.primary
  {
    hide WithRecoveryCheck, OnFailure, OnSuccess;
  }

  lemma PrimaryAlone(s: Stores, e: Event)
    ensures Step(s, e).primary == Step(Stores(s.primary, map[]), e).primary
  {
    hide WithRecoveryCheck, OnFailure, OnSuccess;
  }

  lemma OneMoreEvent(events: seq<Event>, e: Event)
    ensures After(events + [e]).primary == Step(Stores(After(events).primary, map[]), e).primary
  {
    assert (events + [e])[..|events|] == events;
    PrimaryAlone(After(events), e);
  }

  /** The fallback store follows the calls made without Redis, and Redis those made with it. */
  lemma {:induction false} StoresFollowTheirCalls(visits: seq<Visit>)
    ensures Visited(visits).local == After(Handled(visits, false)).primary
    ensures NothingLost(visits) ==> Visited(visits).primary == After(Handled(visits, true)).primary
  {
    hide StepVia, Step, After;
    if visits == [] {
      NothingHandled();
    } else {
      var before, v := visits[..|visits| - 1], visits[|visits| - 1];
      StoresFollowTheirCalls(before);
      CallReachesOneStore(Visited(before), v.event, v.contact);
      OneMoreEvent(Handled(before, v.contact == Up), v.event);
    }
  }

  lemma NothingHandled()
    ensures After([]).primary == map[]
  {
  }

  /**
   * Without Redis, answers are what the calls made without Redis call for; with Redis, and no reply
   * lost, what the calls made with it do. In particular a breaker opens during an outage too.
   */
  lemma AnswersFollowTheirCalls(visits: seq<Visit>, key: string, recovery: int, now: int, contact: Contact)
    requires contact == Up ==> NothingLost(visits)
    requires Trail(Handled(visits, contact == Up), key) <= MAX_INT
    ensures AnswerVia(visits, key, recovery, now, contact)
        == Expected(Handled(visits, contact == Up), key, recovery, now)
  {
    hide After, Handled, Visited, Expected, Trail;
    StoresFollowTheirCalls(visits);
    GetFollowsHistory(Handled(visits, contact == Up), key, recovery, now);
  }

  /** An outage as it is seen by one replica. */
  function CutOff(events: seq<Event>): seq<Visit> {
    if events == [] then [] else CutOff(events[..|events| - 1]) + [Visit(events[|events| - 1], Down)]
  }

  lemma {:induction false} CutOffHandlesAll(events: seq<Event>)
    ensures Handled(CutOff(events), false) == events
  {
    if events != [] {
      CutOffHandlesAll(events[..|events| - 1]);
    }
  }

  /** Cut off from Redis, a replica is a breaker of its own: it opens at the threshold like any other. */
  lemma CutOffReplicaOpensIff(events: seq<Event>, key: string, threshold: int, recovery: int, now: int)
    requires FixedThreshold(events, key, threshold) && Trail(events, key) <= MAX_INT
    ensures AnswerVia(CutOff(events), key, recovery, now, Down).state == CLOSED
        <==> Trail(events, key) < Effective(threshold)
  {
    CutOffHandlesAll(events);
    AnswersFollowTheirCalls(CutOff(events), key, recovery, now, Down);
    FixedThresholdOpensIff(events, key, threshold);
    hide IsOpen, OnTrial, Trail, LastFailure, AnswerVia, Handled, CutOff;
  }
}
