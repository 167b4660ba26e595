/**
 * The circuit breaker: storage-agnostic transitions, the keyed stores, and the service that reads,
 * transforms and writes back one record. Instants are integers; Java's int is 32 bits wide.
 */
module CircuitBreaker {
  import opened Wrappers
  import opened Integers

  datatype CircuitState = CLOSED | OPEN | HALF_OPEN

  datatype Record = Record(state: CircuitState, consecutiveFailures: int, openedAt: Option<int>)

  const CLOSED_RECORD := Record(CLOSED, 0, None)

  // ---- CircuitBreakerLogic -----------------------------------------------------------------

  function OnFailure(current: Record, failureThreshold: int, now: int): Record {
    var failures := Wrap32(current.consecutiveFailures + 1);
    if current.state == HALF_OPEN || failures >= failureThreshold then
      Record(OPEN, failures, Some(now))
    else
      Record(CLOSED, failures, None)
  }

  function OnSuccess(current: Record): Record {
    CLOSED_RECORD
  }

  function WithRecoveryCheck(current: Record, recoveryTimeout: int, now: int): Record {
    if current.state == OPEN && current.openedAt.Some? && now >= current.openedAt.value + recoveryTimeout then
      Record(HALF_OPEN, current.consecutiveFailures, current.openedAt)
    else
      current
  }

  // ---- Stores ------------------------------------------------------------------------------

  type Records = map<string, Record>

  function Lookup(records: Records, key: string): Record {
    if key in records then records[key] else CLOSED_RECORD
  }

  /** Contact with Redis: an error may strike before the operation or after it took effect. */
  datatype Contact = Up | Down | Lost

  /** The two stores behind one replica, as values. */
  datatype Stores = Stores(primary: Records, local: Records) {
    function Get(key: string, contact: Contact): Record {
      Lookup(if contact == Up then primary else local, key)
    }

    function Put(key: string, record: Record, contact: Contact): Stores {
      Stores(if contact == Down then primary else primary[key := record],
             if contact == Up then local else local[key := record])
    }
  }

  /** Both LocalCircuitBreakerStore and the Redis store: a keyed map with a CLOSED default. */
  class KeyedStore {
    var records: Records

    constructor ()
      ensures records == map[]
    {
      records := map[];
    }

    method Get(key: string) returns (record: Record)
      ensures record == Lookup(records, key)
    {
      if key in records {
        return records[key];
      }
      return CLOSED_RECORD;
    }

    method Put(key: string, record: Record)
      modifies this
      ensures records == old(records)[key := record]
    {
      records := records[key := record];
    }
  }

  class FailoverCircuitBreakerStore {
    const primary: KeyedStore
    const localStore: KeyedStore
    var usingFallback: bool

    constructor (primary: KeyedStore)
      ensures this.primary == primary && fresh(localStore) && localStore.records == map[] && !usingFallback
    {
      this.primary := primary;
      localStore := new KeyedStore();
      usingFallback := false;
    }

    function View(): Stores
      reads primary, localStore
    {
      Stores(primary.records, localStore.records)
    }

    method Get(key: string, contact: Contact) returns (record: Record)
      modifies this
      ensures record == View().Get(key, contact)
      ensures usingFallback <==> contact != Up
    {
      if contact == Up {
        record := primary.Get(key);
        usingFallback := false;
      } else {
        usingFallback := true;
        record := localStore.Get(key);
      }
    }

    method Put(key: string, record: Record, contact: Contact)
      requires primary != localStore
      modifies this, primary, localStore
      ensures View() == old(View()).Put(key, record, contact)
      ensures usingFallback <==> contact != Up
    {
      if contact != Down {
        primary.Put(key, record);
      }
      if contact == Up {
        usingFallback := false;
      } else {
        usingFallback := true;
        localStore.Put(key, record);
      }
    }
  }

  // ---- CircuitBreakerService ---------------------------------------------------------------

  /** How each store operation of one service call fares: the read, the recovery write, the final write. */
  datatype Contacts = Contacts(read: Contact, recover: Contact, write: Contact)

  function Read(s: Stores, key: string, recoveryTimeout: int, now: int, io: Contacts): (Record, Stores) {
    var current := s.Get(key, io.read);
    var updated := WithRecoveryCheck(current, recoveryTimeout, now);
    (updated, if updated != current then s.Put(key, updated, io.recover) else s)
  }

  /** The breaker reads the clock twice: to check for recovery, then to date the failure. */
  function Fail(s: Stores, key: string, failureThreshold: int, recoveryTimeout: int, checkedAt: int, failedAt: int,
                io: Contacts)
    : (Record, Stores)
  {
    var (current, s') := Read(s, key, recoveryTimeout, checkedAt, io);
    var updated := OnFailure(current, failureThreshold, failedAt);
    (updated, s'.Put(key, updated, io.write))
  }

  function Succeed(s: Stores, key: string, io: Contacts): (Record, Stores) {
    var updated := OnSuccess(s.Get(key, io.read));
    (updated, s.Put(key, updated, io.write))
  }

  class CircuitBreakerService {
    const store: FailoverCircuitBreakerStore

    constructor (store: FailoverCircuitBreakerStore)
      ensures this.store == store
    {
      this.store := store;
    }

    predicate Valid()
      reads store
    {
      store.primary != store.localStore
    }

    method Get(key: string, recoveryTimeout: int, now: int, io: Contacts) returns (record: Record)
      requires Valid()
      modifies store, store.primary, store.localStore
      ensures (record, store.View()) == Read(old(store.View()), key, recoveryTimeout, now, io)
    {
      var current := store.Get(key, io.read);
      record := WithRecoveryCheck(current, recoveryTimeout, now);
      if record != current {
        store.Put(key, record, io.recover);
      }
    }

    method RecordFailure(key: string, failureThreshold: int, recoveryTimeout: int, checkedAt: int, failedAt: int,
                         io: Contacts)
      returns (record: Record)
      requires Valid()
      modifies store, store.primary, store.localStore
      ensures (record, store.View()) ==
        Fail(old(store.View()), key, failureThreshold, recoveryTimeout, checkedAt, failedAt, io)
    {
      var current := Get(key, recoveryTimeout, checkedAt, io);
      record := OnFailure(current, failureThreshold, failedAt);
      store.Put(key, record, io.write);
    }

    method RecordSuccess(key: string, io: Contacts) returns (record: Record)
      requires Valid()
      modifies store, store.primary, store.localStore
      ensures (record, store.View()) == Succeed(old(store.View()), key, io)
    {
      var current := store.Get(key, io.read);
      record := OnSuccess(current);
      store.Put(key, record, io.write);
    }
  }
}
