/** Every canary transition is both audited and broadcast: the two logs tell the same story. */
module CanaryAudit {
  import opened Wrappers
  import opened Sequences
  import opened Wire
  import opened Store
  import opened Registration
  import opened Canary
  import opened StoreRuns
  import opened CanaryRuns

  function IsEntry(): AuditRow -> bool {
    (row: AuditRow) => IsCanaryEntry(row)
  }

  function IsShift(): Decision -> bool {
    (d: Decision) => IsCanaryDecision(d)
  }

  /** An audit entry and a decision about one transition. */
  predicate SameTransition(row: AuditRow, d: Decision) {
    && row.target == "policy/" + NamespaceOrDefault(Some(d.ref.namespace)) + "/" + d.ref.name + d.path
    && match row.action
       case CanaryStart =>
         && d.reason == "canary-start" && row.detail.StartDetail? && d.oldWeight == 0
         && row.detail.canaryVersion == d.version && row.detail.weight == d.newWeight
       case CanaryPromote => d.reason == "canary-promote" && row.detail == MoveDetail(d.oldWeight, d.newWeight)
       case CanaryRollback =>
         d.reason == "canary-rollback" && row.detail == MoveDetail(d.oldWeight, d.newWeight) && d.newWeight == 0
       case _ => false
  }

  ghost predicate SameStory(rows: seq<AuditRow>, ds: seq<Decision>) {
    |rows| == |ds| && forall i :: 0 <= i < |rows| ==> SameTransition(rows[i], ds[i])
  }

  /** What a call adds to the two logs: the same transition to both, or nothing about canaries. */
  ghost predicate TellsOnce(rows: seq<AuditRow>, ds: seq<Decision>) {
    || (|rows| == 1 && |ds| == 1 && IsCanaryEntry(rows[0]) && IsCanaryDecision(ds[0]) && SameTransition(rows[0], ds[0]))
    || ((forall row :: row in rows ==> !IsCanaryEntry(row)) && forall d :: d in ds ==> !IsCanaryDecision(d))
  }

  lemma StartTellsOnce(t: Tables, op: Op) returns (rows: seq<AuditRow>, ds: seq<Decision>)
    requires SoundCanaries(t) && op.StartOp?
    ensures Step(t, op).audit == t.audit + rows && Step(t, op).decisions == t.decisions + ds && TellsOnce(rows, ds)
  {
    hide LadderFor, TryGet, NamespaceOrDefault;
    var t' := Step(t, op);
    rows, ds := t'.audit[|t.audit|..], t'.decisions[|t.decisions|..];
  }

  lemma MoveTellsOnce(t: Tables, op: Op) returns (rows: seq<AuditRow>, ds: seq<Decision>)
    requires SoundCanaries(t) && op.MoveOp?
    ensures Step(t, op).audit == t.audit + rows && Step(t, op).decisions == t.decisions + ds && TellsOnce(rows, ds)
  {
    hide TryGet, NamespaceOrDefault, Sound, Apply, Promoted;
    var t' := Step(t, op);
    rows, ds := t'.audit[|t.audit|..], t'.decisions[|t.decisions|..];
  }

  lemma PolicyCallTellsNothing(t: Tables, op: Op) returns (rows: seq<AuditRow>, ds: seq<Decision>)
    requires SoundCanaries(t) && !op.StartOp? && !op.MoveOp?
    ensures Step(t, op).audit == t.audit + rows && Step(t, op).decisions == t.decisions + ds && TellsOnce(rows, ds)
  {
    rows := PolicyCallAudits(t, op);
    ds := [];
    assert t.decisions + [] == t.decisions;
    if op.RegisterOp? {
      var previous := TryGet(t, Some(op.spec.ref.namespace), op.spec.ref.name);
      if previous.Some? {
        ds := Changes(op.spec.ref, WeightsOf(previous.value.spec.rules), op.spec.rules);
        ChangesAreNoCanaryDecisions(op.spec.ref, WeightsOf(previous.value.spec.rules), op.spec.rules);
      }
    }
    hide NamespaceOrDefault, WithoutPolicy, Changes, ConfigOf, TryGet;
  }

  lemma PolicyCallAudits(t: Tables, op: Op) returns (rows: seq<AuditRow>)
    requires SoundCanaries(t) && !op.StartOp? && !op.MoveOp?
    ensures Step(t, op).audit == t.audit + rows && forall row :: row in rows ==> !IsCanaryEntry(row)
  {
    rows := Audited(t, EffectOf(t, op));
    if op.RegisterOp? {
      RegistrationIsAnUpsert(t, op);
      PolicyCallHasItsEffect(t, UpsertOp(Some(op.spec.ref.namespace), op.spec.ref.name, op.spec, op.id));
    } else {
      PolicyCallHasItsEffect(t, op);
    }
    hide Step, EffectOf;
  }

  lemma CallTellsOnce(t: Tables, op: Op) returns (rows: seq<AuditRow>, ds: seq<Decision>)
    requires SoundCanaries(t)
    ensures Step(t, op).audit == t.audit + rows && Step(t, op).decisions == t.decisions + ds && TellsOnce(rows, ds)
  {
    hide Step, TellsOnce;
    if op.StartOp? {
      rows, ds := StartTellsOnce(t, op);
    } else if op.MoveOp? {
      rows, ds := MoveTellsOnce(t, op);
    } else {
      rows, ds := PolicyCallTellsNothing(t, op);
    }
  }

  lemma StoryGrows(audit: seq<AuditRow>, decisions: seq<Decision>, rows: seq<AuditRow>, ds: seq<Decision>)
    requires SameStory(Filter(IsEntry(), audit), Filter(IsShift(), decisions)) && TellsOnce(rows, ds)
    ensures SameStory(Filter(IsEntry(), audit + rows), Filter(IsShift(), decisions + ds))
  {
    hide SameTransition, IsCanaryEntry, IsCanaryDecision, Filter;
    FilterConcat(IsEntry(), audit, rows);
    FilterConcat(IsShift(), decisions, ds);
    if |rows| == 1 && |ds| == 1 && IsCanaryEntry(rows[0]) && IsCanaryDecision(ds[0]) {
      KeepOne(IsEntry(), rows[0]);
      KeepOne(IsShift(), ds[0]);
      assert rows == [rows[0]] && ds == [ds[0]];
    } else {
      NothingKept(IsEntry(), rows);
      NothingKept(IsShift(), ds);
    }
  }

  /** Over every run, entry for decision, with the same canary, versions and weights. */
  lemma {:induction false} AuditTellsWhatIsPublished(ops: seq<Op>)
    ensures SameStory(Filter(IsEntry(), StoreRuns.After(ops).audit), Filter(IsShift(), StoreRuns.After(ops).decisions))
  {
    hide Step, TellsOnce, SameStory, Filter;
    if ops == [] {
      NothingTold();
    } else {
      var t := StoreRuns.After(ops[..|ops| - 1]);
      AuditTellsWhatIsPublished(ops[..|ops| - 1]);
      var rows, ds := CallTellsOnce(t, ops[|ops| - 1]);
      StoryGrows(t.audit, t.decisions, rows, ds);
    }
  }

  lemma NothingTold()
    ensures SameStory(Filter(IsEntry(), EMPTY.audit), Filter(IsShift(), EMPTY.decisions))
  {
  }
}
