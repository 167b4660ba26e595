/**
 * Runs of the control plane: any sequence of policy, canary and registration calls. The policy
 * tables keep their history invariant, and the audit log alone rebuilds the policy table.
 */
module StoreRuns {
  import opened Wrappers
  import opened Wire
  import opened Store
  import opened Registration
  import opened Canary

  datatype Op =
    | CreateOp(namespace: Option<string>, name: string, spec: RouteSpec, id: Uuid)
    | UpsertOp(namespace: Option<string>, name: string, spec: RouteSpec, id: Uuid)
    | UpdateOp(namespace: Option<string>, name: string, spec: RouteSpec)
    | DeleteOp(namespace: Option<string>, name: string)
    | DeleteIfExistsOp(namespace: Option<string>, name: string)
    | StartOp(namespace: Option<string>, name: string, path: string, stable: string, canary: string,
              steps: Option<seq<int>>)
    | MoveOp(namespace: Option<string>, name: string, path: string, move: Move)
    | RegisterOp(spec: RouteSpec, id: Uuid)
  {
    function Namespace(): string {
      NamespaceOrDefault(if RegisterOp? then Some(spec.ref.namespace) else namespace)
    }

    /** The policy the call is about. */
    function Target(): Key {
      (Namespace(), if RegisterOp? then spec.ref.name else name)
    }

    /** The random UUID the call would hand to a new row. */
    function NewId(): Option<Uuid> {
      if CreateOp? || UpsertOp? || RegisterOp? then Some(id) else None
    }
  }

  function Step(t: Tables, op: Op): (t': Tables)
    requires SoundCanaries(t)
    ensures SoundCanaries(t')
  {
    match op
    case CreateOp(ns, name, spec, id) => Create(t, ns, name, spec, id).1
    case UpsertOp(ns, name, spec, id) => Upsert(t, ns, name, spec, id).1
    case UpdateOp(ns, name, spec) => Update(t, ns, name, spec).1
    case DeleteOp(ns, name) => Delete(t, ns, name).1
    case DeleteIfExistsOp(ns, name) => DeleteIfExists(t, ns, name)
    case StartOp(ns, name, path, stable, canary, steps) => StartCanary(t, ns, name, path, stable, canary, steps).1
    case MoveOp(ns, name, path, m) => MoveCanary(t, ns, name, path, m).1
    case RegisterOp(spec, id) => Register(t, spec, id).1
  }

  function After(ops: seq<Op>): (t: Tables)
    ensures SoundCanaries(t)
  {
    if ops == [] then EMPTY else Step(After(ops[..|ops| - 1]), ops[|ops| - 1])
  }

  /** A random UUID collides with no stored one. */
  predicate FreshId(t: Tables, op: Op) {
    op.NewId().Some? ==> forall i :: 0 <= i < |t.policies| ==> t.policies[i].id != op.NewId().value
  }

  predicate FreshIds(ops: seq<Op>) {
    ops != [] ==> FreshIds(ops[..|ops| - 1]) && FreshId(After(ops[..|ops| - 1]), ops[|ops| - 1])
  }

  // ---- What every call does to the policy tables -------------------------------------------

  /** The only four things any call can do to policies, snapshots and canary keys. */
  datatype Effect =
    | Untouched
    | Inserted(row: PolicyRow)
    | Revised(i: nat, spec: RouteSpec)
    | Removed(i: nat)

  function EffectOf(t: Tables, op: Op): Effect {
    var key := op.Target();
    match Find(t.policies, key)
    case None =>
      if op.NewId().Some? then Inserted(PolicyRow(op.NewId().value, key.0, key.1, op.spec, 1)) else Untouched
    case Some(i) =>
      if op.DeleteOp? || op.DeleteIfExistsOp? then Removed(i)
      else if (op.UpsertOp? || op.UpdateOp? || op.RegisterOp?) && t.policies[i].spec != op.spec then Revised(i, op.spec)
      else Untouched
  }

  function Policies(t: Tables, e: Effect): seq<PolicyRow>
    requires e.Revised? || e.Removed? ==> e.i < |t.policies|
  {
    match e
    case Untouched => t.policies
    case Inserted(row) => t.policies + [row]
    case Revised(i, spec) => t.policies[i := t.policies[i].(spec := spec, generation := t.policies[i].generation + 1)]
    case Removed(i) => t.policies[..i] + t.policies[i + 1..]
  }

  function Versions(t: Tables, e: Effect): seq<VersionRow>
    requires e.Revised? || e.Removed? ==> e.i < |t.policies|
  {
    match e
    case Untouched => t.versions
    case Inserted(row) => t.versions + [VersionRow(row.id, 1, row.spec)]
    case Revised(i, spec) => t.versions + [VersionRow(t.policies[i].id, t.policies[i].generation + 1, spec)]
    case Removed(i) => WithoutPolicy(t.versions, t.policies[i].id)
  }

  /** The audit entries of a call that matter for replay. */
  function Audited(t: Tables, e: Effect): seq<AuditRow>
    requires e.Revised? || e.Removed? ==> e.i < |t.policies|
  {
    match e
    case Untouched => []
    case Inserted(row) => [AuditRow(PolicyCreate, Target(row.namespace, row.name), SpecDetail(row.spec))]
    case Revised(i, spec) =>
      [AuditRow(PolicyUpdate, Target(t.policies[i].namespace, t.policies[i].name), SpecDetail(spec))]
    case Removed(i) => [AuditRow(PolicyDelete, Target(t.policies[i].namespace, t.policies[i].name), NoDetail)]
  }

  predicate IsCanaryEntry(row: AuditRow) {
    row.action.CanaryStart? || row.action.CanaryPromote? || row.action.CanaryRollback?
  }

  lemma StepHasItsEffect(t: Tables, op: Op)
    requires SoundCanaries(t)
    ensures
      var e, t' := EffectOf(t, op), Step(t, op);
      && t'.policies == Policies(t, e)
      && t'.versions == Versions(t, e)
      && (t'.audit == t.audit + Audited(t, e)
          || (e.Untouched? && |t'.audit| == |t.audit| + 1 && t'.audit[..|t.audit|] == t.audit
              && IsCanaryEntry(t'.audit[|t.audit|])))
  {
    if op.StartOp? || op.MoveOp? {
      CanaryCallsOnlyAudit(t, op);
    } else if op.RegisterOp? {
      RegistrationIsAnUpsert(t, op);
      PolicyCallHasItsEffect(t, UpsertOp(Some(op.spec.ref.namespace), op.spec.ref.name, op.spec, op.id));
    } else {
      PolicyCallHasItsEffect(t, op);
    }
    hide Step, EffectOf;
  }

  /** For policies, snapshots and audit entries a registration is the upsert it begins with. */
  lemma RegistrationIsAnUpsert(t: Tables, op: Op)
    requires SoundCanaries(t) && op.RegisterOp?
    ensures
      var upsert := UpsertOp(Some(op.spec.ref.namespace), op.spec.ref.name, op.spec, op.id);
      && EffectOf(t, op) == EffectOf(t, upsert)
      && Step(t, op).policies == Step(t, upsert).policies
      && Step(t, op).versions == Step(t, upsert).versions
      && Step(t, op).audit == Step(t, upsert).audit
  {
    hide Upsert, Changes, ConfigOf, Find, NamespaceOrDefault;
  }

  lemma CanaryCallsOnlyAudit(t: Tables, op: Op)
    requires SoundCanaries(t) && (op.StartOp? || op.MoveOp?)
    ensures
      var t' := Step(t, op);
      && EffectOf(t, op) == Untouched && t'.policies == t.policies && t'.versions == t.versions
      && (t'.audit == t.audit
          || (|t'.audit| == |t.audit| + 1 && t'.audit[..|t.audit|] == t.audit && IsCanaryEntry(t'.audit[|t.audit|])))
  {
    hide LadderFor, Shifts, Apply, Find, NamespaceOrDefault;
  }

  lemma PolicyCallHasItsEffect(t: Tables, op: Op)
    requires SoundCanaries(t) && !op.StartOp? && !op.MoveOp? && !op.RegisterOp?
    ensures
      var e, t' := EffectOf(t, op), Step(t, op);
      && t'.policies == Policies(t, e) && t'.versions == Versions(t, e) && t'.audit == t.audit + Audited(t, e)
  {
    assert NamespaceOrDefault(Some(op.Namespace())) == op.Namespace();
    hide WithoutPolicy, Cascade, NamespaceOrDefault;
    assert t.audit == t.audit + [];
    if op.DeleteOp? || op.DeleteIfExistsOp? {
      CascadeRemoves(t, op);
    }
  }

  lemma CascadeRemoves(t: Tables, op: Op)
    ensures
      var e := EffectOf(t, op);
      e.Removed? ==>
      && e.i < |t.policies|
      && Cascade(t, e.i).policies == Policies(t, e) && Cascade(t, e.i).versions == Versions(t, e)
      && Cascade(t, e.i).audit == t.audit
  {
  }

  // ---- Version history ---------------------------------------------------------------------

  function History(versions: seq<VersionRow>, id: Uuid): seq<VersionRow> {
    if versions == [] then []
    else
      History(versions[..|versions| - 1], id) +
      if versions[|versions| - 1].policyId == id then [versions[|versions| - 1]] else []
  }

  lemma HistoryGrows(versions: seq<VersionRow>, v: VersionRow, id: Uuid)
    ensures History(versions + [v], id) == History(versions, id) + if v.policyId == id then [v] else []
  {
    assert (versions + [v])[..|versions|] == versions;
  }

  lemma {:induction false} HistoryWithout(versions: seq<VersionRow>, gone: Uuid, id: Uuid)
    ensures History(WithoutPolicy(versions, gone), id) == if id == gone then [] else History(versions, id)
  {
    if versions != [] {
      var before, v := versions[..|versions| - 1], versions[|versions| - 1];
      HistoryWithout(before, gone, id);
      if v.policyId != gone {
        HistoryGrows(WithoutPolicy(before, gone), v, id);
      }
    }
  }

  /** Snapshots 1..generation without gap or repeat, each different from the one before, the last current. */
  predicate Chain(h: seq<VersionRow>, row: PolicyRow) {
    && 1 <= row.generation == |h|
    && h[|h| - 1].spec == row.spec
    && (forall i :: 0 <= i < |h| ==> h[i].version == i + 1 && h[i].policyId == row.id)
    && (forall i :: 0 <= i < |h| - 1 ==> h[i].spec != h[i + 1].spec)
  }

  ghost predicate KeysAreUnique(rows: seq<PolicyRow>) {
    forall i, j :: 0 <= i < j < |rows| ==> KeyOf(rows[i]) != KeyOf(rows[j]) && rows[i].id != rows[j].id
  }

  predicate HasPolicy(rows: seq<PolicyRow>, id: Uuid) {
    exists i :: 0 <= i < |rows| && rows[i].id == id
  }

  ghost predicate Historical(t: Tables) {
    && KeysAreUnique(t.policies)
    && (forall i :: 0 <= i < |t.policies| ==> Chain(History(t.versions, t.policies[i].id), t.policies[i]))
    && (forall id :: !HasPolicy(t.policies, id) ==> History(t.versions, id) == [])
  }

  lemma EffectKeepsHistory(t: Tables, op: Op, t': Tables)
    requires Historical(t) && FreshId(t, op)
    requires t'.policies == Policies(t, EffectOf(t, op)) && t'.versions == Versions(t, EffectOf(t, op))
    ensures Historical(t')
  {
    match EffectOf(t, op)
    case Untouched =>
    case Inserted(row) => InsertKeepsHistory(t, row, t');
    case Revised(i, spec) => RevisionKeepsHistory(t, i, spec, t');
    case Removed(i) => RemovalKeepsHistory(t, i, t');
  }

  lemma InsertKeepsHistory(t: Tables, row: PolicyRow, t': Tables)
    requires Historical(t) && row.generation == 1
    requires forall i :: 0 <= i < |t.policies| ==> KeyOf(t.policies[i]) != KeyOf(row) && t.policies[i].id != row.id
    requires t'.policies == t.policies + [row] && t'.versions == t.versions + [VersionRow(row.id, 1, row.spec)]
    ensures Historical(t')
  {
    var v := VersionRow(row.id, 1, row.spec);
    assert !HasPolicy(t.policies, row.id);
    forall i | 0 <= i < |t'.policies| ensures Chain(History(t'.versions, t'.policies[i].id), t'.policies[i]) {
      HistoryGrows(t.versions, v, t'.policies[i].id);
    }
    forall id | !HasPolicy(t'.policies, id) ensures History(t'.versions, id) == [] {
      HistoryGrows(t.versions, v, id);
      assert t'.policies[|t.policies|].id == row.id;
      assert forall i :: 0 <= i < |t.policies| ==> t'.policies[i] == t.policies[i];
    }
  }

  lemma ChainGrows(h: seq<VersionRow>, row: PolicyRow, spec: RouteSpec)
    requires Chain(h, row) && row.spec != spec
    ensures
      var next := row.(spec := spec, generation := row.generation + 1);
      Chain(h + [VersionRow(row.id, row.generation + 1, spec)], next)
  {
  }

  lemma RevisionKeepsHistory(t: Tables, i: nat, spec: RouteSpec, t': Tables)
    requires Historical(t) && i < |t.policies| && t.policies[i].spec != spec
    requires t'.policies == Policies(t, Revised(i, spec)) && t'.versions == Versions(t, Revised(i, spec))
    ensures Historical(t')
  {
    var v := VersionRow(t.policies[i].id, t.policies[i].generation + 1, spec);
    ChainGrows(History(t.versions, v.policyId), t.policies[i], spec);
    hide Chain, History;
    forall j | 0 <= j < |t'.policies| ensures Chain(History(t'.versions, t'.policies[j].id), t'.policies[j]) {
      HistoryGrows(t.versions, v, t.policies[j].id);
    }
    RevisionAddsNoStray(t, i, v, t');
  }

  lemma RevisionAddsNoStray(t: Tables, i: nat, v: VersionRow, t': Tables)
    requires i < |t.policies| && v.policyId == t.policies[i].id && t'.versions == t.versions + [v]
    requires |t'.policies| == |t.policies|
    requires forall j :: 0 <= j < |t.policies| ==> t'.policies[j].id == t.policies[j].id
    requires forall id :: !HasPolicy(t.policies, id) ==> History(t.versions, id) == []
    ensures forall id :: !HasPolicy(t'.policies, id) ==> History(t'.versions, id) == []
  {
    hide History;
    forall id | !HasPolicy(t'.policies, id) ensures History(t'.versions, id) == [] {
      HistoryGrows(t.versions, v, id);
      assert t'.policies[i].id != id;
      forall j | 0 <= j < |t.policies| ensures t.policies[j].id != id {
        assert t'.policies[j].id == t.policies[j].id;
      }
    }
  }

  lemma RemovalKeepsHistory(t: Tables, i: nat, t': Tables)
    requires Historical(t) && i < |t.policies|
    requires t'.policies == Policies(t, Removed(i)) && t'.versions == Versions(t, Removed(i))
    ensures Historical(t')
  {
    hide Chain, History, WithoutPolicy;
    var gone := t.policies[i].id;
    forall j | 0 <= j < |t'.policies| ensures Chain(History(t'.versions, t'.policies[j].id), t'.policies[j]) {
      HistoryWithout(t.versions, gone, t'.policies[j].id);
    }
    forall id | !HasPolicy(t'.policies, id) ensures History(t'.versions, id) == [] {
      HistoryWithout(t.versions, gone, id);
      if id != gone {
        forall j | 0 <= j < |t.policies| ensures t.policies[j].id != id {
          if j != i {
            assert t'.policies[if j < i then j else j - 1] == t.policies[j];
          }
        }
      }
    }
  }

  /** In every reachable state the snapshots of every policy are its exact history. */
  lemma {:induction false} EveryRunIsHistorical(ops: seq<Op>)
    requires FreshIds(ops)
    ensures Historical(After(ops))
  {
    if ops != [] {
      var before, op := After(ops[..|ops| - 1]), ops[|ops| - 1];
      EveryRunIsHistorical(ops[..|ops| - 1]);
      StepHasItsEffect(before, op);
      EffectKeepsHistory(before, op, Step(before, op));
    }
  }

  // ---- Refusals ----------------------------------------------------------------------------

  predicate Stored(t: Tables, namespace: string, name: string) {
    exists i :: 0 <= i < |t.policies| && t.policies[i].namespace == namespace && t.policies[i].name == name
  }

  lemma FoundIffStored(t: Tables, namespace: string, name: string)
    ensures Find(t.policies, (namespace, name)).Some? <==> Stored(t, namespace, name)
  {
    var found := Find(t.policies, (namespace, name));
    if found.Some? {
      assert KeyOf(t.policies[found.value]) == (namespace, name);
    }
    assert forall i :: 0 <= i < |t.policies| ==>
      (KeyOf(t.policies[i]) == (namespace, name) <==>
         t.policies[i].namespace == namespace && t.policies[i].name == name);
  }

  /** Policy calls are refused exactly for a policy that is there already or is not there, and then change nothing. */
  lemma PolicyCallsAreRefusedIff(t: Tables, namespace: string, name: string, spec: RouteSpec, id: Uuid)
    requires !IsBlank(namespace)
    ensures
      var r := Create(t, Some(namespace), name, spec, id);
      (r.0 == Err(Conflict) <==> Stored(t, namespace, name)) && (r.0.Err? ==> r == (Err(Conflict), t))
    ensures
      var r := Update(t, Some(namespace), name, spec);
      (r.0 == Err(NotFound) <==> !Stored(t, namespace, name)) && (r.0.Err? ==> r == (Err(NotFound), t))
    ensures
      var r := Delete(t, Some(namespace), name);
      (r.0 == Err(NotFound) <==> !Stored(t, namespace, name)) && (r.0.Err? ==> r == (Err(NotFound), t))
    ensures Upsert(t, Some(namespace), name, spec, id).0.Ok?
  {
    FoundIffStored(t, namespace, name);
    hide Find, Cascade, IsBlank;
  }

  /** So are canary calls, or for a bad ladder, or for want of a namespace to publish under. */
  lemma CanaryCallsAreRefusedIff(t: Tables, namespace: string, name: string, path: string, stable: string,
                                 canary: string, steps: Option<seq<int>>, m: Move)
    requires SoundCanaries(t) && !IsBlank(namespace)
    ensures
      var r := StartCanary(t, Some(namespace), name, path, stable, canary, steps);
      && (r.0 == Err(NotFound) <==> !Stored(t, namespace, name))
      && (r.0 == Err(BadLadder) <==> Stored(t, namespace, name) && LadderFor(steps).Err?)
      && (r.0.Err? ==> (r.0.error == NotFound || r.0.error == BadLadder) && r.1 == t)
    ensures
      var r := MoveCanary(t, Some(namespace), name, path, m);
      && (r.0.Err? <==> r.0 == Err(NotFound))
      && (r.0.Err? ==> r.1 == t)
      && (r.0.Ok? ==> Stored(t, namespace, name))
  {
    FoundIffStored(t, namespace, name);
    hide Find, ValidLadder, Sound, Apply, Shifts, IsBlank, Fresh;
  }

  // ---- References --------------------------------------------------------------------------

  /** Every canary belongs to a stored policy. */
  ghost predicate CanariesHavePolicies(t: Tables) {
    forall k :: k in t.canaries ==> HasPolicy(t.policies, k.0)
  }

  /** A deletion takes the canaries of its policy with it, and no others. */
  lemma DeletionTakesItsCanaries(t: Tables, op: Op, i: nat)
    requires SoundCanaries(t) && (op.DeleteOp? || op.DeleteIfExistsOp?) && Find(t.policies, op.Target()) == Some(i)
    ensures
      var id, t' := t.policies[i].id, Step(t, op);
      && (forall k :: k in t'.canaries <==> k in t.canaries && k.0 != id)
      && (forall k :: k in t'.canaries ==> t'.canaries[k] == t.canaries[k])
  {
    hide WithoutPolicy, Find, NamespaceOrDefault;
  }

  /** Any other call leaves every canary under its policy. */
  lemma OtherCallsAddNoStray(t: Tables, op: Op)
    requires SoundCanaries(t) && !op.DeleteOp? && !op.DeleteIfExistsOp?
    ensures forall k :: k in Step(t, op).canaries ==> k in t.canaries || HasPolicy(t.policies, k.0)
  {
    hide WithoutPolicy, Changes, ConfigOf, NamespaceOrDefault, LadderFor, Sound, Apply, Shifts;
  }

  lemma PoliciesStay(t: Tables, e: Effect, id: Uuid)
    requires e.Revised? || e.Removed? ==> e.i < |t.policies|
    requires HasPolicy(t.policies, id) && (e.Removed? ==> t.policies[e.i].id != id)
    ensures HasPolicy(Policies(t, e), id)
  {
    var j :| 0 <= j < |t.policies| && t.policies[j].id == id;
    var rows := Policies(t, e);
    assert rows[if e.Removed? && e.i < j then j - 1 else j].id == id;
  }

  lemma StepKeepsReferences(t: Tables, op: Op)
    requires SoundCanaries(t) && CanariesHavePolicies(t)
    ensures CanariesHavePolicies(Step(t, op))
  {
    StepHasItsEffect(t, op);
    var e := EffectOf(t, op);
    if e.Removed? {
      DeletionTakesItsCanaries(t, op, e.i);
    } else if !op.DeleteOp? && !op.DeleteIfExistsOp? {
      OtherCallsAddNoStray(t, op);
    }
    hide Step, HasPolicy, Policies;
    forall k | k in Step(t, op).canaries ensures HasPolicy(Step(t, op).policies, k.0) {
      assert e.Removed? ==> t.policies[e.i].id != k.0;
      PoliciesStay(t, e, k.0);
    }
  }

  /** In every reachable state; so a policy that is deleted and created again starts without a canary. */
  lemma {:induction false} EveryCanaryHasItsPolicy(ops: seq<Op>)
    ensures CanariesHavePolicies(After(ops))
  {
    hide CanariesHavePolicies, Step;
    if ops == [] {
      NoCanariesNoStray();
    } else {
      EveryCanaryHasItsPolicy(ops[..|ops| - 1]);
      StepKeepsReferences(After(ops[..|ops| - 1]), ops[|ops| - 1]);
    }
  }

  lemma NoCanariesNoStray()
    ensures CanariesHavePolicies(EMPTY)
  {
  }

  /** The policy a call creates gets its declared weights, whatever went by its name before. */
  lemma NewPolicyHasNoCanary(ops: seq<Op>, op: Op, row: PolicyRow, path: string)
    requires FreshIds(ops + [op]) && EffectOf(After(ops), op) == Inserted(row)
    ensures EffectiveWeights(After(ops + [op]), row.id, path) == None
  {
    assert (ops + [op])[..|ops|] == ops;
    EveryCanaryHasItsPolicy(ops);
    var t := After(ops);
    OtherCallsAddNoStray(t, op);
    assert !HasPolicy(t.policies, row.id);
    hide Step;
  }

  // ---- Audit replay ------------------------------------------------------------------------

  function IndexOf(s: string, c: char): nat {
    if s == [] || s[0] == c then 0 else 1 + IndexOf(s[1..], c)
  }

  lemma {:induction false} IndexOfSeparator(left: string, c: char, right: string)
    ensures IndexOf(left + [c] + right, c) == IndexOf(left, c) <= |left|
    ensures IndexOf(left, c) == |left| <==> c !in left
  {
    if left != [] && left[0] != c {
      IndexOfSeparator(left[1..], c, right);
      assert (left + [c] + right)[1..] == left[1..] + [c] + right;
    } else if left == [] {
      assert left + [c] + right == [c] + right;
    }
  }

  /** Reads a target back: the namespace ends at the first slash after "policy/". */
  function DecodeTarget(target: string): Key {
    if |target| < 7 then ("", target)
    else
      var rest := target[7..];
      var slash := IndexOf(rest, '/');
      if slash < |rest| then (rest[..slash], rest[slash + 1..]) else ("", rest)
  }

  /** A target names its policy exactly when the namespace contains no slash. */
  lemma TargetIsReadableIff(namespace: string, name: string)
    ensures DecodeTarget(Target(namespace, name)) == (namespace, name) <==> '/' !in namespace
  {
    var target := Target(namespace, name);
    var rest := namespace + ['/'] + name;
    assert target[7..] == rest;
    IndexOfSeparator(namespace, '/', name);
    var slash := IndexOf(rest, '/');
    assert slash < |rest|;
    if slash == |namespace| {
      assert rest[..slash] == namespace && rest[slash + 1..] == name;
    }
  }

  type SpecTable = map<Key, RouteSpec>

  function ReplayEntry(table: SpecTable, row: AuditRow): SpecTable {
    if row.action.PolicyDelete? then table - {DecodeTarget(row.target)}
    else if (row.action.PolicyCreate? || row.action.PolicyUpdate?) && row.detail.SpecDetail?
    then table[DecodeTarget(row.target) := row.detail.spec]
    else table
  }

  /** Folds the append-only log; canary entries say nothing about specs. */
  function Replay(audit: seq<AuditRow>): SpecTable {
    if audit == [] then map[] else ReplayEntry(Replay(audit[..|audit| - 1]), audit[|audit| - 1])
  }

  lemma ReplayOneMore(audit: seq<AuditRow>, row: AuditRow)
    ensures Replay(audit + [row]) == ReplayEntry(Replay(audit), row)
  {
    assert (audit + [row])[..|audit|] == audit;
  }

  function Keys(rows: seq<PolicyRow>): set<Key> {
    set i | 0 <= i < |rows| :: KeyOf(rows[i])
  }

  /** What the policy table says now. */
  function Current(rows: seq<PolicyRow>): SpecTable {
    map key | key in Keys(rows) :: rows[Find(rows, key).value].spec
  }

  lemma CurrentHas(rows: seq<PolicyRow>, i: nat)
    requires KeysAreUnique(rows) && i < |rows|
    ensures KeyOf(rows[i]) in Current(rows) && Current(rows)[KeyOf(rows[i])] == rows[i].spec
  {
    var found := Find(rows, KeyOf(rows[i])).value;
    assert found == i;
  }

  /** Any table that agrees row by row is the current one. */
  lemma CurrentIs(rows: seq<PolicyRow>, table: SpecTable)
    requires KeysAreUnique(rows)
    requires table.Keys == Keys(rows)
    requires forall i :: 0 <= i < |rows| ==> KeyOf(rows[i]) in table && table[KeyOf(rows[i])] == rows[i].spec
    ensures Current(rows) == table
  {
    forall key | key in table ensures Current(rows)[key] == table[key] {
      var i :| 0 <= i < |rows| && key == KeyOf(rows[i]);
      CurrentHas(rows, i);
    }
  }

  lemma InsertIsReplayed(rows: seq<PolicyRow>, row: PolicyRow)
    requires KeysAreUnique(rows + [row])
    ensures Current(rows + [row]) == Current(rows)[KeyOf(row) := row.spec]
  {
    var more := rows + [row];
    assert KeysAreUnique(rows) by {
      forall i, j | 0 <= i < j < |rows| ensures KeyOf(rows[i]) != KeyOf(rows[j]) && rows[i].id != rows[j].id {
        assert more[i] == rows[i] && more[j] == rows[j];
      }
    }
    forall key ensures key in Keys(more) <==> key in Keys(rows) || key == KeyOf(row) {
      if key in Keys(rows) {
        var i :| 0 <= i < |rows| && key == KeyOf(rows[i]);
        assert more[i] == rows[i];
      }
      assert more[|rows|] == row;
    }
    forall i | 0 <= i < |rows| ensures Current(rows)[KeyOf(rows[i])] == rows[i].spec && KeyOf(more[i]) != KeyOf(row) {
      CurrentHas(rows, i);
      assert more[i] == rows[i] && more[|rows|] == row;
    }
    CurrentIs(more, Current(rows)[KeyOf(row) := row.spec]);
  }

  lemma RevisionIsReplayed(rows: seq<PolicyRow>, i: nat, row: PolicyRow)
    requires KeysAreUnique(rows) && i < |rows| && KeyOf(row) == KeyOf(rows[i]) && row.id == rows[i].id
    ensures Current(rows[i := row]) == Current(rows)[KeyOf(row) := row.spec]
  {
    var revised := rows[i := row];
    forall key ensures key in Keys(revised) <==> key in Keys(rows) {
      if key in Keys(rows) {
        var j :| 0 <= j < |rows| && key == KeyOf(rows[j]);
        assert key == KeyOf(revised[j]);
      }
    }
    CurrentHas(rows, i);
    forall j | 0 <= j < |rows|
      ensures Current(rows)[KeyOf(rows[j])] == rows[j].spec && (j != i ==> KeyOf(rows[j]) != KeyOf(row))
    {
      CurrentHas(rows, j);
    }
    CurrentIs(revised, Current(rows)[KeyOf(row) := row.spec]);
  }

  /** The rows that survive removing row i, in their old order. */
  lemma Survivors(rows: seq<PolicyRow>, i: nat)
    requires i < |rows|
    ensures
      var fewer := rows[..i] + rows[i + 1..];
      && (forall j :: 0 <= j < |fewer| ==> fewer[j] == rows[if j < i then j else j + 1])
      && (forall j :: 0 <= j < |rows| && j != i ==> rows[j] == fewer[if j < i then j else j - 1])
  {
    var fewer := rows[..i] + rows[i + 1..];
    forall j | 0 <= j < |rows| && j != i ensures rows[j] == fewer[if j < i then j else j - 1] {
      if j < i { assert fewer[j] == rows[j]; } else { assert fewer[j - 1] == rows[i + 1..][j - 1 - i]; }
    }
  }

  lemma RemovalKeepsKeysUnique(rows: seq<PolicyRow>, i: nat)
    requires KeysAreUnique(rows) && i < |rows|
    ensures KeysAreUnique(rows[..i] + rows[i + 1..])
  {
    Survivors(rows, i);
    var fewer := rows[..i] + rows[i + 1..];
    forall a, b | 0 <= a < b < |fewer| ensures KeyOf(fewer[a]) != KeyOf(fewer[b]) && fewer[a].id != fewer[b].id {
      var p, q := if a < i then a else a + 1, if b < i then b else b + 1;
      assert fewer[a] == rows[p] && fewer[b] == rows[q] && p < q;
    }
  }

  lemma KeysAfterRemoval(rows: seq<PolicyRow>, i: nat)
    requires KeysAreUnique(rows) && i < |rows|
    ensures Keys(rows[..i] + rows[i + 1..]) == Keys(rows) - {KeyOf(rows[i])}
  {
    var fewer := rows[..i] + rows[i + 1..];
    Survivors(rows, i);
    forall key | key in Keys(rows) && key != KeyOf(rows[i]) ensures key in Keys(fewer) {
      var j :| 0 <= j < |rows| && key == KeyOf(rows[j]);
      assert rows[j] == fewer[if j < i then j else j - 1];
    }
    forall key | key in Keys(fewer) ensures key in Keys(rows) && key != KeyOf(rows[i]) {
      var j :| 0 <= j < |fewer| && key == KeyOf(fewer[j]);
      assert fewer[j] == rows[if j < i then j else j + 1];
    }
  }

  lemma RemovalIsReplayed(rows: seq<PolicyRow>, i: nat)
    requires KeysAreUnique(rows) && i < |rows|
    ensures Current(rows[..i] + rows[i + 1..]) == Current(rows) - {KeyOf(rows[i])}
  {
    var fewer := rows[..i] + rows[i + 1..];
    RemovalKeepsKeysUnique(rows, i);
    KeysAfterRemoval(rows, i);
    CurrentKeys(rows);
    forall j | 0 <= j < |fewer|
      ensures KeyOf(fewer[j]) in Current(rows) && Current(rows)[KeyOf(fewer[j])] == fewer[j].spec
          && KeyOf(fewer[j]) != KeyOf(rows[i])
    {
      var k := if j < i then j else j + 1;
      assert fewer[j] == rows[k];
      CurrentHas(rows, k);
    }
    hide Keys, Current;
    CurrentIs(fewer, Current(rows) - {KeyOf(rows[i])});
  }

  lemma CurrentKeys(rows: seq<PolicyRow>)
    ensures Current(rows).Keys == Keys(rows)
  {
  }

  /** The call creates no policy under a namespace with a slash; whatever else it does is harmless. */
  predicate InsertsReadably(t: Tables, op: Op) {
    EffectOf(t, op).Inserted? ==> '/' !in op.Namespace()
  }

  predicate AllInsertReadably(ops: seq<Op>) {
    ops != [] ==> AllInsertReadably(ops[..|ops| - 1]) && InsertsReadably(After(ops[..|ops| - 1]), ops[|ops| - 1])
  }

  predicate NamespacesAreReadable(t: Tables) {
    forall i :: 0 <= i < |t.policies| ==> '/' !in t.policies[i].namespace
  }

  lemma EffectIsReplayed(t: Tables, e: Effect, t': Tables)
    requires e.Revised? || e.Removed? ==> e.i < |t.policies|
    requires KeysAreUnique(t.policies) && KeysAreUnique(t'.policies)
    requires NamespacesAreReadable(t) && NamespacesAreReadable(t')
    requires t'.policies == Policies(t, e) && t'.audit == t.audit + Audited(t, e)
    requires Replay(t.audit) == Current(t.policies)
    ensures Replay(t'.audit) == Current(t'.policies)
  {
    hide Current, Target, DecodeTarget, KeysAreUnique, Replay;
    if e.Untouched? {
      assert t'.audit == t.audit;
    } else {
      ReplayOneMore(t.audit, Audited(t, e)[0]);
      match e
      case Inserted(row) =>
        assert t'.policies[|t.policies|] == row;
        TargetIsReadableIff(row.namespace, row.name);
        InsertIsReplayed(t.policies, row);
      case Revised(i, spec) =>
        TargetIsReadableIff(t.policies[i].namespace, t.policies[i].name);
        RevisionIsReplayed(t.policies, i, t'.policies[i]);
      case Removed(i) =>
        TargetIsReadableIff(t.policies[i].namespace, t.policies[i].name);
        RemovalIsReplayed(t.policies, i);
    }
  }

  lemma EffectKeepsNamespacesReadable(t: Tables, op: Op, t': Tables)
    requires NamespacesAreReadable(t) && InsertsReadably(t, op)
    requires t'.policies == Policies(t, EffectOf(t, op))
    ensures NamespacesAreReadable(t')
  {
    EffectNamesItsKey(t, op);
    hide EffectOf, Op.Namespace;
    var e := EffectOf(t, op);
    if e.Removed? {
      Survivors(t.policies, e.i);
    }
  }

  lemma EffectNamesItsKey(t: Tables, op: Op)
    ensures EffectOf(t, op).Inserted? ==> EffectOf(t, op).row.namespace == op.Namespace()
    ensures EffectOf(t, op).Revised? || EffectOf(t, op).Removed? ==> EffectOf(t, op).i < |t.policies|
  {
    hide NamespaceOrDefault, Find;
  }

  lemma StepIsReplayed(t: Tables, op: Op)
    requires SoundCanaries(t) && KeysAreUnique(t.policies) && KeysAreUnique(Step(t, op).policies)
    requires NamespacesAreReadable(t) && InsertsReadably(t, op)
    requires Replay(t.audit) == Current(t.policies)
    ensures Replay(Step(t, op).audit) == Current(Step(t, op).policies)
    ensures NamespacesAreReadable(Step(t, op))
  {
    hide Step, Current, KeysAreUnique, InsertsReadably;
    StepHasItsEffect(t, op);
    var e, t' := EffectOf(t, op), Step(t, op);
    EffectKeepsNamespacesReadable(t, op, t');
    if t'.audit == t.audit + Audited(t, e) {
      EffectIsReplayed(t, e, t');
    } else {
      assert t'.audit == t.audit + [t'.audit[|t.audit|]];
      ReplayOneMore(t.audit, t'.audit[|t.audit|]);
    }
  }

  /** Event sourcing: with readable namespaces the audit log of a run rebuilds exactly the current policy table. */
  lemma {:induction false} AuditRebuildsThePolicyTable(ops: seq<Op>)
    requires FreshIds(ops) && AllInsertReadably(ops)
    ensures Replay(After(ops).audit) == Current(After(ops).policies)
    ensures NamespacesAreReadable(After(ops))
  {
    if ops != [] {
      AuditRebuildsThePolicyTable(ops[..|ops| - 1]);
      EveryRunIsHistorical(ops[..|ops| - 1]);
      EveryRunIsHistorical(ops);
      StepIsReplayed(After(ops[..|ops| - 1]), ops[|ops| - 1]);
    }
  }

  predicate IsReplayed(t: Tables) {
    Replay(t.audit) == Current(t.policies)
  }

  /** One unreadable creation, and the log no longer rebuilds the table. */
  lemma UnreadableInsertIsLost(t: Tables, op: Op)
    requires SoundCanaries(t) && KeysAreUnique(t.policies) && KeysAreUnique(Step(t, op).policies)
    requires IsReplayed(t) && !InsertsReadably(t, op)
    ensures !IsReplayed(Step(t, op))
  {
    StepHasItsEffect(t, op);
    EffectNamesItsKey(t, op);
    var row, t' := EffectOf(t, op).row, Step(t, op);
    hide Step, EffectOf, Op.Namespace, KeysAreUnique;
    ReplayOneMore(t.audit, Audited(t, Inserted(row))[0]);
    TargetIsReadableIff(row.namespace, row.name);
    InsertIsReplayed(t.policies, row);
    assert t'.policies[|t.policies|] == row && KeyOf(row) !in Current(t.policies) by {
      LastKeyIsNew(t.policies, row);
    }
    hide Current, Target, DecodeTarget, Replay;
    assert KeyOf(row) in Current(t'.policies) && KeyOf(row) !in Replay(t'.audit);
  }

  lemma LastKeyIsNew(rows: seq<PolicyRow>, row: PolicyRow)
    requires KeysAreUnique(rows + [row])
    ensures KeyOf(row) !in Current(rows)
  {
    var more := rows + [row];
    assert more[|rows|] == row && forall i :: 0 <= i < |rows| ==> more[i] == rows[i];
  }

  /** At every point of the run the log rebuilds the table. */
  predicate ReplayedThroughout(ops: seq<Op>) {
    IsReplayed(After(ops)) && (ops != [] ==> ReplayedThroughout(ops[..|ops| - 1]))
  }

  /** It does so exactly when no policy was ever created under a namespace with a slash. */
  lemma {:induction false} AuditRebuildsIff(ops: seq<Op>)
    requires FreshIds(ops)
    ensures ReplayedThroughout(ops) <==> AllInsertReadably(ops)
  {
    hide Step, InsertsReadably, Current, Replay, KeysAreUnique;
    if AllInsertReadably(ops) {
      AuditRebuildsThePolicyTable(ops);
    }
    if ops != [] {
      var before := ops[..|ops| - 1];
      AuditRebuildsIff(before);
      EveryRunIsHistorical(before);
      EveryRunIsHistorical(ops);
      if ReplayedThroughout(before) && !InsertsReadably(After(before), ops[|ops| - 1]) {
        UnreadableInsertIsLost(After(before), ops[|ops| - 1]);
      }
    }
  }

  /** A policy enters the log readably exactly when its namespace contains no slash. */
  lemma CreateIsReplayedIff(t: Tables, namespace: Option<string>, name: string, spec: RouteSpec, id: Uuid)
    requires KeysAreUnique(t.policies) && Create(t, namespace, name, spec, id).0.Ok?
    requires KeysAreUnique(Create(t, namespace, name, spec, id).1.policies)
    requires Replay(t.audit) == Current(t.policies)
    ensures
      var t' := Create(t, namespace, name, spec, id).1;
      Replay(t'.audit) == Current(t'.policies) <==> '/' !in NamespaceOrDefault(namespace)
  {
    var ns, t' := NamespaceOrDefault(namespace), Create(t, namespace, name, spec, id).1;
    var row := PolicyRow(id, ns, name, spec, 1);
    ReplayOneMore(t.audit, AuditRow(PolicyCreate, Target(ns, name), SpecDetail(spec)));
    TargetIsReadableIff(ns, name);
    InsertIsReplayed(t.policies, row);
    if '/' in ns {
      assert (ns, name) in Current(t'.policies);
      assert (ns, name) !in Current(t.policies);
      assert (ns, name) !in Replay(t'.audit);
    }
  }

  // ---- Registration ------------------------------------------------------------------------

  /** After an upsert the row is there, with the new spec. */
  lemma UpsertStores(t: Tables, namespace: Option<string>, name: string, spec: RouteSpec, id: Uuid)
    requires KeysAreUnique(t.policies)
    ensures
      var t' := Upsert(t, namespace, name, spec, id).1;
      TryGet(t', namespace, name).Some? && TryGet(t', namespace, name).value.spec == spec
  {
    var ns := NamespaceOrDefault(namespace);
    assert NamespaceOrDefault(Some(ns)) == ns;
    var t' := Upsert(t, namespace, name, spec, id).1;
    var found := Find(t.policies, (ns, name));
    if found.None? {
      assert t'.policies[|t.policies|] == PolicyRow(id, ns, name, spec, 1);
      var after := Find(t'.policies, (ns, name));
    } else {
      var after := Find(t'.policies, (ns, name));
      assert KeyOf(t'.policies[found.value]) == (ns, name);
      assert after.Some?;
      assert KeyOf(t.policies[after.value]) == (ns, name);
    }
  }

  /**
   * The registration always answers, and repeating it answers the same; it changes no table
   * exactly when the spec's mentions of a version are consistent, and otherwise only announces again.
   */
  lemma RegistrationIsIdempotent(t: Tables, spec: RouteSpec, id: Uuid, later: Uuid)
    requires SoundCanaries(t) && KeysAreUnique(t.policies)
    ensures Register(t, spec, id).0.Some?
    ensures
      var (config, t') := Register(t, spec, id);
      var again := Register(t', spec, later);
      && again.0 == config
      && again.1 == t'.(decisions := again.1.decisions)
      && (again.1 == t' <==> Consistent(spec.rules))
  {
    var ns, name := Some(spec.ref.namespace), spec.ref.name;
    var t' := Register(t, spec, id).1;
    UpsertStores(t, ns, name, spec, id);
    assert TryGet(t', ns, name).Some? && TryGet(t', ns, name).value.spec == spec;
    assert Upsert(t', ns, name, spec, later).1 == t' by {
      assert NamespaceOrDefault(Some(NamespaceOrDefault(ns))) == NamespaceOrDefault(ns);
    }
    var announced := Changes(spec.ref, WeightsOf(spec.rules), spec.rules);
    UnchangedRulesAnnounceNothing(spec.ref, spec.rules);
    assert Register(t', spec, later).1 == t'.(decisions := t'.decisions + announced);
    assert |t'.decisions + announced| == |t'.decisions| + |announced|;
    assert announced == [] ==> t'.decisions + announced == t'.decisions;
    ConfigReadsNoDecisions(t', t'.decisions + announced, ns, name);
  }

  lemma ConfigReadsNoDecisions(t: Tables, decisions: seq<Decision>, namespace: Option<string>, name: string)
    requires SoundCanaries(t)
    ensures ConfigOf(t.(decisions := decisions), namespace, name) == ConfigOf(t, namespace, name)
  {
    var p := TryGet(t, namespace, name);
    if p.Some? {
      assert EffectiveRules(t.(decisions := decisions), p.value) == EffectiveRules(t, p.value);
    }
  }
}
