/** The control plane's tables, and the policy operations on them as values. */
module Store {
  import opened Wrappers
  import opened Wire

  type Uuid = nat

  datatype PolicyRow = PolicyRow(id: Uuid, namespace: string, name: string, spec: RouteSpec, generation: int)

  /** An immutable snapshot of a spec. */
  datatype VersionRow = VersionRow(policyId: Uuid, version: int, spec: RouteSpec)

  datatype CanaryStatus = PROGRESSING | PROMOTED | ROLLED_BACK

  datatype CanaryRow = CanaryRow(
    stableVersion: string, canaryVersion: string, steps: seq<int>, stepIndex: int, status: CanaryStatus)

  datatype Action = PolicyCreate | PolicyUpdate | PolicyDelete | CanaryStart | CanaryPromote | CanaryRollback

  datatype Detail =
    | SpecDetail(spec: RouteSpec)
    | StartDetail(stableVersion: string, canaryVersion: string, weight: int)
    | MoveDetail(oldWeight: int, newWeight: int)
    | NoDetail

  datatype AuditRow = AuditRow(action: Action, target: string, detail: Detail)

  datatype Tables = Tables(
    policies: seq<PolicyRow>,
    versions: seq<VersionRow>,
    canaries: map<(Uuid, string), CanaryRow>,
    audit: seq<AuditRow>,
    decisions: seq<Decision>)

  const EMPTY := Tables([], [], map[], [], [])

  datatype Error = Conflict | NotFound | BadLadder | NullReference

  // ---- Names -------------------------------------------------------------------------------

  /** Java's Character.isWhitespace. */
  predicate IsWhitespace(c: char) {
    var u := c as int;
    || 9 <= u <= 13 || 28 <= u <= 32 || u == 0x1680
    || (0x2000 <= u <= 0x200A && u != 0x2007) || u == 0x2028 || u == 0x2029 || u == 0x205F || u == 0x3000
  }

  predicate IsBlank(s: string) {
    forall i :: 0 <= i < |s| ==> IsWhitespace(s[i])
  }

  /** null (None) and blank namespaces mean "default". */
  function NamespaceOrDefault(namespace: Option<string>): string {
    if namespace.None? || IsBlank(namespace.value) then "default" else namespace.value
  }

  function Target(namespace: string, name: string): string {
    "policy/" + namespace + "/" + name
  }

  type Key = (string, string)

  function KeyOf(row: PolicyRow): Key {
    (row.namespace, row.name)
  }

  // ---- Lookups -----------------------------------------------------------------------------

  function Find(rows: seq<PolicyRow>, key: Key): (r: Option<nat>)
    ensures r.Some? ==> r.value < |rows| && KeyOf(rows[r.value]) == key
    ensures r.None? ==> forall i :: 0 <= i < |rows| ==> KeyOf(rows[i]) != key
  {
    if rows == [] then None
    else if KeyOf(rows[|rows| - 1]) == key then Some(|rows| - 1)
    else Find(rows[..|rows| - 1], key)
  }

  function TryGet(t: Tables, namespace: Option<string>, name: string): Option<PolicyRow> {
    match Find(t.policies, (NamespaceOrDefault(namespace), name))
    case None => None
    case Some(i) => Some(t.policies[i])
  }

  function WithoutPolicy(versions: seq<VersionRow>, id: Uuid): seq<VersionRow> {
    if versions == [] then []
    else
      var rest, v := WithoutPolicy(versions[..|versions| - 1], id), versions[|versions| - 1];
      if v.policyId == id then rest else rest + [v]
  }

  // ---- PolicyService -----------------------------------------------------------------------

  function Create(t: Tables, namespace: Option<string>, name: string, spec: RouteSpec, id: Uuid)
    : (Result<PolicyRow, Error>, Tables)
  {
    var ns := NamespaceOrDefault(namespace);
    if Find(t.policies, (ns, name)).Some? then
      (Err(Conflict), t)
    else
      var row := PolicyRow(id, ns, name, spec, 1);
      (Ok(row),
       t.(policies := t.policies + [row],
          versions := t.versions + [VersionRow(id, 1, spec)],
          audit := t.audit + [AuditRow(PolicyCreate, Target(ns, name), SpecDetail(spec))]))
  }

  function Update(t: Tables, namespace: Option<string>, name: string, spec: RouteSpec)
    : (Result<PolicyRow, Error>, Tables)
  {
    var ns := NamespaceOrDefault(namespace);
    match Find(t.policies, (ns, name))
    case None => (Err(NotFound), t)
    case Some(i) =>
      var row := t.policies[i];
      if row.spec == spec then
        (Ok(row), t)
      else
        var updated := row.(spec := spec, generation := row.generation + 1);
        (Ok(updated),
         t.(policies := t.policies[i := updated],
            versions := t.versions + [VersionRow(row.id, updated.generation, spec)],
            audit := t.audit + [AuditRow(PolicyUpdate, Target(ns, name), SpecDetail(spec))]))
  }

  function Upsert(t: Tables, namespace: Option<string>, name: string, spec: RouteSpec, id: Uuid)
    : (Result<PolicyRow, Error>, Tables)
  {
    var ns := NamespaceOrDefault(namespace);
    if Find(t.policies, (ns, name)).Some? then Update(t, Some(ns), name, spec) else Create(t, Some(ns), name, spec, id)
  }

  /** Removing a policy row cascades to its snapshots and canaries. */
  function Cascade(t: Tables, i: nat): Tables
    requires i < |t.policies|
  {
    var id := t.policies[i].id;
    t.(policies := t.policies[..i] + t.policies[i + 1..],
       versions := WithoutPolicy(t.versions, id),
       canaries := map k | k in t.canaries && k.0 != id :: t.canaries[k])
  }

  function DeleteIfExists(t: Tables, namespace: Option<string>, name: string): Tables {
    var ns := NamespaceOrDefault(namespace);
    match Find(t.policies, (ns, name))
    case None => t
    case Some(i) =>
      Cascade(t, i).(audit := t.audit + [AuditRow(PolicyDelete, Target(ns, name), NoDetail)])
  }

  function Delete(t: Tables, namespace: Option<string>, name: string): (Result<(), Error>, Tables) {
    if TryGet(t, namespace, name).None? then (Err(NotFound), t) else (Ok(()), DeleteIfExists(t, namespace, name))
  }
}
