/** The database object and the service that owns policy rows, their snapshots and the audit hook. */
module PolicyService {
  import opened Wrappers
  import opened Wire
  import opened Store

  class Database {
    var policies: seq<PolicyRow>
    var versions: seq<VersionRow>
    var canaries: map<(Uuid, string), CanaryRow>
    var audit: seq<AuditRow>
    var decisions: seq<Decision>

    constructor ()
      ensures View() == EMPTY
    {
      policies, versions, canaries, audit, decisions := [], [], map[], [], [];
    }

    function View(): Tables
      reads this
    {
      Tables(policies, versions, canaries, audit, decisions)
    }

    method Record(action: Action, target: string, detail: Detail)
      modifies `audit
      ensures audit == old(audit) + [AuditRow(action, target, detail)]
    {
      audit := audit + [AuditRow(action, target, detail)];
    }

    /** DELETE on the policy table with its ON DELETE CASCADE constraints. */
    method DeletePolicy(i: nat)
      requires i < |policies|
      modifies `policies, `versions, `canaries
      ensures View() == Cascade(old(View()), i)
    {
      var id := policies[i].id;
      policies := policies[..i] + policies[i + 1..];
      versions := WithoutPolicy(versions, id);
      canaries := map k | k in canaries && k.0 != id :: canaries[k];
    }
  }

  class Service {
    const db: Database

    constructor (db: Database)
      ensures this.db == db
    {
      this.db := db;
    }

    method Create(namespace: Option<string>, name: string, spec: RouteSpec, id: Uuid)
      returns (r: Result<PolicyRow, Error>)
      modifies db
      ensures (r, db.View()) == Store.Create(old(db.View()), namespace, name, spec, id)
    {
      var ns := NamespaceOrDefault(namespace);
      if Find(db.policies, (ns, name)).Some? {
        return Err(Conflict);
      }
      var entity := PolicyRow(id, ns, name, spec, 1);
      db.policies := db.policies + [entity];
      db.versions := db.versions + [VersionRow(id, 1, spec)];
      db.Record(PolicyCreate, Target(ns, name), SpecDetail(spec));
      return Ok(entity);
    }

    method Upsert(namespace: Option<string>, name: string, spec: RouteSpec, id: Uuid)
      returns (r: Result<PolicyRow, Error>)
      modifies db
      ensures (r, db.View()) == Store.Upsert(old(db.View()), namespace, name, spec, id)
    {
      var ns := NamespaceOrDefault(namespace);
      if Find(db.policies, (ns, name)).Some? {
        r := Update(Some(ns), name, spec);
      } else {
        r := Create(Some(ns), name, spec, id);
      }
    }

    method Update(namespace: Option<string>, name: string, spec: RouteSpec) returns (r: Result<PolicyRow, Error>)
      modifies db
      ensures (r, db.View()) == Store.Update(old(db.View()), namespace, name, spec)
    {
      var ns := NamespaceOrDefault(namespace);
      var found := Find(db.policies, (ns, name));
      if found.None? {
        return Err(NotFound);
      }
      var entity := db.policies[found.value];
      if entity.spec != spec {
        entity := entity.(spec := spec, generation := entity.generation + 1);
        db.policies := db.policies[found.value := entity];
        db.versions := db.versions + [VersionRow(entity.id, entity.generation, spec)];
        db.Record(PolicyUpdate, Target(ns, name), SpecDetail(spec));
      }
      return Ok(entity);
    }

    method Delete(namespace: Option<string>, name: string) returns (r: Result<(), Error>)
      modifies db
      ensures (r, db.View()) == Store.Delete(old(db.View()), namespace, name)
    {
      var ns := NamespaceOrDefault(namespace);
      var found := Find(db.policies, (ns, name));
      if found.None? {
        return Err(NotFound);
      }
      db.DeletePolicy(found.value);
      db.Record(PolicyDelete, Target(ns, name), NoDetail);
      return Ok(());
    }

    method DeleteIfExists(namespace: Option<string>, name: string)
      modifies db
      ensures db.View() == Store.DeleteIfExists(old(db.View()), namespace, name)
    {
      var ns := NamespaceOrDefault(namespace);
      var found := Find(db.policies, (ns, name));
      if found.Some? {
        db.DeletePolicy(found.value);
        db.Record(PolicyDelete, Target(ns, name), NoDetail);
      }
    }
  }
}
