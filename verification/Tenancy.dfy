/**
  Workspace isolation: the criteria that every query is rewritten with, as nested sub-queries,
  against ownership along foreign keys; and the guard on inserts.

  A criterion that evaluates to NULL selects nothing, like one that is false; only "is true" is
  modelled.
 */
module Tenancy {
  import opened Basics

  type Id = nat
  type Workspace = nat

  /** A NULL workspace is None, a NULL foreign key is absent from the map. */
  datatype Row = Row(id: Id, workspace: Option<Workspace>, fks: map<string, Id>)

  /** A table not in the map is empty. */
  type Database = map<string, seq<Row>>

  function Rows(db: Database, table: string): seq<Row> {
    if table in db then db[table] else []
  }

  /** Primary keys. */
  predicate Keyed(db: Database) {
    forall t | t in db :: forall i, j | 0 <= i < j < |db[t]| :: db[t][i].id != db[t][j].id
  }

  datatype Hop = Hop(fk: string, table: string)

  /** Which tables are scoped, and how; `via` chains have one or two hops. */
  datatype Registry = Registry(direct: set<string>, via: map<string, seq<Hop>>, exempt: set<string>,
                               user: set<string>, global: set<string>)

  /** The check made when the registry is loaded. */
  predicate Supported(reg: Registry) {
    forall t | t in reg.via :: |reg.via[t]| == 1 || |reg.via[t]| == 2
  }

  const EVIDENCE := "evidence"
  const REMEDIATION_EVIDENCE := "remediation_evidence"
  const EVIDENCE_ID := "evidence_id"

  // ----- criteria as sub-queries ------------------------------------------------------------

  /** `SELECT id FROM table WHERE workspace_id = ws`. */
  function OwnedIds(db: Database, table: string, ws: Workspace): set<Id> {
    set i | 0 <= i < |Rows(db, table)| && Rows(db, table)[i].workspace == Some(ws) :: Rows(db, table)[i].id
  }

  /** `fk IN (ids)`. */
  predicate FkIn(row: Row, fk: string, ids: set<Id>) {
    fk in row.fks && row.fks[fk] in ids
  }

  /** `SELECT id FROM table WHERE fk IN (ids)`. */
  function LinkedIds(db: Database, table: string, fk: string, ids: set<Id>): set<Id> {
    set i | 0 <= i < |Rows(db, table)| && FkIn(Rows(db, table)[i], fk, ids) :: Rows(db, table)[i].id
  }

  /** `_via_criterion`. */
  predicate ViaCriterion(db: Database, chain: seq<Hop>, row: Row, ws: Workspace)
    requires |chain| == 1 || |chain| == 2
  {
    if |chain| == 1 then FkIn(row, chain[0].fk, OwnedIds(db, chain[0].table, ws))
    else FkIn(row, chain[0].fk, LinkedIds(db, chain[0].table, chain[1].fk, OwnedIds(db, chain[1].table, ws)))
  }

  /** `SELECT evidence_id FROM remediation_evidence WHERE workspace_id = ws`. */
  function ProofIds(db: Database, ws: Workspace): set<Id> {
    set i | 0 <= i < |Rows(db, REMEDIATION_EVIDENCE)|
            && Rows(db, REMEDIATION_EVIDENCE)[i].workspace == Some(ws)
            && EVIDENCE_ID in Rows(db, REMEDIATION_EVIDENCE)[i].fks ::
      Rows(db, REMEDIATION_EVIDENCE)[i].fks[EVIDENCE_ID]
  }

  /** The criterion of a tenant-scoped table, on one of its rows. */
  predicate Criterion(reg: Registry, db: Database, table: string, row: Row, ws: Workspace)
    requires Supported(reg) && (table in reg.direct || table in reg.via)
  {
    if table in reg.direct then row.workspace == Some(ws)
    else if table == EVIDENCE then ViaCriterion(db, reg.via[table], row, ws) || row.id in ProofIds(db, ws)
    else ViaCriterion(db, reg.via[table], row, ws)
  }

  // ----- ownership along foreign keys -------------------------------------------------------

  function Find(rows: seq<Row>, id: Id): Option<Row> {
    if rows == [] then None else if rows[0].id == id then Some(rows[0]) else Find(rows[1..], id)
  }

  /** The workspace at the end of a row's chain of foreign keys. */
  function Owner(db: Database, chain: seq<Hop>, row: Row): Option<Workspace> {
    if chain == [] then row.workspace
    else if chain[0].fk !in row.fks then None
    else match Find(Rows(db, chain[0].table), row.fks[chain[0].fk])
      case None => None
      case Some(parent) => Owner(db, chain[1..], parent)
  }

  lemma {:induction false} FindFinds(rows: seq<Row>, id: Id)
    requires forall i, j | 0 <= i < j < |rows| :: rows[i].id != rows[j].id
    ensures forall i | 0 <= i < |rows| && rows[i].id == id :: Find(rows, id) == Some(rows[i])
    ensures Find(rows, id).Some? ==> Find(rows, id).value in rows && Find(rows, id).value.id == id
  {
    if rows != [] {
      assert forall i | 0 < i < |rows| :: rows[i] == rows[1..][i - 1];
      FindFinds(rows[1..], id);
    }
  }

  lemma {:induction false} OneHop(db: Database, hop: Hop, row: Row, ws: Workspace)
    requires Keyed(db)
    ensures FkIn(row, hop.fk, OwnedIds(db, hop.table, ws)) <==> Owner(db, [hop], row) == Some(ws)
  {
    if hop.fk in row.fks {
      FindFinds(Rows(db, hop.table), row.fks[hop.fk]);
      assert [hop][1..] == [];
    }
  }

  lemma {:induction false} TwoHops(db: Database, h: Hop, g: Hop, row: Row, ws: Workspace)
    requires Keyed(db)
    ensures FkIn(row, h.fk, LinkedIds(db, h.table, g.fk, OwnedIds(db, g.table, ws))) <==>
              Owner(db, [h, g], row) == Some(ws)
  {
    if h.fk in row.fks {
      var mids := Rows(db, h.table);
      FindFinds(mids, row.fks[h.fk]);
      assert [h, g][1..] == [g];
      forall i | 0 <= i < |mids|
        ensures FkIn(mids[i], g.fk, OwnedIds(db, g.table, ws)) <==> Owner(db, [g], mids[i]) == Some(ws)
      {
        OneHop(db, g, mids[i], ws);
      }
    }
  }

  /** Nested sub-queries select exactly the rows whose foreign keys lead to the workspace. */
  lemma {:induction false} ViaIsOwnership(db: Database, chain: seq<Hop>, row: Row, ws: Workspace)
    requires Keyed(db) && (|chain| == 1 || |chain| == 2)
    ensures ViaCriterion(db, chain, row, ws) <==> Owner(db, chain, row) == Some(ws)
  {
    if |chain| == 1 {
      assert chain == [chain[0]];
      OneHop(db, chain[0], row, ws);
    } else {
      assert chain == [chain[0], chain[1]];
      TwoHops(db, chain[0], chain[1], row, ws);
    }
  }

  /** Everyone who owns a row: the end of its chain, and for evidence whoever links to it as
      proof of a remediation. */
  ghost predicate Owns(reg: Registry, db: Database, table: string, row: Row, ws: Workspace)
    requires table in reg.direct || table in reg.via
  {
    || Owner(db, if table in reg.direct then [] else reg.via[table], row) == Some(ws)
    || (table !in reg.direct && table == EVIDENCE &&
        LinkedBy(db, row, ws))
  }

  predicate LinkedBy(db: Database, row: Row, ws: Workspace) {
    exists link | link in Rows(db, REMEDIATION_EVIDENCE) :: link.workspace == Some(ws) && Link(link) == Some(row.id)
  }

  function Link(link: Row): Option<Id> {
    if EVIDENCE_ID in link.fks then Some(link.fks[EVIDENCE_ID]) else None
  }

  /** For every database state and every tenant-scoped table, the criterion is ownership. */
  lemma {:induction false} CriterionIsOwnership(reg: Registry, db: Database, table: string, row: Row, ws: Workspace)
    requires Supported(reg) && Keyed(db) && (table in reg.direct || table in reg.via)
    ensures Criterion(reg, db, table, row, ws) <==> Owns(reg, db, table, row, ws)
  {
    if table !in reg.direct {
      ViaIsOwnership(db, reg.via[table], row, ws);
      if table == EVIDENCE {
        ProofIsALink(db, row, ws);
      }
    }
  }

  lemma {:induction false} ProofIsALink(db: Database, row: Row, ws: Workspace)
    ensures row.id in ProofIds(db, ws) <==> LinkedBy(db, row, ws)
  {
    var links := Rows(db, REMEDIATION_EVIDENCE);
    if link: Row :| link in links && link.workspace == Some(ws) && Link(link) == Some(row.id) {
      var i :| 0 <= i < |links| && links[i] == link;
    }
    if row.id in ProofIds(db, ws) {
      var i :| 0 <= i < |links| && links[i].workspace == Some(ws) && Link(links[i]) == Some(row.id);
      assert links[i] in links;
    }
  }

  /** Visible sets of different workspaces are disjoint on every table but evidence. */
  lemma {:induction false} VisibleSetsAreDisjoint(reg: Registry, db: Database, table: string, row: Row, a: Workspace,
                                                  b: Workspace)
    requires Supported(reg) && Keyed(db) && (table in reg.direct || table in reg.via)
    requires table in reg.direct || table != EVIDENCE
    requires Criterion(reg, db, table, row, a) && Criterion(reg, db, table, row, b)
    ensures a == b
  {
    CriterionIsOwnership(reg, db, table, row, a);
    CriterionIsOwnership(reg, db, table, row, b);
  }

  /** The two paths name one owner at most: all links agree, and with the tool run's owner. */
  ghost predicate PathsAgree(reg: Registry, db: Database, row: Row)
    requires EVIDENCE in reg.via
  {
    && (forall a: Workspace, b: Workspace | LinkedBy(db, row, a) && LinkedBy(db, row, b) :: a == b)
    && (forall a: Workspace, b: Workspace |
          Owner(db, reg.via[EVIDENCE], row) == Some(a) && LinkedBy(db, row, b) :: a == b)
  }

  /** On evidence they are disjoint exactly where the tool-run path and the remediation links do
      not disagree; nothing in the schema makes them exclusive. */
  lemma {:induction false} EvidenceIsDisjointExactlyIfPathsAgree(reg: Registry, db: Database, row: Row)
    requires Supported(reg) && Keyed(db) && EVIDENCE in reg.via && EVIDENCE !in reg.direct
    ensures PathsAgree(reg, db, row) <==>
      forall a: Workspace, b: Workspace |
        Criterion(reg, db, EVIDENCE, row, a) && Criterion(reg, db, EVIDENCE, row, b) :: a == b
  {
    forall ws: Workspace
      ensures Criterion(reg, db, EVIDENCE, row, ws) <==>
        Owner(db, reg.via[EVIDENCE], row) == Some(ws) || LinkedBy(db, row, ws)
    {
      ViaIsOwnership(db, reg.via[EVIDENCE], row, ws);
      ProofIsALink(db, row, ws);
    }
  }

  // ----- queries ----------------------------------------------------------------------------

  datatype Context = Context(bypass: bool, bound: Option<Workspace>)

  datatype Class = TenantScoped | SystemScoped | UserScoped | GlobalScoped

  /** `table_scope`; None is the error for an unclassified table. */
  function TableScope(reg: Registry, table: string): Option<Class> {
    if table in reg.direct || table in reg.via then Some(TenantScoped)
    else if table in reg.exempt then Some(SystemScoped)
    else if table in reg.user then Some(UserScoped)
    else if table in reg.global then Some(GlobalScoped)
    else None
  }

  datatype Error = NotBound | CrossTenant | Unclassified
  datatype Result<T> = Ok(value: T) | Err(error: Error)

  /** The rows of the first `n` that a query sees, filtered or not. */
  function Filtered(reg: Registry, db: Database, table: string, n: nat, ws: Workspace): seq<Row>
    requires Supported(reg) && (table in reg.direct || table in reg.via) && n <= |Rows(db, table)|
  {
    if n == 0 then []
    else if Criterion(reg, db, table, Rows(db, table)[n - 1], ws)
    then Filtered(reg, db, table, n - 1, ws) + [Rows(db, table)[n - 1]]
    else Filtered(reg, db, table, n - 1, ws)
  }

  /** A query through the rewriting hook. */
  function Query(reg: Registry, db: Database, ctx: Context, table: string): Result<seq<Row>>
    requires Supported(reg)
  {
    if ctx.bypass || TableScope(reg, table) != Some(TenantScoped) then Ok(Rows(db, table))
    else if ctx.bound.None? then Err(NotBound)
    else Ok(Filtered(reg, db, table, |Rows(db, table)|, ctx.bound.value))
  }

  lemma {:induction false} FilteredHolds(reg: Registry, db: Database, table: string, n: nat, ws: Workspace)
    requires Supported(reg) && (table in reg.direct || table in reg.via) && n <= |Rows(db, table)|
    ensures forall row :: row in Filtered(reg, db, table, n, ws) <==>
      row in Rows(db, table)[..n] && Criterion(reg, db, table, row, ws)
  {
    if n > 0 {
      FilteredHolds(reg, db, table, n - 1, ws);
      assert Rows(db, table)[..n] == Rows(db, table)[..n - 1] + [Rows(db, table)[n - 1]];
    }
  }

  /** A query on a tenant-scoped table without bypass either fails, exactly when no workspace is
      bound, or answers with exactly the rows the bound workspace owns. */
  lemma {:induction false} QueryAnswersWithOwnedRows(reg: Registry, db: Database, ctx: Context, table: string)
    requires Supported(reg) && Keyed(db) && !ctx.bypass && (table in reg.direct || table in reg.via)
    ensures Query(reg, db, ctx, table).Err? <==> ctx.bound.None?
    ensures ctx.bound.Some? ==> forall row :: row in Query(reg, db, ctx, table).value <==>
      row in Rows(db, table) && Owns(reg, db, table, row, ctx.bound.value)
  {
    if ctx.bound.Some? {
      var rows := Rows(db, table);
      FilteredHolds(reg, db, table, |rows|, ctx.bound.value);
      assert rows[..|rows|] == rows;
      forall row
        ensures Criterion(reg, db, table, row, ctx.bound.value) <==> Owns(reg, db, table, row, ctx.bound.value)
      {
        CriterionIsOwnership(reg, db, table, row, ctx.bound.value);
      }
    }
  }

  // ----- inserts ----------------------------------------------------------------------------

  datatype Pending = Pending(table: string, row: Row)

  /** The parent object, if it is in the session's memory. */
  function Resident(loaded: seq<Pending>, table: string, id: Id): Option<Row> {
    if loaded == [] then None
    else if loaded[0].table == table && loaded[0].row.id == id then Some(loaded[0].row)
    else Resident(loaded[1..], table, id)
  }

  /** The parent of the first hop that the row has a key for and the session an object. */
  function Deciding(loaded: seq<Pending>, chain: seq<Hop>, row: Row): Option<Row> {
    if chain == [] then None
    else if chain[0].fk in row.fks && Resident(loaded, chain[0].table, row.fks[chain[0].fk]).Some?
    then Resident(loaded, chain[0].table, row.fks[chain[0].fk])
    else Deciding(loaded, chain[1..], row)
  }

  predicate Foreign(workspace: Option<Workspace>, ws: Workspace) {
    workspace.Some? && workspace.value != ws
  }

  /** `_assert_via_parent_allowed`. */
  method ViaParentAllowed(chain: seq<Hop>, loaded: seq<Pending>, row: Row, ws: Workspace) returns (allowed: bool)
    ensures var deciding := Deciding(loaded, chain, row);
      allowed <==> !(deciding.Some? && Foreign(deciding.value.workspace, ws))
  {
    for i := 0 to |chain|
      invariant Deciding(loaded, chain, row) == Deciding(loaded, chain[i..], row)
    {
      var hop := chain[i];
      assert chain[i..][0] == hop && chain[i..][1..] == chain[i + 1..];
      if hop.fk !in row.fks {
        continue;
      }
      var parent := Resident(loaded, hop.table, row.fks[hop.fk]);
      if parent.None? {
        continue;
      }
      return !Foreign(parent.value.workspace, ws);
    }
    return true;
  }

  /** What the guard says of one pending row. */
  function Refusal(reg: Registry, bound: Option<Workspace>, loaded: seq<Pending>, p: Pending): Option<Error> {
    match TableScope(reg, p.table)
    case None => Some(Unclassified)
    case Some(TenantScoped) =>
      if bound.None? then Some(NotBound)
      else
        var deciding := if p.table in reg.direct then Some(p.row) else Deciding(loaded, reg.via[p.table], p.row);
        if deciding.Some? && Foreign(deciding.value.workspace, bound.value) then Some(CrossTenant) else None
    case Some(_) => None
  }

  /** `_assert_insert_allowed`: the first refusal, if any. */
  method AssertInsertAllowed(reg: Registry, ctx: Context, pending: seq<Pending>, loaded: seq<Pending>)
    returns (error: Option<Error>)
    ensures error.None? <==>
      ctx.bypass || forall i | 0 <= i < |pending| :: Refusal(reg, ctx.bound, loaded, pending[i]).None?
    ensures error.Some? ==> exists i | 0 <= i < |pending| ::
      && Refusal(reg, ctx.bound, loaded, pending[i]) == error
      && forall j | 0 <= j < i :: Refusal(reg, ctx.bound, loaded, pending[j]).None?
  {
    if ctx.bypass {
      return None;
    }
    for i := 0 to |pending|
      invariant forall j | 0 <= j < i :: Refusal(reg, ctx.bound, loaded, pending[j]).None?
    {
      var p := pending[i];
      var scope := TableScope(reg, p.table);
      if scope.None? {
        return Some(Unclassified);
      }
      if scope.value != TenantScoped {
        continue;
      }
      if ctx.bound.None? {
        return Some(NotBound);
      }
      if p.table in reg.direct {
        if Foreign(p.row.workspace, ctx.bound.value) {
          return Some(CrossTenant);
        }
      } else {
        var allowed := ViaParentAllowed(reg.via[p.table], loaded, p.row, ctx.bound.value);
        if !allowed {
          return Some(CrossTenant);
        }
      }
    }
    return None;
  }

  function Inserted(db: Database, p: Pending): Database {
    db[p.table := Rows(db, p.table) + [p.row]]
  }

  /** No chain passes through a direct table on its way: that is what a chain ends in. */
  predicate DirectTablesEndChains(reg: Registry) {
    forall t | t in reg.via && |reg.via[t]| == 2 :: reg.via[t][0].table !in reg.direct
  }

  lemma {:induction false} OwnedIdsOfOthers(db: Database, p: Pending, table: string, ws: Workspace)
    requires p.row.workspace != Some(ws)
    ensures OwnedIds(Inserted(db, p), table, ws) == OwnedIds(db, table, ws)
  {
    var before, after := Rows(db, table), Rows(Inserted(db, p), table);
    assert forall i | 0 <= i < |before| :: after[i] == before[i];
    forall id | id in OwnedIds(db, table, ws)
      ensures id in OwnedIds(Inserted(db, p), table, ws)
    {
      var i :| 0 <= i < |before| && before[i].workspace == Some(ws) && before[i].id == id;
      assert after[i] == before[i];
    }
  }

  lemma {:induction false} ProofIdsOfOthers(db: Database, p: Pending, ws: Workspace)
    requires p.row.workspace != Some(ws)
    ensures ProofIds(Inserted(db, p), ws) == ProofIds(db, ws)
  {
    var before, after := Rows(db, REMEDIATION_EVIDENCE), Rows(Inserted(db, p), REMEDIATION_EVIDENCE);
    assert forall i | 0 <= i < |before| :: after[i] == before[i];
    forall id | id in ProofIds(db, ws)
      ensures id in ProofIds(Inserted(db, p), ws)
    {
      var i :| 0 <= i < |before| && before[i].workspace == Some(ws) && Link(before[i]) == Some(id);
      assert after[i] == before[i];
    }
  }

  /** A guarded insert into a direct table, whose workspace column is not NULL, changes no other
      workspace's view of any row of any table, and is itself invisible to it. */
  lemma {:induction false} DirectInsertStaysHome(reg: Registry, db: Database, bound: Workspace, loaded: seq<Pending>,
                                                 p: Pending, table: string, row: Row, other: Workspace)
    requires Supported(reg) && DirectTablesEndChains(reg)
    requires p.table in reg.direct && p.row.workspace.Some? && Refusal(reg, Some(bound), loaded, p).None?
    requires (table in reg.direct || table in reg.via) && other != bound
    ensures Criterion(reg, Inserted(db, p), table, row, other) <==> Criterion(reg, db, table, row, other)
    ensures !Criterion(reg, Inserted(db, p), p.table, p.row, other)
  {
    if table !in reg.direct {
      var chain := reg.via[table];
      OwnedIdsOfOthers(db, p, chain[|chain| - 1].table, other);
      ProofIdsOfOthers(db, p, other);
      if |chain| == 2 {
        assert Rows(Inserted(db, p), chain[0].table) == Rows(db, chain[0].table);
      }
    }
  }

  /** On a table one hop from its owner, an insert whose parent is in memory, as the database has
      it, is allowed exactly if the row will belong to the bound workspace. */
  lemma {:induction false} ResidentParentDecides(reg: Registry, db: Database, bound: Workspace, loaded: seq<Pending>,
                                                 p: Pending)
    requires p.table in reg.via && p.table !in reg.direct && |reg.via[p.table]| == 1
    requires var hop := reg.via[p.table][0];
      var deciding := Deciding(loaded, reg.via[p.table], p.row);
      && deciding.Some? && deciding.value.workspace.Some?
      && hop.fk in p.row.fks && Find(Rows(db, hop.table), p.row.fks[hop.fk]) == deciding
    ensures Refusal(reg, Some(bound), loaded, p).None? <==> Owner(db, reg.via[p.table], p.row) == Some(bound)
  {
    var chain := reg.via[p.table];
    assert chain[1..] == [];
  }

  /** Two hops away the guard says nothing: a parent in memory that carries no workspace of its
      own lets the insert pass, whoever its own parent belongs to. */
  lemma {:induction false} UnscopedParentIsNotConclusive(reg: Registry, bound: Workspace, loaded: seq<Pending>,
                                                         p: Pending, parent: Row)
    requires p.table in reg.via && p.table !in reg.direct && |reg.via[p.table]| == 2
    requires var hop := reg.via[p.table][0];
      hop.fk in p.row.fks && Resident(loaded, hop.table, p.row.fks[hop.fk]) == Some(parent)
    requires parent.workspace.None?
    ensures Refusal(reg, Some(bound), loaded, p).None?
  {
  }
}
