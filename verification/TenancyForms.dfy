/**
  Queries and inserts read directly off the rows of the database.
 */
module TenancyForms {
  import opened Basics
  import opened Tenancy

  // ----- ownership --------------------------------------------------------------------------

  /** Some row of the table has the id, and this of it holds. */
  ghost predicate SomeRow(db: Database, table: string, id: Id, p: Row -> bool) {
    table in db && exists i | 0 <= i < |db[table]| :: db[table][i].id == id && p(db[table][i])
  }

  function OfWorkspace(ws: Workspace): Row -> bool {
    (r: Row) => r.workspace == Some(ws)
  }

  /** The row's key leads to a row of the workspace. */
  ghost predicate LeadsTo(db: Database, hop: Hop, row: Row, ws: Workspace) {
    hop.fk in row.fks && SomeRow(db, hop.table, row.fks[hop.fk], OfWorkspace(ws))
  }

  ghost predicate LeadsBy(db: Database, first: Hop, second: Hop, row: Row, ws: Workspace) {
    && first.fk in row.fks && first.table in db
    && exists i | 0 <= i < |db[first.table]| ::
         db[first.table][i].id == row.fks[first.fk] && LeadsTo(db, second, db[first.table][i], ws)
  }

  /** Proof of a remediation: some row of that table, of the workspace, names the evidence. */
  ghost predicate ProvesARemediation(db: Database, id: Id, ws: Workspace) {
    && "remediation_evidence" in db
    && exists i | 0 <= i < |db["remediation_evidence"]| ::
         var link := db["remediation_evidence"][i];
         link.workspace == Some(ws) && "evidence_id" in link.fks && link.fks["evidence_id"] == id
  }

  lemma {:induction false} OwnedAsWritten(db: Database, table: string, ws: Workspace, id: Id)
    ensures id in OwnedIds(db, table, ws) <==> SomeRow(db, table, id, OfWorkspace(ws))
  {
    if id in OwnedIds(db, table, ws) {
      var i :| 0 <= i < |Rows(db, table)| && Rows(db, table)[i].workspace == Some(ws) && Rows(db, table)[i].id == id;
      assert db[table][i].id == id;
    }
    if SomeRow(db, table, id, OfWorkspace(ws)) {
      var i :| 0 <= i < |db[table]| && db[table][i].id == id && OfWorkspace(ws)(db[table][i]);
      assert Rows(db, table)[i] == db[table][i];
    }
  }

  lemma {:induction false} LinkedAsWritten(db: Database, first: Hop, second: Hop, row: Row, ws: Workspace)
    ensures FkIn(row, first.fk, LinkedIds(db, first.table, second.fk, OwnedIds(db, second.table, ws))) <==>
            LeadsBy(db, first, second, row, ws)
  {
    forall r: Row
      ensures FkIn(r, second.fk, OwnedIds(db, second.table, ws)) <==> LeadsTo(db, second, r, ws)
    {
      if second.fk in r.fks {
        OwnedAsWritten(db, second.table, ws, r.fks[second.fk]);
      }
    }
    var owned := OwnedIds(db, second.table, ws);
    if FkIn(row, first.fk, LinkedIds(db, first.table, second.fk, owned)) {
      var i :| 0 <= i < |Rows(db, first.table)| && FkIn(Rows(db, first.table)[i], second.fk, owned)
        && Rows(db, first.table)[i].id == row.fks[first.fk];
      assert LeadsTo(db, second, db[first.table][i], ws);
    }
    if LeadsBy(db, first, second, row, ws) {
      var i :| 0 <= i < |db[first.table]| && db[first.table][i].id == row.fks[first.fk]
        && LeadsTo(db, second, db[first.table][i], ws);
      assert FkIn(Rows(db, first.table)[i], second.fk, owned);
    }
  }

  /** What a row must be for a workspace to see it: its own, or led to it by its keys, and for evidence
      also named in the workspace's proof of a remediation. */
  lemma {:induction false} CriterionAsWritten(reg: Registry, db: Database, table: string, row: Row, ws: Workspace)
    requires Supported(reg) && (table in reg.direct || table in reg.via)
    ensures Criterion(reg, db, table, row, ws) <==>
      if table in reg.direct then row.workspace == Some(ws)
      else
        || (|reg.via[table]| == 1 && LeadsTo(db, reg.via[table][0], row, ws))
        || (|reg.via[table]| == 2 && LeadsBy(db, reg.via[table][0], reg.via[table][1], row, ws))
        || (table == "evidence" && ProvesARemediation(db, row.id, ws))
  {
    if table !in reg.direct {
      var chain := reg.via[table];
      if |chain| == 1 {
        if chain[0].fk in row.fks {
          OwnedAsWritten(db, chain[0].table, ws, row.fks[chain[0].fk]);
        }
      } else {
        LinkedAsWritten(db, chain[0], chain[1], row, ws);
      }
      ProofAsWritten(db, row, ws);
    }
  }

  lemma {:induction false} ProofAsWritten(db: Database, row: Row, ws: Workspace)
    ensures row.id in ProofIds(db, ws) <==> ProvesARemediation(db, row.id, ws)
  {
    if ProvesARemediation(db, row.id, ws) {
      var i :| 0 <= i < |db["remediation_evidence"]|
        && db["remediation_evidence"][i].workspace == Some(ws)
        && "evidence_id" in db["remediation_evidence"][i].fks
        && db["remediation_evidence"][i].fks["evidence_id"] == row.id;
      assert Rows(db, REMEDIATION_EVIDENCE)[i] == db["remediation_evidence"][i];
    }
    if row.id in ProofIds(db, ws) {
      var i :| 0 <= i < |Rows(db, REMEDIATION_EVIDENCE)|
        && Rows(db, REMEDIATION_EVIDENCE)[i].workspace == Some(ws)
        && EVIDENCE_ID in Rows(db, REMEDIATION_EVIDENCE)[i].fks
        && Rows(db, REMEDIATION_EVIDENCE)[i].fks[EVIDENCE_ID] == row.id;
      assert db["remediation_evidence"][i].workspace == Some(ws);
    }
  }

  // ----- queries ----------------------------------------------------------------------------

  function AllRows(db: Database, table: string): seq<Row> {
    if table in db then db[table] else []
  }

  lemma {:induction false} FilteredFrom(reg: Registry, db: Database, table: string, n: nat, ws: Workspace)
    returns (from: seq<nat>)
    requires Supported(reg) && (table in reg.direct || table in reg.via) && n <= |AllRows(db, table)|
    ensures |from| == |Filtered(reg, db, table, n, ws)|
    ensures forall k | 0 <= k < |from| ::
      from[k] < n && Filtered(reg, db, table, n, ws)[k] == AllRows(db, table)[from[k]]
    ensures forall k, l | 0 <= k < l < |from| :: from[k] < from[l]
    ensures forall i | 0 <= i < n :: i in from <==> Criterion(reg, db, table, AllRows(db, table)[i], ws)
  {
    from := [];
    if n > 0 {
      from := FilteredFrom(reg, db, table, n - 1, ws);
      if Criterion(reg, db, table, AllRows(db, table)[n - 1], ws) {
        from := from + [n - 1];
      }
    }
  }

  /** A query on a table that is not tenant-scoped, or with bypass, gives all rows; on any other the
      rows that meet the criterion, each once and in order, and without a workspace an error. */
  lemma {:induction false} QueryAsWritten(reg: Registry, db: Database, ctx: Context, table: string)
    returns (from: seq<nat>)
    requires Supported(reg)
    ensures ctx.bypass || (table !in reg.direct && table !in reg.via) ==>
      Query(reg, db, ctx, table) == Ok(AllRows(db, table))
    ensures !ctx.bypass && (table in reg.direct || table in reg.via) && ctx.bound == None ==>
      Query(reg, db, ctx, table) == Err(NotBound)
    ensures !ctx.bypass && (table in reg.direct || table in reg.via) && ctx.bound != None ==>
      && Query(reg, db, ctx, table).Ok? && |Query(reg, db, ctx, table).value| == |from|
      && (forall k | 0 <= k < |from| ::
            from[k] < |AllRows(db, table)| && Query(reg, db, ctx, table).value[k] == AllRows(db, table)[from[k]])
      && (forall k, l | 0 <= k < l < |from| :: from[k] < from[l])
      && (forall i | 0 <= i < |AllRows(db, table)| ::
            i in from <==> Criterion(reg, db, table, AllRows(db, table)[i], ctx.bound.value))
  {
    from := [];
    if !ctx.bypass && (table in reg.direct || table in reg.via) && ctx.bound != None {
      from := FilteredFrom(reg, db, table, |AllRows(db, table)|, ctx.bound.value);
    }
  }

  // ----- inserts ----------------------------------------------------------------------------

  /** The first object of the session with the table and the id. */
  predicate FirstLoaded(loaded: seq<Pending>, table: string, id: Id, i: nat) {
    && i < |loaded| && loaded[i].table == table && loaded[i].row.id == id
    && forall j | 0 <= j < i :: loaded[j].table != table || loaded[j].row.id != id
  }

  lemma {:induction false} ResidentAsWritten(loaded: seq<Pending>, table: string, id: Id)
    ensures Resident(loaded, table, id).None? <==>
      forall i | 0 <= i < |loaded| :: loaded[i].table != table || loaded[i].row.id != id
    ensures forall i: nat | FirstLoaded(loaded, table, id, i) :: Resident(loaded, table, id) == Some(loaded[i].row)
  {
    if loaded != [] && !(loaded[0].table == table && loaded[0].row.id == id) {
      ResidentAsWritten(loaded[1..], table, id);
      assert forall i | 0 < i < |loaded| :: loaded[i] == loaded[1..][i - 1];
      forall i: nat | FirstLoaded(loaded, table, id, i)
        ensures Resident(loaded, table, id) == Some(loaded[i].row)
      {
        assert FirstLoaded(loaded[1..], table, id, i - 1);
      }
    }
  }

  /** The object in the session that the row's key of this hop names. */
  function ParentOf(loaded: seq<Pending>, hop: Hop, row: Row): Option<Row> {
    if hop.fk in row.fks then Resident(loaded, hop.table, row.fks[hop.fk]) else None
  }

  /** The parent that decides about a row: of the first hop that has one. */
  lemma {:induction false} DecidingAsWritten(loaded: seq<Pending>, first: Hop, second: Hop, row: Row)
    ensures Deciding(loaded, [first], row) == ParentOf(loaded, first, row)
    ensures Deciding(loaded, [first, second], row) ==
            if ParentOf(loaded, first, row).Some? then ParentOf(loaded, first, row) else ParentOf(loaded, second, row)
  {
    assert [first][1..] == [] && [second][1..] == [] && [first, second][1..] == [second];
    assert Deciding(loaded, [second], row) == ParentOf(loaded, second, row);
  }

  /** When an insert is refused, and why. */
  lemma {:induction false} RefusalAsWritten(reg: Registry, bound: Option<Workspace>, loaded: seq<Pending>, p: Pending)
    ensures var refusal, scoped := Refusal(reg, bound, loaded, p), p.table in reg.direct || p.table in reg.via;
      && (refusal == Some(Unclassified) <==>
            !scoped && p.table !in reg.exempt && p.table !in reg.user && p.table !in reg.global)
      && (refusal == Some(NotBound) <==> scoped && bound == None)
      && (refusal == Some(CrossTenant) <==>
            && scoped && bound != None
            && var parent := if p.table in reg.direct then Some(p.row) else Deciding(loaded, reg.via[p.table], p.row);
               parent != None && parent.value.workspace != None && parent.value.workspace != bound)
  {
  }

  /** An insert puts its row behind those of its table and leaves every other table alone. */
  lemma {:induction false} InsertAsWritten(db: Database, p: Pending, table: string)
    ensures AllRows(Inserted(db, p), p.table) == AllRows(db, p.table) + [p.row]
    ensures table != p.table ==> AllRows(Inserted(db, p), table) == AllRows(db, table)
  {
  }
}
