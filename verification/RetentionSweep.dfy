/**
  The sweep of one workspace: the tables in their mandated order, what is captured before each
  delete, and the audit rows written on the way.
 */
module RetentionSweep {
  import opened Basics
  import opened Retention

  datatype Resource = Report | Scan | AiUsage | Notification | RemediationEvent | RiskAssessment | Audit

  datatype ToolRun = ToolRun(id: Id, scan: Id)

  datatype Proof = Proof(id: Id, toolRun: Option<Id>, uri: Option<string>)

  function Ids(rows: set<Row>): set<Id> {
    set r | r in rows :: r.id
  }

  function Uris(rows: set<Row>): set<string> {
    set r | r in rows && r.uri.Some? :: r.uri.value
  }

  /** `DELETE ... WHERE id IN ids`. */
  function Without(rows: set<Row>, ids: set<Id>): set<Row> {
    set r | r in rows && r.id !in ids
  }

  lemma {:induction false} DeleteByIdsIsPurge(rows: set<Row>, p: Policy)
    requires Keyed(rows)
    ensures Without(rows, Ids(Batch(rows, p))) == Purged(rows, p)
  {
    forall r | r in rows
      ensures r.id in Ids(Batch(rows, p)) <==> r in Batch(rows, p)
    {
    }
  }

  /** A report that cites one of the scans is marked, once. */
  function Marked(r: Row, scans: set<Id>): Row {
    if !r.scansPurged && r.cites * scans != {} then r.(scansPurged := true) else r
  }

  function MarkedReports(reports: set<Row>, scans: set<Id>): set<Row> {
    set r | r in reports :: Marked(r, scans)
  }

  function RunIds(toolRuns: set<ToolRun>, scans: set<Id>): set<Id> {
    set t | t in toolRuns && t.scan in scans :: t.id
  }

  function ProofsOf(evidence: set<Proof>, runs: set<Id>): set<Proof> {
    set e | e in evidence && e.toolRun.Some? && e.toolRun.value in runs
  }

  function RunsLeft(toolRuns: set<ToolRun>, scans: set<Id>): set<ToolRun> {
    set t | t in toolRuns && t.scan !in scans
  }

  function ProofUris(proofs: set<Proof>): set<string> {
    set e | e in proofs && e.uri.Some? :: e.uri.value
  }

  /** A report cites only scans that exist, unless it says that some are gone. */
  predicate Honest(reports: set<Row>, scans: set<Row>) {
    forall r | r in reports :: r.scansPurged || r.cites <= Ids(scans)
  }

  // ----- one table --------------------------------------------------------------------------

  /** Count, select and delete: one table of the sweep. */
  method SweepRows(rows: set<Row>, p: Policy, dryRun: bool) returns (left: set<Row>, batch: set<Row>, eligible: nat)
    requires Keyed(rows)
    ensures eligible == |Eligible(rows, p)|
    ensures batch == if dryRun then {} else Batch(rows, p)
    ensures left == rows - batch && Keyed(left)
  {
    eligible := |Eligible(rows, p)|;
    if dryRun || eligible == 0 {
      assert eligible == 0 ==> Batch(rows, p) == {};
      return rows, {}, eligible;
    }
    batch := Batch(rows, p);
    DeleteByIdsIsPurge(rows, p);
    left := Without(rows, Ids(batch));
  }

  // ----- one workspace ----------------------------------------------------------------------

  /** The swept tables of a workspace, and the two that a scan's rows lead to. */
  datatype Tables = Tables(reports: set<Row>, scans: set<Row>, aiUsage: set<Row>, notifications: set<Row>,
                           remediationEvents: set<Row>, riskAssessments: set<Row>, audit: set<Row>,
                           toolRuns: set<ToolRun>, evidence: set<Proof>)

  /** What to delete from object storage after the commit. */
  datatype Targets = Targets(reportUris: set<string>, toolRunIds: set<Id>, evidenceUris: set<string>)

  datatype Sweep = Sweep(tables: Tables, targets: Targets, eligible: map<Resource, nat>, written: set<Row>)

  /** `events` holds the audit row that each purge would write. */
  datatype Config = Config(policies: Resource -> Policy, dryRun: bool, events: Resource -> Row)
  {
    /** What a sweep takes of a table. */
    function Taken(rows: set<Row>, resource: Resource): set<Row> {
      if dryRun then {} else Batch(rows, policies(resource))
    }

    /** The audit row a purge of the table leaves, if it had anything to delete. */
    function Entry(rows: set<Row>, resource: Resource): set<Row> {
      if dryRun || Eligible(rows, policies(resource)) == {} then {} else {events(resource)}
    }
  }

  predicate KeyedTables(t: Tables) {
    && Keyed(t.reports) && Keyed(t.scans) && Keyed(t.aiUsage) && Keyed(t.notifications)
    && Keyed(t.remediationEvents) && Keyed(t.riskAssessments)
  }

  /** The count, and the audit row if anything was to be deleted. */
  function Recorded(c: Config, s: Sweep, rows: set<Row>, resource: Resource): Sweep {
    s.(eligible := s.eligible[resource := |Eligible(rows, c.policies(resource))|],
       written := s.written + c.Entry(rows, resource),
       tables := s.tables.(audit := s.tables.audit + c.Entry(rows, resource)))
  }

  /** `capture_tool_run_ids`, `capture_evidence_uris`, `mark_reports_with_purged_scans` and the
      delete with its cascade, in that order. */
  function WithoutScans(s: Sweep, gone: set<Id>): Sweep {
    var t := s.tables;
    var runs := RunIds(t.toolRuns, gone);
    s.(targets := s.targets.(toolRunIds := s.targets.toolRunIds + runs,
                             evidenceUris := s.targets.evidenceUris + ProofUris(ProofsOf(t.evidence, runs))),
       tables := t.(reports := MarkedReports(t.reports, gone), scans := Without(t.scans, gone),
                    toolRuns := RunsLeft(t.toolRuns, gone), evidence := t.evidence - ProofsOf(t.evidence, runs)))
  }

  /** The counts of the tables, dry run or not. */
  function OwnersCounted(c: Config, t: Tables, counts: map<Resource, nat>): map<Resource, nat> {
    counts[Report := |Eligible(t.reports, c.policies(Report))|][Scan := |Eligible(t.scans, c.policies(Scan))|]
  }

  function HistoryCounted(c: Config, t: Tables, counts: map<Resource, nat>): map<Resource, nat> {
    counts[AiUsage := |Eligible(t.aiUsage, c.policies(AiUsage))|]
      [Notification := |Eligible(t.notifications, c.policies(Notification))|]
      [RemediationEvent := |Eligible(t.remediationEvents, c.policies(RemediationEvent))|]
      [RiskAssessment := |Eligible(t.riskAssessments, c.policies(RiskAssessment))|]
  }

  class Workspace {
    const c: Config
    var s: Sweep

    /** The bookkeeping of one purge. */
    method Record(resource: Resource, rows: set<Row>, count: nat)
      requires count == |Eligible(rows, c.policies(resource))|
      modifies this
      ensures s == Recorded(c, old(s), rows, resource)
    {
      s := s.(eligible := s.eligible[resource := count]);
      if !c.dryRun && count != 0 {
        s := s.(written := s.written + {c.events(resource)},
                tables := s.tables.(audit := s.tables.audit + {c.events(resource)}));
      } else {
        assert c.Entry(rows, resource) == {};
      }
    }

    method SweepReports()
      requires Keyed(s.tables.reports)
      modifies this
      ensures var rows := old(s.tables.reports);
        var taken := c.Taken(rows, Report);
        var uris := old(s.targets.reportUris) + Uris(taken);
        s == Recorded(c, old(s).(tables := old(s.tables).(reports := rows - taken),
                                 targets := old(s.targets).(reportUris := uris)), rows, Report)
    {
      var rows := s.tables.reports;
      var left, batch, count := SweepRows(rows, c.policies(Report), c.dryRun);
      s := s.(targets := s.targets.(reportUris := s.targets.reportUris + Uris(batch)));
      s := s.(tables := s.tables.(reports := left));
      Record(Report, rows, count);
    }

    method SweepScans() returns (ghost gone: set<Id>)
      requires Keyed(s.tables.scans)
      modifies this
      ensures gone == Ids(c.Taken(old(s.tables.scans), Scan))
      ensures s == Recorded(c, WithoutScans(old(s), gone), old(s.tables.scans), Scan)
    {
      var rows := s.tables.scans;
      var left, batch, count := SweepRows(rows, c.policies(Scan), c.dryRun);
      var scanIds := Ids(batch);
      gone := scanIds;
      var runs := RunIds(s.tables.toolRuns, scanIds);
      var proofs := ProofsOf(s.tables.evidence, runs);
      s := s.(targets := s.targets.(toolRunIds := s.targets.toolRunIds + runs));
      s := s.(targets := s.targets.(evidenceUris := s.targets.evidenceUris + ProofUris(proofs)));
      s := s.(tables := s.tables.(reports := MarkedReports(s.tables.reports, scanIds)));
      s := s.(tables := s.tables.(scans := Without(rows, scanIds), toolRuns := RunsLeft(s.tables.toolRuns, scanIds),
                                  evidence := s.tables.evidence - proofs));
      Record(Scan, rows, count);
    }

    method SweepAiUsage()
      requires Keyed(s.tables.aiUsage)
      modifies this
      ensures var rows := old(s.tables.aiUsage);
        var left := rows - c.Taken(rows, AiUsage);
        s == Recorded(c, old(s).(tables := old(s.tables).(aiUsage := left)), rows, AiUsage)
    {
      var rows := s.tables.aiUsage;
      var left, batch, count := SweepRows(rows, c.policies(AiUsage), c.dryRun);
      s := s.(tables := s.tables.(aiUsage := left));
      Record(AiUsage, rows, count);
    }

    method SweepNotifications()
      requires Keyed(s.tables.notifications)
      modifies this
      ensures var rows := old(s.tables.notifications);
        var left := rows - c.Taken(rows, Notification);
        s == Recorded(c, old(s).(tables := old(s.tables).(notifications := left)), rows, Notification)
    {
      var rows := s.tables.notifications;
      var left, batch, count := SweepRows(rows, c.policies(Notification), c.dryRun);
      s := s.(tables := s.tables.(notifications := left));
      Record(Notification, rows, count);
    }

    method SweepRemediationEvents()
      requires Keyed(s.tables.remediationEvents)
      modifies this
      ensures var rows := old(s.tables.remediationEvents);
        var left := rows - c.Taken(rows, RemediationEvent);
        s == Recorded(c, old(s).(tables := old(s.tables).(remediationEvents := left)), rows, RemediationEvent)
    {
      var rows := s.tables.remediationEvents;
      var left, batch, count := SweepRows(rows, c.policies(RemediationEvent), c.dryRun);
      s := s.(tables := s.tables.(remediationEvents := left));
      Record(RemediationEvent, rows, count);
    }

    method SweepRiskAssessments()
      requires Keyed(s.tables.riskAssessments)
      modifies this
      ensures var rows := old(s.tables.riskAssessments);
        var left := rows - c.Taken(rows, RiskAssessment);
        s == Recorded(c, old(s).(tables := old(s.tables).(riskAssessments := left)), rows, RiskAssessment)
    {
      var rows := s.tables.riskAssessments;
      var left, batch, count := SweepRows(rows, c.policies(RiskAssessment), c.dryRun);
      s := s.(tables := s.tables.(riskAssessments := left));
      Record(RiskAssessment, rows, count);
    }

    method SweepAudit()
      requires Keyed(s.tables.audit)
      modifies this
      ensures var rows := old(s.tables.audit);
        var left := rows - c.Taken(rows, Audit);
        s == Recorded(c, old(s).(tables := old(s.tables).(audit := left)), rows, Audit)
    {
      var rows := s.tables.audit;
      var left, batch, count := SweepRows(rows, c.policies(Audit), c.dryRun);
      s := s.(tables := s.tables.(audit := left));
      Record(Audit, rows, count);
    }

    /** Steps 1 and 2. */
    method SweepOwners() returns (ghost gone: set<Id>)
      requires Keyed(s.tables.reports) && Keyed(s.tables.scans)
      modifies this
      ensures var t := old(s.tables); var logged := c.Entry(t.reports, Report) + c.Entry(t.scans, Scan);
        && gone == Ids(c.Taken(t.scans, Scan))
        && s.tables == t.(reports := MarkedReports(t.reports - c.Taken(t.reports, Report), gone),
                          scans := Without(t.scans, gone), toolRuns := RunsLeft(t.toolRuns, gone),
                          evidence := t.evidence - ProofsOf(t.evidence, RunIds(t.toolRuns, gone)),
                          audit := t.audit + logged)
        && s.written == old(s.written) + logged
        && s.eligible == OwnersCounted(c, t, old(s.eligible))
        && s.targets == Targets(
             old(s.targets.reportUris) + Uris(c.Taken(t.reports, Report)),
             old(s.targets.toolRunIds) + RunIds(t.toolRuns, gone),
             old(s.targets.evidenceUris) + ProofUris(ProofsOf(t.evidence, RunIds(t.toolRuns, gone))))
    {
      SweepReports();
      gone := SweepScans();
    }

    /** Steps 3 to 5 of the order. */
    method SweepHistory()
      requires Keyed(s.tables.aiUsage) && Keyed(s.tables.notifications)
      requires Keyed(s.tables.remediationEvents) && Keyed(s.tables.riskAssessments)
      modifies this
      ensures var t := old(s.tables);
        && s.tables == t.(aiUsage := t.aiUsage - c.Taken(t.aiUsage, AiUsage),
                          notifications := t.notifications - c.Taken(t.notifications, Notification),
                          remediationEvents := t.remediationEvents - c.Taken(t.remediationEvents, RemediationEvent),
                          riskAssessments := t.riskAssessments - c.Taken(t.riskAssessments, RiskAssessment),
                          audit := t.audit + HistoryLogged(c, t))
        && s.written == old(s.written) + HistoryLogged(c, t) && s.targets == old(s.targets)
        && s.eligible == HistoryCounted(c, t, old(s.eligible))
    {
      SweepAiUsage();
      SweepNotifications();
      SweepRemediationEvents();
      SweepRiskAssessments();
    }

    /** Steps 1 to 5. */
    method SweepAllButAudit() returns (ghost gone: set<Id>)
      requires KeyedTables(s.tables) && s.written == {}
      modifies this
      ensures gone == Ids(c.Taken(old(s.tables.scans), Scan))
      ensures s.tables == BeforeAudit(c, old(s.tables), gone) && s.written == Logged(c, old(s.tables))
      ensures Captured(c, old(s.tables), gone, old(s.targets), s.targets)
      ensures s.eligible == HistoryCounted(c, old(s.tables), OwnersCounted(c, old(s.tables), old(s.eligible)))
    {
      gone := SweepOwners();
      SweepHistory();
      assert s.tables.audit == AuditBefore(c, old(s.tables));
    }

    /** `_purge_workspace`: the mandated order, audit rows last. */
    method PurgeWorkspace() returns (ghost gone: set<Id>)
      requires KeyedTables(s.tables) && EntriesAreFresh(c, s.tables.audit) && s.written == {}
      modifies this
      ensures gone == Ids(c.Taken(old(s.tables.scans), Scan))
      ensures Outcome(c, old(s.tables), gone, s.tables)
      ensures s.written == Logged(c, old(s.tables)) + AuditEntry(c, old(s.tables))
      ensures Captured(c, old(s.tables), gone, old(s.targets), s.targets)
      ensures s.eligible == HistoryCounted(c, old(s.tables), OwnersCounted(c, old(s.tables), old(s.eligible)))
                            [Audit := |Eligible(AuditBefore(c, old(s.tables)), c.policies(Audit))|]
    {
      gone := SweepAllButAudit();
      StillKeyed(c, old(s.tables));
      SweepAudit();
    }
  }

  /** The audit rows that could be written have ids of their own. */
  ghost predicate EntriesAreFresh(c: Config, audit: set<Row>) {
    && Keyed(audit)
    && (forall x, r | r in audit :: r.id != c.events(x).id)
    && (forall x, y :: c.events(x).id == c.events(y).id ==> x == y)
  }

  /** Some purge writes this row. */
  ghost predicate IsEvent(c: Config, r: Row) {
    exists x :: r == c.events(x)
  }

  lemma {:induction false} EntryIsEvent(c: Config, rows: set<Row>, resource: Resource)
    ensures forall r | r in c.Entry(rows, resource) :: IsEvent(c, r)
  {
    assert IsEvent(c, c.events(resource));
  }

  lemma {:induction false} EntriesAreEvents(c: Config, t: Tables)
    ensures forall r | r in Logged(c, t) :: IsEvent(c, r)
  {
    EntryIsEvent(c, t.reports, Report);
    EntryIsEvent(c, t.scans, Scan);
    EntryIsEvent(c, t.aiUsage, AiUsage);
    EntryIsEvent(c, t.notifications, Notification);
    EntryIsEvent(c, t.remediationEvents, RemediationEvent);
    EntryIsEvent(c, t.riskAssessments, RiskAssessment);
  }

  lemma {:induction false} StillKeyed(c: Config, t: Tables)
    requires EntriesAreFresh(c, t.audit)
    ensures Keyed(t.audit + Logged(c, t))
  {
    EntriesAreEvents(c, t);
    EventsKeepKeys(c, t.audit, Logged(c, t));
  }

  lemma {:induction false} EventsKeepKeys(c: Config, audit: set<Row>, logged: set<Row>)
    requires EntriesAreFresh(c, audit) && forall r | r in logged :: IsEvent(c, r)
    ensures Keyed(audit + logged)
  {
    forall a, b | a in audit + logged && b in audit + logged && a.id == b.id
      ensures a == b
    {
      if a in logged {
        var x :| a == c.events(x);
        if b in logged {
          var y :| b == c.events(y);
        }
      }
    }
  }

  /** The audit rows written before the audit table is swept. */
  function HistoryLogged(c: Config, t: Tables): set<Row> {
    c.Entry(t.aiUsage, AiUsage) + c.Entry(t.notifications, Notification)
    + c.Entry(t.remediationEvents, RemediationEvent) + c.Entry(t.riskAssessments, RiskAssessment)
  }

  function Logged(c: Config, t: Tables): set<Row> {
    c.Entry(t.reports, Report) + c.Entry(t.scans, Scan) + HistoryLogged(c, t)
  }

  /** The audit table as the last pass finds it, and the row that pass itself writes. */
  function AuditBefore(c: Config, t: Tables): set<Row> {
    t.audit + Logged(c, t)
  }

  function AuditEntry(c: Config, t: Tables): set<Row> {
    c.Entry(AuditBefore(c, t), Audit)
  }

  /** The tables as the last pass finds them. */
  function BeforeAudit(c: Config, t: Tables, gone: set<Id>): Tables {
    Tables(MarkedReports(t.reports - c.Taken(t.reports, Report), gone), Without(t.scans, gone),
           t.aiUsage - c.Taken(t.aiUsage, AiUsage), t.notifications - c.Taken(t.notifications, Notification),
           t.remediationEvents - c.Taken(t.remediationEvents, RemediationEvent),
           t.riskAssessments - c.Taken(t.riskAssessments, RiskAssessment), AuditBefore(c, t),
           RunsLeft(t.toolRuns, gone), t.evidence - ProofsOf(t.evidence, RunIds(t.toolRuns, gone)))
  }

  /** What a sweep adds to the storage targets, by the tables before it. */
  predicate Captured(c: Config, t: Tables, gone: set<Id>, before: Targets, after: Targets) {
    && after.reportUris == before.reportUris + Uris(c.Taken(t.reports, Report))
    && after.toolRunIds == before.toolRunIds + RunIds(t.toolRuns, gone)
    && after.evidenceUris == before.evidenceUris + ProofUris(ProofsOf(t.evidence, RunIds(t.toolRuns, gone)))
  }

  /** The tables after a sweep, by those before it. */
  predicate Outcome(c: Config, t: Tables, gone: set<Id>, t': Tables) {
    && t'.reports == MarkedReports(t.reports - c.Taken(t.reports, Report), gone)
    && t'.scans == Without(t.scans, gone)
    && t'.aiUsage == t.aiUsage - c.Taken(t.aiUsage, AiUsage)
    && t'.notifications == t.notifications - c.Taken(t.notifications, Notification)
    && t'.remediationEvents == t.remediationEvents - c.Taken(t.remediationEvents, RemediationEvent)
    && t'.riskAssessments == t.riskAssessments - c.Taken(t.riskAssessments, RiskAssessment)
    && t'.toolRuns == RunsLeft(t.toolRuns, gone)
    && t'.evidence == t.evidence - ProofsOf(t.evidence, RunIds(t.toolRuns, gone))
    && var audit := AuditBefore(c, t);
       t'.audit == audit - c.Taken(audit, Audit) + AuditEntry(c, t)
  }

  // ----- what the sweep keeps ---------------------------------------------------------------

  /** A dry run changes no table and logs nothing. */
  lemma {:induction false} DryRunChangesNothing(c: Config, t: Tables, gone: set<Id>, t': Tables)
    requires c.dryRun && gone == Ids(c.Taken(t.scans, Scan)) && Outcome(c, t, gone, t')
    ensures t' == t && Logged(c, t) == {}
  {
    assert gone == {};
    forall r | r in t.reports
      ensures Marked(r, {}) == r && r in MarkedReports(t.reports, {})
    {
      assert r.cites * {} == {};
    }
    assert MarkedReports(t.reports, {}) == t.reports;
  }

  /** Every report object, tool run and proof object whose row a sweep deletes is among the targets
      it leaves. */
  lemma {:induction false} NothingIsStranded(c: Config, t: Tables, gone: set<Id>, t': Tables, before: Targets,
                                             after: Targets)
    requires Outcome(c, t, gone, t') && Captured(c, t, gone, before, after)
    ensures forall r | r in t.reports && r.uri.Some? :: r.id in Ids(t'.reports) || r.uri.value in after.reportUris
    ensures forall x | x in t.toolRuns :: x in t'.toolRuns || x.id in after.toolRunIds
    ensures forall e | e in t.evidence && e.uri.Some? :: e in t'.evidence || e.uri.value in after.evidenceUris
  {
    forall r | r in t.reports && r.uri.Some? && r !in c.Taken(t.reports, Report)
      ensures r.id in Ids(t'.reports)
    {
      assert Marked(r, gone) in t'.reports && Marked(r, gone).id == r.id;
    }
  }

  /** And nothing else is: each target was one before, or belongs to a report that went, to a tool run of
      a scan that went, or to proof of such a run. */
  lemma {:induction false} NothingKeptIsATarget(c: Config, t: Tables, gone: set<Id>, before: Targets, after: Targets)
    requires Captured(c, t, gone, before, after)
    ensures forall u | u in after.reportUris - before.reportUris ::
      exists r :: r in c.Taken(t.reports, Report) && r.uri == Some(u)
    ensures forall id | id in after.toolRunIds - before.toolRunIds ::
      exists x :: x in t.toolRuns && x.id == id && x.scan in gone
    ensures forall u | u in after.evidenceUris - before.evidenceUris ::
      exists e, x :: e in t.evidence && e.uri == Some(u) && x in t.toolRuns && e.toolRun == Some(x.id) && x.scan in gone
  {
    forall u | u in after.reportUris - before.reportUris
      ensures exists r :: r in c.Taken(t.reports, Report) && r.uri == Some(u)
    {
      var r :| r in c.Taken(t.reports, Report) && r.uri.Some? && r.uri.value == u;
    }
    forall u | u in after.evidenceUris - before.evidenceUris
      ensures exists e, x :: e in t.evidence && e.uri == Some(u) && x in t.toolRuns && e.toolRun == Some(x.id)
                             && x.scan in gone
    {
      var e :| e in ProofsOf(t.evidence, RunIds(t.toolRuns, gone)) && e.uri.Some? && e.uri.value == u;
      var x :| x in t.toolRuns && x.scan in gone && x.id == e.toolRun.value;
    }
  }

  /** With the scans go exactly their tool runs and the proof of these. */
  lemma {:induction false} CascadesAsWritten(c: Config, t: Tables, gone: set<Id>, t': Tables)
    requires Outcome(c, t, gone, t')
    ensures forall r :: r in t'.scans <==> r in t.scans && r.id !in gone
    ensures forall x :: x in t'.toolRuns <==> x in t.toolRuns && x.scan !in gone
    ensures forall e :: e in t'.evidence <==>
      e in t.evidence && forall x | x in t.toolRuns && x.scan in gone :: e.toolRun != Some(x.id)
  {
  }

  /** A report that stays is as it was, and marked if it was or if it cites a scan that went. */
  predicate StaysAs(r: Row, gone: set<Id>, m: Row) {
    && m == r.(scansPurged := m.scansPurged)
    && (m.scansPurged <==> r.scansPurged || exists id :: id in r.cites && id in gone)
  }

  lemma {:induction false} MarkedStaysAs(r: Row, gone: set<Id>, m: Row)
    ensures m == Marked(r, gone) <==> StaysAs(r, gone, m)
  {
    if r.cites * gone == {} {
      forall id | id in r.cites
        ensures id !in gone
      {
        assert id !in r.cites * gone;
      }
    } else {
      var id :| id in r.cites * gone;
    }
  }

  lemma {:induction false} ReportsAsWritten(c: Config, t: Tables, gone: set<Id>, t': Tables, m: Row)
    requires Outcome(c, t, gone, t')
    ensures m in t'.reports <==> exists r | r in t.reports :: r !in c.Taken(t.reports, Report) && StaysAs(r, gone, m)
  {
    var kept := t.reports - c.Taken(t.reports, Report);
    assert m in t'.reports <==> exists r :: r in kept && m == Marked(r, gone);
    forall r | r in kept
      ensures m == Marked(r, gone) <==> StaysAs(r, gone, m)
    {
      MarkedStaysAs(r, gone, m);
    }
  }

  /** Marking before the delete keeps every surviving report honest about its scans. */
  lemma {:induction false} ReportsStayHonest(c: Config, t: Tables, gone: set<Id>, t': Tables)
    requires Honest(t.reports, t.scans) && Outcome(c, t, gone, t')
    ensures Honest(t'.reports, t'.scans)
  {
    MarkedAreHonest(t.reports - c.Taken(t.reports, Report), t.scans, gone);
  }

  lemma {:induction false} MarkedAreHonest(reports: set<Row>, scans: set<Row>, gone: set<Id>)
    requires Honest(reports, scans)
    ensures Honest(MarkedReports(reports, gone), Without(scans, gone))
  {
    forall m | m in MarkedReports(reports, gone) && !m.scansPurged
      ensures m.cites <= Ids(Without(scans, gone))
    {
      var r :| r in reports && m == Marked(r, gone);
      forall id | id in m.cites
        ensures id in Ids(Without(scans, gone))
      {
        assert id !in r.cites * gone;
        var s :| s in scans && s.id == id;
        assert s in Without(scans, gone);
      }
    }
  }

  /** A run that is no dry run writes one audit row for each table it found anything eligible in. */
  lemma {:induction false} EntriesAsWritten(c: Config, t: Tables, r: Row)
    ensures r in Logged(c, t) <==>
      && !c.dryRun
      && (|| (r == c.events(Report) && exists x :: x in Eligible(t.reports, c.policies(Report)))
          || (r == c.events(Scan) && exists x :: x in Eligible(t.scans, c.policies(Scan)))
          || (r == c.events(AiUsage) && exists x :: x in Eligible(t.aiUsage, c.policies(AiUsage)))
          || (r == c.events(Notification) && exists x :: x in Eligible(t.notifications, c.policies(Notification)))
          || (r == c.events(RemediationEvent)
              && exists x :: x in Eligible(t.remediationEvents, c.policies(RemediationEvent)))
          || (r == c.events(RiskAssessment)
              && exists x :: x in Eligible(t.riskAssessments, c.policies(RiskAssessment))))
    ensures r in AuditEntry(c, t) <==>
      !c.dryRun && r == c.events(Audit) && exists x :: x in Eligible(t.audit + Logged(c, t), c.policies(Audit))
  {
  }

  /** What is counted: of each table the eligible rows as the sweep finds them, whatever was counted
      before. */
  lemma {:induction false} CountsAsWritten(c: Config, t: Tables, before: map<Resource, nat>)
    ensures var counts := HistoryCounted(c, t, OwnersCounted(c, t, before));
      && counts.Keys == before.Keys + {Report, Scan, AiUsage, Notification, RemediationEvent, RiskAssessment}
      && counts[Report] == |Eligible(t.reports, c.policies(Report))|
      && counts[Scan] == |Eligible(t.scans, c.policies(Scan))|
      && counts[AiUsage] == |Eligible(t.aiUsage, c.policies(AiUsage))|
      && counts[Notification] == |Eligible(t.notifications, c.policies(Notification))|
      && counts[RemediationEvent] == |Eligible(t.remediationEvents, c.policies(RemediationEvent))|
      && counts[RiskAssessment] == |Eligible(t.riskAssessments, c.policies(RiskAssessment))|
  {
  }

  /** An audit row written in a run, other than that of the audit pass itself, is pruned by the same
      run if and only if its stored time is before the audit cutoff, it is not among the newest
      audit rows, and fewer eligible ones are older than a batch holds. */
  lemma {:induction false} OwnEntryIsPrunedExactlyIfOld(c: Config, t: Tables, gone: set<Id>, t': Tables, e: Row)
    requires Outcome(c, t, gone, t') && e in Logged(c, t) && e !in AuditEntry(c, t)
    ensures var p := c.policies(Audit);
      var audit := AuditBefore(c, t);
      e !in t'.audit <==>
        && e.sweepable && e.ts.Some? && e.ts.value < p.cutoff
        && !Protected(audit, p.minKeep, e) && |OlderIn(Eligible(audit, p), e)| < p.batch
  {
    assert !c.dryRun;
  }

  /** So none is pruned while the clock that stamps the audit rows is behind the one the cutoff is
      taken from by no more than the window: on one clock never, even without a window. */
  lemma {:induction false} OwnEntriesSurviveWithinTheWindow(c: Config, t: Tables, gone: set<Id>, t': Tables, e: Row,
                                                            now: int, window: int, lag: nat)
    requires Outcome(c, t, gone, t') && e in Logged(c, t) + AuditEntry(c, t)
    requires c.policies(Audit).cutoff == Cutoff(now, window) && (lag == 0 || lag <= window)
    requires e.ts.Some? && e.ts.value >= now - lag
    ensures e in t'.audit
  {
    if e !in AuditEntry(c, t) {
      OwnEntryIsPrunedExactlyIfOld(c, t, gone, t', e);
    }
  }

  lemma {:induction false} OnlyRowIsTaken(r: Row, p: Policy)
    requires Eligible({r}, p) == {r} && p.batch > 0
    ensures Batch({r}, p) == {r}
  {
    assert OlderIn({r}, r) == {};
  }

  lemma {:induction false} EmptyTable(c: Config, resource: Resource)
    ensures c.Taken({}, resource) == {} && c.Entry({}, resource) == {}
  {
  }

  /** Of a workspace with one report, whatever its audit table, a sweep that takes it logs that
      alone. */
  lemma {:induction false} OnlyReportIsTaken(c: Config, report: Row, audit: set<Row>) returns (t: Tables, t': Tables)
    requires !c.dryRun && Eligible({report}, c.policies(Report)) == {report} && c.policies(Report).batch > 0
    ensures KeyedTables(t) && t.audit == audit && Ids(c.Taken(t.scans, Scan)) == {}
    ensures Logged(c, t) == {c.events(Report)} && Outcome(c, t, {}, t')
    ensures var a := {c.events(Report)} + audit; t'.audit == a - c.Taken(a, Audit) + c.Entry(a, Audit)
  {
    var a := {c.events(Report)} + audit;
    t := Tables({report}, {}, {}, {}, {}, {}, audit, {}, {});
    t' := Tables({}, {}, {}, {}, {}, {}, a - c.Taken(a, Audit) + c.Entry(a, Audit), {}, {});
    OnlyRowIsTaken(report, c.policies(Report));
    EmptyTable(c, Scan);
    EmptyTable(c, AiUsage);
    EmptyTable(c, Notification);
    EmptyTable(c, RemediationEvent);
    EmptyTable(c, RiskAssessment);
    assert AuditBefore(c, t) == a;
  }

  lemma {:induction false} EventsDiffer(c: Config, audit: set<Row>, x: Resource, y: Resource)
    requires EntriesAreFresh(c, audit) && x != y
    ensures c.events(x) != c.events(y) && c.events(x) !in audit
  {
  }

  /** What the last pass takes of the only two rows, or the one, that it may take. */
  lemma {:induction false} OlderOfTwoIsTaken(e: Row, r: Row, p: Policy)
    requires e.sweepable && r.sweepable && Newer(e, r) && e.id != r.id
    requires p.minKeep == 1 && p.batch > 0 && r.ts.Some? && r.ts.value < p.cutoff
    ensures Batch({e, r}, p) == {r}
  {
    assert NewerThan({e, r}, r) == {e} && NewerThan({e, r}, e) == {};
    assert Eligible({e, r}, p) == {r};
    assert OlderIn({r}, r) == {};
  }

  lemma {:induction false} OldRowIsTaken(r: Row, p: Policy)
    requires r.sweepable && r.ts.Some? && r.ts.value < p.cutoff && p.minKeep == 0 && p.batch > 0
    ensures Batch({r}, p) == {r}
  {
    assert NewerThan({r}, r) == {};
    assert Eligible({r}, p) == {r};
    OnlyRowIsTaken(r, p);
  }

  /** With any greater lag, and nothing protected, one is: a run that purges one report and stamps
      the audit row of it that far behind. */
  lemma {:induction false} LaggingClockPrunesAnOwnEntry(c: Config, report: Row, now: int, window: int, lag: nat)
    returns (t: Tables, t': Tables)
    requires !c.dryRun && Eligible({report}, c.policies(Report)) == {report} && c.policies(Report).batch > 0
    requires var p := c.policies(Audit); p.cutoff == Cutoff(now, window) && p.minKeep == 0 && p.batch > 0
    requires var e := c.events(Report); e.sweepable && e.ts == Some(now - lag)
    requires lag > 0 && lag > window && EntriesAreFresh(c, {})
    ensures KeyedTables(t) && EntriesAreFresh(c, t.audit) && Ids(c.Taken(t.scans, Scan)) == {}
    ensures Outcome(c, t, {}, t') && c.events(Report) in Logged(c, t) && c.events(Report) !in t'.audit
  {
    var e := c.events(Report);
    t, t' := OnlyReportIsTaken(c, report, {});
    EventsDiffer(c, {}, Report, Audit);
    OldRowIsTaken(e, c.policies(Audit));
    assert {e} + {} == {e};
  }

  /** No sweep takes a row that is among its table's newest; of the audit table, the newest when the
      run's own rows are already there. */
  lemma {:induction false} ProtectedRowsStay(c: Config, t: Tables, gone: set<Id>, t': Tables, r: Row)
    requires Outcome(c, t, gone, t') && gone == Ids(c.Taken(t.scans, Scan)) && Keyed(t.scans)
    ensures r in t.scans && Protected(t.scans, c.policies(Scan).minKeep, r) ==> r in t'.scans
    ensures r in t.reports && Protected(t.reports, c.policies(Report).minKeep, r) ==> Marked(r, gone) in t'.reports
    ensures r in t.aiUsage && Protected(t.aiUsage, c.policies(AiUsage).minKeep, r) ==> r in t'.aiUsage
    ensures r in t.notifications && Protected(t.notifications, c.policies(Notification).minKeep, r) ==>
      r in t'.notifications
    ensures r in t.remediationEvents && Protected(t.remediationEvents, c.policies(RemediationEvent).minKeep, r) ==>
      r in t'.remediationEvents
    ensures r in t.riskAssessments && Protected(t.riskAssessments, c.policies(RiskAssessment).minKeep, r) ==>
      r in t'.riskAssessments
    ensures r in AuditBefore(c, t) && Protected(AuditBefore(c, t), c.policies(Audit).minKeep, r) ==> r in t'.audit
  {
  }

  /** An entry is one row at most. */
  lemma {:induction false} LoggedAtMostSix(c: Config, t: Tables)
    ensures |Logged(c, t)| <= 6
  {
    var all := {c.events(Report), c.events(Scan), c.events(AiUsage), c.events(Notification),
                c.events(RemediationEvent), c.events(RiskAssessment)};
    SubsetSize(Logged(c, t), all);
  }

  /** An audit row keeps its place among the newest exactly if the newer ones the run writes, six at
      most, leave it there. */
  lemma {:induction false} OwnEntriesTakePlaces(c: Config, t: Tables, minKeep: nat, r: Row)
    requires EntriesAreFresh(c, t.audit)
    ensures Protected(AuditBefore(c, t), minKeep, r) <==>
            |NewerThan(t.audit, r)| + |NewerThan(Logged(c, t), r)| < minKeep
    ensures |NewerThan(Logged(c, t), r)| <= 6
  {
    EntriesAreEvents(c, t);
    forall e | e in Logged(c, t)
      ensures e !in t.audit
    {
      var x :| e == c.events(x);
    }
    assert NewerThan(AuditBefore(c, t), r) == NewerThan(t.audit, r) + NewerThan(Logged(c, t), r);
    assert NewerThan(t.audit, r) * NewerThan(Logged(c, t), r) == {};
    LoggedAtMostSix(c, t);
    SubsetSize(NewerThan(Logged(c, t), r), Logged(c, t));
  }

  lemma {:induction false} NewerEntryDisplaces(c: Config, report: Row, r: Row) returns (t: Tables, t': Tables)
    requires !c.dryRun && Eligible({report}, c.policies(Report)) == {report} && c.policies(Report).batch > 0
    requires var p := c.policies(Audit);
      p.minKeep == 1 && p.batch > 0 && r.sweepable && r.ts.Some? && r.ts.value < p.cutoff
    requires c.events(Report).id != r.id && c.events(Audit) != r
    requires c.events(Report).sweepable && Newer(c.events(Report), r)
    ensures KeyedTables(t) && t.audit == {r}
    ensures Ids(c.Taken(t.scans, Scan)) == {} && Outcome(c, t, {}, t') && r !in t'.audit
  {
    var e := c.events(Report);
    t, t' := OnlyReportIsTaken(c, report, {r});
    OlderOfTwoIsTaken(e, r, c.policies(Audit));
    assert {e} + {r} == {e, r};
  }

  /** So the newest audit row can go: one is kept, it is the only one, and the run writes a newer
      one for the report it purges. */
  lemma {:induction false} NewestAuditRowCanGo(c: Config, report: Row, r: Row) returns (t: Tables, t': Tables)
    requires !c.dryRun && Eligible({report}, c.policies(Report)) == {report} && c.policies(Report).batch > 0
    requires var p := c.policies(Audit);
      p.minKeep == 1 && p.batch > 0 && r.sweepable && r.ts.Some? && r.ts.value < p.cutoff
    requires EntriesAreFresh(c, {r}) && c.events(Report).sweepable && Newer(c.events(Report), r)
    ensures KeyedTables(t) && t.audit == {r} && Protected(t.audit, c.policies(Audit).minKeep, r)
    ensures Ids(c.Taken(t.scans, Scan)) == {} && Outcome(c, t, {}, t') && r !in t'.audit
  {
    t, t' := NewerEntryDisplaces(c, report, r);
    AloneIsNewest(r);
  }

  lemma {:induction false} AloneIsNewest(r: Row)
    ensures Protected({r}, 1, r)
  {
    assert NewerThan({r}, r) == {};
  }
}
