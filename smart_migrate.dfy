/** The deployment migration script backend/scripts/smart_migrate.py: it inspects the
    database and decides which Alembic revision to stamp before upgrading to head. The
    database is a value here: its tables with their column names, and the outcome of the
    query on `alembic_version`. */
module SmartMigrate {
  import opened Wrappers

  /** Table name to its column names. */
  type Schema = map<string, set<string>>

  /** What `SELECT version_num FROM alembic_version` gives: an error (no such table, say)
      or the rows it returned, in order. */
  datatype VersionQuery = QueryFailed | Rows(rows: seq<string>)

  /** An Alembic command issued by the script. */
  datatype Action = Stamp(revision: string) | Upgrade(target: string)

  const Head: string := "head"
  const InitialRevision: string := "4a1f8d35ed63"
  const MessagesRevision: string := "3678a1f70779"
  const FullTextRevision: string := "b3886618479c"

  predicate TableExists(db: Schema, table: string) {
    table in db
  }

  /** `check_column_exists`: false when the table is missing, else membership. */
  function ColumnExists(db: Schema, table: string, column: string): (r: bool)
    ensures r <==> table in db && column in db[table]
    ensures !TableExists(db, table) ==> !r
  {
    if !TableExists(db, table) then false else column in db[table]
  }

  /** `get_current_alembic_version`: the first row's revision; `None` with no row or when
      the query fails. */
  function CurrentVersion(q: VersionQuery): (r: Option<string>)
    ensures r.None? <==> q.QueryFailed? || q.rows == []
    ensures r.Some? ==> r.value == q.rows[0]
  {
    match q
    case QueryFailed => None
    case Rows(rows) => if rows == [] then None else Some(rows[0])
  }

  /** `smart_migrate`: the commands it issues, in order. */
  function Plan(db: Schema, q: VersionQuery): seq<Action> {
    var users := TableExists(db, "users");
    var drafts := TableExists(db, "patent_drafts");
    var messages := TableExists(db, "messages");
    var fullText := ColumnExists(db, "patent_drafts", "full_text");
    var selectedText := ColumnExists(db, "comments", "selected_text");
    if CurrentVersion(q).None? then
      if users && drafts then
        if messages && fullText && selectedText then [Stamp(Head)]
        else if messages && fullText then [Stamp(FullTextRevision), Upgrade(Head)]
        else if messages then [Stamp(MessagesRevision), Upgrade(Head)]
        else [Stamp(InitialRevision), Upgrade(Head)]
      else [Upgrade(Head)]
    else [Upgrade(Head)]
  }

  /** Tables exist but no version is recorded: the case where the script stamps. */
  predicate Unversioned(db: Schema, q: VersionQuery) {
    CurrentVersion(q).None? && "users" in db && "patent_drafts" in db
  }

  /** The revision the script infers from the tables and columns it finds. */
  function InferredRevision(db: Schema): string {
    if "messages" in db && ColumnExists(db, "patent_drafts", "full_text") then
      if ColumnExists(db, "comments", "selected_text") then Head else FullTextRevision
    else if "messages" in db then MessagesRevision
    else InitialRevision
  }

  /** The decision table: a recorded version, or a database without the base tables, is
      simply upgraded; otherwise the inferred revision is stamped, followed by an upgrade
      unless it is already head. */
  lemma PlanCases(db: Schema, q: VersionQuery)
    ensures CurrentVersion(q).Some? ==> Plan(db, q) == [Upgrade(Head)]
    ensures CurrentVersion(q).None? && !("users" in db && "patent_drafts" in db) ==> Plan(db, q) == [Upgrade(Head)]
    ensures Unversioned(db, q) && InferredRevision(db) == Head ==> Plan(db, q) == [Stamp(Head)]
    ensures Unversioned(db, q) && InferredRevision(db) != Head
      ==> Plan(db, q) == [Stamp(InferredRevision(db)), Upgrade(Head)]
  {
  }

  /** The stamped revision follows the columns found: head only with messages, full_text
      and selected_text all present; missing messages always means the initial revision. */
  lemma InferredRevisionCases(db: Schema)
    ensures InferredRevision(db) == Head <==>
      "messages" in db && ColumnExists(db, "patent_drafts", "full_text") && ColumnExists(db, "comments", "selected_text")
    ensures "messages" !in db ==> InferredRevision(db) == InitialRevision
    ensures "messages" in db && !ColumnExists(db, "patent_drafts", "full_text") ==> InferredRevision(db) == MessagesRevision
  {
  }

  /** The recorded revision after a command; `upgrade head` reaches head whatever the start. */
  function Apply(version: Option<string>, a: Action): Option<string> {
    match a
    case Stamp(rev) => Some(rev)
    case Upgrade(target) => Some(target)
  }

  function Run(version: Option<string>, actions: seq<Action>): Option<string>
    decreases |actions|
  {
    if actions == [] then version else Run(Apply(version, actions[0]), actions[1..])
  }

  /** Whichever branch is taken, the plan is one or two commands, a stamp can only come
      first, and running it leaves the database recorded at head. */
  lemma PlanEndsAtHead(db: Schema, q: VersionQuery)
    ensures 1 <= |Plan(db, q)| <= 2
    ensures Plan(db, q)[|Plan(db, q)| - 1] in {Stamp(Head), Upgrade(Head)}
    ensures forall i :: 1 <= i < |Plan(db, q)| ==> Plan(db, q)[i].Upgrade?
    ensures Run(CurrentVersion(q), Plan(db, q)) == Some(Head)
  {
    var p := Plan(db, q);
    var v := CurrentVersion(q);
    if |p| == 1 {
      assert Run(v, p) == Run(Apply(v, p[0]), []);
    } else {
      assert p[1..] == [p[1]] && [p[1]][1..] == [];
      assert Run(v, p) == Run(Apply(Apply(v, p[0]), p[1]), []);
    }
  }
}
