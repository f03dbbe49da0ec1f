/** The committed snapshot that a folder move writes into its journal ahead of
    time, against the tables that the row-by-row deletion and move leave. */
module PrefixPrediction {
  import opened Wrappers
  import opened Documents
  import opened MetadataTables
  import opened MetadataVersion
  import opened PrefixPlanning
  import opened PrefixDeletion
  import opened PrefixMove

  /** A graph as a journal holds it: migration rows are a set of rows. */
  datatype Snapshot = Snapshot(documents: map<DocId, Document>, migrations: set<(Path, Migration)>,
                               associations: set<(DocId, int)>, embeddings: map<DocId, string>)

  function SnapshotOf(g: Graph): Snapshot {
    Snapshot(g.documents, set k | k in g.migrations :: (k, g.migrations[k]), g.associations, g.embeddings)
  }

  function DerivedRow(g: Graph, gone: set<DocId>, k: Path, from: Path, to: Path, timestamp: nat): (Path, Migration)
    requires k in g.migrations && gone <= g.documents.Keys
  {
    var m := g.migrations[k];
    if m.documentId.Some? && m.documentId.value in gone && g.documents[m.documentId.value].path == k then
      (Tombstone(m.documentId.value), Buried(k, m, timestamp))
    else
      var original := if m.original == "" then "" else Move(m.original, from, to);
      if Move(k, from, to) == k && original == m.original then (k, Detached(m, gone))
      else (Move(k, from, to), Detached(m, gone).(original := original, updatedAt := timestamp))
  }

  /** The prediction, from the prepared graph alone. */
  function DeriveCommittedPrefixSnapshot(g: Graph, from: Path, to: Path, timestamp: nat): Snapshot {
    var gone := Doomed(g.documents, to);
    Snapshot(map id | id in g.documents && id !in gone :: MovedDocument(g.documents[id], from, to, timestamp),
             AllDerived(g, from, to, timestamp),
             set a | a in g.associations && a.0 !in gone,
             map id | id in g.embeddings && id !in gone :: g.embeddings[id])
  }

  /** The migration row at the path of a document that the move replaces names
      that document, and the original path it keeps is not below the source. */
  predicate Predictable(g: Graph, from: Path, to: Path) {
    forall id | id in Doomed(g.documents, to) && g.documents[id].path in g.migrations ::
      RowIsPredictable(g.documents[id].path, g.migrations[g.documents[id].path], id, from)
  }

  predicate RowIsPredictable(k: Path, m: Migration, id: DocId, from: Path) {
    m.documentId == Some(id) && !Within(if m.original == "" then k else m.original, from)
  }

  /** The graph after everything below `from` moved to `to`. */
  ghost predicate Moved(was: Graph, now: Graph, from: Path, to: Path, timestamp: nat) {
    && now.documents == MovedDocuments(was.documents, from, to, timestamp)
    && MigrationsMoved(was.migrations, now.migrations, from, to, timestamp)
    && now.associations == was.associations && now.embeddings == was.embeddings
  }

  /** What the deletion and then the move make of the row at `k`. */
  ghost function ActualRow(g: Graph, gone: set<DocId>, k: Path, from: Path, to: Path, timestamp: nat): (Path, Migration)
    requires k in g.migrations
  {
    var grave := Graves(g.migrations, g.documents, gone)[k];
    var row := DetachedRows(Remains(g.migrations, g.documents, gone, timestamp), gone)[k];
    (Move(grave, from, to), MovedMigration(grave, row, from, to, timestamp))
  }

  lemma TracksThenMoves(at: map<Path, Path>, rows: map<Path, Migration>, mid: map<Path, Migration>,
                        end: map<Path, Migration>,
                        from: Path, to: Path, timestamp: nat)
    requires Tracks(at, rows, mid) && MigrationsMoved(mid, end, from, to, timestamp)
    ensures (set k | k in end :: (k, end[k]))
            == set k | k in at :: (Move(at[k], from, to), MovedMigration(at[k], rows[k], from, to, timestamp))
  {
    hide Move, MovedMigration;
    forall k | k in at
      ensures (Move(at[k], from, to), MovedMigration(at[k], rows[k], from, to, timestamp)) in set k | k in end ::
                (k, end[k])
    {
      assert at[k] in at.Values && mid[at[k]] == rows[k];
    }
    forall q | q in end
      ensures exists k ::
                k in at && (q, end[q]) == (Move(at[k], from, to), MovedMigration(at[k], rows[k], from, to, timestamp))
    {
      var p :| p in mid && Move(p, from, to) == q;
      var k :| k in at && at[k] == p;
    }
  }

  lemma ActualRows(g: Graph, mid: Graph, end: Graph, from: Path, to: Path, timestamp: nat)
    requires Deleted(g, mid, to, timestamp) && Moved(mid, end, from, to, timestamp)
    ensures SnapshotOf(end).migrations == AllActual(g, from, to, timestamp)
  {
    var gone := Doomed(g.documents, to);
    var at := Graves(g.migrations, g.documents, gone);
    var rows := DetachedRows(Remains(g.migrations, g.documents, gone, timestamp), gone);
    TracksThenMoves(at, rows, mid.migrations, end.migrations, from, to, timestamp);
    assert at.Keys == g.migrations.Keys;
    hide Deleted, Moved, Tracks, MigrationsMoved, Move, MovedMigration, Graves, Remains, Doomed, DetachedRows;
  }

  /** A row of no replaced document is predicted as it comes out; the row of a
      replaced one exactly if it is predictable. */
  lemma RowPrediction(g: Graph, k: Path, from: Path, to: Path, timestamp: nat)
    requires UniquePaths(g.documents) && IsVaultPath(from) && IsVaultPath(to) && from != to
    requires k in g.migrations
    ensures var gone := Doomed(g.documents, to);
            var actual, derived := ActualRow(g, gone, k, from, to, timestamp),
                DerivedRow(g, gone, k, from, to, timestamp);
            if Orphaned(g.documents, gone, k) then
              var id, m := OwnerOf(g.documents, gone, k), g.migrations[k];
              && actual.0 == Tombstone(id)
              && (actual == derived <==> RowIsPredictable(k, m, id, from))
            else
              actual == derived
  {
    var gone, m := Doomed(g.documents, to), g.migrations[k];
    MovesIffWithin(k, from, to);
    MovesIffWithin(m.original, from, to);
    MovesIffWithin(Buried(k, m, timestamp).original, from, to);
    if Orphaned(g.documents, gone, k) {
      var id := OwnerOf(g.documents, gone, k);
      NotATombstone(k, to);
      assert Tombstone(id)[0] == '@';
      assert Move(k, from, to)[0] != '@';
    }
  }

  /** Nothing else is predicted at the tombstone of an unpredictable row. */
  lemma Unpredicted(g: Graph, mid: Graph, id: DocId, from: Path, to: Path, timestamp: nat)
    requires UniquePaths(g.documents) && IsVaultPath(from) && IsVaultPath(to) && from != to
    requires Deleted(g, mid, to, timestamp)
    requires id in Doomed(g.documents, to) && g.documents[id].path in g.migrations
    requires var k := g.documents[id].path; !RowIsPredictable(k, g.migrations[k], id, from)
    ensures var gone, k := Doomed(g.documents, to), g.documents[id].path;
            ActualRow(g, gone, k, from, to, timestamp) !in AllDerived(g, from, to, timestamp)
  {
    var gone, k := Doomed(g.documents, to), g.documents[id].path;
    assert Orphaned(g.documents, gone, k) && OwnerOf(g.documents, gone, k) == id;
    RowPrediction(g, k, from, to, timestamp);
    var at := Graves(g.migrations, g.documents, gone);
    assert at[k] == Tombstone(id);
    forall j | j in g.migrations
      ensures DerivedRow(g, gone, j, from, to, timestamp) != ActualRow(g, gone, k, from, to, timestamp)
    {
      RowPrediction(g, j, from, to, timestamp);
      if Orphaned(g.documents, gone, j) {
        NotATombstone(j, to);
        if DerivedRow(g, gone, j, from, to, timestamp).0 == Tombstone(id) {
          DerivedTombstone(g, gone, j, id, from, to, timestamp);
        }
      } else {
        OnlyFromTombstone(at[j], id, from, to);
        assert j != k;
      }
    }
  }

  lemma OnlyFromTombstone(p: Path, id: DocId, from: Path, to: Path)
    requires IsVaultPath(to) && p != Tombstone(id)
    ensures Move(p, from, to) != Tombstone(id)
  {
    assert Tombstone(id)[0] == '@';
  }

  lemma DerivedTombstone(g: Graph, gone: set<DocId>, j: Path, id: DocId, from: Path, to: Path, timestamp: nat)
    requires gone <= g.documents.Keys && id in gone && j in g.migrations && IsVaultPath(j) && IsVaultPath(to)
    requires DerivedRow(g, gone, j, from, to, timestamp).0 == Tombstone(id)
    ensures g.documents[id].path == j
  {
    assert Tombstone(id)[0] == '@';
    var m := g.migrations[j];
    if m.documentId.Some? && Tombstone(m.documentId.value) == Tombstone(id) {
      TombstonesDiffer(m.documentId.value, id);
    }
  }

  /** Documents, associations and embeddings come out as predicted. */
  lemma OthersPredicted(g: Graph, mid: Graph, end: Graph, from: Path, to: Path, timestamp: nat)
    requires Deleted(g, mid, to, timestamp) && Moved(mid, end, from, to, timestamp)
    ensures DeriveCommittedPrefixSnapshot(g, from, to, timestamp)
            == SnapshotOf(end).(migrations := DeriveCommittedPrefixSnapshot(g, from, to, timestamp).migrations)
  {
    hide Tracks, MovedDocument, Graves, MigrationsMoved, DerivedRow, Within;
  }

  lemma AllPredicted(g: Graph, from: Path, to: Path, timestamp: nat)
    requires UniquePaths(g.documents) && IsVaultPath(from) && IsVaultPath(to) && from != to && Predictable(g, from, to)
    ensures var gone := Doomed(g.documents, to);
            forall k | k in g.migrations ::
              ActualRow(g, gone, k, from, to, timestamp) == DerivedRow(g, gone, k, from, to, timestamp)
  {
    forall k | k in g.migrations
      ensures ActualRow(g, Doomed(g.documents, to), k, from, to, timestamp)
              == DerivedRow(g, Doomed(g.documents, to), k, from, to, timestamp)
    {
      RowPrediction(g, k, from, to, timestamp);
    }
  }

  /** The runtime comparison of the committed tables with the prediction
      succeeds exactly on predictable graphs. */
  lemma PredictionIsExact(g: Graph, mid: Graph, end: Graph, from: Path, to: Path, timestamp: nat)
    requires UniquePaths(g.documents) && IsVaultPath(from) && IsVaultPath(to) && from != to
    requires Deleted(g, mid, to, timestamp) && Moved(mid, end, from, to, timestamp)
    ensures SnapshotOf(end) == DeriveCommittedPrefixSnapshot(g, from, to, timestamp) <==> Predictable(g, from, to)
  {
    OthersPredicted(g, mid, end, from, to, timestamp);
    RowsPredictedIff(g, mid, end, from, to, timestamp);
    hide Deleted, Moved, Predictable, DeriveCommittedPrefixSnapshot;
  }

  /** The migration rows that come out. */
  ghost function AllActual(g: Graph, from: Path, to: Path, timestamp: nat): set<(Path, Migration)> {
    set k | k in g.migrations :: ActualRow(g, Doomed(g.documents, to), k, from, to, timestamp)
  }

  /** The migration rows that are predicted. */
  function AllDerived(g: Graph, from: Path, to: Path, timestamp: nat): set<(Path, Migration)> {
    set k | k in g.migrations :: DerivedRow(g, Doomed(g.documents, to), k, from, to, timestamp)
  }

  lemma RowsPredicted(g: Graph, from: Path, to: Path, timestamp: nat)
    requires UniquePaths(g.documents) && IsVaultPath(from) && IsVaultPath(to) && from != to && Predictable(g, from, to)
    ensures AllActual(g, from, to, timestamp) == AllDerived(g, from, to, timestamp)
  {
    AllPredicted(g, from, to, timestamp);
    hide ActualRow, DerivedRow, Doomed, UniquePaths, Predictable;
  }

  lemma RowsMispredicted(g: Graph, mid: Graph, from: Path, to: Path, timestamp: nat)
    requires UniquePaths(g.documents) && IsVaultPath(from) && IsVaultPath(to) && from != to && !Predictable(g, from, to)
    requires Deleted(g, mid, to, timestamp)
    ensures AllActual(g, from, to, timestamp) != AllDerived(g, from, to, timestamp)
  {
    var gone := Doomed(g.documents, to);
    var id :| id in gone && g.documents[id].path in g.migrations
        && !RowIsPredictable(g.documents[id].path, g.migrations[g.documents[id].path], id, from);
    Unpredicted(g, mid, id, from, to, timestamp);
    hide Deleted, ActualRow, DerivedRow, UniquePaths;
    assert ActualRow(g, gone, g.documents[id].path, from, to, timestamp) in AllActual(g, from, to, timestamp);
  }

  lemma RowsPredictedIff(g: Graph, mid: Graph, end: Graph, from: Path, to: Path, timestamp: nat)
    requires UniquePaths(g.documents) && IsVaultPath(from) && IsVaultPath(to) && from != to
    requires Deleted(g, mid, to, timestamp) && Moved(mid, end, from, to, timestamp)
    ensures SnapshotOf(end).migrations == DeriveCommittedPrefixSnapshot(g, from, to, timestamp).migrations <==>
              Predictable(g, from, to)
  {
    ActualRows(g, mid, end, from, to, timestamp);
    if Predictable(g, from, to) {
      RowsPredicted(g, from, to, timestamp);
    } else {
      RowsMispredicted(g, mid, from, to, timestamp);
    }
    hide Deleted, Moved, DerivedRow, ActualRow, UniquePaths, Predictable;
  }

  /** The predicted documents: those at the destination are gone with what they
      own, those below the source are moved, the others are as they are. */
  lemma PredictedDocuments(g: Graph, from: Path, to: Path, timestamp: nat, id: DocId)
    requires id in g.documents
    ensures var committed := DeriveCommittedPrefixSnapshot(g, from, to, timestamp);
            var d, replaced := g.documents[id], Within(g.documents[id].path, to);
            && (id in committed.documents <==> !replaced)
            && (!replaced ==>
                  && committed.documents[id].path == Move(d.path, from, to) && committed.documents[id].body == d.body
                  && committed.documents[id].updatedAt == if Within(d.path, from) then timestamp else d.updatedAt)
            && (id in committed.embeddings <==> id in g.embeddings && !replaced)
            && forall t :: (id, t) in committed.associations <==> (id, t) in g.associations && !replaced
  {
  }

  /** The predicted migration rows: a row at a replaced document's path that names
      it becomes its tombstone, every other one goes to its moved path and loses
      nothing but a replaced document. */
  lemma PredictedRow(g: Graph, from: Path, to: Path, timestamp: nat, k: Path)
    requires k in g.migrations
    ensures var committed, m := DeriveCommittedPrefixSnapshot(g, from, to, timestamp), g.migrations[k];
            var replaced := m.documentId.Some? && m.documentId.value in g.documents
                            && Within(g.documents[m.documentId.value].path, to);
            if replaced && g.documents[m.documentId.value].path == k then
              ("@deleted/" + m.documentId.value,
               Migration(None, if m.original == "" then k else m.original, "orphaned",
                         timestamp)) in committed.migrations
            else
              exists row :: (Move(k, from, to), row) in committed.migrations
                && row.documentId == (if replaced then None else m.documentId) && row.status == m.status
                && row.original == (if m.original == "" then "" else Move(m.original, from, to))
                && row.updatedAt == if Move(k, from, to) == k && row.original == m.original then m.updatedAt
                     else timestamp
  {
    var gone := Doomed(g.documents, to);
    var row := DerivedRow(g, gone, k, from, to, timestamp);
    assert row in AllDerived(g, from, to, timestamp);
    assert row == (row.0, row.1);
    hide Move, Within;
  }

  /** Once committed, a row that names a document which is not replaced still
      names it, at its moved path. */
  lemma RowsStillName(prepared: Graph, now: Graph, from: Path, to: Path, timestamp: nat, k: Path)
    requires SnapshotOf(now) == DeriveCommittedPrefixSnapshot(prepared, from, to, timestamp)
    requires k in prepared.migrations && prepared.migrations[k].documentId.Some?
    requires var id := prepared.migrations[k].documentId.value;
             id in prepared.documents && !Within(prepared.documents[id].path, to)
    ensures Move(k, from, to) in now.migrations
    ensures now.migrations[Move(k, from, to)].documentId == prepared.migrations[k].documentId
  {
    PredictedRow(prepared, from, to, timestamp, k);
    var row :| (Move(k, from, to), row) in DeriveCommittedPrefixSnapshot(prepared, from, to, timestamp).migrations
      && row.documentId == prepared.migrations[k].documentId;
    assert (Move(k, from, to), row) in SnapshotOf(now).migrations;
  }

  /** One replaced document whose migration row does not name it. */
  function UnownedRow(): Graph {
    Graph(map["d" := Document("b/x", "", 1)], map["b/x" := Migration(None, "", "legacy", 1)], {}, map[])
  }

  /** Moving "a" over "b" there ends in the runtime mismatch: the deletion takes
      the row by its path, the prediction by its document. */
  lemma UnownedRowIsMispredicted(mid: Graph, end: Graph, timestamp: nat)
    requires Deleted(UnownedRow(), mid, "b", timestamp) && Moved(mid, end, "a", "b", timestamp)
    ensures SnapshotOf(end) != DeriveCommittedPrefixSnapshot(UnownedRow(), "a", "b", timestamp)
  {
    assert "b" + "/" <= "b/x";
    assert "d" in Doomed(UnownedRow().documents, "b")
           && !RowIsPredictable("b/x", UnownedRow().migrations["b/x"], "d", "a");
    PredictionIsExact(UnownedRow(), mid, end, "a", "b", timestamp);
  }

  /** What the deletion leaves of it, in which the move finds nothing to do. */
  function UnownedRowBuried(timestamp: nat): Graph {
    Graph(map[], map["@deleted/d" := Migration(None, "b/x", "orphaned", timestamp)], {}, map[])
  }

  /** The tables do come to that: the mismatch is reached. */
  lemma UnownedRowHappens(timestamp: nat)
    ensures var end := UnownedRowBuried(timestamp);
            && UniquePaths(UnownedRow().documents)
            && TombstonesFree(UnownedRow().documents, UnownedRow().migrations, "b")
            && Deleted(UnownedRow(), end, "b", timestamp) && Moved(end, end, "a", "b", timestamp)
            && SnapshotOf(end) != DeriveCommittedPrefixSnapshot(UnownedRow(), "a", "b", timestamp)
  {
    UnownedRowGrave(timestamp);
    NothingBelowA(timestamp);
    UnownedRowIsMispredicted(UnownedRowBuried(timestamp), UnownedRowBuried(timestamp), timestamp);
    UnownedRowIsFree();
    hide Deleted, Moved, DeriveCommittedPrefixSnapshot, TombstonesFree, UniquePaths, SnapshotOf;
  }

  lemma UnownedRowIsFree()
    ensures UniquePaths(UnownedRow().documents) && TombstonesFree(UnownedRow().documents, UnownedRow().migrations, "b")
  {
    forall id
      ensures Tombstone(id) != "b/x"
    {
      assert Tombstone(id)[0] == '@';
    }
  }

  lemma NothingBelowA(timestamp: nat)
    ensures Moved(UnownedRowBuried(timestamp), UnownedRowBuried(timestamp), "a", "b", timestamp)
  {
    var end := UnownedRowBuried(timestamp);
    NotWithin("@deleted/d", "a");
    NotWithin("b/x", "a");
    assert end.migrations.Keys == {"@deleted/d"};
    assert MovedDocuments(end.documents, "a", "b", timestamp) == end.documents;
  }

  lemma NotWithin(p: Path, prefix: Path)
    requires p != "" && prefix != "" && p[0] != prefix[0]
    ensures !Within(p, prefix)
  {
    assert (prefix + "/")[0] == prefix[0];
  }

  lemma UnownedRowGrave(timestamp: nat)
    ensures Deleted(UnownedRow(), UnownedRowBuried(timestamp), "b", timestamp)
  {
    var was, end := UnownedRow(), UnownedRowBuried(timestamp);
    var gone := Doomed(was.documents, "b");
    assert "b" + "/" <= "b/x";
    assert gone == {"d"};
    assert "d" in gone && Orphaned(was.documents, gone, "b/x");
    assert OwnerOf(was.documents, gone, "b/x") == "d";
    var at := Graves(was.migrations, was.documents, gone);
    assert Tombstone("d") == "@deleted/d";
    assert at.Keys == {"b/x"} && at["b/x"] == "@deleted/d";
    assert at["b/x"] in at.Values && forall v | v in at.Values :: v == "@deleted/d";
    assert end.migrations.Keys == at.Values;
  }

  datatype Transition = AlreadyCommitted | CommittedNow | Conflict

  lemma FreshAfterDelete(was: Graph, mid: Graph, uuid: string, from: Path, to: Path, timestamp: nat)
    requires IsVaultPath(to) && Deleted(was, mid, to, timestamp)
    requires forall k | k in was.migrations :: !Within(k, "@moving/" + uuid)
    ensures Fresh("@moving/" + uuid, mid.migrations, from, to)
  {
    var at := Graves(was.migrations, was.documents, Doomed(was.documents, to));
    forall p | p in mid.migrations
      ensures !Within(p, "@moving/" + uuid) && !Within(Move(p, from, to), "@moving/" + uuid)
    {
      var k :| k in at && at[k] == p;
      OutsideMoving(uuid, p, from, to);
    }
  }

  lemma OutsideMoving(uuid: string, p: Path, from: Path, to: Path)
    requires IsVaultPath(to)
    ensures Within(p, "@moving/" + uuid) ==> forall id :: Tombstone(id) != p
    ensures !Within(p, "@moving/" + uuid) ==> !Within(Move(p, from, to), "@moving/" + uuid)
  {
    assert ("@moving/" + uuid)[0] == '@' && ("@moving/" + uuid)[1] == 'm';
    if Within(p, "@moving/" + uuid) {
      forall id
        ensures Tombstone(id) != p
      {
        assert Tombstone(id)[1] == 'd';
      }
    }
  }

  /** The prepared tables allow deletion and move: no tombstone path is taken,
      the destination is neither the source nor below it, and no migration row
      that outlives the deletion is where another one would go. */
  predicate Movable(g: Graph, from: Path, to: Path) {
    var gone := Doomed(g.documents, to);
    && TombstonesFree(g.documents, g.migrations, to) && from != to && !Within(to, from)
    && forall k | k in g.migrations && Within(k, from) && !Orphaned(g.documents, gone, k) ::
         Move(k, from, to) in g.migrations && !Orphaned(g.documents, gone, Move(k, from, to)) ==>
             Within(Move(k, from, to), from)
  }

  /** The deletion takes a migration row away from a vault path exactly if it is
      that of a deleted document. */
  lemma RowsLeft(was: Graph, mid: Graph, to: Path, timestamp: nat, k: Path)
    requires Deleted(was, mid, to, timestamp) && IsVaultPath(k)
    ensures k in mid.migrations <==> k in was.migrations && !Orphaned(was.documents, Doomed(was.documents, to), k)
  {
    var gone := Doomed(was.documents, to);
    var at := Graves(was.migrations, was.documents, gone);
    assert forall id :: Tombstone(id)[0] == '@';
    if k in mid.migrations {
      var j :| j in at && at[j] == k;
    }
    if k in was.migrations && !Orphaned(was.documents, gone, k) {
      assert at[k] == k && k in at.Values;
    }
  }

  lemma TombstonesFirst(g: Graph, from: Path, to: Path)
    ensures Movable(g, from, to) ==> TombstonesFree(g.documents, g.migrations, to)
  {
  }

  /** After the deletion the move's guards come to what can be said before. */
  lemma MovableIff(was: Graph, mid: Graph, from: Path, to: Path, timestamp: nat)
    requires IsVaultPath(from) && IsVaultPath(to) && Deleted(was, mid, to, timestamp)
    requires TombstonesFree(was.documents, was.migrations, to)
    ensures DocumentsFit(mid.documents, from, to)
    ensures Movable(was, from, to) <==> from != to && !Within(to, from) && MigrationsFit(mid.migrations, from, to)
  {
    DocumentsFitAfter(was, mid, from, to, timestamp);
    forall k | Within(k, from)
      ensures k in mid.migrations <==> k in was.migrations && !Orphaned(was.documents, Doomed(was.documents, to), k)
      ensures var q := Move(k, from, to);
              q in mid.migrations <==> q in was.migrations && !Orphaned(was.documents, Doomed(was.documents, to), q)
    {
      assert k[0] == from[0] && Move(k, from, to)[0] == to[0];
      RowsLeft(was, mid, to, timestamp, k);
      RowsLeft(was, mid, to, timestamp, Move(k, from, to));
    }
    hide Deleted, Orphaned, Doomed, Within, Move, DocumentsFit;
  }

  lemma DocumentsFitAfter(was: Graph, mid: Graph, from: Path, to: Path, timestamp: nat)
    requires Deleted(was, mid, to, timestamp)
    ensures DocumentsFit(mid.documents, from, to)
  {
    forall a, b | a in mid.documents && b in mid.documents && Within(mid.documents[a].path, from)
      && !Within(mid.documents[b].path, from)
      ensures Move(mid.documents[a].path, from, to) != mid.documents[b].path
    {
      MovedIsWithin(mid.documents[a].path, from, to);
      assert !Within(mid.documents[b].path, to);
    }
  }

  lemma MovedIsWithin(p: Path, from: Path, to: Path)
    requires Within(p, from)
    ensures Within(Move(p, from, to), to)
  {
    if p != from {
      assert p[|from|] == '/';
      assert to + "/" <= to + p[|from|..];
    }
  }

  /** The metadata commit of a folder move, in one database transaction. */
  method CommitPrefixTransition(db: Metadata, prepared: Graph, from: Path, to: Path, timestamp: nat, now: Instant,
                                uuid: string)
    returns (r: Result<Transition, Failure>)
    requires db.Valid() && IsVaultPath(from) && IsVaultPath(to)
    requires forall k | k in db.migrations :: !Within(k, "@moving/" + uuid)
    modifies db
    ensures db.Valid()
    ensures var committed := DeriveCommittedPrefixSnapshot(prepared, from, to, timestamp);
            && (r.Ok? && r.value == AlreadyCommitted <==> SnapshotOf(old(db.Graph())) == committed)
            && (r.Ok? && r.value == CommittedNow <==>
                  && old(db.Graph()) == prepared && SnapshotOf(old(db.Graph())) != committed
                  && Movable(prepared, from, to) && Predictable(prepared, from, to))
            && (r.Ok? && r.value == CommittedNow ==> SnapshotOf(db.Graph()) == committed)
            && (r.Ok? && r.value == Conflict <==>
                  old(db.Graph()) != prepared && SnapshotOf(old(db.Graph())) != committed)
    ensures r.Err? || r.value != CommittedNow ==> db.Graph() == old(db.Graph())
    ensures r.Err? && r.error == Mismatch <==>
              && old(db.Graph()) == prepared
              && SnapshotOf(prepared) != DeriveCommittedPrefixSnapshot(prepared, from, to, timestamp)
              && Movable(prepared, from, to) && !Predictable(prepared, from, to)
  {
    hide Deleted, Moved, MigrationsMoved, MovedDocuments, Predictable, DeriveCommittedPrefixSnapshot, DocumentsFit,
         MigrationsFit, TombstonesFree, Fresh, UniquePaths, Within, Movable;
    var was := db.Graph();
    var committed := DeriveCommittedPrefixSnapshot(prepared, from, to, timestamp);
    if SnapshotOf(was) == committed {
      return Ok(AlreadyCommitted);
    }
    if was != prepared {
      return Ok(Conflict);
    }
    r := Replace(db, from, to, timestamp, now, uuid);
    if r.Ok? && SnapshotOf(db.Graph()) != committed {
      r := Err(Mismatch);
    }
    if r.Err? {
      db.documents, db.migrations, db.associations, db.embeddings := was.documents, was.migrations, was.associations,
          was.embeddings;
    }
  }

  /** Delete what is at the destination, then move the source there. */
  method Replace(db: Metadata, from: Path, to: Path, timestamp: nat, now: Instant, uuid: string)
    returns (r: Result<Transition, Failure>)
    requires db.Valid() && IsVaultPath(from) && IsVaultPath(to)
    requires forall k | k in db.migrations :: !Within(k, "@moving/" + uuid)
    modifies db
    ensures r.Ok? ==> r.value == CommittedNow && db.Valid()
    ensures r.Ok? <==> Movable(old(db.Graph()), from, to)
    ensures r.Ok? ==> (SnapshotOf(db.Graph()) == DeriveCommittedPrefixSnapshot(old(db.Graph()), from, to, timestamp)
                       <==> Predictable(old(db.Graph()), from, to))
    ensures r.Err? ==> r.error != Mismatch
  {
    hide Deleted, MigrationsMoved, MovedDocuments, Predictable, DeriveCommittedPrefixSnapshot, DocumentsFit,
         MigrationsFit, TombstonesFree, Fresh, UniquePaths, Within;
    ghost var was := db.Graph();
    TombstonesFirst(was, from, to);
    hide Movable;
    var deleted :- db.DeleteDocumentMetadataPrefix(to, timestamp);
    ghost var mid := db.Graph();
    FreshAfterDelete(was, mid, uuid, from, to, timestamp);
    MovableIff(was, mid, from, to, timestamp);
    var moved, _ := db.MoveDocumentMetadataPrefix(from, to, Some(timestamp), now, "@moving/" + uuid);
    if moved.Err? {
      return Err(moved.error);
    }
    PredictionIsExact(was, mid, db.Graph(), from, to, timestamp);
    r := Ok(CommittedNow);
  }
}
