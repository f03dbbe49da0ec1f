/** Moving the metadata of a folder to another path and deleting it, row by
    row, in the tables a database keeps. */
module PrefixMove {
  import opened Wrappers
  import opened Documents
  import opened MetadataTables
  import opened MetadataVersion
  import opened PrefixPlanning
  import opened PrefixDeletion

  /** Distinct documents, shortest path first. */
  ghost predicate ByLength(documents: map<DocId, Document>, rows: seq<DocId>) {
    && (forall i | 0 <= i < |rows| :: rows[i] in documents)
    && forall i, j | 0 <= i < j < |rows| :: rows[i] != rows[j] && |documents[rows[i]].path| <= |documents[rows[j]].path|
  }

  function Versions(documents: map<DocId, Document>, rows: seq<DocId>): (r: seq<nat>)
    requires forall i | 0 <= i < |rows| :: rows[i] in documents
  {
    seq(|rows|, i requires 0 <= i < |rows| => documents[rows[i]].updatedAt)
  }

  class Metadata {
    var documents: map<DocId, Document>
    var migrations: map<Path, Migration>
    var associations: set<(DocId, int)>
    var embeddings: map<DocId, string>

    ghost predicate Valid()
      reads this
    {
      UniquePaths(documents)
    }

    /** UPDATE documents SET path, updated_at WHERE id. */
    method UpdateDocument(id: DocId, path: Path, timestamp: nat) returns (r: Result<(), Failure>)
      requires Valid() && id in documents
      modifies this`documents
      ensures Valid()
      ensures r.Ok? <==> forall other | other in old(documents) && other != id :: old(documents)[other].path != path
      ensures documents
              == if r.Ok? then old(documents)[id := old(documents)[id].(path := path, updatedAt := timestamp)]
                  else old(documents)
      ensures r.Err? ==> r.error == UniqueViolation
    {
      if exists other | other in documents && other != id :: documents[other].path == path {
        return Err(UniqueViolation);
      }
      documents := documents[id := documents[id].(path := path, updatedAt := timestamp)];
      r := Ok(());
    }

    /** UPDATE metadata_migrations WHERE path = p: the row becomes `m` at `q`. */
    method UpdateMigration(p: Path, q: Path, m: Migration) returns (r: Result<(), Failure>)
      requires p in migrations
      modifies this`migrations
      ensures r.Ok? <==> q == p || q !in old(migrations)
      ensures migrations == if r.Ok? then (old(migrations) - {p})[q := m] else old(migrations)
      ensures r.Err? ==> r.error == UniqueViolation
    {
      if q != p && q in migrations {
        return Err(UniqueViolation);
      }
      migrations := (migrations - {p})[q := m];
      r := Ok(());
    }

    /** The documents below a prefix, shortest path first. */
    method SelectByLength(prefix: Path) returns (rows: seq<DocId>)
      ensures forall id :: id in rows <==> id in documents && Within(documents[id].path, prefix)
      ensures ByLength(documents, rows)
    {
      var todo := set id | id in documents && Within(documents[id].path, prefix);
      ghost var all := todo;
      rows := [];
      while todo != {}
        invariant todo <= all && forall id :: id in rows <==> id in all - todo
        invariant ByLength(documents, rows)
        invariant forall i, id :: 0 <= i < |rows| && id in todo ==>
                    rows[i] != id && |documents[rows[i]].path| <= |documents[id].path|
      {
        ghost var shortest := ShortestExists(documents, todo);
        var id :| id in todo && forall other | other in todo :: |documents[id].path| <= |documents[other].path|;
        rows := rows + [id];
        todo := todo - {id};
      }
    }

    /** Move the document rows one at a time. The unique index is consulted at
        every row and never objects. */
    method MoveDocuments(rows: seq<DocId>, from: Path, to: Path, timestamp: nat)
      requires Valid() && DocumentsFit(documents, from, to) && from != to && !Within(to, from)
      requires forall id :: id in rows <==> id in documents && Within(documents[id].path, from)
      requires ByLength(documents, rows)
      modifies this`documents
      ensures Valid() && documents == MovedDocuments(old(documents), from, to, timestamp)
    {
      hide Partly, MovedDocuments, DocumentsFit, UniquePaths, Within, Move;
      ghost var was, done := documents, {};
      PartlyEnds(was, done, from, to, timestamp);
      for i := 0 to |rows|
        invariant Valid() && documents == Partly(was, done, from, to, timestamp)
        invariant documents.Keys == was.Keys && forall j | i <= j < |rows| :: documents[rows[j]] == was[rows[j]]
        invariant done == set id | id in rows[..i]
      {
        var id := rows[i];
        forall other | other in was && other != id
          ensures documents[other].path != Move(was[id].path, from, to)
        {
          NextPathIsFree(was, done, id, other, from, to, timestamp);
        }
        PartlyStep(was, done, id, from, to, timestamp);
        var r := UpdateDocument(id, Move(documents[id].path, from, to), timestamp);
        assert r.Ok?;
        done := done + {id};
      }
      PartlyEnds(was, done, from, to, timestamp);
    }

    /** Park every row whose path changes in the fresh namespace. */
    method ParkMigrations(plan: set<Path>, from: Path, to: Path, namespace: Path)
      returns (parked: map<Path, Path>, ghost next: nat)
      requires Fresh(namespace, migrations, from, to) && from != to && Planned(plan, migrations, from)
      modifies this`migrations
      ensures ParkedRight(old(migrations), parked, plan, from)
      ensures Parked(parked, namespace, next)
      ensures Tracks(Places(old(migrations), parked, {}, from, to), old(migrations), migrations)
    {
      ghost var was := migrations;
      var index, todo := 0, plan;
      parked := map[];
      NothingDone(was, from, to, 0, namespace);
      hide Fresh, Tracks, Parked, Places, Parking, Within, Move;
      while todo != {}
        invariant todo <= plan && parked.Keys <= plan
        invariant forall k | k in plan :: k in parked <==> k !in todo && Within(k, from)
        invariant Tracks(Places(was, parked, {}, from, to), was, migrations)
        invariant Parked(parked, namespace, index)
      {
        var k :| k in todo;
        MovesIffWithin(k, from, to);
        if Move(k, from, to) != k {
          ParkOneMore(was, migrations, parked, index, k, from, to, namespace);
          var r := UpdateMigration(k, Parking(namespace, index), migrations[k]);
          assert r.Ok?;
          parked, index := parked[k := Parking(namespace, index)], index + 1;
        }
        todo := todo - {k};
      }
      next := index;
    }

    /** Move the migration rows: park those whose path changes, then write the
        final rows. The primary key never objects. */
    method MoveMigrations(plan: set<Path>, from: Path, to: Path, timestamp: nat, namespace: Path)
      requires Fresh(namespace, migrations, from, to) && MigrationsFit(migrations, from, to) && from != to
      requires Planned(plan, migrations, from)
      modifies this`migrations
      ensures MigrationsMoved(old(migrations), migrations, from, to, timestamp)
    {
      ghost var was := migrations;
      NothingDone(was, from, to, timestamp, namespace);
      hide Fresh, MigrationsFit, MigrationsMoved, Tracks, Parked, Places, Contents, MovedMigration, Parking, Within,
           Move, Planned, ParkedRight;
      var parked, next := ParkMigrations(plan, from, to, namespace);
      FinishMigrations(plan, parked, next, was, from, to, timestamp, namespace);
      AllFinished(was, migrations, parked, plan, from, to, timestamp);
    }

    /** Write every planned row at its final path. */
    method FinishMigrations(plan: set<Path>, parked: map<Path, Path>, ghost next: nat, ghost was: map<Path, Migration>,
                            from: Path, to: Path, timestamp: nat, namespace: Path)
      requires Fresh(namespace, was, from, to) && Parked(parked, namespace, next) && MigrationsFit(was, from, to)
               && from != to
      requires Planned(plan, was, from) && ParkedRight(was, parked, plan, from)
      requires Tracks(Places(was, parked, {}, from, to), Contents(was, {}, from, to, timestamp), migrations)
      modifies this`migrations
      ensures Tracks(Places(was, parked, plan, from, to), Contents(was, plan, from, to, timestamp), migrations)
    {
      hide Fresh, MigrationsFit, Tracks, Parked, Places, Contents, MovedMigration, Within, Move;
      ghost var done := {};
      var todo := plan;
      while todo != {}
        invariant todo !! done && todo + done == plan
        invariant Tracks(Places(was, parked, done, from, to), Contents(was, done, from, to, timestamp), migrations)
      {
        var k :| k in todo;
        FinishOneMore(was, migrations, parked, next, done, k, from, to, timestamp, namespace);
        var p := if k in parked then parked[k] else k;
        var row := migrations[p];
        MovedRow(k, row, from, to, timestamp);
        if k in parked || Move(row.original, from, to) != row.original {
          var r := UpdateMigration(p, Move(k, from, to),
                                   row.(original := Move(row.original, from, to), updatedAt := timestamp));
          assert r.Ok?;
        }
        todo, done := todo - {k}, done + {k};
      }
      assert done == plan;
    }

    /** Refuse a move onto itself, into its own subtree, or onto an unrelated
        document. */
    method AssertPrefixMoveSafe(rows: seq<DocId>, from: Path, to: Path) returns (r: Result<(), Failure>)
      requires Valid() && ByLength(documents, rows)
      requires forall id :: id in rows <==> id in documents && Within(documents[id].path, from)
      ensures r.Ok? <==> from != to && !Within(to, from) && DocumentsFit(documents, from, to)
      ensures r == Err(SamePrefix) <==> from == to
      ensures r == Err(OwnSubtree) <==> from != to && Within(to, from)
      ensures r == Err(DocumentCollision) <==> from != to && !Within(to, from) && !DocumentsFit(documents, from, to)
    {
      if to == from {
        return Err(SamePrefix);
      }
      if from + "/" <= to {
        return Err(OwnSubtree);
      }
      var seen: set<Path> := {};
      for i := 0 to |rows|
        invariant forall p | p in seen :: exists j | 0 <= j < i :: Move(documents[rows[j]].path, from, to) == p
        invariant forall j, b | 0 <= j < i && b in documents && !Within(documents[b].path, from) ::
                    Move(documents[rows[j]].path, from, to) != documents[b].path
      {
        var next := Move(documents[rows[i]].path, from, to);
        if next in seen {
          var j :| 0 <= j < i && Move(documents[rows[j]].path, from, to) == next;
          MoveIsInjective(documents[rows[j]].path, documents[rows[i]].path, from, to);
          assert false;
        }
        if exists b | b in documents && b !in rows :: documents[b].path == next {
          return Err(DocumentCollision);
        }
        seen := seen + {next};
      }
      r := Ok(());
    }

    /** Refuse a move that would put two migration rows at one path. */
    method AssertMigrationsSafe(plan: set<Path>, from: Path, to: Path) returns (r: Result<(), Failure>)
      requires plan <= migrations.Keys
      requires forall k | k in migrations && (Within(k, from) || Within(migrations[k].original, from)) :: k in plan
      ensures r.Ok? <==> MigrationsFit(migrations, from, to)
      ensures r.Err? ==> r.error == MigrationCollision
    {
      ChecksMeanFit(migrations, plan, from, to);
      hide MigrationsFit, Move, Within, Targets, NoTwoTargets;
      var final, todo := {}, plan;
      NothingTargeted(from, to);
      assert plan - todo == {};
      while todo != {}
        invariant todo <= plan && final == Targets(plan - todo, from, to) && NoTwoTargets(plan - todo, from, to)
      {
        var k :| k in todo;
        OneTargetMore(plan - todo, k, from, to);
        assert plan - (todo - {k}) == plan - todo + {k};
        if Move(k, from, to) in final {
          TwoTargets(plan, plan - todo + {k}, from, to);
          return Err(MigrationCollision);
        }
        final := final + {Move(k, from, to)};
        todo := todo - {k};
      }
      assert plan - todo == plan;
      if exists k | k in plan :: Move(k, from, to) in migrations && Move(k, from, to) !in plan {
        return Err(MigrationCollision);
      }
      r := Ok(());
    }

    /** The version all moved documents get: the one given, or a new one above
        every current version. */
    method MintTimestamp(rows: seq<DocId>, from: Path, given: Option<nat>, now: Instant)
      returns (r: Result<nat, Failure>)
      requires ByLength(documents, rows)
      requires forall id :: id in rows <==> id in documents && Within(documents[id].path, from)
      ensures r.Ok? <==>
                (given.None? ==> forall id | id in Doomed(documents, from) :: documents[id].updatedAt < MaxSafe)
      ensures r.Ok? && given.Some? ==> r.value == given.value
      ensures r.Ok? && given.None? ==>
                now <= r.value <= MaxSafe
                && forall id | id in Doomed(documents, from) :: documents[id].updatedAt < r.value
      ensures r.Err? ==> r.error == Failure.VersionOverflow
    {
      if given.Some? {
        return Ok(given.value);
      }
      var versions := Versions(documents, rows);
      var minted := NextMetadataBatchUpdatedAt(versions, now);
      forall id | id in Doomed(documents, from)
        ensures documents[id].updatedAt in versions
      {
        var i :| 0 <= i < |rows| && rows[i] == id;
        assert versions[i] == documents[id].updatedAt;
      }
      if minted.Err? {
        var i :| 0 <= i < |versions| && versions[i] >= MaxSafe;
        assert rows[i] in Doomed(documents, from);
        return Err(Failure.VersionOverflow);
      }
      r := Ok(minted.value);
    }

    /** Move all metadata below `from` to `to`. It fails without effect exactly
        when the destination is the source or below it, when a row would land
        on an unrelated one, or when a version cannot rise; no unique index
        ever objects. Yields the number of moved documents. */
    method MoveDocumentMetadataPrefix(from: Path, to: Path, given: Option<nat>, now: Instant, namespace: Path)
      returns (r: Result<nat, Failure>, ghost timestamp: nat)
      requires Valid() && Fresh(namespace, migrations, from, to)
      modifies this`documents, this`migrations
      ensures Valid()
      ensures r.Ok? <==>
                && from != to && !Within(to, from)
                && DocumentsFit(old(documents), from, to) && MigrationsFit(old(migrations), from, to)
                && (given.None? ==>
                      forall id | id in Doomed(old(documents), from) :: old(documents)[id].updatedAt < MaxSafe)
      ensures r.Ok? ==>
                && documents == MovedDocuments(old(documents), from, to, timestamp)
                && MigrationsMoved(old(migrations), migrations, from, to, timestamp)
                && r.value == |Doomed(old(documents), from)|
      ensures r.Ok? && given.Some? ==> timestamp == given.value
      ensures r.Ok? && given.None? ==>
                now <= timestamp <= MaxSafe
                && forall id | id in Doomed(old(documents), from) :: old(documents)[id].updatedAt < timestamp
      ensures r == Err(SamePrefix) <==> from == to
      ensures r == Err(OwnSubtree) <==> from != to && Within(to, from)
      ensures r == Err(DocumentCollision) <==>
                from != to && !Within(to, from) && !DocumentsFit(old(documents), from, to)
      ensures r == Err(MigrationCollision) <==>
                from != to && !Within(to, from) && DocumentsFit(old(documents), from, to)
                && !MigrationsFit(old(migrations), from, to)
      ensures r.Err? ==>
                documents == old(documents) && migrations == old(migrations) && r.error != UniqueViolation
                && r.error != Mismatch
    {
      hide MovedDocuments, MigrationsMoved, DocumentsFit, MigrationsFit, UniquePaths, Fresh, Within;
      timestamp := 0;
      var rows := SelectByLength(from);
      var safe := AssertPrefixMoveSafe(rows, from, to);
      if safe.Err? {
        return Err(safe.error), 0;
      }
      var plan := set k | k in migrations
                          && (Within(k, from) || Within(migrations[k].original, from)
                              || (migrations[k].documentId.Some? && migrations[k].documentId.value in rows));
      safe := AssertMigrationsSafe(plan, from, to);
      if safe.Err? {
        return Err(safe.error), 0;
      }
      var stamp := MintTimestamp(rows, from, given, now);
      if stamp.Err? {
        return Err(stamp.error), 0;
      }
      timestamp := stamp.value;
      RowsAreDoomed(documents, rows, from);
      MoveDocuments(rows, from, to, stamp.value);
      MoveMigrations(plan, from, to, stamp.value, namespace);
      r := Ok(|rows|);
    }

    function Graph(): Graph
      reads this
    {
      MetadataTables.Graph(documents, migrations, associations, embeddings)
    }

    /** Keep the migration row of a deleted document under its tombstone path. */
    method QuarantineMigrationAtPath(path: Path, id: DocId, timestamp: nat) returns (r: Result<(), Failure>)
      modifies this`migrations
      ensures r.Ok? <==> path !in old(migrations) || Tombstone(id) == path || Tombstone(id) !in old(migrations)
      ensures migrations == if r.Ok? && path in old(migrations)
                            then (old(migrations) - {path})[Tombstone(id) :=
                                                            Buried(path, old(migrations)[path], timestamp)]
                            else old(migrations)
      ensures r.Err? ==> r.error == UniqueViolation
    {
      if path !in migrations {
        return Ok(());
      }
      r := UpdateMigration(path, Tombstone(id), Buried(path, migrations[path], timestamp));
    }

    /** Delete all documents below `prefix` with everything they own, keeping
        their migration rows as tombstones. It fails without effect exactly
        when a tombstone path is taken. */
    method DeleteDocumentMetadataPrefix(prefix: Path, timestamp: nat) returns (r: Result<nat, Failure>)
      requires Valid() && IsVaultPath(prefix)
      modifies this
      ensures Valid()
      ensures r.Ok? <==> TombstonesFree(old(documents), old(migrations), prefix)
      ensures r.Ok? ==> Deleted(old(Graph()), Graph(), prefix, timestamp) && r.value == |Doomed(old(documents), prefix)|
      ensures r.Err? ==> Graph() == old(Graph()) && r.error == UniqueViolation
    {
      hide Tracks, Graves, Remains, Deleted, Within, TombstonesFree;
      var saved := migrations;
      var doomed := Doomed(documents, prefix);
      r := BuryMigrations(prefix, timestamp);
      if r.Err? {
        migrations := saved;
        return;
      }
      BuriedThenDeleted(old(Graph()), migrations, prefix, timestamp);
      var next := DeleteRows(Graph(), doomed);
      documents, migrations, associations, embeddings := next.documents, next.migrations, next.associations,
          next.embeddings;
      r := Ok(|doomed|);
    }

    method BuryMigrations(prefix: Path, timestamp: nat) returns (r: Result<nat, Failure>)
      requires Valid() && IsVaultPath(prefix)
      modifies this`migrations
      ensures r.Ok? <==> TombstonesFree(documents, old(migrations), prefix)
      ensures r.Ok? ==> Tracks(Graves(old(migrations), documents, Doomed(documents, prefix)),
                               Remains(old(migrations), documents, Doomed(documents, prefix), timestamp), migrations)
      ensures r.Err? ==> r.error == UniqueViolation
    {
      ghost var was, doomed := migrations, Doomed(documents, prefix);
      hide Tracks, Graves, Remains, UniquePaths, Tombstone, Buried, Orphaned;
      NobodyBuried(was, documents, timestamp);
      ghost var gone := {};
      var todo := Doomed(documents, prefix);
      while todo != {}
        invariant todo !! gone && todo + gone == doomed
        invariant Tracks(Graves(was, documents, gone), Remains(was, documents, gone, timestamp), migrations)
        invariant forall id | id in gone && documents[id].path in was :: Tombstone(id) !in was
      {
        var id :| id in todo;
        BuryOneMore(was, migrations, documents, gone, id, prefix, timestamp);
        var step := QuarantineMigrationAtPath(documents[id].path, id, timestamp);
        if step.Err? {
          return Err(step.error);
        }
        todo, gone := todo - {id}, gone + {id};
      }
      assert gone == doomed;
      r := Ok(0);
    }
  }

  lemma {:induction false} RowsAreDoomed(documents: map<DocId, Document>, rows: seq<DocId>, from: Path)
    requires forall id :: id in rows <==> id in documents && Within(documents[id].path, from)
    requires forall i, j | 0 <= i < j < |rows| :: rows[i] != rows[j]
    ensures |rows| == |Doomed(documents, from)|
  {
    assert Doomed(documents, from) == set id | id in rows;
    SetSize(rows);
  }

  lemma {:induction false} SetSize(rows: seq<DocId>)
    requires forall i, j | 0 <= i < j < |rows| :: rows[i] != rows[j]
    ensures |set id | id in rows| == |rows|
  {
    if rows != [] {
      var last := |rows| - 1;
      SetSize(rows[..last]);
      assert (set id | id in rows) == (set id | id in rows[..last]) + {rows[last]};
    }
  }
}
