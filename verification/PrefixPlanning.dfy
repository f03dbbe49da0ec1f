/** What a prefix move does to the tables, all rows at once, and why it can be
    done one row at a time under the unique indexes. */
module PrefixPlanning {
  import opened Wrappers
  import opened Documents
  import opened MetadataTables
  import opened Decimals

  // The transitions, all rows at once.

  function MovedDocument(d: Document, from: Path, to: Path, timestamp: nat): Document {
    if Within(d.path, from) then d.(path := Move(d.path, from, to), updatedAt := timestamp) else d
  }

  function MovedDocuments(documents: map<DocId, Document>, from: Path, to: Path, timestamp: nat): map<DocId, Document> {
    map id | id in documents :: MovedDocument(documents[id], from, to, timestamp)
  }

  function MovedMigration(k: Path, m: Migration, from: Path, to: Path, timestamp: nat): Migration {
    if Within(k, from) || Within(m.original, from)
    then m.(original := Move(m.original, from, to), updatedAt := timestamp)
    else m
  }

  /** Every migration row is under its moved path, with its moved original path. */
  ghost predicate MigrationsMoved(was: map<Path, Migration>, now: map<Path, Migration>, from: Path, to: Path,
                                  timestamp: nat) {
    && now.Keys == (set k | k in was :: Move(k, from, to))
    && forall k | k in was ::
         Move(k, from, to) in now && now[Move(k, from, to)] == MovedMigration(k, was[k], from, to, timestamp)
  }

  /** A document below the source gets its moved path and the version, nothing
      else of it changes, and others stay. */
  lemma MovedDocumentsMean(was: map<DocId, Document>, from: Path, to: Path, timestamp: nat)
    ensures var now := MovedDocuments(was, from, to, timestamp);
            && now.Keys == was.Keys
            && forall id | id in was ::
                 && now[id].path == Move(was[id].path, from, to) && now[id].body == was[id].body
                 && now[id].updatedAt == if Within(was[id].path, from) then timestamp else was[id].updatedAt
  {
  }

  /** A migration row goes to its moved path, its original path is moved too, and
      it names the document it named before. */
  lemma MigrationsMovedMean(was: map<Path, Migration>, now: map<Path, Migration>, from: Path, to: Path,
                            timestamp: nat, k: Path)
    requires MigrationsMoved(was, now, from, to, timestamp) && k in was
    ensures var q := Move(k, from, to);
            && q in now && now[q].documentId == was[k].documentId && now[q].status == was[k].status
            && now[q].original == Move(was[k].original, from, to)
            && now[q].updatedAt == if Within(k, from) || Within(was[k].original, from) then timestamp
               else was[k].updatedAt
  {
  }

  // The guards of a prefix move.

  predicate DocumentsFit(documents: map<DocId, Document>, from: Path, to: Path) {
    forall a, b | a in documents && b in documents && Within(documents[a].path, from)
      && !Within(documents[b].path, from) ::
      Move(documents[a].path, from, to) != documents[b].path
  }

  predicate MigrationsFit(migrations: map<Path, Migration>, from: Path, to: Path) {
    forall k | k in migrations && Within(k, from) ::
      Move(k, from, to) in migrations ==> Within(Move(k, from, to), from)
  }

  /** While the documents in `done` have moved and the others have not. */
  function Partly(documents: map<DocId, Document>, done: set<DocId>, from: Path, to: Path,
                  timestamp: nat): map<DocId, Document> {
    map id | id in documents :: if id in done then MovedDocument(documents[id], from, to, timestamp) else documents[id]
  }

  /** Shortest path first, the next moved path is free at its turn. */
  lemma NextPathIsFree(documents: map<DocId, Document>, done: set<DocId>, id: DocId, other: DocId, from: Path, to: Path,
                       timestamp: nat)
    requires UniquePaths(documents) && DocumentsFit(documents, from, to) && from != to && !Within(to, from)
    requires id in documents && id !in done && Within(documents[id].path, from)
    requires other in documents && other != id
    requires forall a | a in done :: a in documents && Within(documents[a].path, from)
    requires forall a | a in documents && Within(documents[a].path, from) && a !in done ::
               |documents[id].path| <= |documents[a].path|
    ensures Partly(documents, done, from, to, timestamp)[other].path != Move(documents[id].path, from, to)
  {
    var p, q := documents[id].path, documents[other].path;
    if other in done {
      if Move(p, from, to) == Move(q, from, to) {
        MoveIsInjective(p, q, from, to);
      }
    } else if Within(q, from) {
      NoClashAhead(p, q, from, to);
    }
  }

  lemma PartlyStep(documents: map<DocId, Document>, done: set<DocId>, id: DocId, from: Path, to: Path, timestamp: nat)
    requires id in documents && id !in done && Within(documents[id].path, from)
    ensures var d := documents[id];
            Partly(documents, done, from, to,
                   timestamp)[id := d.(path := Move(d.path, from, to), updatedAt := timestamp)]
            == Partly(documents, done + {id}, from, to, timestamp)
  {
  }

  lemma PartlyEnds(documents: map<DocId, Document>, done: set<DocId>, from: Path, to: Path, timestamp: nat)
    ensures Partly(documents, {}, from, to, timestamp) == documents
    ensures (forall id | id in documents && Within(documents[id].path, from) :: id in done) ==>
              Partly(documents, done, from, to, timestamp) == MovedDocuments(documents, from, to, timestamp)
  {
  }

  /** Where the migration rows are while they move: the row first found at `k`
      is now at `at[k]` and holds `rows[k]`. */
  ghost predicate Tracks(at: map<Path, Path>, rows: map<Path, Migration>, migrations: map<Path, Migration>) {
    && at.Keys == rows.Keys
    && migrations.Keys == at.Values
    && (forall k | k in at :: migrations[at[k]] == rows[k])
    && forall j, k | j in at && k in at && j != k :: at[j] != at[k]
  }

  lemma TracksUpdate(at: map<Path, Path>, rows: map<Path, Migration>, migrations: map<Path, Migration>, k: Path,
                     q: Path, m: Migration)
    requires Tracks(at, rows, migrations) && k in at && forall j | j in at && j != k :: at[j] != q
    ensures at[k] in migrations && k in rows && migrations[at[k]] == rows[k] && (q == at[k] || q !in migrations)
    ensures Tracks(at[k := q], rows[k := m], (migrations - {at[k]})[q := m])
  {
    var at', rows', now := at[k := q], rows[k := m], (migrations - {at[k]})[q := m];
    forall p
      ensures p in now.Keys <==> p in at'.Values
    {
      if p in at'.Values {
        var j :| j in at' && at'[j] == p;
        assert j != k ==> at[j] == p;
      }
      if p in migrations && p != at[k] {
        var j :| j in at && at[j] == p;
        assert at'[j] == p;
      }
      assert at'[k] == q;
    }
  }

  // Moving migration rows: every row whose path changes is first parked in a
  // fresh namespace, then all rows take their final paths.

  function Parking(namespace: Path, index: nat): Path {
    namespace + "/" + Digits(index)
  }

  lemma ParkingsDiffer(namespace: Path, i: nat, j: nat)
    requires Parking(namespace, i) == Parking(namespace, j)
    ensures i == j
  {
    assert Parking(namespace, i)[|namespace| + 1..] == Digits(i);
    assert Parking(namespace, j)[|namespace| + 1..] == Digits(j);
    DigitsInjective(i, j);
  }

  /** A random namespace that no row uses now or will use after the move. */
  ghost predicate Fresh(namespace: Path, migrations: map<Path, Migration>, from: Path, to: Path) {
    forall k | k in migrations :: !Within(k, namespace) && !Within(Move(k, from, to), namespace)
  }

  /** Distinct parking places, the first `next` of the namespace. */
  ghost predicate Parked(parked: map<Path, Path>, namespace: Path, next: nat) {
    && (forall k | k in parked :: exists i: nat | i < next :: parked[k] == Parking(namespace, i))
    && forall j, k | j in parked && k in parked && j != k :: parked[j] != parked[k]
  }

  /** Where each row is: at its final path, parked, or where it was. */
  function Places(was: map<Path, Migration>, parked: map<Path, Path>, done: set<Path>, from: Path,
                  to: Path): map<Path, Path> {
    map k | k in was :: if k in done then Move(k, from, to) else if k in parked then parked[k] else k
  }

  function Contents(was: map<Path, Migration>, done: set<Path>, from: Path, to: Path,
                    timestamp: nat): map<Path, Migration> {
    map k | k in was :: if k in done then MovedMigration(k, was[k], from, to, timestamp) else was[k]
  }

  lemma ParkedOneMore(parked: map<Path, Path>, namespace: Path, next: nat, k: Path)
    requires Parked(parked, namespace, next) && k !in parked
    ensures Parking(namespace, next) !in parked.Values
    ensures Parked(parked[k := Parking(namespace, next)], namespace, next + 1)
  {
    var q, parked' := Parking(namespace, next), parked[k := Parking(namespace, next)];
    hide Parking;
    forall j | j in parked
      ensures parked[j] != q && exists i: nat | i < next + 1 :: parked'[j] == Parking(namespace, i)
    {
      var i: nat :| i < next && parked[j] == Parking(namespace, i);
      assert i < next + 1 && parked'[j] == Parking(namespace, i);
      if Parking(namespace, i) == q {
        ParkingsDiffer(namespace, i, next);
      }
    }
    assert parked'[k] == Parking(namespace, next);
  }

  lemma ParkOneMore(was: map<Path, Migration>, now: map<Path, Migration>, parked: map<Path, Path>, next: nat, k: Path,
                    from: Path, to: Path, namespace: Path)
    requires Fresh(namespace, was, from, to) && Parked(parked, namespace, next) && parked.Keys <= was.Keys
    requires Tracks(Places(was, parked, {}, from, to), was, now) && k in was && k !in parked
    ensures k in now && now[k] == was[k] && Parking(namespace, next) !in now
    ensures var parked' := parked[k := Parking(namespace, next)];
            && Parked(parked', namespace, next + 1)
            && Tracks(Places(was, parked', {}, from, to), was, (now - {k})[Parking(namespace, next) := was[k]])
  {
    ParkedOneMore(parked, namespace, next, k);
    ParkingIsFree(was, parked, next, k, from, to, namespace);
    PlaceOneMore(was, parked, Parking(namespace, next), {}, k, from, to);
    hide Fresh, Tracks, Within, Move, Parking, Parked, Places;
    TracksUpdate(Places(was, parked, {}, from, to), was, now, k, Parking(namespace, next), was[k]);
    assert was[k := was[k]] == was;
  }

  lemma ParkingIsFree(was: map<Path, Migration>, parked: map<Path, Path>, next: nat, k: Path, from: Path, to: Path,
                      namespace: Path)
    requires Fresh(namespace, was, from, to) && Parking(namespace, next) !in parked.Values
    requires k in was && k !in parked
    ensures var at := Places(was, parked, {}, from, to);
            k in at && at[k] == k && k != Parking(namespace, next)
            && forall j | j in at :: at[j] != Parking(namespace, next)
  {
    var q := Parking(namespace, next);
    assert Within(q, namespace);
    hide Within, Move, Parking;
    forall j | j in was
      ensures j != q && Places(was, parked, {}, from, to)[j] != q
    {
      assert !Within(j, namespace);
      assert j in parked ==> parked[j] in parked.Values;
    }
  }

  lemma PlaceOneMore(was: map<Path, Migration>, parked: map<Path, Path>, q: Path, done: set<Path>, k: Path, from: Path,
                     to: Path)
    requires k in was && k !in done
    ensures Places(was, parked, done, from, to)[k := q] == Places(was, parked[k := q], done, from, to)
    ensures Places(was, parked, done, from, to)[k := Move(k, from, to)] == Places(was, parked, done + {k}, from, to)
  {
    hide Move;
  }

  lemma FinalPlaceIsFree(was: map<Path, Migration>, parked: map<Path, Path>, next: nat, done: set<Path>, k: Path,
                         j: Path,
                         from: Path, to: Path, namespace: Path)
    requires Fresh(namespace, was, from, to) && Parked(parked, namespace, next) && MigrationsFit(was, from, to)
    requires forall j | j in was :: j in parked <==> Within(j, from)
    requires k in was && j in was && j != k
    ensures Places(was, parked, done, from, to)[j] != Move(k, from, to)
  {
    if j !in done && j in parked {
      var i: nat :| i < next && parked[j] == Parking(namespace, i);
      assert Within(parked[j], namespace);
    } else if Within(j, from) && Within(k, from) && Move(j, from, to) == Move(k, from, to) {
      MoveIsInjective(j, k, from, to);
    }
  }

  lemma ContentOneMore(was: map<Path, Migration>, done: set<Path>, k: Path, from: Path, to: Path, timestamp: nat)
    requires k in was && k !in done
    ensures var m := MovedMigration(k, was[k], from, to, timestamp);
            && Contents(was, done, from, to, timestamp)[k] == was[k]
            && Contents(was, done, from, to, timestamp)[k := m] == Contents(was, done + {k}, from, to, timestamp)
  {
    hide MovedMigration;
  }

  /** A row whose turn has come finds its final path free. */
  lemma FinishOneMore(was: map<Path, Migration>, now: map<Path, Migration>, parked: map<Path, Path>, next: nat,
                      done: set<Path>, k: Path,
                      from: Path, to: Path, timestamp: nat, namespace: Path)
    requires Fresh(namespace, was, from, to) && Parked(parked, namespace, next) && MigrationsFit(was, from, to)
    requires forall j | j in was :: j in parked <==> Within(j, from)
    requires Tracks(Places(was, parked, done, from, to), Contents(was, done, from, to, timestamp), now)
    requires k in was && k !in done
    ensures var p, q := if k in parked then parked[k] else k, Move(k, from, to);
            var m := MovedMigration(k, was[k], from, to, timestamp);
            && p in now && now[p] == was[k] && (q == p || q !in now)
            && Tracks(Places(was, parked, done + {k}, from, to), Contents(was, done + {k}, from, to, timestamp),
                      (now - {p})[q := m])
            && (q == p && m == was[k] ==> (now - {p})[q := m] == now)
  {
    hide Fresh, Parked, MigrationsFit, Tracks, Move, Within, MovedMigration;
    var at, rows := Places(was, parked, done, from, to), Contents(was, done, from, to, timestamp);
    assert at[k] == if k in parked then parked[k] else k;
    forall j | j in at && j != k
      ensures at[j] != Move(k, from, to)
    {
      FinalPlaceIsFree(was, parked, next, done, k, j, from, to, namespace);
    }
    ContentOneMore(was, done, k, from, to, timestamp);
    PlaceOneMore(was, parked, Move(k, from, to), done, k, from, to);
    hide Places, Contents;
    TracksUpdate(at, rows, now, k, Move(k, from, to), MovedMigration(k, was[k], from, to, timestamp));
  }

  lemma {:induction false} ShortestExists(documents: map<DocId, Document>, todo: set<DocId>) returns (id: DocId)
    requires todo != {} && todo <= documents.Keys
    ensures id in todo && forall other | other in todo :: |documents[id].path| <= |documents[other].path|
  {
    var any :| any in todo;
    if todo == {any} {
      id := any;
    } else {
      var rest := ShortestExists(documents, todo - {any});
      id := if |documents[any].path| <= |documents[rest].path| then any else rest;
    }
  }

  /** The plan lists every row that moves or came from the prefix. */
  ghost predicate Planned(plan: set<Path>, was: map<Path, Migration>, from: Path) {
    && plan <= was.Keys
    && forall k | k in was && (Within(k, from) || Within(was[k].original, from)) :: k in plan
  }

  /** Exactly the rows below the prefix are parked. */
  ghost predicate ParkedRight(was: map<Path, Migration>, parked: map<Path, Path>, plan: set<Path>, from: Path) {
    && parked.Keys <= plan && forall j | j in was :: j in parked <==> Within(j, from)
  }

  lemma AllPlaced(was: map<Path, Migration>, parked: map<Path, Path>, done: set<Path>, from: Path, to: Path,
                  timestamp: nat)
    requires parked.Keys <= done
    requires forall k | k in was && (Within(k, from) || Within(was[k].original, from)) :: k in done
    ensures Places(was, parked, done, from, to) == map k | k in was :: Move(k, from, to)
    ensures Contents(was, done, from, to, timestamp) == map k | k in was ::
              MovedMigration(k, was[k], from, to, timestamp)
  {
  }

  lemma AllFinished(was: map<Path, Migration>, now: map<Path, Migration>, parked: map<Path, Path>, done: set<Path>,
                    from: Path, to: Path, timestamp: nat)
    requires Tracks(Places(was, parked, done, from, to), Contents(was, done, from, to, timestamp), now)
    requires Planned(done, was, from) && ParkedRight(was, parked, done, from)
    ensures MigrationsMoved(was, now, from, to, timestamp)
  {
    AllPlaced(was, parked, done, from, to, timestamp);
    TracksMoved(was, now, from, to, timestamp);
  }

  lemma TracksMoved(was: map<Path, Migration>, now: map<Path, Migration>, from: Path, to: Path, timestamp: nat)
    requires Tracks(map k | k in was :: Move(k, from, to), map k | k in was ::
                      MovedMigration(k, was[k], from, to, timestamp), now)
    ensures MigrationsMoved(was, now, from, to, timestamp)
  {
    hide Move, MovedMigration, Within;
    var at := map k | k in was :: Move(k, from, to);
    forall p
      ensures p in at.Values <==> p in set k | k in was :: Move(k, from, to)
    {
      if k :| k in was && Move(k, from, to) == p {
        assert at[k] == p;
      }
    }
    forall k | k in was
      ensures Move(k, from, to) in now && now[Move(k, from, to)] == MovedMigration(k, was[k], from, to, timestamp)
    {
      assert at[k] == Move(k, from, to) && at[k] in at.Values;
    }
  }

  /** Where a move takes a set of paths. */
  function Targets(paths: set<Path>, from: Path, to: Path): set<Path> {
    set k | k in paths :: Move(k, from, to)
  }

  predicate NoTwoTargets(paths: set<Path>, from: Path, to: Path) {
    forall j, k | j in paths && k in paths && j != k :: Move(j, from, to) != Move(k, from, to)
  }

  lemma NothingTargeted(from: Path, to: Path)
    ensures Targets({}, from, to) == {} && NoTwoTargets({}, from, to)
  {
  }

  lemma OneTargetMore(paths: set<Path>, k: Path, from: Path, to: Path)
    requires k !in paths && NoTwoTargets(paths, from, to)
    ensures Targets(paths + {k}, from, to) == Targets(paths, from, to) + {Move(k, from, to)}
    ensures NoTwoTargets(paths + {k}, from, to) <==> Move(k, from, to) !in Targets(paths, from, to)
  {
    hide Move;
    if j :| j in paths && Move(j, from, to) == Move(k, from, to) {
      assert j in paths + {k} && k in paths + {k};
    }
  }

  lemma TwoTargets(paths: set<Path>, some: set<Path>, from: Path, to: Path)
    requires some <= paths && !NoTwoTargets(some, from, to)
    ensures !NoTwoTargets(paths, from, to)
  {
  }

  /** The two collision checks on the selected rows say exactly that the move
      merges no two migration rows. */
  lemma ChecksMeanFit(migrations: map<Path, Migration>, plan: set<Path>, from: Path, to: Path)
    requires forall k | k in plan :: k in migrations
    requires forall k | k in migrations && (Within(k, from) || Within(migrations[k].original, from)) :: k in plan
    ensures MigrationsFit(migrations, from, to) <==>
              && NoTwoTargets(plan, from, to)
              && forall k | k in plan :: Move(k, from, to) in migrations ==> Move(k, from, to) in plan
  {
    if MigrationsFit(migrations, from, to) {
      forall j, k | j in plan && k in plan && j != k
        ensures Move(j, from, to) != Move(k, from, to)
      {
        if Move(j, from, to) == Move(k, from, to) && Within(j, from) && Within(k, from) {
          MoveIsInjective(j, k, from, to);
        }
      }
    }
  }

  lemma MovesIffWithin(p: Path, from: Path, to: Path)
    requires from != to
    ensures Move(p, from, to) != p <==> Within(p, from)
  {
    if Within(p, from) && |to| == |from| {
      assert p[..|from|] == from && Move(p, from, to)[..|from|] == to;
    }
  }

  lemma NothingDone(was: map<Path, Migration>, from: Path, to: Path, timestamp: nat, namespace: Path)
    ensures Tracks(Places(was, map[], {}, from, to), was, was) && Parked(map[], namespace, 0)
    ensures Contents(was, {}, from, to, timestamp) == was
  {
    var at := Places(was, map[], {}, from, to);
    forall k | k in was
      ensures at[k] == k && k in at.Values
    {
      assert at[k] == k;
    }
  }

  lemma MovedRow(k: Path, m: Migration, from: Path, to: Path, timestamp: nat)
    requires from != to
    ensures Move(k, from, to) != k <==> Within(k, from)
    ensures MovedMigration(k, m, from, to, timestamp)
            == if Within(k, from) || Move(m.original, from, to) != m.original
               then m.(original := Move(m.original, from, to), updatedAt := timestamp)
               else m
  {
    MovesIffWithin(k, from, to);
    MovesIffWithin(m.original, from, to);
  }
}
