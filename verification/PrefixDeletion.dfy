/** What deleting a prefix does to the tables: the migration rows at deleted
    paths are kept under tombstone paths, detached from their documents. */
module PrefixDeletion {
  import opened Wrappers
  import opened Documents
  import opened MetadataTables
  import opened PrefixPlanning

  function Tombstone(id: DocId): Path {
    "@deleted/" + id
  }

  lemma TombstonesDiffer(a: DocId, b: DocId)
    requires Tombstone(a) == Tombstone(b)
    ensures a == b
  {
    assert Tombstone(a)[|"@deleted/"|..] == a && Tombstone(b)[|"@deleted/"|..] == b;
  }

  /** The path of a folder in the vault; `@` never begins one. */
  predicate IsVaultPath(p: Path) {
    p != "" && p[0] != '@'
  }

  function Doomed(documents: map<DocId, Document>, prefix: Path): set<DocId> {
    set id | id in documents && Within(documents[id].path, prefix)
  }

  /** `k` is the path of one of the documents in `gone`. */
  predicate Orphaned(documents: map<DocId, Document>, gone: set<DocId>, k: Path) {
    exists id | id in gone :: id in documents && documents[id].path == k
  }

  ghost function OwnerOf(documents: map<DocId, Document>, gone: set<DocId>, k: Path): DocId
    requires Orphaned(documents, gone, k)
  {
    var id :| id in gone && id in documents && documents[id].path == k;
    id
  }

  /** Where the rows are once those of the documents in `gone` are buried. */
  ghost function Graves(was: map<Path, Migration>, documents: map<DocId, Document>, gone: set<DocId>): map<Path, Path> {
    map k | k in was :: if Orphaned(documents, gone, k) then Tombstone(OwnerOf(documents, gone, k)) else k
  }

  function Buried(k: Path, m: Migration, timestamp: nat): Migration {
    m.(documentId := None, original := if m.original == "" then k else m.original, status := "orphaned",
       updatedAt := timestamp)
  }

  function Remains(was: map<Path, Migration>, documents: map<DocId, Document>, gone: set<DocId>,
                   timestamp: nat): map<Path, Migration> {
    map k | k in was :: if Orphaned(documents, gone, k) then Buried(k, was[k], timestamp) else was[k]
  }

  /** ON DELETE SET NULL. */
  function Detached(m: Migration, gone: set<DocId>): Migration {
    if m.documentId.Some? && m.documentId.value in gone then m.(documentId := None) else m
  }

  /** The graph after all documents below `prefix` were deleted. */
  ghost predicate Deleted(was: Graph, now: Graph, prefix: Path, timestamp: nat) {
    var gone := Doomed(was.documents, prefix);
    && now.documents == (map id | id in was.documents && id !in gone :: was.documents[id])
    && now.associations == (set a | a in was.associations && a.0 !in gone)
    && now.embeddings == (map id | id in was.embeddings && id !in gone :: was.embeddings[id])
    && Tracks(Graves(was.migrations, was.documents, gone),
              DetachedRows(Remains(was.migrations, was.documents, gone, timestamp), gone), now.migrations)
  }

  function DetachedRows(rows: map<Path, Migration>, gone: set<DocId>): map<Path, Migration> {
    map k | k in rows :: Detached(rows[k], gone)
  }

  /** No tombstone path is taken yet. */
  predicate TombstonesFree(documents: map<DocId, Document>, migrations: map<Path, Migration>, prefix: Path) {
    forall id | id in Doomed(documents, prefix) && documents[id].path in migrations :: Tombstone(id) !in migrations
  }

  /** A deletion keeps the migration row at a deleted document's path under a
      tombstone path that tells where it was. */
  lemma DeletionBuries(was: Graph, now: Graph, prefix: Path, timestamp: nat, id: DocId)
    requires UniquePaths(was.documents) && IsVaultPath(prefix) && Deleted(was, now, prefix, timestamp)
    requires id in was.documents && Within(was.documents[id].path, prefix) && was.documents[id].path in was.migrations
    ensures var k, tomb := was.documents[id].path, "@deleted/" + id;
            && k !in now.migrations && tomb in now.migrations
            && now.migrations[tomb].documentId == None && now.migrations[tomb].status == "orphaned"
            && now.migrations[tomb].updatedAt == timestamp
            && now.migrations[tomb].original
                 == if was.migrations[k].original == "" then k else was.migrations[k].original
  {
    var gone, k := Doomed(was.documents, prefix), was.documents[id].path;
    var at := Graves(was.migrations, was.documents, gone);
    assert id in gone && Orphaned(was.documents, gone, k) && OwnerOf(was.documents, gone, k) == id;
    assert at[k] == Tombstone(id) && at[k] in at.Values;
    assert k[0] == prefix[0];
    assert forall other :: Tombstone(other)[0] == '@';
    if k in now.migrations {
      var j :| j in at && at[j] == k;
    }
  }

  /** Every other row stays at its path as it was, except that it loses a
      document that was deleted. */
  lemma DeletionDetaches(was: Graph, now: Graph, prefix: Path, timestamp: nat, k: Path)
    requires Deleted(was, now, prefix, timestamp) && k in was.migrations
    requires forall id | id in was.documents && Within(was.documents[id].path, prefix) :: was.documents[id].path != k
    ensures k in now.migrations
    ensures var m, m' := was.migrations[k], now.migrations[k];
            && m'.original == m.original && m'.status == m.status && m'.updatedAt == m.updatedAt
            && m'.documentId == if m.documentId.Some? && m.documentId.value in was.documents
                                   && Within(was.documents[m.documentId.value].path, prefix)
                                then None else m.documentId
  {
    var gone := Doomed(was.documents, prefix);
    var at := Graves(was.migrations, was.documents, gone);
    assert !Orphaned(was.documents, gone, k);
    assert at[k] == k && at[k] in at.Values;
  }

  /** No other rows come up. */
  lemma DeletionAddsNothing(was: Graph, now: Graph, prefix: Path, timestamp: nat, q: Path)
    requires Deleted(was, now, prefix, timestamp) && q in now.migrations
    ensures q in was.migrations
            || exists id :: id in was.documents && Within(was.documents[id].path, prefix) && q == "@deleted/" + id
  {
    var gone := Doomed(was.documents, prefix);
    var at := Graves(was.migrations, was.documents, gone);
    var k :| k in at && at[k] == q;
    if Orphaned(was.documents, gone, k) {
      var id := OwnerOf(was.documents, gone, k);
      assert q == "@deleted/" + id;
    }
  }

  /** Documents below the prefix go with what they own, the others stay. */
  lemma DeletionTakes(was: Graph, now: Graph, prefix: Path, timestamp: nat, id: DocId)
    requires Deleted(was, now, prefix, timestamp) && id in was.documents
    ensures var below := Within(was.documents[id].path, prefix);
            && (id in now.documents <==> !below) && (!below ==> now.documents[id] == was.documents[id])
            && (id in now.embeddings <==> id in was.embeddings && !below)
            && (id in now.embeddings ==> now.embeddings[id] == was.embeddings[id])
            && forall t :: (id, t) in now.associations <==> (id, t) in was.associations && !below
  {
  }

  lemma BuryOneMore(was: map<Path, Migration>, now: map<Path, Migration>, documents: map<DocId, Document>,
                    gone: set<DocId>, id: DocId,
                    prefix: Path, timestamp: nat)
    requires UniquePaths(documents) && IsVaultPath(prefix)
    requires gone <= Doomed(documents, prefix) && id in Doomed(documents, prefix) && id !in gone
    requires Tracks(Graves(was, documents, gone), Remains(was, documents, gone, timestamp), now)
    ensures var p, q := documents[id].path, Tombstone(id);
            && (p in now <==> p in was)
            && (p !in was ==>
                  Tracks(Graves(was, documents, gone + {id}), Remains(was, documents, gone + {id}, timestamp), now))
            && (p in was ==>
                  && now[p] == was[p] && p != q && (q in was ==> q in now)
                  && (q !in was ==>
                        q !in now && Tracks(Graves(was, documents, gone + {id}),
                                            Remains(was, documents, gone + {id}, timestamp),
                                                         (now - {p})[q := Buried(p, was[p], timestamp)])))
  {
    var p, q := documents[id].path, Tombstone(id);
    NotATombstone(p, prefix);
    var at, rows := Graves(was, documents, gone), Remains(was, documents, gone, timestamp);
    GraveOneMore(was, documents, gone, id, timestamp);
    if p in was {
      assert at[p] == p && rows[p] == was[p];
      if q in was {
        if Orphaned(documents, gone, q) {
          NotATombstone(q, prefix);
        }
        assert at[q] == q;
      } else {
        forall j | j in at && j != p
          ensures at[j] != q
        {
          if Orphaned(documents, gone, j) && OwnerOf(documents, gone, j) != id {
            if at[j] == q {
              TombstonesDiffer(OwnerOf(documents, gone, j), id);
            }
          }
        }
        TracksUpdate(at, rows, now, p, q, Buried(p, was[p], timestamp));
      }
    } else if p in now {
      var j :| j in at && at[j] == p;
    }
  }

  lemma NotATombstone(p: Path, prefix: Path)
    requires IsVaultPath(prefix) && Within(p, prefix)
    ensures p[0] != '@' && forall id :: Tombstone(id) != p
  {
    forall id
      ensures Tombstone(id) != p
    {
      assert Tombstone(id)[0] == '@';
    }
  }

  /** One more document gone orphans its path, and no other path changes. */
  lemma OrphanOneMore(documents: map<DocId, Document>, gone: set<DocId>, id: DocId, k: Path)
    requires UniquePaths(documents) && id in documents && id !in gone
    ensures k == documents[id].path ==>
              !Orphaned(documents, gone, k) && Orphaned(documents, gone + {id}, k)
              && OwnerOf(documents, gone + {id}, k) == id
    ensures k != documents[id].path ==>
              && (Orphaned(documents, gone + {id}, k) <==> Orphaned(documents, gone, k))
              && (Orphaned(documents, gone, k) ==> OwnerOf(documents, gone + {id}, k) == OwnerOf(documents, gone, k))
  {
    assert id in gone + {id};
    if Orphaned(documents, gone, k) {
      assert OwnerOf(documents, gone, k) in gone + {id};
    }
  }

  lemma GraveOneMore(was: map<Path, Migration>, documents: map<DocId, Document>, gone: set<DocId>, id: DocId,
                     timestamp: nat)
    requires UniquePaths(documents) && id in documents && id !in gone
    ensures var p := documents[id].path;
            && !Orphaned(documents, gone, p)
            && (p !in was ==> Graves(was, documents, gone + {id}) == Graves(was, documents, gone)
                              && Remains(was, documents, gone + {id}, timestamp)
                                   == Remains(was, documents, gone, timestamp))
            && (p in was ==> Graves(was, documents, gone + {id}) == Graves(was, documents, gone)[p := Tombstone(id)]
                             && Remains(was, documents, gone + {id}, timestamp)
                                == Remains(was, documents, gone, timestamp)[p := Buried(p, was[p], timestamp)])
  {
    var p, more := documents[id].path, gone + {id};
    OrphanOneMore(documents, gone, id, p);
    forall k | k in was && k != p
      ensures Orphaned(documents, more, k) <==> Orphaned(documents, gone, k)
      ensures Orphaned(documents, gone, k) ==> OwnerOf(documents, more, k) == OwnerOf(documents, gone, k)
    {
      OrphanOneMore(documents, gone, id, k);
    }
    hide Orphaned, OwnerOf, UniquePaths, Tombstone, Buried;
  }

  /** DELETE FROM documents: what they own goes with them, migration rows stay
      without their document. */
  function DeleteRows(g: Graph, gone: set<DocId>): Graph {
    Graph(map id | id in g.documents && id !in gone :: g.documents[id],
          map k | k in g.migrations :: Detached(g.migrations[k], gone),
          set a | a in g.associations && a.0 !in gone,
          map id | id in g.embeddings && id !in gone :: g.embeddings[id])
  }

  lemma BuriedThenDeleted(g: Graph, buried: map<Path, Migration>, prefix: Path, timestamp: nat)
    requires Tracks(Graves(g.migrations, g.documents, Doomed(g.documents, prefix)),
                    Remains(g.migrations, g.documents, Doomed(g.documents, prefix), timestamp), buried)
    ensures Deleted(g, DeleteRows(g.(migrations := buried), Doomed(g.documents, prefix)), prefix, timestamp)
  {
  }

  lemma NobodyBuried(was: map<Path, Migration>, documents: map<DocId, Document>, timestamp: nat)
    ensures Tracks(Graves(was, documents, {}), Remains(was, documents, {}, timestamp), was)
  {
    var at := Graves(was, documents, {});
    forall k | k in was
      ensures at[k] == k && k in at.Values
    {
      assert at[k] == k;
    }
  }
}
