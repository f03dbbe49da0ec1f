/** Restoring metadata from a snapshot only if the live rows are the expected
    ones: what is read, what is written, and exactly when it works. */
module MetadataRestore {
  import opened Wrappers
  import opened Documents
  import opened MetadataTables
  import TagCollapse
  import PrefixDeletion

  type TagId = TagCollapse.TagId

  type Tag = TagCollapse.Tag

  /** Rows of the metadata tables; an association row has an id of its own. */
  datatype Tables = Tables(documents: map<DocId, Document>, tags: map<TagId, Tag>,
                           associations: map<int, (DocId, TagId)>,
                           embeddings: map<DocId, string>, migrations: map<Path, Migration>)

  /** The keys a restore may read and write. */
  datatype Footprint = Footprint(paths: set<Path>, documentIds: set<DocId>, tagIds: set<TagId>,
                                 migrationPaths: set<Path>, migrationOriginalPaths: set<Path>)

  /** The constraints the database enforces. */
  ghost predicate Sound(t: Tables) {
    && UniquePaths(t.documents) && TagCollapse.UniqueIdentities(t.tags)
    && (forall a, b | a in t.associations && b in t.associations && a != b :: t.associations[a] != t.associations[b])
    && (forall a | a in t.associations :: t.associations[a].0 in t.documents && t.associations[a].1 in t.tags)
    && (forall d | d in t.embeddings :: d in t.documents)
    && forall p | p in t.migrations && t.migrations[p].documentId.Some? ::
         t.migrations[p].documentId.value in t.documents
  }

  predicate OwnsMigration(f: Footprint, owned: set<DocId>, p: Path, m: Migration) {
    || p in f.migrationPaths || m.original in f.migrationOriginalPaths
    || (m.documentId.Some? && m.documentId.value in owned)
    || exists d | d in owned :: PrefixDeletion.Tombstone(d) == p
  }

  function ReadDocuments(t: Tables, f: Footprint): map<DocId, Document> {
    map d | d in t.documents && (d in f.documentIds || t.documents[d].path in f.paths) :: t.documents[d]
  }

  /** The rows the footprint covers, with what their documents own. */
  function Read(t: Tables, f: Footprint): Tables {
    var documents := ReadDocuments(t, f);
    var owned := f.documentIds + documents.Keys;
    var associations := map a | a in t.associations && t.associations[a].0 in owned :: t.associations[a];
    var tagIds := f.tagIds + set a | a in associations :: associations[a].1;
    Tables(documents,
           map i | i in t.tags && i in tagIds :: t.tags[i],
           associations,
           map d | d in t.embeddings && d in owned :: t.embeddings[d],
           map p | p in t.migrations && OwnsMigration(f, owned, p, t.migrations[p]) :: t.migrations[p])
  }

  /** The read shows every document of the footprint with all its association,
      embedding and migration rows, and the named tags and migration rows. */
  lemma ReadShows(t: Tables, f: Footprint, d: DocId)
    ensures var read := Read(t, f);
            && (d in read.documents <==> d in t.documents && (d in f.documentIds || t.documents[d].path in f.paths))
            && (d in read.documents ==> read.documents[d] == t.documents[d])
            && (d in read.documents || d in f.documentIds ==>
                  && (forall a | a in t.associations && t.associations[a].0 == d ::
                        a in read.associations && read.associations[a] == t.associations[a]
                        && (t.associations[a].1 in t.tags ==> t.associations[a].1 in read.tags))
                  && (d in t.embeddings ==> d in read.embeddings && read.embeddings[d] == t.embeddings[d])
                  && forall p | p in t.migrations && (t.migrations[p].documentId == Some(d) || p == "@deleted/" + d) ::
                       p in read.migrations && read.migrations[p] == t.migrations[p])
            && (forall i | i in f.tagIds && i in t.tags :: i in read.tags && read.tags[i] == t.tags[i])
            && forall p | p in t.migrations
                          && (p in f.migrationPaths || t.migrations[p].original in f.migrationOriginalPaths)
                 :: p in read.migrations && read.migrations[p] == t.migrations[p]
  {
    assert PrefixDeletion.Tombstone(d) == "@deleted/" + d;
  }

  /** A snapshot that refers to its own rows only and lies inside the footprint. */
  ghost predicate Covered(snapshot: Tables, f: Footprint) {
    && Sound(snapshot)
    && snapshot.documents.Keys <= f.documentIds
    && (forall d | d in snapshot.documents :: snapshot.documents[d].path in f.paths)
    && snapshot.tags.Keys <= f.tagIds
    && snapshot.migrations.Keys <= f.migrationPaths
  }

  // The statements of a restore.

  /** Every live document that the footprint reaches has both its id and its
      path in it. */
  predicate PathsOwned(t: Tables, f: Footprint) {
    forall d | d in ReadDocuments(t, f) :: d in f.documentIds && t.documents[d].path in f.paths
  }

  /** A migration row once the footprint's documents are deleted: the database
      sets its reference to them to NULL. */
  function Loose(f: Footprint, m: Migration): Migration {
    PrefixDeletion.Detached(m, f.documentIds)
  }

  /** DELETE everything of the footprint but tags, documents before migration
      rows: a row that only its document brought into the footprint is not found
      any more, and stays without it. */
  function Cleared(t: Tables, f: Footprint): Tables {
    Tables(map d | d in t.documents && d !in f.documentIds :: t.documents[d],
           t.tags,
           map a | a in t.associations && t.associations[a].0 !in f.documentIds :: t.associations[a],
           map d | d in t.embeddings && d !in f.documentIds :: t.embeddings[d],
           map p | p in t.migrations && !OwnsMigration(f, f.documentIds, p, Loose(f, t.migrations[p])) ::
             Loose(f, t.migrations[p]))
  }

  /** INSERT OR IGNORE INTO tags. */
  function WithTags(t: Tables, tags: map<TagId, Tag>): Tables {
    t.(tags := t.tags + map i | i in tags && i !in t.tags && (forall j | j in t.tags ::
                                                                t.tags[j].normalized != tags[i].normalized) :: tags[i])
  }

  function WithRows(t: Tables, snapshot: Tables): Tables {
    t.(documents := t.documents + snapshot.documents, associations := t.associations + snapshot.associations,
       embeddings := t.embeddings + snapshot.embeddings, migrations := t.migrations + snapshot.migrations)
  }

  /** No key of the snapshot is taken and every reference leads somewhere. */
  predicate Insertable(t: Tables, snapshot: Tables) {
    && t.documents.Keys !! snapshot.documents.Keys
    && (forall d, e | d in t.documents && e in snapshot.documents :: t.documents[d].path != snapshot.documents[e].path)
    && t.associations.Keys !! snapshot.associations.Keys
    && (forall a, b | a in t.associations && b in snapshot.associations ::
          t.associations[a] != snapshot.associations[b])
    && (forall a | a in snapshot.associations :: snapshot.associations[a].1 in t.tags)
    && t.embeddings.Keys !! snapshot.embeddings.Keys
    && t.migrations.Keys !! snapshot.migrations.Keys
  }

  function Used(associations: map<int, (DocId, TagId)>): set<TagId> {
    set a | a in associations :: associations[a].1
  }

  /** DELETE FROM tags those created by the failed mutation that nobody uses. */
  function Pruned(t: Tables, created: set<TagId>): Tables {
    t.(tags := map i | i in t.tags && (i !in created || i in Used(t.associations)) :: t.tags[i])
  }

  function Restored(t: Tables, snapshot: Tables, f: Footprint, created: set<TagId>): Tables {
    Pruned(WithRows(WithTags(Cleared(t, f), snapshot.tags), snapshot), created)
  }

  // What a caller can check before.

  /** Tags can be restored only by inserting missing ones and dropping created
      ones that end up unused; a live tag is never rewritten. */
  predicate TagsRestorable(t: Tables, snapshot: Tables, f: Footprint, created: set<TagId>) {
    var used := Used(Cleared(t, f).associations + snapshot.associations);
    && (forall i | i in snapshot.tags ::
          && (if i in t.tags then t.tags[i] == snapshot.tags[i]
              else forall j | j in t.tags :: t.tags[j].normalized != snapshot.tags[i].normalized)
          && (i in created ==> i in used))
    && forall i | i in f.tagIds && i in t.tags && i !in snapshot.tags :: i in created && i !in used
  }

  /** Other documents have taken no association id of the snapshot. */
  predicate AssociationIdsFree(t: Tables, snapshot: Tables, f: Footprint) {
    forall a | a in snapshot.associations && a in t.associations :: t.associations[a].0 in f.documentIds
  }

  predicate Restorable(t: Tables, snapshot: Tables, f: Footprint, created: set<TagId>) {
    PathsOwned(t, f) && AssociationIdsFree(t, snapshot, f) && TagsRestorable(t, snapshot, f, created)
  }

  lemma RestorableIsInsertable(t: Tables, snapshot: Tables, f: Footprint, created: set<TagId>)
    requires Sound(t) && Covered(snapshot, f) && Restorable(t, snapshot, f, created)
    ensures Insertable(WithTags(Cleared(t, f), snapshot.tags), snapshot)
  {
    var cleared := Cleared(t, f);
    forall d, e | d in cleared.documents && e in snapshot.documents
      ensures cleared.documents[d].path != snapshot.documents[e].path
    {
      OutsidePath(t, f, d);
    }
    AssociationsInsertable(t, snapshot, f, created);
    KeysInsertable(t, snapshot, f);
    hide Cleared, Sound, Restorable;
  }

  lemma AssociationsInsertable(t: Tables, snapshot: Tables, f: Footprint, created: set<TagId>)
    requires Sound(t) && Covered(snapshot, f) && Restorable(t, snapshot, f, created)
    ensures var cleared := Cleared(t, f);
            && (forall a, b | a in cleared.associations && b in snapshot.associations ::
                  a != b && cleared.associations[a] != snapshot.associations[b])
            && forall a | a in snapshot.associations ::
                 snapshot.associations[a].1 in WithTags(cleared, snapshot.tags).tags
  {
    var cleared := Cleared(t, f);
    forall a, b | a in cleared.associations && b in snapshot.associations
      ensures a != b && cleared.associations[a] != snapshot.associations[b]
    {
      assert snapshot.associations[b].0 in snapshot.documents;
    }
    forall a | a in snapshot.associations
      ensures snapshot.associations[a].1 in WithTags(cleared, snapshot.tags).tags
    {
      assert snapshot.associations[a].1 in snapshot.tags;
    }
    hide OwnsMigration, PathsOwned;
  }

  lemma KeysInsertable(t: Tables, snapshot: Tables, f: Footprint)
    requires Covered(snapshot, f)
    ensures var cleared := Cleared(t, f);
            && cleared.documents.Keys !! snapshot.documents.Keys
            && cleared.embeddings.Keys !! snapshot.embeddings.Keys
            && cleared.migrations.Keys !! snapshot.migrations.Keys
  {
    forall d | d in snapshot.embeddings
      ensures d in snapshot.documents
    {
    }
  }

  /** A live document outside the footprint has no path in it. */
  lemma OutsidePath(t: Tables, f: Footprint, d: DocId)
    requires PathsOwned(t, f) && d in t.documents && d !in f.documentIds
    ensures t.documents[d].path !in f.paths
  {
    assert d !in ReadDocuments(t, f);
  }

  /** The tags that are live after a restore. */
  function TagsAfter(t: Tables, snapshot: Tables, f: Footprint, created: set<TagId>): map<TagId, Tag> {
    Restored(t, snapshot, f, created).tags
  }

  function ReadTags(tags: map<TagId, Tag>, ids: set<TagId>): map<TagId, Tag> {
    map i | i in tags && i in ids :: tags[i]
  }

  lemma DocumentsReadBack(t: Tables, snapshot: Tables, f: Footprint, created: set<TagId>)
    requires Sound(t) && Covered(snapshot, f) && PathsOwned(t, f)
    ensures ReadDocuments(Restored(t, snapshot, f, created), f) == snapshot.documents
  {
    forall d | d in t.documents && d !in f.documentIds
      ensures t.documents[d].path !in f.paths
    {
      OutsidePath(t, f, d);
    }
  }

  lemma AssociationsReadBack(t: Tables, snapshot: Tables, f: Footprint, created: set<TagId>)
    requires Covered(snapshot, f)
    ensures var associations := Restored(t, snapshot, f, created).associations;
            (map a | a in associations && associations[a].0 in f.documentIds :: associations[a])
            == snapshot.associations
  {
    var associations := Restored(t, snapshot, f, created).associations;
    forall a
      ensures a in associations && associations[a].0 in f.documentIds <==> a in snapshot.associations
      ensures a in snapshot.associations ==> associations[a] == snapshot.associations[a]
    {
      assert a in snapshot.associations ==> snapshot.associations[a].0 in snapshot.documents;
    }
  }

  lemma MigrationsReadBack(t: Tables, snapshot: Tables, f: Footprint, created: set<TagId>)
    requires Covered(snapshot, f)
    ensures var migrations := Restored(t, snapshot, f, created).migrations;
            (map p | p in migrations && OwnsMigration(f, f.documentIds, p, migrations[p]) :: migrations[p])
            == snapshot.migrations
  {
  }

  lemma EmbeddingsReadBack(t: Tables, snapshot: Tables, f: Footprint, created: set<TagId>)
    requires Covered(snapshot, f)
    ensures var embeddings := Restored(t, snapshot, f, created).embeddings;
            (map d | d in embeddings && d in f.documentIds :: embeddings[d]) == snapshot.embeddings
  {
  }

  /** Inserted rows read back as they are in the snapshot; with the tags it
      depends on what was there. */
  lemma ReadsBack(t: Tables, snapshot: Tables, f: Footprint, created: set<TagId>)
    requires Sound(t) && Covered(snapshot, f) && PathsOwned(t, f)
    ensures Read(Restored(t, snapshot, f, created), f)
            == snapshot.(tags := ReadTags(TagsAfter(t, snapshot, f, created), f.tagIds + Used(snapshot.associations)))
  {
    DocumentsReadBack(t, snapshot, f, created);
    AssociationsReadBack(t, snapshot, f, created);
    MigrationsReadBack(t, snapshot, f, created);
    EmbeddingsReadBack(t, snapshot, f, created);
    assert f.documentIds + snapshot.documents.Keys == f.documentIds;
    hide Restored, OwnsMigration, PathsOwned, ReadDocuments;
  }

  lemma TagsAfterIs(t: Tables, snapshot: Tables, f: Footprint, created: set<TagId>)
    ensures var used := Used(Cleared(t, f).associations + snapshot.associations);
            TagsAfter(t, snapshot, f, created)
            == map i | i in WithTags(t, snapshot.tags).tags && (i !in created || i in used) ::
                WithTags(t, snapshot.tags).tags[i]
  {
  }

  lemma TagsComeBack(t: Tables, snapshot: Tables, f: Footprint, created: set<TagId>)
    requires Sound(t) && Covered(snapshot, f) && TagsRestorable(t, snapshot, f, created)
    ensures ReadTags(TagsAfter(t, snapshot, f, created), f.tagIds + Used(snapshot.associations)) == snapshot.tags
  {
    TagsAfterIs(t, snapshot, f, created);
    var after, ids := TagsAfter(t, snapshot, f, created), f.tagIds + Used(snapshot.associations);
    forall i | i in ids
      ensures i in after <==> i in snapshot.tags
      ensures i in snapshot.tags ==> after[i] == snapshot.tags[i]
    {
      hide Cleared, Restored, Pruned, TagsAfter;
      assert Used(snapshot.associations) <= snapshot.tags.Keys;
    }
    ReadTagsIs(after, ids, snapshot.tags);
  }

  lemma ReadTagsIs(after: map<TagId, Tag>, ids: set<TagId>, tags: map<TagId, Tag>)
    requires tags.Keys <= ids
    requires forall i | i in ids :: (i in after <==> i in tags) && (i in tags ==> after[i] == tags[i])
    ensures ReadTags(after, ids) == tags
  {
  }

  lemma OnlyIfRestorable(t: Tables, snapshot: Tables, f: Footprint, created: set<TagId>)
    requires Sound(t) && Covered(snapshot, f)
    requires ReadTags(TagsAfter(t, snapshot, f, created), f.tagIds + Used(snapshot.associations)) == snapshot.tags
    ensures TagsRestorable(t, snapshot, f, created)
  {
    var after, ids := TagsAfter(t, snapshot, f, created), f.tagIds + Used(snapshot.associations);
    forall i | i in snapshot.tags
      ensures i in after && after[i] == snapshot.tags[i]
    {
      assert i in ReadTags(after, ids);
    }
    forall i | i in f.tagIds && i in t.tags && i !in snapshot.tags
      ensures i !in after
    {
      assert i !in ReadTags(after, ids);
    }
  }

  /** The inserts go through and the footprint then reads as the snapshot
      exactly when the restore was possible beforehand. */
  lemma RestoresIff(t: Tables, snapshot: Tables, f: Footprint, created: set<TagId>)
    requires Sound(t) && Covered(snapshot, f) && PathsOwned(t, f)
    ensures Insertable(WithTags(Cleared(t, f), snapshot.tags), snapshot)
            && Read(Restored(t, snapshot, f, created), f) == snapshot
            <==> Restorable(t, snapshot, f, created)
  {
    ReadsBack(t, snapshot, f, created);
    if Restorable(t, snapshot, f, created) {
      RestorableIsInsertable(t, snapshot, f, created);
      TagsComeBack(t, snapshot, f, created);
    }
    if Read(Restored(t, snapshot, f, created), f) == snapshot {
      OnlyIfRestorable(t, snapshot, f, created);
    }
  }

  lemma TagsStaySound(t: Tables, snapshot: Tables, f: Footprint, created: set<TagId>)
    requires Sound(t) && Covered(snapshot, f)
    ensures TagCollapse.UniqueIdentities(TagsAfter(t, snapshot, f, created))
  {
    TagsAfterIs(t, snapshot, f, created);
    hide Restored, Cleared, Pruned, TagsAfter;
  }

  lemma DocumentsStaySound(t: Tables, snapshot: Tables)
    requires UniquePaths(t.documents) && UniquePaths(snapshot.documents) && Insertable(t, snapshot)
    ensures UniquePaths(WithRows(t, snapshot).documents)
  {
    hide Sound;
  }

  lemma AssociationsStaySound(t: Tables, f: Footprint, snapshot: Tables, created: set<TagId>)
    requires Sound(t) && Covered(snapshot, f) && Insertable(WithTags(Cleared(t, f), snapshot.tags), snapshot)
    ensures var after := Restored(t, snapshot, f, created);
            && (forall a, b | a in after.associations && b in after.associations && a != b ::
                  after.associations[a] != after.associations[b])
            && forall a | a in after.associations ::
                 after.associations[a].0 in after.documents && after.associations[a].1 in after.tags
  {
    var after := Restored(t, snapshot, f, created);
    forall a | a in after.associations
      ensures after.associations[a].0 in after.documents && after.associations[a].1 in after.tags
    {
      assert after.associations[a].1 in Used(after.associations);
      if a in snapshot.associations {
        assert snapshot.associations[a].0 in snapshot.documents && snapshot.associations[a].1 in snapshot.tags;
      }
    }
    hide Sound;
  }

  lemma ReferencesStaySound(t: Tables, f: Footprint, snapshot: Tables, created: set<TagId>)
    requires Sound(t) && Covered(snapshot, f)
    ensures var after := Restored(t, snapshot, f, created);
            && (forall d | d in after.embeddings :: d in after.documents)
            && forall p | p in after.migrations && after.migrations[p].documentId.Some? ::
                 after.migrations[p].documentId.value in after.documents
  {
  }

  /** The constraints hold again after the restore. */
  lemma RestoredIsSound(t: Tables, snapshot: Tables, f: Footprint, created: set<TagId>)
    requires Sound(t) && Covered(snapshot, f) && Insertable(WithTags(Cleared(t, f), snapshot.tags), snapshot)
    ensures Sound(Restored(t, snapshot, f, created))
  {
    TagsStaySound(t, snapshot, f, created);
    DocumentsStaySound(WithTags(Cleared(t, f), snapshot.tags), snapshot);
    AssociationsStaySound(t, f, snapshot, created);
    ReferencesStaySound(t, f, snapshot, created);
    assert Restored(t, snapshot, f, created).documents
           == WithRows(WithTags(Cleared(t, f), snapshot.tags), snapshot).documents;
    hide Insertable, Covered, OwnsMigration;
  }

  /** The footprint names the migration row itself. */
  predicate Named(f: Footprint, p: Path, m: Migration) {
    p in f.migrationPaths || m.original in f.migrationOriginalPaths
    || exists d | d in f.documentIds :: PrefixDeletion.Tombstone(d) == p
  }

  /** A migration row the footprint does not name outlives the restore. If it was
      read only through its document, it comes out detached from it; nothing else of
      it changes, and a row of no footprint document does not change at all. */
  lemma LooseRowsStay(t: Tables, snapshot: Tables, f: Footprint, created: set<TagId>, p: Path)
    requires Covered(snapshot, f) && p in t.migrations
    ensures var m, after := t.migrations[p], Restored(t, snapshot, f, created).migrations;
            if Named(f, p, m) then p in after <==> p in snapshot.migrations
            else
              && p in after
              && after[p].original == m.original && after[p].status == m.status && after[p].updatedAt == m.updatedAt
              && after[p].documentId == if m.documentId.Some? && m.documentId.value in f.documentIds then None
                 else m.documentId
  {
  }

  /** No live tag is changed: one goes exactly if the failed mutation created it
      and no document has it, and the snapshot's are the only new ones. */
  lemma TagsStay(t: Tables, snapshot: Tables, f: Footprint, created: set<TagId>, i: TagId)
    ensures var after := Restored(t, snapshot, f, created);
            && (i in t.tags ==>
                  (i in after.tags <==>
                     i !in created || exists a :: a in after.associations && after.associations[a].1 == i))
            && (i in t.tags && i in after.tags ==> after.tags[i] == t.tags[i])
            && (i !in t.tags && i in after.tags ==> i in snapshot.tags && after.tags[i] == snapshot.tags[i])
  {
    var after := Restored(t, snapshot, f, created);
    assert i in Used(after.associations) <==> exists a :: a in after.associations && after.associations[a].1 == i;
  }

  datatype Outcome = RestoredNow | AlreadyRestored | Conflict

  datatype RestoreFailure = OutsideOwner | ConstraintViolation | NotTheSnapshot

  class MetadataStore {
    var t: Tables

    /** The statements of a restore, in order. A violated constraint leaves it
        unfinished. */
    method RestoreWithinFootprint(snapshot: Tables, f: Footprint, created: set<TagId>)
      returns (r: Result<(), RestoreFailure>)
      modifies this
      ensures r.Ok? <==> PathsOwned(old(t), f) && Insertable(WithTags(Cleared(old(t), f), snapshot.tags), snapshot)
      ensures r.Ok? ==> t == Restored(old(t), snapshot, f, created)
      ensures r == Err(OutsideOwner) <==> !PathsOwned(old(t), f)
      ensures r.Err? ==> r.error != NotTheSnapshot
    {
      if !PathsOwned(t, f) {
        return Err(OutsideOwner);
      }
      t := Cleared(t, f);
      t := WithTags(t, snapshot.tags);
      if !Insertable(t, snapshot) {
        return Err(ConstraintViolation);
      }
      t := WithRows(t, snapshot);
      t := Pruned(t, created);
      r := Ok(());
    }

    /** Three states under one write lock: restored already, exactly as
        expected and restored now, or somebody else's. */
    method RestoreCASIdempotent(snapshot: Tables, expected: Tables, f: Footprint, created: set<TagId>)
      returns (r: Result<Outcome, RestoreFailure>)
      requires Sound(t) && Covered(snapshot, f)
      modifies this
      ensures Sound(t)
      ensures var was := Read(old(t), f);
              && (r == Ok(AlreadyRestored) <==> was == snapshot)
              && (r == Ok(Conflict) <==> was != snapshot && was != expected)
              && (r == Ok(RestoredNow) <==>
                    was != snapshot && was == expected && Restorable(old(t), snapshot, f, created))
      ensures r == Ok(RestoredNow) ==> t == Restored(old(t), snapshot, f, created) && Read(t, f) == snapshot
      ensures r == Err(OutsideOwner) <==>
                Read(old(t), f) != snapshot && Read(old(t), f) == expected && !PathsOwned(old(t), f)
      ensures r != Ok(RestoredNow) ==> t == old(t)
      ensures forall d | d !in f.documentIds :: SameDocument(old(t), t, d)
    {
      var saved := t;
      Unchanged(t);
      hide SameDocument;
      var current := Read(t, f);
      if current == snapshot {
        return Ok(AlreadyRestored);
      }
      if current != expected {
        return Ok(Conflict);
      }
      if PathsOwned(t, f) {
        RestoresIff(t, snapshot, f, created);
      }
      var done := RestoreWithinFootprint(snapshot, f, created);
      if done.Err? {
        t := saved;
        return Err(done.error);
      }
      if Read(t, f) != snapshot {
        t := saved;
        return Err(NotTheSnapshot);
      }
      RestoredIsSound(saved, snapshot, f, created);
      OutsideUntouched(saved, snapshot, f, created);
      r := Ok(RestoredNow);
    }

    /** A restore that went through and is asked for again finds its work done. */
    method RestoreTwice(snapshot: Tables, expected: Tables, f: Footprint, created: set<TagId>)
      returns (first: Result<Outcome, RestoreFailure>, second: Result<Outcome, RestoreFailure>)
      requires Sound(t) && Covered(snapshot, f)
      modifies this
      ensures first == Ok(RestoredNow) ==> second == Ok(AlreadyRestored)
      ensures second == Ok(AlreadyRestored) ==> Read(t, f) == snapshot
    {
      hide Read, Sound, Covered, Restorable, Restored, SameDocument;
      first := RestoreCASIdempotent(snapshot, expected, f, created);
      second := RestoreCASIdempotent(snapshot, expected, f, created);
    }
  }

  /** Document, embedding and associations of `d` are the same in both. */
  ghost predicate SameDocument(t: Tables, t': Tables, d: DocId) {
    && (d in t.documents <==> d in t'.documents) && (d in t.documents ==> t'.documents[d] == t.documents[d])
    && (d in t.embeddings <==> d in t'.embeddings) && (d in t.embeddings ==> t'.embeddings[d] == t.embeddings[d])
    && forall a, i :: (a in t.associations && t.associations[a] == (d, i)) <==>
         (a in t'.associations && t'.associations[a] == (d, i))
  }

  lemma Unchanged(t: Tables)
    ensures forall d :: SameDocument(t, t, d)
  {
  }

  lemma OutsideUntouched(t: Tables, snapshot: Tables, f: Footprint, created: set<TagId>)
    requires Covered(snapshot, f) && Sound(t)
    ensures Insertable(WithTags(Cleared(t, f), snapshot.tags), snapshot) ==>
              forall d | d !in f.documentIds :: SameDocument(t, Restored(t, snapshot, f, created), d)
  {
    if Insertable(WithTags(Cleared(t, f), snapshot.tags), snapshot) {
      forall d | d !in f.documentIds
        ensures SameDocument(t, Restored(t, snapshot, f, created), d)
      {
        OutsideSame(t, snapshot, f, created, d);
      }
    }
    hide SameDocument, Restored, Insertable, Covered, Sound;
  }

  lemma OutsideSame(t: Tables, snapshot: Tables, f: Footprint, created: set<TagId>, d: DocId)
    requires Covered(snapshot, f) && Sound(t) && Insertable(WithTags(Cleared(t, f), snapshot.tags), snapshot)
             && d !in f.documentIds
    ensures SameDocument(t, Restored(t, snapshot, f, created), d)
  {
    hide OwnsMigration;
    var after := Restored(t, snapshot, f, created);
    forall a, i
      ensures (a in t.associations && t.associations[a] == (d, i)) <==>
                (a in after.associations && after.associations[a] == (d, i))
    {
      assert a in snapshot.associations ==> snapshot.associations[a].0 in snapshot.documents;
    }
    assert d !in snapshot.documents && (d in snapshot.embeddings ==> d in snapshot.documents);
  }
}
