/** Merging one tag into another: the plan a user reviews, and the transaction
    that must do exactly what the plan counts. */
module TagMerge {
  import opened Wrappers
  import opened Documents
  import opened Collections
  import opened StringOrder
  import opened MetadataVersion
  import opened TagCollapse
  import opened TagAssociations

  /** What is reviewed of one affected document. */
  datatype Affected = Affected(id: DocId, updatedAt: nat, tagIds: set<TagId>)

  /** The plan, which stands for its own fingerprint: hashing is taken to be
      injective. */
  datatype MergePlan = MergePlan(source: TagId, destination: TagId, affected: seq<Affected>, adds: int, removes: int,
                                 collapses: int)

  datatype Failure = SourceDestinationSame | PreviewStale | TransactionFailed

  /** The documents that have tag `i`. */
  function Holders(associations: AssociationTable, i: TagId): set<DocId> {
    set a | a in associations && associations[a].1 == i :: associations[a].0
  }

  function RowsOf(associations: AssociationTable, i: TagId): set<int> {
    set a | a in associations && associations[a].1 == i
  }

  /** The plan says what is true of these tables. */
  ghost predicate PlanFits(plan: MergePlan, associations: AssociationTable, documents: map<DocId, nat>) {
    var holders := Holders(associations, plan.source);
    && Ascending(Ids(plan)) && (forall d :: d in Ids(plan) <==> d in holders)
    && (forall i | 0 <= i < |plan.affected| ::
          plan.affected[i].id in documents && plan.affected[i].updatedAt == documents[plan.affected[i].id]
          && plan.affected[i].tagIds == TagsOf(associations, plan.affected[i].id))
    && Counts(plan, holders, Holders(associations, plan.destination))
  }

  /** Nothing is counted for a tag that would be merged into itself. */
  predicate Counts(plan: MergePlan, holders: set<DocId>, have: set<DocId>) {
    if plan.source == plan.destination then
      plan.adds == 0 && plan.removes == 0 && plan.collapses == 0
    else
      plan.removes == |holders| && plan.collapses == |holders * have| && plan.adds == |holders - have|
  }

  function Ids(plan: MergePlan): seq<DocId> {
    seq(|plan.affected|, i requires 0 <= i < |plan.affected| => plan.affected[i].id)
  }

  /** A document's tags with the source replaced by the destination. */
  function MergedTags(tags: set<TagId>, source: TagId, destination: TagId): set<TagId> {
    if source in tags then tags - {source} + {destination} else tags
  }

  function RaisedVersions(documents: map<DocId, nat>, holders: set<DocId>, now: Instant): map<DocId, nat> {
    map d | d in documents ::
      if d in holders && documents[d] < MaxSafe then NextMetadataUpdatedAt(documents[d], now).value else documents[d]
  }

  /** A tag has one row for each document that has it. */
  lemma {:induction false} OneRowEach(associations: AssociationTable, ids: set<int>, i: TagId)
    requires UniquePairs(associations) && ids <= RowsOf(associations, i)
    ensures |set a | a in ids :: associations[a].0| == |ids|
  {
    if ids != {} {
      Inhabited(ids);
      var a :| a in ids;
      OneRowEach(associations, ids - {a}, i);
      assert (set b | b in ids :: associations[b].0)
             == (set b | b in ids - {a} :: associations[b].0) + {associations[a].0};
    }
  }

  /** What is read of the affected documents. */
  function ReadAffected(ids: seq<DocId>, associations: AssociationTable, documents: map<DocId, nat>): seq<Affected>
    requires forall i | 0 <= i < |ids| :: ids[i] in documents
  {
    seq(|ids|, i requires 0 <= i < |ids| => Affected(ids[i], documents[ids[i]], TagsOf(associations, ids[i])))
  }

  /** Read the documents of the source tag and count what a merge will do. */
  method BuildMergePlan(t: TagTables, source: TagId, destination: TagId) returns (plan: MergePlan)
    requires t.Valid()
    ensures PlanFits(plan, t.associations, t.documents) && plan.source == source && plan.destination == destination
  {
    var ids := SortDistinct(Holders(t.associations, source));
    assert Holders(t.associations, source) <= t.documents.Keys;
    forall i | 0 <= i < |ids|
      ensures ids[i] in t.documents
    {
      assert ids[i] in ids;
    }
    var affected := ReadAffected(ids, t.associations, t.documents);
    plan := MergePlan(source, destination, affected, 0, 0, 0);
    if source != destination {
      var adds, collapses := CountMerge(affected, ids, t.associations, destination);
      plan := plan.(adds := adds, removes := |affected|, collapses := collapses);
    }
    assert Ids(plan) == ids;
    AscendingSize(ids);
    assert (set d | d in ids) == Holders(t.associations, source);
  }

  /** The tables leave no choice about the plan. */
  lemma PlanIsUnique(p: MergePlan, q: MergePlan, associations: AssociationTable, documents: map<DocId, nat>)
    requires PlanFits(p, associations, documents) && PlanFits(q, associations, documents)
    requires p.source == q.source && p.destination == q.destination
    ensures p == q
  {
    AscendingUnique(Ids(p), Ids(q));
    assert |p.affected| == |q.affected|;
    forall i | 0 <= i < |p.affected|
      ensures p.affected[i] == q.affected[i]
    {
      assert Ids(p)[i] == Ids(q)[i];
    }
    assert p.affected == q.affected;
  }

  /** The planner's loop over the affected documents. */
  method CountMerge(affected: seq<Affected>, ghost ids: seq<DocId>, ghost associations: AssociationTable,
                    destination: TagId)
    returns (adds: int, collapses: int)
    requires Ascending(ids) && |affected| == |ids|
    requires forall i | 0 <= i < |ids| :: affected[i].id == ids[i] && affected[i].tagIds == TagsOf(associations, ids[i])
    ensures var have, all := Holders(associations, destination), set d | d in ids;
            collapses == |all * have| && adds == |all - have|
  {
    ghost var have := Holders(associations, destination);
    adds, collapses := 0, 0;
    NoneSeen(ids);
    hide Holders, TagsOf, Seen;
    for i := 0 to |affected|
      invariant collapses == |Seen(ids, i) * have| && adds == |Seen(ids, i) - have|
    {
      HoldersAre(associations, destination, ids[i]);
      OneMoreSeen(ids, i);
      CountOneMore(Seen(ids, i), ids[i], have);
      if destination in affected[i].tagIds {
        collapses := collapses + 1;
      } else {
        adds := adds + 1;
      }
    }
  }

  function Seen(ids: seq<DocId>, n: nat): set<DocId>
    requires n <= |ids|
  {
    set d | d in ids[..n]
  }

  lemma NoneSeen(ids: seq<DocId>)
    ensures Seen(ids, 0) == {} && Seen(ids, |ids|) == set d | d in ids
  {
    assert ids[..|ids|] == ids;
  }

  lemma OneMoreSeen(ids: seq<DocId>, n: nat)
    requires Ascending(ids) && n < |ids|
    ensures ids[n] !in Seen(ids, n) && Seen(ids, n + 1) == Seen(ids, n) + {ids[n]}
  {
    NotBefore(ids, n);
    assert ids[..n + 1] == ids[..n] + [ids[n]];
  }

  lemma CountOneMore(seen: set<DocId>, d: DocId, have: set<DocId>)
    requires d !in seen
    ensures |(seen + {d}) * have| == |seen * have| + (if d in have then 1 else 0)
    ensures |(seen + {d}) - have| == |seen - have| + (if d in have then 0 else 1)
  {
    if d in have {
      assert (seen + {d}) * have == seen * have + {d};
      assert (seen + {d}) - have == seen - have;
    } else {
      assert (seen + {d}) * have == seen * have;
      assert (seen + {d}) - have == seen - have + {d};
    }
  }

  lemma NotBefore(ids: seq<string>, i: nat)
    requires Ascending(ids) && i < |ids|
    ensures ids[i] !in ids[..i]
  {
    Irreflexive(ids[i]);
  }

  lemma HoldersAre(associations: AssociationTable, i: TagId, d: DocId)
    ensures d in Holders(associations, i) <==> i in TagsOf(associations, d)
  {
    if d in Holders(associations, i) {
      var a :| a in associations && associations[a] == (d, i);
    }
    if i in TagsOf(associations, d) {
      var a :| a in associations && associations[a] == (d, i);
    }
  }

  lemma {:induction false} AscendingSize(ids: seq<string>)
    requires Ascending(ids)
    ensures |set d | d in ids| == |ids|
  {
    if ids != [] {
      var last := |ids| - 1;
      AscendingSize(ids[..last]);
      NotBefore(ids, last);
      assert (set d | d in ids) == (set d | d in ids[..last]) + {ids[last]};
    }
  }

  /** Every document that had the source has the destination instead. */
  ghost predicate Merged(was: AssociationTable, now: AssociationTable, source: TagId, destination: TagId) {
    && (forall d :: TagsOf(now, d) == MergedTags(TagsOf(was, d), source, destination))
    && (forall a | a in was && was[a].1 != source :: a in now && now[a] == was[a])
  }

  /** INSERT the destination for every document in `todo` that lacks it. */
  method InsertDestination(t: TagTables, todo: set<DocId>, destination: TagId) returns (inserted: int)
    requires RowsOk(t.tags, t.associations, t.nextAssociation, t.documents) && todo <= t.documents.Keys
             && destination in t.tags
    modifies t`associations, t`nextAssociation
    ensures RowsOk(t.tags, t.associations, t.nextAssociation, t.documents)
    ensures Added(old(t.associations), t.associations, destination, todo, inserted)
  {
    ghost var was := t.associations;
    var rest := todo;
    inserted := 0;
    NothingAdded(was, destination);
    assert todo - rest == {};
    hide RowsOk, Added, Holders;
    while rest != {}
      invariant rest <= todo
      invariant RowsOk(t.tags, t.associations, t.nextAssociation, t.documents)
      invariant Added(was, t.associations, destination, todo - rest, inserted)
    {
      var d :| d in rest;
      ghost var before := t.associations;
      var n := InsertOne(t, d, destination);
      AddedOneMore(was, before, t.associations, destination, todo, rest, d, inserted, n);
      inserted, rest := inserted + n, rest - {d};
    }
    assert todo - rest == todo;
  }

  /** INSERT one row ON CONFLICT DO NOTHING. */
  method InsertOne(t: TagTables, d: DocId, i: TagId) returns (n: int)
    requires RowsOk(t.tags, t.associations, t.nextAssociation, t.documents) && d in t.documents && i in t.tags
    modifies t`associations, t`nextAssociation
    ensures RowsOk(t.tags, t.associations, t.nextAssociation, t.documents)
            && Extension(old(t.associations), t.associations, i)
    ensures Holders(t.associations, i) == Holders(old(t.associations), i) + {d}
    ensures n == (if d in Holders(old(t.associations), i) then 0 else 1)
            && |t.associations| == |old(t.associations)| + n
  {
    if d in Holders(t.associations, i) {
      return 0;
    }
    RowAdded(t.tags, t.associations, t.nextAssociation, t.documents, d, i);
    t.associations, t.nextAssociation := t.associations[t.nextAssociation := (d, i)], t.nextAssociation + 1;
    n := 1;
  }

  /** Only rows of tag `i` were added. */
  ghost predicate Extension(was: AssociationTable, now: AssociationTable, i: TagId) {
    && (forall a | a in was :: a in now && now[a] == was[a])
    && forall a | a in now && a !in was :: now[a].1 == i
  }

  /** Tag `i` was added to all documents in `done`, by `inserted` new rows. */
  ghost predicate Added(was: AssociationTable, now: AssociationTable, i: TagId, done: set<DocId>, inserted: int) {
    && Extension(was, now, i) && Holders(now, i) == Holders(was, i) + done
    && |now| == |was| + inserted && inserted == |done - Holders(was, i)|
  }

  lemma NothingAdded(was: AssociationTable, i: TagId)
    ensures Added(was, was, i, {}, 0)
  {
  }

  lemma AddedOneMore(was: AssociationTable, before: AssociationTable, now: AssociationTable, i: TagId, todo: set<DocId>,
                     rest: set<DocId>,
                     d: DocId, inserted: int, n: int)
    requires Added(was, before, i, todo - rest, inserted) && d in rest && rest <= todo
    requires Extension(before, now, i) && Holders(now, i) == Holders(before, i) + {d}
    requires n == (if d in Holders(before, i) then 0 else 1) && |now| == |before| + n
    ensures Added(was, now, i, todo - (rest - {d}), inserted + n)
  {
    CountOneMore(todo - rest, d, Holders(was, i));
    OneLeft(todo, rest, d, Holders(was, i));
    ExtensionTransitive(was, before, now, i);
    hide Holders, Extension;
    assert Holders(now, i) == Holders(was, i) + (todo - rest) + {d};
  }

  lemma ExtensionTransitive(a: AssociationTable, b: AssociationTable, c: AssociationTable, i: TagId)
    requires Extension(a, b, i) && Extension(b, c, i)
    ensures Extension(a, c, i)
  {
  }

  lemma OneLeft(todo: set<DocId>, rest: set<DocId>, d: DocId, have: set<DocId>)
    requires d in rest && rest <= todo
    ensures todo - (rest - {d}) == todo - rest + {d}
    ensures have + (todo - rest) + {d} == have + (todo - rest + {d})
  {
  }

  lemma RowAdded(tags: map<TagId, Tag>, associations: AssociationTable, next: int, documents: map<DocId, nat>, d: DocId,
                 i: TagId)
    requires RowsOk(tags, associations, next, documents) && d in documents && i in tags
             && d !in Holders(associations, i)
    ensures var now := associations[next := (d, i)];
            && next !in associations && |now| == |associations| + 1
            && RowsOk(tags, now, next + 1, documents) && Extension(associations, now, i)
            && Holders(now, i) == Holders(associations, i) + {d}
  {
    var now := associations[next := (d, i)];
    assert now.Keys == associations.Keys + {next};
    assert now[next] == (d, i);
    forall e | e in Holders(associations, i)
      ensures e in Holders(now, i)
    {
      var a :| a in associations && associations[a] == (e, i);
      assert now[a] == (e, i);
    }
  }

  /** Delete the rows of a tag. */
  function Without(associations: AssociationTable, i: TagId): AssociationTable {
    map a | a in associations && associations[a].1 != i :: associations[a]
  }

  lemma DeletesRows(was: AssociationTable, now: AssociationTable, source: TagId, destination: TagId, inserted: int)
    requires UniquePairs(was) && source != destination
    requires Added(was, now, destination, Holders(was, source), inserted)
    ensures |now| - |Without(now, source)| == |Holders(was, source)|
    ensures Merged(was, Without(now, source), source, destination)
  {
    forall a
      ensures a in RowsOf(now, source) <==> a in RowsOf(was, source)
    {
      assert a in now && a !in was ==> now[a].1 == destination;
    }
    OneRowEach(was, RowsOf(was, source), source);
    assert Holders(was, source) == set a | a in RowsOf(was, source) :: was[a].0;
    var rows := RowsOf(now, source);
    assert rows == RowsOf(was, source) && rows <= now.Keys;
    assert Without(now, source).Keys == now.Keys - rows;
    assert |Without(now, source)| == |now.Keys - rows| && |now.Keys| == |now.Keys - rows| + |rows|;
    forall d
      ensures TagsOf(Without(now, source), d) == MergedTags(TagsOf(was, d), source, destination)
    {
      MergedDocument(was, now, source, destination, inserted, d);
    }
  }

  lemma MergedDocument(was: AssociationTable, now: AssociationTable, source: TagId, destination: TagId, inserted: int,
                       d: DocId)
    requires source != destination && Added(was, now, destination, Holders(was, source), inserted)
    ensures TagsOf(Without(now, source), d) == MergedTags(TagsOf(was, d), source, destination)
  {
    var after := Without(now, source);
    HoldersAre(was, source, d);
    HoldersAre(was, destination, d);
    HoldersAre(now, destination, d);
    forall i
      ensures i in TagsOf(after, d) <==> i in MergedTags(TagsOf(was, d), source, destination)
    {
      if i in TagsOf(after, d) {
        var a :| a in after && after[a] == (d, i);
        assert a in now && (a in was ==> was[a] == (d, i));
      }
      if i in MergedTags(TagsOf(was, d), source, destination) {
        if i == destination {
          var a :| a in now && now[a] == (d, i);
          assert a in after;
        } else {
          var a :| a in was && was[a] == (d, i);
          assert a in after;
        }
      }
    }
  }

  /** Both tags are still there and the plan says what is true. */
  ghost predicate UpToDate(plan: MergePlan, tags: map<TagId, Tag>, associations: AssociationTable,
                           documents: map<DocId, nat>) {
    plan.source in tags && plan.destination in tags && PlanFits(plan, associations, documents)
  }

  /** Apply a reviewed merge, in one transaction. It does what the plan counts,
      or nothing; its postcondition checks cannot fail. */
  method ApplyMerge(t: TagTables, reviewed: MergePlan, now: Instant) returns (r: Result<int, Failure>)
    requires t.Valid()
    modifies t
    ensures t.Valid()
    ensures r.Ok? ==>
              && PlanFits(reviewed, old(t.associations), old(t.documents)) && reviewed.source != reviewed.destination
              && Merged(old(t.associations), t.associations, reviewed.source, reviewed.destination)
              && reviewed.adds + reviewed.collapses == reviewed.removes == r.value == |reviewed.affected|
              && |t.associations| == |old(t.associations)| - reviewed.collapses
              && t.tags == old(t.tags) - {reviewed.source} && reviewed.destination in t.tags
              && t.documents == RaisedVersions(old(t.documents), Holders(old(t.associations), reviewed.source), now)
              && (forall d | d in Holders(old(t.associations), reviewed.source) :: old(t.documents)[d] < MaxSafe)
              && Risen(old(t.documents), t.documents, Holders(old(t.associations), reviewed.source), now)
              && (forall d, i :: i in TagsOf(t.associations, d) <==>
                    (i != reviewed.source && i in TagsOf(old(t.associations), d))
                    || (i == reviewed.destination && reviewed.source in TagsOf(old(t.associations), d)))
    ensures r.Err? ==> t.associations == old(t.associations) && t.tags == old(t.tags) && t.documents == old(t.documents)
    ensures r == Err(PreviewStale) <==> !UpToDate(reviewed, old(t.tags), old(t.associations), old(t.documents))
    ensures r == Err(SourceDestinationSame) <==>
              UpToDate(reviewed, old(t.tags), old(t.associations), old(t.documents))
              && reviewed.source == reviewed.destination
    ensures r == Err(TransactionFailed) <==>
              && UpToDate(reviewed, old(t.tags), old(t.associations), old(t.documents))
              && reviewed.source != reviewed.destination
              && exists d | d in Holders(old(t.associations), reviewed.source) ::
                   d in old(t.documents) && old(t.documents)[d] >= MaxSafe
  {
    var source, destination := reviewed.source, reviewed.destination;
    if source !in t.tags || destination !in t.tags {
      return Err(PreviewStale);
    }
    var plan := BuildMergePlan(t, source, destination);
    if plan != reviewed {
      if PlanFits(reviewed, t.associations, t.documents) {
        PlanIsUnique(plan, reviewed, t.associations, t.documents);
      }
      return Err(PreviewStale);
    }
    if source == destination {
      return Err(SourceDestinationSame);
    }
    var holders := Holders(t.associations, source);
    if exists d | d in holders :: d in t.documents && t.documents[d] >= MaxSafe {
      return Err(TransactionFailed);
    }
    assert holders <= t.documents.Keys;
    FitsSize(plan, t.associations, t.documents);
    RaisedRise(t.documents, holders, now);
    hide PlanFits, Merged, Without, Holders, Risen, RaisedVersions, TagsOf, UpToDate;
    Mutate(t, plan, holders, now);
    MergedMeans(old(t.associations), t.associations, source, destination);
    r := Ok(|plan.affected|);
  }

  /** The statements of a merge: versions, associations, the tag itself. Each
      changes as many rows as the plan counts. */
  method Mutate(t: TagTables, plan: MergePlan, holders: set<DocId>, now: Instant)
    requires t.Valid() && PlanFits(plan, t.associations, t.documents)
    requires plan.source in t.tags && plan.destination in t.tags && plan.source != plan.destination
    requires holders == Holders(t.associations, plan.source) && holders <= t.documents.Keys
    modifies t
    ensures t.Valid() && t.tags == old(t.tags) - {plan.source}
    ensures t.documents == RaisedVersions(old(t.documents), holders, now)
    ensures Merged(old(t.associations), t.associations, plan.source, plan.destination)
    ensures |t.associations| == |old(t.associations)| - plan.collapses
  {
    RaisingKeepsRows(t.tags, t.associations, t.nextAssociation, t.documents, holders, now);
    ghost var documents0 := t.documents;
    t.documents := RaisedVersions(t.documents, holders, now);
    hide PlanFits, Merged, Holders, RaisedVersions, RowsOk, TagsOk;
    ReplaceTag(t, plan, holders, documents0);
  }

  /** INSERT the destination's rows, DELETE the source's rows and the source. */
  method ReplaceTag(t: TagTables, plan: MergePlan, holders: set<DocId>, ghost documents0: map<DocId, nat>)
    requires t.Valid() && PlanFits(plan, t.associations, documents0)
    requires plan.source in t.tags && plan.destination in t.tags && plan.source != plan.destination
    requires holders == Holders(t.associations, plan.source) && holders <= t.documents.Keys
    modifies t`tags, t`associations, t`nextAssociation
    ensures t.Valid() && t.tags == old(t.tags) - {plan.source}
    ensures Merged(old(t.associations), t.associations, plan.source, plan.destination)
    ensures |t.associations| == |old(t.associations)| - plan.collapses
  {
    ghost var was := t.associations;
    StillOk(t.tags, t.nextTag, plan.source);
    assert UniquePairs(was);
    hide PlanFits, Merged, Without, Holders, RowsOk, TagsOk, Added, UniquePairs;
    var inserted := InsertDestination(t, holders, plan.destination);
    Counted(plan, was, documents0, t.associations, inserted);
    assert inserted == plan.adds;
    var removed := DeleteSource(t, was, plan.source, plan.destination, inserted);
    assert removed == plan.removes;
  }

  /** DELETE the source's rows and the source. */
  method DeleteSource(t: TagTables, ghost was: AssociationTable, source: TagId, destination: TagId, ghost inserted: int)
    returns (removed: int)
    requires TagsOk(t.tags - {source}, t.nextTag) && RowsOk(t.tags, t.associations, t.nextAssociation, t.documents)
    requires UniquePairs(was) && source != destination
             && Added(was, t.associations, destination, Holders(was, source), inserted)
    modifies t`tags, t`associations
    ensures t.Valid() && t.tags == old(t.tags) - {source}
    ensures Merged(was, t.associations, source, destination)
    ensures removed == |Holders(was, source)| && |t.associations| == |old(t.associations)| - removed
  {
    DeletesRows(was, t.associations, source, destination, inserted);
    DeletingKeepsRows(t.tags, t.associations, t.nextAssociation, t.documents, source);
    hide Merged, Without, Holders, RowsOk, TagsOk, Added, UniquePairs;
    removed := |t.associations| - |Without(t.associations, source)|;
    t.associations := Without(t.associations, source);
    t.tags := t.tags - {source};
  }

  lemma Counted(plan: MergePlan, was: AssociationTable, documents: map<DocId, nat>, now: AssociationTable,
                inserted: int)
    requires plan.source != plan.destination && PlanFits(plan, was, documents)
             && Added(was, now, plan.destination, Holders(was, plan.source), inserted)
    ensures plan.adds + plan.collapses == plan.removes == |Holders(was, plan.source)|
    ensures inserted == plan.adds && |now| == |was| + plan.adds
  {
    SplitSizes(Holders(was, plan.source), Holders(was, plan.destination));
  }

  lemma RaisedRise(documents: map<DocId, nat>, holders: set<DocId>, now: Instant)
    requires forall d | d in holders && d in documents :: documents[d] < MaxSafe
    ensures Risen(documents, RaisedVersions(documents, holders, now), holders, now)
  {
  }

  lemma MergedMeans(was: AssociationTable, now: AssociationTable, source: TagId, destination: TagId)
    requires Merged(was, now, source, destination) && source != destination
    ensures forall d, i :: i in TagsOf(now, d) <==>
              (i != source && i in TagsOf(was, d)) || (i == destination && source in TagsOf(was, d))
  {
    hide TagsOf;
    forall d, i
      ensures i in TagsOf(now, d) <==>
                (i != source && i in TagsOf(was, d)) || (i == destination && source in TagsOf(was, d))
    {
      assert TagsOf(now, d) == MergedTags(TagsOf(was, d), source, destination);
    }
  }

  lemma RaisingKeepsRows(tags: map<TagId, Tag>, associations: AssociationTable, next: int, documents: map<DocId, nat>,
                         holders: set<DocId>, now: Instant)
    requires RowsOk(tags, associations, next, documents)
    ensures RowsOk(tags, associations, next, RaisedVersions(documents, holders, now))
    ensures RaisedVersions(documents, holders, now).Keys == documents.Keys
  {
  }

  lemma DeletingKeepsRows(tags: map<TagId, Tag>, associations: AssociationTable, next: int, documents: map<DocId, nat>,
                          i: TagId)
    requires RowsOk(tags, associations, next, documents)
    ensures RowsOk(tags - {i}, Without(associations, i), next, documents)
  {
  }

  lemma StillOk(tags: map<TagId, Tag>, next: TagId, i: TagId)
    requires TagsOk(tags, next)
    ensures TagsOk(tags - {i}, next)
  {
  }

  lemma SplitSizes(all: set<DocId>, have: set<DocId>)
    ensures |all - have| + |all * have| == |all|
  {
    assert all == (all - have) + (all * have);
  }

  lemma FitsSize(plan: MergePlan, associations: AssociationTable, documents: map<DocId, nat>)
    requires plan.source != plan.destination && PlanFits(plan, associations, documents)
    ensures plan.adds + plan.collapses == plan.removes == |plan.affected| == |Holders(associations, plan.source)|
  {
    AscendingSize(Ids(plan));
    assert (set d | d in Ids(plan)) == Holders(associations, plan.source);
    SplitSizes(Holders(associations, plan.source), Holders(associations, plan.destination));
  }
}
