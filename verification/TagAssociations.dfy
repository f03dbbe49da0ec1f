/** The association table between documents and tags, and the two mutations
    that must be exact about it: replacing one document's tags by difference,
    and merging one tag into another. */
module TagAssociations {
  import opened Wrappers
  import opened Documents
  import opened Collections
  import opened MetadataVersion
  import opened TagCollapse

  /** A requested tag after normalization. */
  datatype NormalizedTag = NormalizedTag(display: string, normalized: string)

  type AssociationTable = map<int, (DocId, TagId)>

  function IdsOf(associations: AssociationTable, d: DocId): set<int> {
    set a | a in associations && associations[a].0 == d
  }

  function TagsOf(associations: AssociationTable, d: DocId): set<TagId> {
    set a | a in associations && associations[a].0 == d :: associations[a].1
  }

  /** The identities of a document's tags. */
  function IdentitiesOf(tags: map<TagId, Tag>, associations: AssociationTable, d: DocId): set<string> {
    set a | a in associations && associations[a].0 == d && associations[a].1 in tags ::
      tags[associations[a].1].normalized
  }

  function Requested(tags: seq<NormalizedTag>): set<string> {
    set t | t in tags :: t.normalized
  }

  ghost predicate UniquePairs(associations: AssociationTable) {
    forall a, b | a in associations && b in associations && a != b :: associations[a] != associations[b]
  }

  /** Rows of other documents are the same in both. */
  ghost predicate OthersKept(was: AssociationTable, now: AssociationTable, d: DocId) {
    forall a :: (a in was && was[a].0 != d) || (a in now && now[a].0 != d) ==> a in was && a in now && now[a] == was[a]
  }

  /** Ids below the next one, and identities unique. */
  ghost predicate TagsOk(tags: map<TagId, Tag>, next: TagId) {
    UniqueIdentities(tags) && forall i | i in tags :: i < next
  }

  ghost predicate RowsOk(tags: map<TagId, Tag>, associations: AssociationTable, next: int, documents: map<DocId, nat>) {
    && UniquePairs(associations) && (forall a | a in associations :: a < next)
    && forall a | a in associations :: associations[a].0 in documents && associations[a].1 in tags
  }

  predicate Named(tags: map<TagId, Tag>, name: string) {
    exists i | i in tags :: tags[i].normalized == name
  }

  ghost predicate Extends(tags: map<TagId, Tag>, tags': map<TagId, Tag>) {
    forall i | i in tags :: i in tags' && tags'[i] == tags[i]
  }

  datatype SetDiff = SetDiff(kept: seq<int>, added: seq<int>, removed: seq<int>)

  class TagTables {
    var tags: map<TagId, Tag>
    var nextTag: TagId
    var associations: AssociationTable
    var nextAssociation: int
    var documents: map<DocId, nat>

    ghost predicate Valid()
      reads this
    {
      TagsOk(tags, nextTag) && RowsOk(tags, associations, nextAssociation, documents)
    }

    /** INSERT ... ON CONFLICT(normalized_name) DO NOTHING for every tag. */
    method InsertOrGetTags(requested: seq<NormalizedTag>)
      requires TagsOk(tags, nextTag)
      modifies this`tags, this`nextTag
      ensures TagsOk(tags, nextTag) && Extends(old(tags), tags)
      ensures forall t | t in requested :: Named(tags, t.normalized)
      ensures forall i | i in tags && i !in old(tags) ::
                NormalizedTag(tags[i].name, tags[i].normalized) in requested
    {
      for n := 0 to |requested|
        invariant TagsOk(tags, nextTag) && Extends(old(tags), tags)
        invariant forall m | 0 <= m < n :: Named(tags, requested[m].normalized)
        invariant forall i | i in tags && i !in old(tags) ::
                    NormalizedTag(tags[i].name, tags[i].normalized) in requested
      {
        var t := requested[n];
        if !Named(tags, t.normalized) {
          StaysNamed(tags, nextTag, Tag(t.display, t.normalized));
          hide Named;
          tags, nextTag := tags[nextTag := Tag(t.display, t.normalized)], nextTag + 1;
        }
      }
    }

    /** The tag of every requested identity. */
    method RequestedIds(requested: seq<NormalizedTag>) returns (ids: map<string, TagId>)
      requires forall t | t in requested :: Named(tags, t.normalized)
      ensures ids.Keys == Requested(requested)
      ensures forall name | name in ids :: ids[name] in tags && tags[ids[name]].normalized == name
    {
      ids := map[];
      for n := 0 to |requested|
        invariant ids.Keys == set t | t in requested[..n] :: t.normalized
        invariant forall name | name in ids :: ids[name] in tags && tags[ids[name]].normalized == name
      {
        var t := requested[n];
        assert t in requested && Named(tags, t.normalized);
        var i :| i in tags && tags[i].normalized == t.normalized;
        ids := ids[t.normalized := i];
        assert requested[..n + 1] == requested[..n] + [t];
      }
      assert requested[..|requested|] == requested;
    }

    /** Drop the document's rows that are not requested any more. */
    method DeleteUnrequested(d: DocId, ids: map<string, TagId>) returns (kept: seq<int>, removed: seq<int>)
      requires RowsOk(tags, associations, nextAssociation, documents)
      modifies this`associations
      ensures RowsOk(tags, associations, nextAssociation, documents) && Distinct(kept) && Distinct(removed)
      ensures forall a :: a in kept <==>
                a in IdsOf(old(associations), d) && tags[old(associations)[a].1].normalized in ids
      ensures forall a :: a in removed <==>
                a in IdsOf(old(associations), d) && tags[old(associations)[a].1].normalized !in ids
      ensures associations == old(associations) - set a | a in removed
    {
      var todo := IdsOf(associations, d);
      kept, removed := [], [];
      while todo != {}
        invariant RowsOk(tags, associations, nextAssociation, documents) && Distinct(kept) && Distinct(removed)
                  && todo <= IdsOf(old(associations), d)
        invariant forall a :: a in kept <==>
                    a in IdsOf(old(associations), d) && a !in todo && tags[old(associations)[a].1].normalized in ids
        invariant forall a :: a in removed <==>
                    a in IdsOf(old(associations), d) && a !in todo && tags[old(associations)[a].1].normalized !in ids
        invariant associations == old(associations) - set a | a in removed
      {
        Inhabited(todo);
        var a :| a in todo;
        assert a !in removed && a !in kept;
        if tags[associations[a].1].normalized in ids {
          kept := kept + [a];
        } else {
          associations := associations - {a};
          removed := removed + [a];
        }
        todo := todo - {a};
      }
    }

    /** Add the document's requested rows that it does not have yet. */
    method InsertMissing(d: DocId, ids: map<string, TagId>) returns (added: seq<int>)
      requires TagsOk(tags, nextTag) && RowsOk(tags, associations, nextAssociation, documents) && d in documents
      requires forall name | name in ids :: ids[name] in tags && tags[ids[name]].normalized == name
      requires IdentitiesOf(tags, associations, d) <= ids.Keys
      modifies this`associations, this`nextAssociation
      ensures RowsOk(tags, associations, nextAssociation, documents)
      ensures NewRows(old(associations), old(nextAssociation), associations, nextAssociation, d, added)
      ensures IdentitiesOf(tags, associations, d) == ids.Keys
    {
      var todo := ids.Keys - IdentitiesOf(tags, associations, d);
      added := [];
      while todo != {}
        invariant RowsOk(tags, associations, nextAssociation, documents) && todo <= ids.Keys
        invariant NewRows(old(associations), old(nextAssociation), associations, nextAssociation, d, added)
        invariant IdentitiesOf(tags, associations, d) == ids.Keys - todo
      {
        var name :| name in todo;
        RowInserted(tags, associations, nextAssociation, documents, d, ids[name]);
        NewRowsMore(old(associations), old(nextAssociation), associations, nextAssociation, d, added, ids[name]);
        hide IdentitiesOf, UniqueIdentities, RowsOk, NewRows;
        associations, nextAssociation := associations[nextAssociation := (d, ids[name])], nextAssociation + 1;
        added := added + [nextAssociation - 1];
        todo := todo - {name};
      }
    }

    /** Give a document exactly the requested tags. Rows that stay keep their
        id, and the difference names every row, old and new, once. */
    method ApplyDocumentTagsSetDiff(d: DocId, requested: seq<NormalizedTag>) returns (diff: SetDiff)
      requires Valid() && d in documents
      modifies this`tags, this`nextTag, this`associations, this`nextAssociation
      ensures Valid()
      ensures IdentitiesOf(tags, associations, d) == Requested(requested)
      ensures forall i | i in old(tags) :: i in tags && tags[i] == old(tags)[i]
      ensures forall i | i in tags && i !in old(tags) ::
                NormalizedTag(tags[i].name, tags[i].normalized) in requested
      ensures ExactDiff(old(associations), associations, d, diff)
      ensures forall a | a in old(associations) && old(associations)[a].0 == d && old(associations)[a].1 in tags ::
                a in diff.kept <==> tags[old(associations)[a].1].normalized in Requested(requested)
    {
      InsertOrGetTags(requested);
      var ids := RequestedIds(requested);
      ghost var was := associations;
      var kept, removed := DeleteUnrequested(d, ids);
      KeptIdentities(tags, was, associations, d, ids.Keys, removed);
      ghost var mid, next := associations, nextAssociation;
      var added := InsertMissing(d, ids);
      diff := SetDiff(kept, added, removed);
      DiffIsExact(was, mid, associations, next, d, diff);
    }
  }

  /** `added` lists the rows the document got, each under a new id. */
  ghost predicate NewRows(was: AssociationTable, next: int, now: AssociationTable, next': int, d: DocId,
                          added: seq<int>) {
    && Distinct(added) && next <= next'
    && (forall a | a in was :: a in now && now[a] == was[a])
    && (forall a :: a in added <==> a in now && a !in was)
    && forall a | a in added :: now[a].0 == d && next <= a < next'
  }

  lemma NewRowsMore(was: AssociationTable, next: int, now: AssociationTable, next': int, d: DocId, added: seq<int>,
                    i: TagId)
    requires NewRows(was, next, now, next', d, added) && next' !in now
    ensures NewRows(was, next, now[next' := (d, i)], next' + 1, d, added + [next'])
  {
    var longer := added + [next'];
    forall a
      ensures a in longer <==> a in added || a == next'
    {
    }
  }

  /** `diff` names every row of the document, before and after, exactly once;
      rows that stay are the same, and nobody else's rows change. */
  ghost predicate ExactDiff(was: AssociationTable, now: AssociationTable, d: DocId, diff: SetDiff) {
    && Distinct(diff.kept) && Distinct(diff.added) && Distinct(diff.removed)
    && (forall a :: a in IdsOf(was, d) <==> a in diff.kept || a in diff.removed)
    && (forall a :: a in IdsOf(now, d) <==> a in diff.kept || a in diff.added)
    && (forall a | a in diff.kept :: a in was && a in now && now[a] == was[a] && a !in diff.removed && a !in diff.added)
    && (forall a | a in diff.added :: a !in was)
    && OthersKept(was, now, d)
  }

  lemma DiffIsExact(was: AssociationTable, mid: AssociationTable, now: AssociationTable, next: int, d: DocId,
                    diff: SetDiff)
    requires Distinct(diff.kept) && Distinct(diff.added) && Distinct(diff.removed)
    requires forall a | a in was :: a < next
    requires forall a :: a in IdsOf(was, d) <==> a in diff.kept || a in diff.removed
    requires forall a | a in diff.kept :: a !in diff.removed
    requires mid == was - set a | a in diff.removed
    requires forall a | a in mid :: a in now && now[a] == mid[a]
    requires forall a :: a in diff.added <==> a in now && a !in mid
    requires forall a | a in diff.added :: now[a].0 == d && a >= next
    ensures ExactDiff(was, now, d, diff)
  {
  }

  lemma KeptIdentities(tags: map<TagId, Tag>, was: AssociationTable, mid: AssociationTable, d: DocId,
                       names: set<string>, removed: seq<int>)
    requires forall a | a in was :: was[a].1 in tags
    requires mid == was - set a | a in removed
    requires forall a :: a in removed <==> a in IdsOf(was, d) && tags[was[a].1].normalized !in names
    ensures IdentitiesOf(tags, mid, d) <= names
  {
  }

  lemma StaysNamed(tags: map<TagId, Tag>, next: TagId, tag: Tag)
    requires TagsOk(tags, next)
    ensures forall name | Named(tags, name) :: Named(tags[next := tag], name)
    ensures Named(tags[next := tag], tag.normalized)
    ensures !Named(tags, tag.normalized) ==> TagsOk(tags[next := tag], next + 1)
  {
    var now := tags[next := tag];
    assert now[next].normalized == tag.normalized;
    forall name | Named(tags, name)
      ensures Named(now, name)
    {
      var i :| i in tags && tags[i].normalized == name;
      assert now[i].normalized == name;
    }
  }

  lemma RowInserted(tags: map<TagId, Tag>, associations: AssociationTable, next: int, documents: map<DocId, nat>,
                    d: DocId, i: TagId)
    requires RowsOk(tags, associations, next, documents) && d in documents
    requires i in tags && tags[i].normalized !in IdentitiesOf(tags, associations, d)
    ensures next !in associations && RowsOk(tags, associations[next := (d, i)], next + 1, documents)
    ensures IdentitiesOf(tags, associations[next := (d, i)], d)
            == IdentitiesOf(tags, associations, d) + {tags[i].normalized}
  {
    InsertsIdentity(tags, associations, next, d, i);
  }

  lemma InsertsIdentity(tags: map<TagId, Tag>, associations: AssociationTable, a: int, d: DocId, i: TagId)
    requires a !in associations && i in tags
    ensures IdentitiesOf(tags, associations[a := (d, i)], d)
            == IdentitiesOf(tags, associations, d) + {tags[i].normalized}
  {
    var now := associations[a := (d, i)];
    forall b | b in associations
      ensures now[b] == associations[b]
    {
    }
    assert now[a] == (d, i);
    forall name | name in IdentitiesOf(tags, associations, d)
      ensures name in IdentitiesOf(tags, now, d)
    {
      var b :| b in associations && associations[b].0 == d && associations[b].1 in tags
          && name == tags[associations[b].1].normalized;
      assert now[b] == associations[b];
    }
  }
}
