/** The startup migration that collapses colliding tag identities, one row at a
    time, in one transaction. */
module TagIdentityMigration {
  import opened Wrappers
  import opened Documents
  import opened Decimals
  import opened MetadataVersion
  import opened TagCollapse

  datatype Failure = InvalidTag | NamespaceCollision | UniqueViolation | Overflow

  datatype Report = Report(rowsScanned: int, associationsMoved: int, associationsCollapsed: int,
                           documentsVersioned: int)

  /** The staged name of a row. */
  function Staged(namespace: string, id: TagId): string {
    namespace + Digits(id)
  }

  /** No random namespace yields the identity of a tag. */
  ghost predicate Fresh(v: Validator, tags: map<TagId, Tag>, namespaces: nat -> string)
    requires AllValid(v, tags)
  {
    forall i, id, other | other in tags :: Staged(namespaces(i), id) != Identity(v, tags, other)
  }

  /** A temporary name is taken already, or would be given to two rows. */
  ghost predicate Collides(tags: map<TagId, Tag>, namespaces: nat -> string) {
    exists i, id, other | id in tags && other in tags :: Clash(tags, namespaces, i, id, other)
  }

  ghost predicate Clash(tags: map<TagId, Tag>, namespaces: nat -> string, i: nat, id: TagId, other: TagId)
    requires other in tags
  {
    || tags[other].normalized == Staged(namespaces(i), id)
    || exists j: nat :: (j, other) != (i, id) && Staged(namespaces(j), other) == Staged(namespaces(i), id)
  }

  /** The rows while groups are finished: those in `done` are collapsed, the
      others still wait under their staged names, if they have one. */
  function MidTags(v: Validator, was: map<TagId, Tag>, staged: map<TagId, string>, done: set<TagId>): map<TagId, Tag>
    requires AllValid(v, was)
  {
    map id | id in was && (id in done ==> Survives(v, was, id)) ::
      if id in done then Tag(CanonicalOf(v, was, id).display, CanonicalOf(v, was, id).identity)
      else if id in staged then was[id].(normalized := staged[id])
      else was[id]
  }

  ghost function MidAssociations(v: Validator, was: map<TagId, Tag>, associations: Associations,
                                 done: set<TagId>): Associations
    requires AllValid(v, was) && forall a | a in associations :: a.1 in was
  {
    set a | a in associations :: (a.0, if a.1 in done then SurvivorOf(v, was, a.1) else a.1)
  }

  /** The losing associations of the groups in `done`. */
  function LosingOf(v: Validator, was: map<TagId, Tag>, associations: Associations, done: set<TagId>): Associations
    requires AllValid(v, was)
  {
    set a | a in Losing(v, was, associations) && a.1 in done
  }

  function Rows(g: Group): set<TagId> {
    set id | id in g.rows
  }

  /** A group is staged unless it is one tag that is canonical already. */
  predicate NeedsStaging(v: Validator, was: map<TagId, Tag>, g: Group)
    requires AllValid(v, was) && forall id | id in g.rows :: id in was
  {
    |g.rows| > 1 || exists id | id in g.rows ::
        Tag(CanonicalOf(v, was, id).display, CanonicalOf(v, was, id).identity) != was[id]
  }

  lemma GroupSurvivor(v: Validator, was: map<TagId, Tag>, groups: seq<Group>, i: nat, id: TagId)
    requires AllValid(v, was) && Grouping(v, was, groups, was.Keys) && i < |groups| && id in groups[i].rows
    ensures id in was && SurvivorOf(v, was, id) == groups[i].rows[0]
            && (Survives(v, was, id) <==> id == groups[i].rows[0])
  {
    var g := groups[i];
    assert GroupOk(v, was, g);
    forall other | other in was && Identity(v, was, other) == g.identity
      ensures other in g.rows && g.rows[0] <= other
    {
      var j :| 0 <= j < |groups| && other in groups[j].rows;
      assert GroupOk(v, was, groups[j]);
      assert j == i;
    }
  }

  /** INSERT OR IGNORE the survivor wherever the group has a tag. */
  function Repoint(associations: Associations, g: Group): Associations
    requires g.rows != []
  {
    associations + set a | a in associations && a.1 in g.rows :: (a.0, g.rows[0])
  }

  function LosingRows(associations: Associations, g: Group): Associations
    requires g.rows != []
  {
    set a | a in associations && a.1 in g.rows[1..]
  }

  /** The first row of a group is where all its rows collapse to. */
  ghost predicate Rooted(v: Validator, was: map<TagId, Tag>, g: Group)
    requires AllValid(v, was)
  {
    && g.rows != [] && Rows(g) <= was.Keys
    && (forall id | id in g.rows :: SurvivorOf(v, was, id) == g.rows[0])
    && (forall id | id in g.rows :: Survives(v, was, id) <==> id == g.rows[0])
    && (forall id | id in g.rows :: id in g.rows[1..] <==> id != g.rows[0])
  }

  ghost predicate Agree(a: Associations, b: Associations, rows: set<TagId>) {
    forall d, id | id in rows :: (d, id) in a <==> (d, id) in b
  }

  /** A group that is not finished: its associations are still the original ones. */
  ghost predicate Pending(v: Validator, was: map<TagId, Tag>, associations: Associations, done: set<TagId>, g: Group)
    requires AllValid(v, was) && forall a | a in associations :: a.1 in was
  {
    Rooted(v, was, g) && Rows(g) !! done && Agree(MidAssociations(v, was, associations, done), associations, Rows(g))
  }

  lemma GroupIsRooted(v: Validator, was: map<TagId, Tag>, groups: seq<Group>, i: nat)
    requires AllValid(v, was) && Grouping(v, was, groups, was.Keys) && i < |groups|
    ensures Rooted(v, was, groups[i])
  {
    var g := groups[i];
    assert GroupOk(v, was, g);
    forall id | id in g.rows
      ensures SurvivorOf(v, was, id) == g.rows[0] && (Survives(v, was, id) <==> id == g.rows[0])
              && (id in g.rows[1..] <==> id != g.rows[0])
    {
      GroupSurvivor(v, was, groups, i, id);
    }
  }

  lemma StillOriginal(v: Validator, was: map<TagId, Tag>, associations: Associations, done: set<TagId>,
                      rows: set<TagId>)
    requires AllValid(v, was) && (forall a | a in associations :: a.1 in was) && rows !! done
    requires forall id | id in done :: id in was && SurvivorOf(v, was, id) in done
    ensures Agree(MidAssociations(v, was, associations, done), associations, rows)
  {
    hide Survives, SurvivorOf, Identity, CanonicalOf;
    var now := MidAssociations(v, was, associations, done);
    forall d, id | id in rows
      ensures (d, id) in now <==> (d, id) in associations
    {
      if (d, id) in associations {
        assert (d, id) in now;
      }
      if (d, id) in now {
        var b :| b in associations && (d, id) == (b.0, if b.1 in done then SurvivorOf(v, was, b.1) else b.1);
      }
    }
  }

  /** Repointing a group and deleting its losing rows finishes it. */
  lemma NextAssociations(v: Validator, was: map<TagId, Tag>, associations: Associations, done: set<TagId>, g: Group)
    requires AllValid(v, was) && (forall a | a in associations :: a.1 in was) && Pending(v, was, associations, done, g)
    ensures var now := MidAssociations(v, was, associations, done);
            && LosingRows(Repoint(now, g), g) == LosingRows(now, g)
            && Repoint(now, g) - LosingRows(now, g) == MidAssociations(v, was, associations, done + Rows(g))
  {
    hide Survives, SurvivorOf, Identity, CanonicalOf;
    var now, next := MidAssociations(v, was, associations, done), MidAssociations(v, was, associations, done + Rows(g));
    forall d, s
      ensures (d, s) in Repoint(now, g) - LosingRows(now, g) <==> (d, s) in next
    {
      if (d, s) in Repoint(now, g) - LosingRows(now, g) {
        if (d, s) in now && s !in g.rows {
          var b :| b in associations && (d, s) == (b.0, if b.1 in done then SurvivorOf(v, was, b.1) else b.1);
          assert (d, s) == (b.0, if b.1 in done + Rows(g) then SurvivorOf(v, was, b.1) else b.1);
        } else {
          var t :| t in g.rows && (d, t) in now;
          assert (d, t) in associations && s == g.rows[0];
        }
      }
      if (d, s) in next {
        var b :| b in associations && (d, s) == (b.0, if b.1 in done + Rows(g) then SurvivorOf(v, was, b.1) else b.1);
        assert b == (d, b.1);
        if b.1 in g.rows {
          assert (d, b.1) in now;
        } else {
          assert (d, s) in now;
        }
      }
    }
  }

  lemma LosingSplits(v: Validator, was: map<TagId, Tag>, associations: Associations, done: set<TagId>, g: Group)
    requires AllValid(v, was) && (forall a | a in associations :: a.1 in was) && Pending(v, was, associations, done, g)
    ensures var losing := LosingRows(MidAssociations(v, was, associations, done), g);
            |LosingOf(v, was, associations, done + Rows(g))| == |LosingOf(v, was, associations, done)| + |losing|
  {
    var losing := LosingRows(MidAssociations(v, was, associations, done), g);
    hide Survives, SurvivorOf, Identity, CanonicalOf, MidAssociations;
    forall d, id
      ensures (d, id) in losing <==> (d, id) in LosingOf(v, was, associations, Rows(g))
    {
    }
    assert losing == LosingOf(v, was, associations, Rows(g));
    assert LosingOf(v, was, associations, done + Rows(g)) == LosingOf(v, was, associations, done) + losing;
    assert LosingOf(v, was, associations, done) !! losing;
  }

  function CanonicalTag(v: Validator, was: map<TagId, Tag>, id: TagId): Tag
    requires AllValid(v, was) && id in was
  {
    Tag(CanonicalOf(v, was, id).display, CanonicalOf(v, was, id).identity)
  }

  /** Exactly the groups that need it are staged. */
  ghost predicate StagedRight(v: Validator, was: map<TagId, Tag>, staged: map<TagId, string>, groups: seq<Group>)
    requires AllValid(v, was)
  {
    && (forall id, any | id in staged && any in was :: staged[id] != Identity(v, was, any))
    && forall i, id | 0 <= i < |groups| && id in groups[i].rows ::
         Rows(groups[i]) <= was.Keys && (id in staged <==> NeedsStaging(v, was, groups[i]))
  }

  /** Deleting the losing rows and rewriting the survivor finishes a group; one
      that was not staged needs neither. */
  lemma NextTags(v: Validator, was: map<TagId, Tag>, staged: map<TagId, string>, done: set<TagId>, groups: seq<Group>,
                 i: nat)
    requires AllValid(v, was) && i < |groups| && StagedRight(v, was, staged, groups)
    requires Rooted(v, was, groups[i]) && Rows(groups[i]) !! done
    ensures var g := groups[i];
            var now, next := MidTags(v, was, staged, done), MidTags(v, was, staged, done + Rows(g));
            && Rows(g) <= now.Keys
            && (NeedsStaging(v, was, g) ==>
                  next == (now - set id | id in g.rows[1..])[g.rows[0] := CanonicalTag(v, was, g.rows[0])])
            && (!NeedsStaging(v, was, g) ==> g.rows[1..] == [] && next == now)
  {
    var g := groups[i];
    assert g.rows[0] in g.rows;
    hide Survives, SurvivorOf, Identity;
    assert forall id | id in g.rows[1..] :: id in g.rows;
  }

  class TagStore {
    const validate: Validator
    var tags: map<TagId, Tag>
    var associations: Associations
    var documents: map<DocId, nat>

    ghost predicate Valid()
      reads this
    {
      UniqueIdentities(tags) && Referential(tags, associations, documents)
    }

    /** UPDATE tags WHERE id. */
    method UpdateTag(id: TagId, tag: Tag) returns (r: Result<(), Failure>)
      requires id in tags && UniqueIdentities(tags)
      modifies this`tags
      ensures UniqueIdentities(tags)
      ensures r.Ok? <==>
                forall other | other in old(tags) && other != id :: old(tags)[other].normalized != tag.normalized
      ensures tags == if r.Ok? then old(tags)[id := tag] else old(tags)
      ensures r.Err? ==> r.error == UniqueViolation
    {
      if exists other | other in tags && other != id :: tags[other].normalized == tag.normalized {
        return Err(UniqueViolation);
      }
      tags := tags[id := tag];
      r := Ok(());
    }

    /** Put the rows of a group aside under staged names. */
    method StageNamespace(g: Group, namespace: string, ghost was: map<TagId, Tag>, ghost staged: map<TagId, string>)
      returns (r: Result<(), Failure>, ghost now: map<TagId, string>)
      requires AllValid(validate, was) && Rows(g) <= was.Keys && UniqueIdentities(tags)
      requires tags == MidTags(validate, was, staged, {})
               && forall i, j | 0 <= i < j < |g.rows| :: g.rows[i] != g.rows[j]
      modifies this`tags
      ensures UniqueIdentities(tags)
      ensures r.Err? ==> r.error == NamespaceCollision
      ensures r.Err? ==> NameTaken(was, staged, g, namespace)
      ensures r.Ok? ==> tags == MidTags(validate, was, now, {}) && now.Keys == staged.Keys + Rows(g)
                        && forall id | id in now ::
                             if id in g.rows then now[id] == Staged(namespace, id) else now[id] == staged[id]
    {
      now := staged;
      assert NamedHere(staged, now, g, namespace, 0);
      assert forall i | 0 <= i < |g.rows| :: g.rows[i] in Rows(g);
      hide MidTags, AllValid, Staged, NameTaken, NamedHere, Rows, UniqueIdentities;
      for i := 0 to |g.rows|
        invariant UniqueIdentities(tags) && tags == MidTags(validate, was, now, {})
        invariant NamedHere(staged, now, g, namespace, i)
      {
        var id, name := g.rows[i], Staged(namespace, g.rows[i]);
        if exists other | other in tags :: tags[other].normalized == name {
          ghost var other :| other in tags && tags[other].normalized == name;
          NameIsTaken(validate, was, staged, now, g, namespace, i, other);
          return Err(NamespaceCollision), now;
        }
        StageOneMore(validate, was, now, id, name);
        var step := UpdateTag(id, tags[id].(normalized := name));
        assert step.Ok?;
        NamedHereMore(staged, now, g, namespace, i);
        now := now[id := name];
      }
      AllNamedHere(staged, now, g, namespace);
      r := Ok(());
    }

    /** Stage every group that needs it, each under its own random namespace. */
    method StageGroups(groups: seq<Group>, namespaces: nat -> string)
      returns (r: Result<(), Failure>, ghost staged: map<TagId, string>)
      requires AllValid(validate, tags) && Grouping(validate, tags, groups, tags.Keys) && UniqueIdentities(tags)
      requires Fresh(validate, tags, namespaces)
      modifies this`tags
      ensures UniqueIdentities(tags)
      ensures r.Err? ==> r.error == NamespaceCollision && Collides(old(tags), namespaces)
      ensures r.Ok? ==>
                tags == MidTags(validate, old(tags), staged, {}) && StagedRight(validate, old(tags), staged, groups)
    {
      var was := tags;
      staged := map[];
      NothingStaged(validate, was);
      GroupsAreRows(validate, was, groups);
      hide MidTags, AllValid, UniqueIdentities, Staged, StagedOf, NameTaken, Collides, Grouping, Fresh, NeedsStaging,
           StagedRight, Rows;
      for i := 0 to |groups|
        invariant UniqueIdentities(tags) && tags == MidTags(validate, was, staged, {})
        invariant StagedOf(validate, was, staged, groups, namespaces, i)
      {
        ghost var before := staged;
        if NeedsStaging(validate, was, groups[i]) {
          var step, now := StageNamespace(groups[i], namespaces(i), was, staged);
          if step.Err? {
            Collided(validate, was, groups, namespaces, staged, i);
            return step, staged;
          }
          staged := now;
        }
        StagedOfMore(validate, was, before, staged, groups, namespaces, i);
      }
      AllStaged(validate, was, staged, groups, namespaces);
      r := Ok(());
    }

    /** If a group has several rows, repoint its associations to the first one,
        then delete those of the others and the other rows themselves. */
    method MergeRows(g: Group) returns (moved: int, collapsed: int)
      requires g.rows != [] && Rows(g) <= tags.Keys && UniqueIdentities(tags)
      requires LosingRows(Repoint(associations, g), g) == LosingRows(associations, g)
      modifies this`tags, this`associations
      ensures UniqueIdentities(tags) && tags == Fewer(old(tags), g)
      ensures associations == Repoint(old(associations), g) - LosingRows(old(associations), g)
      ensures moved + collapsed == |LosingRows(old(associations), g)|
      ensures collapsed == |old(associations)| - |associations|
    {
      moved, collapsed := 0, 0;
      if |g.rows| == 1 {
        OneRow(associations, tags, g);
        return;
      }
      var before := |LosingRows(associations, g)|;
      var repointed := Repoint(associations, g);
      moved := |repointed| - |associations|;
      collapsed := before - moved;
      hide LosingRows, Repoint;
      associations := repointed;
      DeleteLosingAssociations(g);
      DeleteLosingTags(g);
    }

    method DeleteLosingAssociations(g: Group)
      requires g.rows != []
      modifies this`associations
      ensures associations == old(associations) - LosingRows(old(associations), g)
      ensures |associations| == |old(associations)| - |LosingRows(old(associations), g)|
    {
      assert g.rows[1..1] == [];
      for i := 1 to |g.rows|
        invariant associations == set a | a in old(associations) && a.1 !in g.rows[1..i]
      {
        assert g.rows[1..i + 1] == g.rows[1..i] + [g.rows[i]];
        associations := set a | a in associations && a.1 != g.rows[i];
      }
      assert g.rows[1..|g.rows|] == g.rows[1..];
      assert LosingRows(old(associations), g) <= old(associations);
    }

    method DeleteLosingTags(g: Group)
      requires g.rows != [] && Rows(g) <= tags.Keys && UniqueIdentities(tags)
      modifies this`tags
      ensures UniqueIdentities(tags) && tags == Fewer(old(tags), g)
    {
      assert g.rows[1..1] == [];
      for i := 1 to |g.rows|
        invariant tags == old(tags) - set id | id in g.rows[1..i]
      {
        assert g.rows[1..i + 1] == g.rows[1..i] + [g.rows[i]];
        tags := tags - {g.rows[i]};
      }
      assert g.rows[1..|g.rows|] == g.rows[1..];
    }

    /** Finish every group in turn. The unique index never objects. */
    method FinishGroups(groups: seq<Group>, was: map<TagId, Tag>, ghost staged: map<TagId, string>)
      returns (moved: int, collapsed: int)
      requires AllValid(validate, was) && Grouping(validate, was, groups, was.Keys)
               && StagedRight(validate, was, staged, groups)
      requires tags == MidTags(validate, was, staged, {}) && UniqueIdentities(tags)
      requires forall a | a in associations :: a.1 in was
      modifies this`tags, this`associations
      ensures UniqueIdentities(tags) && tags == CollapsedTags(validate, was)
      ensures associations == CollapsedAssociations(validate, was, old(associations))
      ensures moved + collapsed == |Losing(validate, was, old(associations))|
      ensures collapsed == |old(associations)| - |associations|
    {
      hide AllValid, UniqueIdentities, Grouping, StagedRight, Progress, MidTags, Rows, CollapsedTags,
           CollapsedAssociations, Losing;
      ghost var job, done := Job(validate, was, staged, groups, associations), {};
      moved, collapsed := 0, 0;
      NothingFinished(job);
      for i := 0 to |groups|
        invariant UniqueIdentities(tags) && Progress(job, i, Tally(done, tags, associations, moved, collapsed))
      {
        var more, fewer := FinishNext(job, i, Tally(done, tags, associations, moved, collapsed), groups[i], was);
        moved, collapsed, done := moved + more, collapsed + fewer, done + Rows(groups[i]);
      }
      AllFinished(job, Tally(done, tags, associations, moved, collapsed));
    }

    /** The next group, one step further. */
    method FinishNext(ghost job: Job, ghost i: nat, ghost t: Tally, g: Group, was: map<TagId, Tag>)
      returns (more: int, fewer: int)
      requires Progress(job, i, t) && i < |job.groups| && g == job.groups[i] && was == job.was && job.v == validate
      requires tags == t.tags && associations == t.associations && UniqueIdentities(tags)
      modifies this`tags, this`associations
      ensures UniqueIdentities(tags)
      ensures Progress(job, i + 1, Tally(t.done + Rows(g), tags, associations, t.moved + more, t.collapsed + fewer))
    {
      ReadyToFinish(job, i, t);
      hide MidTags, AllValid, UniqueIdentities, Grouping, StagedRight, Progress, LosingRows, Repoint, Rows, Fewer,
           Rewriting;
      var canonical := Rewriting(validate, was, g);
      more, fewer := FinishGroup(g, canonical);
      ProgressMore(job, i, t, Tally(t.done + Rows(g), tags, associations, t.moved + more, t.collapsed + fewer));
    }

    /** Finish one group: merge its rows, if there are several, and give the
        survivor its canonical names, unless it has them already. */
    method FinishGroup(g: Group, canonical: Option<Tag>) returns (moved: int, collapsed: int)
      requires g.rows != [] && Rows(g) <= tags.Keys && UniqueIdentities(tags) && g.rows[0] in Fewer(tags, g)
      requires LosingRows(Repoint(associations, g), g) == LosingRows(associations, g)
      requires canonical.Some? ==>
                 forall other | other in Fewer(tags, g) && other != g.rows[0] ::
                   Fewer(tags, g)[other].normalized != canonical.value.normalized
      modifies this`tags, this`associations
      ensures UniqueIdentities(tags)
      ensures tags == if canonical.Some? then Fewer(old(tags), g)[g.rows[0] := canonical.value] else Fewer(old(tags), g)
      ensures associations == Repoint(old(associations), g) - LosingRows(old(associations), g)
      ensures moved + collapsed == |LosingRows(old(associations), g)|
      ensures collapsed == |old(associations)| - |associations|
    {
      moved, collapsed := MergeRows(g);
      if canonical.Some? {
        var step := UpdateTag(g.rows[0], canonical.value);
        assert step.Ok?;
      }
    }

    /** The whole migration, in one transaction. Its closing checks, canonical
        tags and unchanged membership, hold whenever it gets that far. */
    method WriteMigration(namespaces: nat -> string, now: Instant) returns (r: Result<Report, Failure>)
      requires Valid() && Idempotent(validate)
      requires AllValid(validate, tags) ==> Fresh(validate, tags, namespaces)
      modifies this
      ensures Valid()
      ensures r.Ok? ==>
                && AllValid(validate, old(tags)) && (forall a | a in old(associations) :: a.1 in old(tags))
                && tags == CollapsedTags(validate, old(tags))
                && associations == CollapsedAssociations(validate, old(tags), old(associations))
                && documents == Versioned(old(documents), Affected(validate, old(tags), old(associations)), now)
                && r.value.associationsMoved + r.value.associationsCollapsed
                     == |Losing(validate, old(tags), old(associations))|
                && r.value.associationsCollapsed == |old(associations)| - |associations|
                && r.value.rowsScanned == |old(tags)|
                && r.value.documentsVersioned == |Affected(validate, old(tags), old(associations))|
      ensures r.Err? ==> tags == old(tags) && associations == old(associations) && documents == old(documents)
      ensures r.Err? ==> match r.error
                         case InvalidTag => !AllValid(validate, tags)
                         case Overflow => AllValid(validate, tags)
                         && exists d | d in Affected(validate, tags, associations) ::
                              d in documents && documents[d] >= MaxSafe
                         case error => error == NamespaceCollision && Collides(tags, namespaces)
      ensures (&& AllValid(validate, old(tags)) && !Collides(old(tags), namespaces)
               && forall d | d in Affected(validate, old(tags), old(associations)) && d in old(documents) ::
                    old(documents)[d] < MaxSafe) ==> r.Ok?
      ensures r.Ok? ==> Risen(old(documents), documents, Affected(validate, old(tags), old(associations)), now)
    {
      var was, were, versions := tags, associations, documents;
      var groups :- ReadGroups();
      var affected := AffectedDocuments(groups);
      var staging, staged := StageGroups(groups, namespaces);
      if staging.Err? {
        tags := was;
        return Err(staging.error);
      }
      var moved, collapsed := FinishGroups(groups, was, staged);
      var versioned := VersionDocuments(affected, now);
      if versioned.Err? {
        tags, associations, documents := was, were, versions;
        return Err(versioned.error);
      }
      CollapseKeepsMeaning(validate, was, were);
      StaysReferential(validate, was, were, versions, affected, now);
      hide CollapsedTags, CollapsedAssociations, Affected, Losing, Membership, Versioned, Fresh, Grouping, StagedRight,
           MidTags;
      assert Canonicalized(validate, tags)
             && Membership(validate, tags, associations) == Membership(validate, was, were);
      r := Ok(Report(|was|, moved, collapsed, versioned.value));
    }

    /** The tags by identity, oldest first. */
    method ReadGroups() returns (r: Result<seq<Group>, Failure>)
      ensures r.Ok? <==> AllValid(validate, tags)
      ensures r.Ok? ==> Grouping(validate, tags, r.value, tags.Keys)
      ensures r.Err? ==> r.error == InvalidTag
    {
      if !AllValid(validate, tags) {
        return Err(InvalidTag);
      }
      var ids := OrderedIds();
      var groups: seq<Group>, indexOf: map<string, nat> := [], map[];
      ghost var seen := {};
      assert Grouping(validate, tags, groups, seen) && Indexed(groups, indexOf);
      hide Grouping, AllValid, Identity, Indexed;
      for i := 0 to |ids|
        invariant forall id :: id in seen <==> id in ids[..i]
        invariant Grouping(validate, tags, groups, seen) && Indexed(groups, indexOf)
      {
        groups, indexOf := AddToGroup(groups, indexOf, ids[i], seen);
        seen := seen + {ids[i]};
      }
      assert seen == tags.Keys;
      r := Ok(groups);
    }

    /** SELECT id FROM tags ORDER BY id. */
    method OrderedIds() returns (ids: seq<TagId>)
      ensures forall id :: id in ids <==> id in tags
      ensures forall i, j | 0 <= i < j < |ids| :: ids[i] < ids[j]
    {
      var todo := tags.Keys;
      ids := [];
      while todo != {}
        invariant todo <= tags.Keys && forall id :: id in ids <==> id in tags && id !in todo
        invariant forall i, j | 0 <= i < j < |ids| :: ids[i] < ids[j]
        invariant forall i, next | 0 <= i < |ids| && next in todo :: ids[i] < next
      {
        ghost var lowest := LowestExists(todo);
        var id :| id in todo && forall other | other in todo :: id <= other;
        ids, todo := ids + [id], todo - {id};
      }
    }

    /** The documents whose rows or displayed tags will change, group by group. */
    method AffectedDocuments(groups: seq<Group>) returns (affected: set<DocId>)
      requires Valid() && AllValid(validate, tags) && Grouping(validate, tags, groups, tags.Keys)
      ensures affected == Affected(validate, tags, associations)
    {
      var changed: set<TagId> := {};
      hide Valid, Grouping, AllValid, Survives, Changes;
      for i := 0 to |groups|
        invariant forall id :: id in changed <==> exists j | 0 <= j < i :: id in ChangedRows(validate, tags, groups[j])
      {
        GroupIsRooted(validate, tags, groups, i);
        changed := changed + ChangedRows(validate, tags, groups[i]);
      }
      AllChanged(validate, tags, groups, changed);
      affected := set a | a in associations && a.1 in changed :: a.0;
    }

    /** Raise the version of every affected document. */
    method VersionDocuments(affected: set<DocId>, now: Instant) returns (r: Result<int, Failure>)
      requires affected <= documents.Keys
      modifies this`documents
      ensures r.Ok? <==> forall d | d in affected :: old(documents)[d] < MaxSafe
      ensures r.Ok? ==> documents == Versioned(old(documents), affected, now) && r.value == |affected|
      ensures r.Ok? ==> Risen(old(documents), documents, affected, now)
      ensures r.Err? ==> r.error == Overflow
    {
      var todo, versioned := affected, 0;
      ghost var done := {};
      assert Versioned(documents, {}, now) == documents;
      hide Versioned, NextMetadataUpdatedAt;
      while todo != {}
        invariant todo <= affected && (forall d :: d in done <==> d in affected && d !in todo)
                  && versioned == |affected| - |todo|
        invariant documents == Versioned(old(documents), done, now)
        invariant forall d | d in done :: old(documents)[d] < MaxSafe
      {
        var d :| d in todo;
        var next := NextMetadataUpdatedAt(documents[d], now);
        if next.Err? {
          return Err(Overflow);
        }
        VersionOneMore(old(documents), done, d, now);
        documents := documents[d := next.value];
        todo, versioned, done := todo - {d}, versioned + 1, done + {d};
      }
      assert done == affected;
      r := Ok(versioned);
    }

    method AddToGroup(groups: seq<Group>, indexOf: map<string, nat>, id: TagId, ghost seen: set<TagId>)
      returns (next: seq<Group>, nextIndexOf: map<string, nat>)
      requires AllValid(validate, tags) && Grouping(validate, tags, groups, seen) && Indexed(groups, indexOf)
      requires id in tags && id !in seen && forall past | past in seen :: past < id
      ensures Grouping(validate, tags, next, seen + {id}) && Indexed(next, nextIndexOf)
    {
      var identity := Identity(validate, tags, id);
      if identity in indexOf {
        var i := indexOf[identity];
        JoinsGroup(validate, tags, groups, seen, id, i);
        return groups[i := Group(identity, groups[i].rows + [id])], indexOf;
      }
      StartsGroup(validate, tags, groups, seen, id);
      return groups + [Group(identity, [id])], indexOf[identity := |groups|];
    }
  }

  /** Every tag is canonical and alone with its identity. */
  ghost predicate Canonicalized(v: Validator, tags: map<TagId, Tag>) {
    AllValid(v, tags) && UniqueIdentities(tags) && forall id | id in tags :: tags[id] == CanonicalTag(v, tags, id)
  }

  /** The new version of every document in `affected`. */
  function Versioned(documents: map<DocId, nat>, affected: set<DocId>, now: Instant): map<DocId, nat> {
    map d | d in documents ::
      if d in affected && documents[d] < MaxSafe then NextMetadataUpdatedAt(documents[d], now).value else documents[d]
  }

  lemma VersionOneMore(documents: map<DocId, nat>, done: set<DocId>, d: DocId, now: Instant)
    requires d in documents && d !in done && documents[d] < MaxSafe
    ensures Versioned(documents, done, now)[d := NextMetadataUpdatedAt(documents[d], now).value]
            == Versioned(documents, done + {d}, now)
    ensures Versioned(documents, done, now)[d] == documents[d]
  {
  }

  /** The rows of a group whose documents will be affected. */
  function ChangedRows(v: Validator, tags: map<TagId, Tag>, g: Group): set<TagId>
    requires AllValid(v, tags)
  {
    if g.rows == [] || g.rows[0] !in tags then {}
    else if tags[g.rows[0]].name != CanonicalOf(v, tags, g.rows[0]).display then Rows(g)
    else set id | id in g.rows[1..]
  }

  lemma StaysReferential(v: Validator, tags: map<TagId, Tag>, associations: Associations, documents: map<DocId, nat>,
                         affected: set<DocId>, now: Instant)
    requires AllValid(v, tags) && Referential(tags, associations, documents)
    ensures Referential(CollapsedTags(v, tags), CollapsedAssociations(v, tags, associations),
                        Versioned(documents, affected, now))
  {
  }

  lemma ChangedOfGroup(v: Validator, tags: map<TagId, Tag>, groups: seq<Group>, j: nat, id: TagId)
    requires AllValid(v, tags) && Grouping(v, tags, groups, tags.Keys) && j < |groups|
    ensures id in ChangedRows(v, tags, groups[j]) <==> id in groups[j].rows && id in tags && Changes(v, tags, id)
  {
    GroupIsRooted(v, tags, groups, j);
    assert id in groups[j].rows ==> id in Rows(groups[j]);
    hide Grouping, SurvivorOf, Survives, Identity;
  }

  lemma AllChanged(v: Validator, tags: map<TagId, Tag>, groups: seq<Group>, changed: set<TagId>)
    requires AllValid(v, tags) && Grouping(v, tags, groups, tags.Keys)
    requires forall id :: id in changed <==> exists j | 0 <= j < |groups| :: id in ChangedRows(v, tags, groups[j])
    ensures forall id | id in tags :: id in changed <==> Changes(v, tags, id)
    ensures changed <= tags.Keys
  {
    hide ChangedRows, Changes, GroupOk, AllValid;
    forall id | id in changed
      ensures id in tags && Changes(v, tags, id)
    {
      var j :| 0 <= j < |groups| && id in ChangedRows(v, tags, groups[j]);
      ChangedOfGroup(v, tags, groups, j, id);
    }
    forall id | id in tags && Changes(v, tags, id)
      ensures id in changed
    {
      var j :| 0 <= j < |groups| && id in groups[j].rows;
      ChangedOfGroup(v, tags, groups, j, id);
    }
  }

  ghost predicate Indexed(groups: seq<Group>, indexOf: map<string, nat>) {
    && (forall i | 0 <= i < |groups| :: groups[i].identity in indexOf)
    && forall identity | identity in indexOf ::
         indexOf[identity] < |groups| && groups[indexOf[identity]].identity == identity
  }

  lemma {:induction false} LowestExists(ids: set<TagId>) returns (id: TagId)
    requires ids != {}
    ensures id in ids && forall other | other in ids :: id <= other
  {
    var any :| any in ids;
    if ids == {any} {
      id := any;
    } else {
      var rest := LowestExists(ids - {any});
      id := if any <= rest then any else rest;
      assert forall other | other in ids :: other == any || other in ids - {any};
    }
  }

  lemma GroupGrows(v: Validator, tags: map<TagId, Tag>, g: Group, id: TagId)
    requires AllValid(v, tags) && GroupOk(v, tags, g) && id in tags && Identity(v, tags, id) == g.identity
    requires forall k | 0 <= k < |g.rows| :: g.rows[k] < id
    ensures GroupOk(v, tags, Group(g.identity, g.rows + [id]))
  {
  }

  lemma RowsAreSeen(v: Validator, tags: map<TagId, Tag>, groups: seq<Group>, seen: set<TagId>, i: nat)
    requires AllValid(v, tags) && Grouping(v, tags, groups, seen) && i < |groups|
    ensures forall k | 0 <= k < |groups[i].rows| :: groups[i].rows[k] in seen
  {
    forall k | 0 <= k < |groups[i].rows|
      ensures groups[i].rows[k] in seen
    {
      var id := groups[i].rows[k];
      assert id in groups[i].rows;
    }
  }

  lemma JoinsGroup(v: Validator, tags: map<TagId, Tag>, groups: seq<Group>, seen: set<TagId>, id: TagId, i: nat)
    requires AllValid(v, tags) && Grouping(v, tags, groups, seen) && i < |groups|
    requires id in tags && id !in seen && (forall past | past in seen :: past < id)
             && groups[i].identity == Identity(v, tags, id)
    ensures Grouping(v, tags, groups[i := Group(groups[i].identity, groups[i].rows + [id])], seen + {id})
  {
    var next := groups[i := Group(groups[i].identity, groups[i].rows + [id])];
    forall j | 0 <= j < |next|
      ensures GroupOk(v, tags, next[j])
    {
      assert GroupOk(v, tags, groups[j]);
      if j == i {
        RowsAreSeen(v, tags, groups, seen, i);
        GroupGrows(v, tags, groups[i], id);
      }
    }
    hide GroupOk, Identity, AllValid;
    forall past | past in seen + {id}
      ensures exists j :: 0 <= j < |next| && past in next[j].rows
    {
      if past in seen {
        var j :| 0 <= j < |groups| && past in groups[j].rows;
        assert past in next[j].rows;
      } else {
        assert id in next[i].rows;
      }
    }
  }

  lemma StartsGroup(v: Validator, tags: map<TagId, Tag>, groups: seq<Group>, seen: set<TagId>, id: TagId)
    requires AllValid(v, tags) && Grouping(v, tags, groups, seen)
    requires id in tags && id !in seen && forall i | 0 <= i < |groups| :: groups[i].identity != Identity(v, tags, id)
    ensures Grouping(v, tags, groups + [Group(Identity(v, tags, id), [id])], seen + {id})
  {
    var next := groups + [Group(Identity(v, tags, id), [id])];
    forall j | 0 <= j < |next|
      ensures GroupOk(v, tags, next[j])
    {
      assert j < |groups| ==> GroupOk(v, tags, groups[j]);
    }
    forall past | past in seen + {id}
      ensures exists j :: 0 <= j < |next| && past in next[j].rows
    {
      if past in seen {
        var j :| 0 <= j < |groups| && past in groups[j].rows;
        assert past in next[j].rows;
      } else {
        assert id in next[|groups|].rows;
      }
    }
  }

  /** The canonical names the survivor of a group gets, if it has not got them. */
  function Rewriting(v: Validator, was: map<TagId, Tag>, g: Group): Option<Tag>
    requires AllValid(v, was) && g.rows != [] && Rows(g) <= was.Keys && g.rows[0] in was
             && forall id | id in g.rows :: id in was
  {
    if NeedsStaging(v, was, g) then Some(CanonicalTag(v, was, g.rows[0])) else None
  }

  function Fewer(tags: map<TagId, Tag>, g: Group): map<TagId, Tag>
    requires g.rows != []
  {
    tags - set id | id in g.rows[1..]
  }

  /** What the steps for one group find and leave among the tags. */
  lemma FinishingTags(v: Validator, was: map<TagId, Tag>, staged: map<TagId, string>, first: Associations,
                      done: set<TagId>, groups: seq<Group>, i: nat)
    requires AllValid(v, was) && Grouping(v, was, groups, was.Keys) && StagedRight(v, was, staged, groups)
    requires (forall a | a in first :: a.1 in was) && i < |groups| && Finished(v, was, groups, i, done)
    ensures var g := groups[i];
            var tags, tags' := MidTags(v, was, staged, done), MidTags(v, was, staged, done + Rows(g));
            && g.rows != [] && Rows(g) <= tags.Keys && Rows(g) <= was.Keys && g.rows[0] in was
            && g.rows[0] in Fewer(tags, g)
            && (forall id | id in g.rows :: id in was)
            && (match Rewriting(v, was, g)
                case None => tags' == Fewer(tags, g)
                case Some(canonical) =>
                  && tags' == Fewer(tags, g)[g.rows[0] := canonical]
                  && forall other | other in Fewer(tags, g) && other != g.rows[0] ::
                       Fewer(tags, g)[other].normalized != canonical.normalized)
  {
    var g := groups[i];
    GroupIsPending(v, was, first, done, groups, i);
    NextTags(v, was, staged, done, groups, i);
    assert GroupOk(v, was, g);
    if |g.rows| == 1 {
      OneRow(first, MidTags(v, was, staged, done), g);
    }
    var tags := MidTags(v, was, staged, done);
    hide MidTags, MidAssociations, AllValid, Finished, NeedsStaging, Agree;
    forall other | other in Fewer(tags, g) && other != g.rows[0]
      ensures tags[other].normalized != CanonicalTag(v, was, g.rows[0]).normalized
    {
      assert other !in g.rows;
      IdentityIsFree(v, was, staged, done, groups, i, other);
    }
    hide Grouping, StagedRight;
  }

  /** What they find and leave among the associations. */
  lemma FinishingAssociations(v: Validator, was: map<TagId, Tag>, first: Associations, done: set<TagId>,
                              groups: seq<Group>, i: nat)
    requires AllValid(v, was) && Grouping(v, was, groups, was.Keys)
    requires (forall a | a in first :: a.1 in was) && i < |groups| && Finished(v, was, groups, i, done)
    ensures var g := groups[i];
            var now, next := MidAssociations(v, was, first, done), MidAssociations(v, was, first, done + Rows(g));
            && g.rows != []
            && LosingRows(Repoint(now, g), g) == LosingRows(now, g)
            && Repoint(now, g) - LosingRows(now, g) == next
            && |LosingOf(v, was, first, done + Rows(g))| == |LosingOf(v, was, first, done)| + |LosingRows(now, g)|
  {
    GroupIsPending(v, was, first, done, groups, i);
    NextAssociations(v, was, first, done, groups[i]);
    LosingSplits(v, was, first, done, groups[i]);
  }

  lemma OneRow(associations: Associations, tags: map<TagId, Tag>, g: Group)
    requires |g.rows| == 1
    ensures Repoint(associations, g) == associations && LosingRows(associations, g) == {} && Fewer(tags, g) == tags
  {
    forall d, id | (d, id) in Repoint(associations, g)
      ensures (d, id) in associations
    {
      if exists t :: t in g.rows && (d, t) in associations && id == g.rows[0] {
        var t :| t in g.rows && (d, t) in associations && id == g.rows[0];
        assert t == g.rows[0];
      }
    }
  }

  lemma GroupIsPending(v: Validator, was: map<TagId, Tag>, associations: Associations, done: set<TagId>,
                       groups: seq<Group>, i: nat)
    requires AllValid(v, was) && Grouping(v, was, groups, was.Keys) && (forall a | a in associations :: a.1 in was)
    requires i < |groups| && Finished(v, was, groups, i, done)
    ensures Pending(v, was, associations, done, groups[i])
  {
    GroupIsRooted(v, was, groups, i);
    StillOriginal(v, was, associations, done, Rows(groups[i]));
  }

  /** The identity of a survivor is free when its turn comes. */
  lemma IdentityIsFree(v: Validator, was: map<TagId, Tag>, staged: map<TagId, string>, done: set<TagId>,
                       groups: seq<Group>, i: nat, other: TagId)
    requires AllValid(v, was) && Grouping(v, was, groups, was.Keys) && i < |groups|
             && StagedRight(v, was, staged, groups)
    requires other in MidTags(v, was, staged, done) && other !in groups[i].rows
    ensures MidTags(v, was, staged, done)[other].normalized != groups[i].identity
  {
    var j :| 0 <= j < |groups| && other in groups[j].rows;
    GroupIdentity(v, was, groups, j, other);
    GroupIdentity(v, was, groups, i, groups[i].rows[0]);
    hide Grouping, GroupOk, AllValid, Survives, Identity;
    if other !in done && other !in staged {
      assert !NeedsStaging(v, was, groups[j]);
      assert CanonicalTag(v, was, other) == was[other];
    }
  }

  lemma GroupIdentity(v: Validator, was: map<TagId, Tag>, groups: seq<Group>, j: nat, id: TagId)
    requires AllValid(v, was) && Grouping(v, was, groups, was.Keys) && j < |groups|
    ensures groups[j].rows != [] && groups[j].rows[0] in groups[j].rows
    ensures id in groups[j].rows ==>
              id in was && Identity(v, was, id) == groups[j].identity
              && CanonicalOf(v, was, id).identity == groups[j].identity
    ensures forall i | 0 <= i < |groups| && i != j :: groups[i].identity != groups[j].identity
  {
    assert GroupOk(v, was, groups[j]);
  }

  /** What a migration starts from: tags, the names of rows set aside, groups
      and associations. */
  datatype Job = Job(v: Validator, was: map<TagId, Tag>, staged: map<TagId, string>, groups: seq<Group>,
                     first: Associations)

  /** How far it got: rows done, tables and counts. */
  datatype Tally = Tally(done: set<TagId>, tags: map<TagId, Tag>, associations: Associations, moved: int,
                         collapsed: int)

  /** The tables and counts once the first `n` groups are finished. */
  ghost predicate Progress(job: Job, n: nat, t: Tally) {
    && AllValid(job.v, job.was) && Grouping(job.v, job.was, job.groups, job.was.Keys)
    && StagedRight(job.v, job.was, job.staged, job.groups)
    && (forall a | a in job.first :: a.1 in job.was) && n <= |job.groups|
    && Finished(job.v, job.was, job.groups, n, t.done)
    && t.tags == MidTags(job.v, job.was, job.staged, t.done)
    && t.associations == MidAssociations(job.v, job.was, job.first, t.done)
    && t.moved + t.collapsed == |LosingOf(job.v, job.was, job.first, t.done)|
    && t.collapsed == |job.first| - |t.associations|
  }

  lemma ReadyToFinish(job: Job, n: nat, t: Tally)
    requires Progress(job, n, t) && n < |job.groups|
    ensures var g := job.groups[n];
            && g.rows != [] && Rows(g) <= t.tags.Keys && Rows(g) <= job.was.Keys && g.rows[0] in job.was
            && g.rows[0] in Fewer(t.tags, g)
            && AllValid(job.v, job.was) && (forall id | id in g.rows :: id in job.was)
            && LosingRows(Repoint(t.associations, g), g) == LosingRows(t.associations, g)
            && (Rewriting(job.v, job.was, g).Some? ==>
                  forall other | other in Fewer(t.tags, g) && other != g.rows[0] ::
                    Fewer(t.tags, g)[other].normalized != Rewriting(job.v, job.was, g).value.normalized)
  {
    FinishingTags(job.v, job.was, job.staged, job.first, t.done, job.groups, n);
    FinishingAssociations(job.v, job.was, job.first, t.done, job.groups, n);
    hide MidTags, MidAssociations, LosingOf, Grouping, StagedRight, Finished, Rewriting, Fewer, Repoint, LosingRows;
  }

  lemma ProgressMore(job: Job, n: nat, t: Tally, next: Tally)
    requires Progress(job, n, t) && n < |job.groups|
    requires var g := job.groups[n];
             && g.rows != [] && Rows(g) <= job.was.Keys && g.rows[0] in job.was
             && (forall id | id in g.rows :: id in job.was)
             && next.done == t.done + Rows(g)
             && var canonical := Rewriting(job.v, job.was, g);
             && next.tags == (if canonical.Some? then Fewer(t.tags, g)[g.rows[0] := canonical.value]
                                else Fewer(t.tags, g))
             && next.associations == Repoint(t.associations, g) - LosingRows(t.associations, g)
             && next.moved + next.collapsed == t.moved + t.collapsed + |LosingRows(t.associations, g)|
             && next.collapsed == t.collapsed + |t.associations| - |next.associations|
    ensures Progress(job, n + 1, next)
  {
    hide MidTags, MidAssociations, LosingOf, Grouping, StagedRight, Finished, Rewriting, Fewer, Repoint, LosingRows,
         AllValid, Rows;
    ProgressTags(job, n, t, next.tags);
    ProgressCounts(job, n, t, next);
    FinishedOneMore(job.v, job.was, job.groups, n, t.done);
  }

  lemma ProgressCounts(job: Job, n: nat, t: Tally, next: Tally)
    requires Progress(job, n, t) && n < |job.groups|
    requires var g := job.groups[n];
             && next.done == t.done + Rows(g)
             && next.associations == Repoint(t.associations, g) - LosingRows(t.associations, g)
             && next.moved + next.collapsed == t.moved + t.collapsed + |LosingRows(t.associations, g)|
             && next.collapsed == t.collapsed + |t.associations| - |next.associations|
    ensures next.associations == MidAssociations(job.v, job.was, job.first, next.done)
    ensures next.moved + next.collapsed == |LosingOf(job.v, job.was, job.first, next.done)|
            && next.collapsed == |job.first| - |next.associations|
  {
    FinishingAssociations(job.v, job.was, job.first, t.done, job.groups, n);
    hide MidTags, MidAssociations, LosingOf, Grouping, StagedRight, Finished, Repoint, LosingRows, AllValid, Rows;
  }

  lemma ProgressTags(job: Job, n: nat, t: Tally, tags: map<TagId, Tag>)
    requires Progress(job, n, t) && n < |job.groups|
    requires var g := job.groups[n];
             && g.rows != [] && Rows(g) <= job.was.Keys && g.rows[0] in job.was
             && (forall id | id in g.rows :: id in job.was)
             && var canonical := Rewriting(job.v, job.was, g);
             tags == if canonical.Some? then Fewer(t.tags, g)[g.rows[0] := canonical.value] else Fewer(t.tags, g)
    ensures tags == MidTags(job.v, job.was, job.staged, t.done + Rows(job.groups[n]))
  {
    FinishingTags(job.v, job.was, job.staged, job.first, t.done, job.groups, n);
    hide MidTags, MidAssociations, LosingOf, Grouping, StagedRight, Finished, Rewriting, Fewer, AllValid, Rows;
  }

  lemma NothingFinished(job: Job)
    requires AllValid(job.v, job.was) && Grouping(job.v, job.was, job.groups, job.was.Keys)
             && StagedRight(job.v, job.was, job.staged, job.groups)
    requires forall a | a in job.first :: a.1 in job.was
    ensures Progress(job, 0, Tally({}, MidTags(job.v, job.was, job.staged, {}), job.first, 0, 0))
  {
    assert forall a | a in job.first :: (a.0, a.1) == a;
    assert MidAssociations(job.v, job.was, job.first, {}) == job.first && LosingOf(job.v, job.was, job.first, {}) == {};
    assert Finished(job.v, job.was, job.groups, 0, {});
    hide Grouping, StagedRight;
  }

  /** `done` are the rows of the first `n` groups. */
  ghost predicate Finished(v: Validator, was: map<TagId, Tag>, groups: seq<Group>, n: nat, done: set<TagId>)
    requires AllValid(v, was) && n <= |groups|
  {
    && (forall id :: id in done <==> exists i | 0 <= i < n :: id in groups[i].rows)
    && (forall id | id in done :: id in was && SurvivorOf(v, was, id) in done)
    && (n < |groups| ==> Rows(groups[n]) !! done)
  }

  lemma FinishedOneMore(v: Validator, was: map<TagId, Tag>, groups: seq<Group>, n: nat, done: set<TagId>)
    requires AllValid(v, was) && Grouping(v, was, groups, was.Keys) && n < |groups| && Finished(v, was, groups, n, done)
    ensures Finished(v, was, groups, n + 1, done + Rows(groups[n]))
  {
    var more := done + Rows(groups[n]);
    RowsUpTo(groups, n, done);
    if n + 1 < |groups| {
      NextIsUntouched(v, was, groups, n, more);
    }
    GroupIsRooted(v, was, groups, n);
    forall id | id in more
      ensures id in was && SurvivorOf(v, was, id) in more
    {
      if id in Rows(groups[n]) {
        assert groups[n].rows[0] in Rows(groups[n]);
      }
    }
    hide Rooted, Grouping, Survives, SurvivorOf, Identity, AllValid, Rows;
  }

  lemma RowsUpTo(groups: seq<Group>, n: nat, done: set<TagId>)
    requires n < |groups| && forall id :: id in done <==> exists i | 0 <= i < n :: id in groups[i].rows
    ensures forall id :: id in done + Rows(groups[n]) <==> exists i | 0 <= i < n + 1 :: id in groups[i].rows
  {
    forall id
      ensures id in done + Rows(groups[n]) <==> exists i | 0 <= i < n + 1 :: id in groups[i].rows
    {
      if id in done {
        var i :| 0 <= i < n && id in groups[i].rows;
        assert 0 <= i < n + 1;
      } else if id in Rows(groups[n]) {
        assert id in groups[n].rows;
      }
    }
  }

  lemma NextIsUntouched(v: Validator, was: map<TagId, Tag>, groups: seq<Group>, n: nat, more: set<TagId>)
    requires AllValid(v, was) && Grouping(v, was, groups, was.Keys) && n + 1 < |groups|
    requires forall id | id in more :: exists i | 0 <= i < n + 1 :: id in groups[i].rows
    ensures Rows(groups[n + 1]) !! more
  {
    hide GroupOk, Grouping, Identity, AllValid;
    forall id | id in Rows(groups[n + 1])
      ensures id !in more
    {
      if i :| 0 <= i < n + 1 && id in groups[i].rows {
        GroupsShareNothing(v, was, groups, i, n + 1);
      }
    }
  }

  lemma GroupsShareNothing(v: Validator, was: map<TagId, Tag>, groups: seq<Group>, i: nat, j: nat)
    requires AllValid(v, was) && Grouping(v, was, groups, was.Keys) && i < j < |groups|
    ensures Rows(groups[i]) !! Rows(groups[j])
  {
    assert GroupOk(v, was, groups[i]) && GroupOk(v, was, groups[j]);
  }

  lemma AllDone(v: Validator, was: map<TagId, Tag>, groups: seq<Group>, done: set<TagId>)
    requires AllValid(v, was) && Grouping(v, was, groups, was.Keys) && Finished(v, was, groups, |groups|, done)
    ensures done == was.Keys
  {
  }

  lemma MidIsAll(v: Validator, was: map<TagId, Tag>, staged: map<TagId, string>, associations: Associations)
    requires AllValid(v, was) && forall a | a in associations :: a.1 in was
    ensures MidTags(v, was, staged, was.Keys) == CollapsedTags(v, was)
    ensures MidAssociations(v, was, associations, was.Keys) == CollapsedAssociations(v, was, associations)
    ensures LosingOf(v, was, associations, was.Keys) == Losing(v, was, associations)
  {
    hide Survives, SurvivorOf, CanonicalOf;
  }

  lemma AllFinished(job: Job, t: Tally)
    requires Progress(job, |job.groups|, t)
    ensures AllValid(job.v, job.was) && (forall a | a in job.first :: a.1 in job.was)
    ensures t.tags == CollapsedTags(job.v, job.was)
            && t.associations == CollapsedAssociations(job.v, job.was, job.first)
    ensures t.moved + t.collapsed == |Losing(job.v, job.was, job.first)|
            && t.collapsed == |job.first| - |t.associations|
  {
    AllDone(job.v, job.was, job.groups, t.done);
    MidIsAll(job.v, job.was, job.staged, job.first);
  }

  lemma NothingStaged(v: Validator, was: map<TagId, Tag>)
    requires AllValid(v, was)
    ensures MidTags(v, was, map[], {}) == was
  {
  }

  /** A name of the group in this namespace is somebody's already. */
  ghost predicate NameTaken(was: map<TagId, Tag>, staged: map<TagId, string>, g: Group, namespace: string) {
    exists id, other | id in g.rows && other in was ::
      || was[other].normalized == Staged(namespace, id)
      || (other in staged && staged[other] == Staged(namespace, id))
      || (other != id && Staged(namespace, other) == Staged(namespace, id))
  }

  /** The first `i` rows of the group have their names, others what they had. */
  ghost predicate NamedHere(staged: map<TagId, string>, now: map<TagId, string>, g: Group, namespace: string, i: nat)
    requires i <= |g.rows|
  {
    && now.Keys == (staged.Keys + set id | id in g.rows[..i])
    && forall id | id in now ::
         if id in g.rows[..i] then now[id] == Staged(namespace, id) else id in staged && now[id] == staged[id]
  }

  lemma NamedHereMore(staged: map<TagId, string>, now: map<TagId, string>, g: Group, namespace: string, i: nat)
    requires i < |g.rows| && NamedHere(staged, now, g, namespace, i)
    ensures NamedHere(staged, now[g.rows[i] := Staged(namespace, g.rows[i])], g, namespace, i + 1)
  {
    hide Staged;
    assert g.rows[..i + 1] == g.rows[..i] + [g.rows[i]];
  }

  lemma AllNamedHere(staged: map<TagId, string>, now: map<TagId, string>, g: Group, namespace: string)
    requires NamedHere(staged, now, g, namespace, |g.rows|)
    ensures now.Keys == staged.Keys + Rows(g)
    ensures forall id | id in now ::
              if id in g.rows then now[id] == Staged(namespace, id) else id in staged && now[id] == staged[id]
  {
    hide Staged;
    assert g.rows[..|g.rows|] == g.rows;
  }

  lemma NameIsTaken(v: Validator, was: map<TagId, Tag>, staged: map<TagId, string>, now: map<TagId, string>, g: Group,
                    namespace: string, i: nat, other: TagId)
    requires AllValid(v, was) && other in MidTags(v, was, now, {}) && i < |g.rows|
    requires MidTags(v, was, now, {})[other].normalized == Staged(namespace, g.rows[i])
    requires forall j | 0 <= j < i :: g.rows[j] != g.rows[i]
    requires NamedHere(staged, now, g, namespace, i)
    ensures NameTaken(was, staged, g, namespace)
  {
    assert g.rows[i] in g.rows && other in was;
    assert other in g.rows[..i] ==> other != g.rows[i];
    hide Staged;
  }

  /** The rows of the first `n` groups that need it are set aside, under names
      of their groups' namespaces. */
  ghost predicate StagedOf(v: Validator, was: map<TagId, Tag>, staged: map<TagId, string>, groups: seq<Group>,
                           namespaces: nat -> string, n: nat)
    requires AllValid(v, was) && n <= |groups| && forall j, id | 0 <= j < |groups| && id in groups[j].rows :: id in was
  {
    && (forall id | id in staged :: id in was && exists j: nat | j < n ::
          id in groups[j].rows && NeedsStaging(v, was, groups[j]) && staged[id] == Staged(namespaces(j), id))
    && forall j, id | 0 <= j < n && id in groups[j].rows && NeedsStaging(v, was, groups[j]) :: id in staged
  }

  lemma AllStaged(v: Validator, was: map<TagId, Tag>, staged: map<TagId, string>, groups: seq<Group>,
                  namespaces: nat -> string)
    requires AllValid(v, was) && Grouping(v, was, groups, was.Keys) && Fresh(v, was, namespaces)
    requires forall j, id | 0 <= j < |groups| && id in groups[j].rows :: id in was
    requires StagedOf(v, was, staged, groups, namespaces, |groups|)
    ensures StagedRight(v, was, staged, groups)
  {
    hide NeedsStaging, Staged, Grouping, AllValid;
    forall id, any | id in staged && any in was
      ensures staged[id] != Identity(v, was, any)
    {
      var j: nat :| j < |groups| && id in groups[j].rows && NeedsStaging(v, was, groups[j])
        && staged[id] == Staged(namespaces(j), id);
    }
    StagedIffNeeded(v, was, staged, groups);
  }

  lemma GroupsAreRows(v: Validator, was: map<TagId, Tag>, groups: seq<Group>)
    requires AllValid(v, was) && Grouping(v, was, groups, was.Keys)
    ensures forall j, id | 0 <= j < |groups| && id in groups[j].rows :: id in was
    ensures forall i | 0 <= i < |groups| :: Rows(groups[i]) <= was.Keys
    ensures forall i, j, k | 0 <= i < |groups| && 0 <= j < k < |groups[i].rows| ::
              groups[i].rows[j] != groups[i].rows[k]
  {
    forall i | 0 <= i < |groups|
      ensures GroupOk(v, was, groups[i])
    {
    }
  }

  lemma StagedOfMore(v: Validator, was: map<TagId, Tag>, staged: map<TagId, string>, now: map<TagId, string>,
                     groups: seq<Group>, namespaces: nat -> string, n: nat)
    requires AllValid(v, was) && n < |groups| && forall j, id | 0 <= j < |groups| && id in groups[j].rows :: id in was
    requires StagedOf(v, was, staged, groups, namespaces, n)
    requires if NeedsStaging(v, was, groups[n]) then
               && now.Keys == staged.Keys + Rows(groups[n])
               && forall id | id in now ::
                    if id in groups[n].rows then now[id] == Staged(namespaces(n), id) else now[id] == staged[id]
             else now == staged
    ensures StagedOf(v, was, now, groups, namespaces, n + 1)
  {
    hide Staged, NeedsStaging, AllValid;
    forall id | id in now
      ensures id in was && exists j: nat | j < n + 1 ::
                id in groups[j].rows && NeedsStaging(v, was, groups[j]) && now[id] == Staged(namespaces(j), id)
    {
      if id in staged && now[id] == staged[id] {
        var j: nat :| j < n && id in groups[j].rows && NeedsStaging(v, was, groups[j])
          && staged[id] == Staged(namespaces(j), id);
        assert j < n + 1;
      }
    }
  }

  /** A collision in the namespace of group `i` is one of all namespaces. */
  lemma Collided(v: Validator, was: map<TagId, Tag>, groups: seq<Group>, namespaces: nat -> string,
                 staged: map<TagId, string>, i: nat)
    requires AllValid(v, was) && i < |groups| && Rows(groups[i]) <= was.Keys
    requires forall j, id | 0 <= j < |groups| && id in groups[j].rows :: id in was
    requires StagedOf(v, was, staged, groups, namespaces, i) && NameTaken(was, staged, groups[i], namespaces(i))
    ensures Collides(was, namespaces)
  {
    var id, other :| id in groups[i].rows && other in was
      && (|| was[other].normalized == Staged(namespaces(i), id)
          || (other in staged && staged[other] == Staged(namespaces(i), id))
          || (other != id && Staged(namespaces(i), other) == Staged(namespaces(i), id)));
    assert id in Rows(groups[i]);
    hide Staged;
    if was[other].normalized != Staged(namespaces(i), id) {
      if other != id && Staged(namespaces(i), other) == Staged(namespaces(i), id) {
        assert (i, other) != (i, id);
      } else {
        var j: nat :| j < i && other in groups[j].rows && staged[other] == Staged(namespaces(j), other);
        assert (j, other) != (i, id);
      }
    }
    assert Clash(was, namespaces, i, id, other);
  }

  lemma StagedIffNeeded(v: Validator, was: map<TagId, Tag>, staged: map<TagId, string>, groups: seq<Group>)
    requires AllValid(v, was) && Grouping(v, was, groups, was.Keys)
    requires forall i | 0 <= i < |groups| :: Rows(groups[i]) <= was.Keys
    requires forall id, any | id in staged && any in was :: staged[id] != Identity(v, was, any)
    requires forall id | id in staged :: exists j | 0 <= j < |groups| ::
               id in groups[j].rows && NeedsStaging(v, was, groups[j])
    requires forall j, id | 0 <= j < |groups| && id in groups[j].rows && NeedsStaging(v, was, groups[j]) :: id in staged
    ensures StagedRight(v, was, staged, groups)
  {
    forall i, id | 0 <= i < |groups| && id in groups[i].rows && id in staged
      ensures NeedsStaging(v, was, groups[i])
    {
      var j :| 0 <= j < |groups| && id in groups[j].rows && NeedsStaging(v, was, groups[j]);
      assert GroupOk(v, was, groups[i]) && GroupOk(v, was, groups[j]);
    }
  }

  lemma StageOneMore(v: Validator, was: map<TagId, Tag>, staged: map<TagId, string>, id: TagId, name: string)
    requires AllValid(v, was) && id in was
    ensures var now := MidTags(v, was, staged, {});
            id in now && MidTags(v, was, staged[id := name], {}) == now[id := now[id].(normalized := name)]
  {
  }
}
