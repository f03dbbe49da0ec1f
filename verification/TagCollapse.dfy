/** Tags whose names normalize to one identity collapse into the oldest of
    them: what that does to tags, associations and document versions. */
module TagCollapse {
  import opened Wrappers
  import opened Documents
  import opened MetadataVersion

  type TagId = nat

  datatype Canonical = Canonical(display: string, identity: string)

  /** What validation makes of a tag name, if anything. */
  type Validator = string -> Option<Canonical>

  datatype Tag = Tag(name: string, normalized: string)

  type Associations = set<(DocId, TagId)>

  /** Normalizing a display name again changes nothing. */
  ghost predicate Idempotent(v: Validator) {
    forall name | v(name).Some? :: v(v(name).value.display) == v(name)
  }

  predicate AllValid(v: Validator, tags: map<TagId, Tag>) {
    forall id | id in tags :: v(tags[id].name).Some?
  }

  function CanonicalOf(v: Validator, tags: map<TagId, Tag>, id: TagId): Canonical
    requires AllValid(v, tags) && id in tags
  {
    v(tags[id].name).value
  }

  function Identity(v: Validator, tags: map<TagId, Tag>, id: TagId): string
    requires AllValid(v, tags) && id in tags
  {
    CanonicalOf(v, tags, id).identity
  }

  ghost predicate UniqueIdentities(tags: map<TagId, Tag>) {
    forall a, b | a in tags && b in tags && a != b :: tags[a].normalized != tags[b].normalized
  }

  predicate Referential(tags: map<TagId, Tag>, associations: Associations, documents: map<DocId, nat>) {
    forall a | a in associations :: a.0 in documents && a.1 in tags
  }

  /** The tags that share an identity, oldest first. */
  datatype Group = Group(identity: string, rows: seq<TagId>)

  ghost predicate GroupOk(v: Validator, tags: map<TagId, Tag>, g: Group)
    requires AllValid(v, tags)
  {
    && g.rows != []
    && (forall i | 0 <= i < |g.rows| :: g.rows[i] in tags && Identity(v, tags, g.rows[i]) == g.identity)
    && forall i, j | 0 <= i < j < |g.rows| :: g.rows[i] < g.rows[j]
  }

  /** The groups partition the tags in `seen`. */
  ghost predicate Grouping(v: Validator, tags: map<TagId, Tag>, groups: seq<Group>, seen: set<TagId>)
    requires AllValid(v, tags)
  {
    && (forall i | 0 <= i < |groups| :: GroupOk(v, tags, groups[i]))
    && (forall i, j | 0 <= i < j < |groups| :: groups[i].identity != groups[j].identity)
    && (forall i, id | 0 <= i < |groups| && id in groups[i].rows :: id in seen)
    && forall id | id in seen :: id in tags && exists i :: 0 <= i < |groups| && id in groups[i].rows
  }

  /** The oldest tag with its identity. */
  predicate Survives(v: Validator, tags: map<TagId, Tag>, id: TagId)
    requires AllValid(v, tags) && id in tags
  {
    forall other | other in tags && Identity(v, tags, other) == Identity(v, tags, id) :: id <= other
  }

  /** The tag that a tag collapses into. */
  ghost function SurvivorOf(v: Validator, tags: map<TagId, Tag>, id: TagId): (s: TagId)
    requires AllValid(v, tags) && id in tags
    ensures s in tags && Identity(v, tags, s) == Identity(v, tags, id) && Survives(v, tags, s)
    decreases id
  {
    if Survives(v, tags, id) then id
    else
      var older :| older in tags && Identity(v, tags, older) == Identity(v, tags, id) && older < id;
      SurvivorOf(v, tags, older)
  }

  // The collapse, all groups at once.

  /** Every surviving tag takes its canonical names, the others are gone. */
  function CollapsedTags(v: Validator, tags: map<TagId, Tag>): map<TagId, Tag>
    requires AllValid(v, tags)
  {
    map id | id in tags && Survives(v, tags, id) ::
      Tag(CanonicalOf(v, tags, id).display, CanonicalOf(v, tags, id).identity)
  }

  /** Every association goes over to the survivor of its tag. */
  ghost function CollapsedAssociations(v: Validator, tags: map<TagId, Tag>, associations: Associations): Associations
    requires AllValid(v, tags) && forall a | a in associations :: a.1 in tags
  {
    set a | a in associations :: (a.0, SurvivorOf(v, tags, a.1))
  }

  /** The associations of tags that do not survive. */
  function Losing(v: Validator, tags: map<TagId, Tag>, associations: Associations): Associations
    requires AllValid(v, tags)
  {
    set a | a in associations && a.1 in tags && !Survives(v, tags, a.1)
  }

  /** The identities each document has. */
  function Membership(v: Validator, tags: map<TagId, Tag>, associations: Associations): set<(DocId, string)>
    requires AllValid(v, tags)
  {
    set a | a in associations && a.1 in tags :: (a.0, Identity(v, tags, a.1))
  }

  /** The tag does not survive, or its displayed name is not canonical yet. */
  predicate Changes(v: Validator, tags: map<TagId, Tag>, id: TagId)
    requires AllValid(v, tags) && id in tags
  {
    !Survives(v, tags, id) || tags[id].name != CanonicalOf(v, tags, id).display
  }

  /** The documents with a losing tag, or with a tag whose displayed name is not
      yet its canonical one. */
  function Affected(v: Validator, tags: map<TagId, Tag>, associations: Associations): set<DocId>
    requires AllValid(v, tags)
  {
    set a | a in associations && a.1 in tags && Changes(v, tags, a.1) :: a.0
  }

  /** The tags of a document with their displayed names. */
  function Displayed(tags: map<TagId, Tag>, associations: Associations, d: DocId): map<TagId, string> {
    map t | t in tags && (d, t) in associations :: tags[t].name
  }

  /** Collapsing changes no document's identities, and afterwards every tag is
      canonical and alone with its identity. */
  lemma CollapseKeepsMeaning(v: Validator, tags: map<TagId, Tag>, associations: Associations)
    requires Idempotent(v) && AllValid(v, tags) && forall a | a in associations :: a.1 in tags
    ensures var after := CollapsedTags(v, tags);
            && AllValid(v, after) && UniqueIdentities(after)
            && (forall id | id in after ::
                  after[id] == Tag(CanonicalOf(v, after, id).display, CanonicalOf(v, after, id).identity))
            && Membership(v, after, CollapsedAssociations(v, tags, associations)) == Membership(v, tags, associations)
  {
    var after, moved := CollapsedTags(v, tags), CollapsedAssociations(v, tags, associations);
    forall id | id in after
      ensures v(after[id].name).Some? && v(after[id].name).value == CanonicalOf(v, tags, id)
    {
    }
    forall m | m in Membership(v, tags, associations)
      ensures m in Membership(v, after, moved)
    {
      var a :| a in associations && a.1 in tags && m == (a.0, Identity(v, tags, a.1));
      assert (a.0, SurvivorOf(v, tags, a.1)) in moved;
    }
  }

  /** Exactly the affected documents come out with other tags or other
      displayed names. */
  lemma AffectedIsExact(v: Validator, tags: map<TagId, Tag>, associations: Associations, d: DocId)
    requires AllValid(v, tags) && forall a | a in associations :: a.1 in tags
    ensures d in Affected(v, tags, associations)
            <==> Displayed(tags, associations, d)
                 != Displayed(CollapsedTags(v, tags), CollapsedAssociations(v, tags, associations), d)
  {
    var after, moved := CollapsedTags(v, tags), CollapsedAssociations(v, tags, associations);
    if d in Affected(v, tags, associations) {
      var a :| a in associations && a.0 == d && a.1 in tags && Changes(v, tags, a.1);
      assert a == (d, a.1);
      assert a.1 in Displayed(tags, associations, d);
    } else {
      forall t
        ensures t in Displayed(tags, associations, d) <==> t in Displayed(after, moved, d)
      {
        if (d, t) in associations {
          assert SurvivorOf(v, tags, t) == t;
        }
        if t in after && (d, t) in moved {
          var a :| a in associations && (d, t) == (a.0, SurvivorOf(v, tags, a.1));
          assert a == (d, a.1);
        }
      }
    }
  }
}
