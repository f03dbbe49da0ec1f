/** Leftover rename-staging names in the source of a folder move: what resolving
    one does, step by step, and what resolving all of them amounts to. */
module FolderMoveStaging {
  import opened Wrappers
  import opened MetadataVersion
  import opened FolderMoveState

  /** A row that follows its file to another path, unless its version cannot rise. */
  function Followed(row: Row, side: Side, now: Instant): Row {
    match NextMetadataUpdatedAt(row.updatedAt, now)
    case Ok(version) => Row(side, version)
    case Err(_) => row
  }

  // The steps.

  function LinkBack(s: State, n: Aside): State
    requires s.src.Some? && n in s.src.value.staged
  {
    s.(src := Some(s.src.value.(files := s.src.value.files[n.file := s.src.value.staged[n]])))
  }

  function DropName(s: State, n: Aside): State
    requires s.src.Some?
  {
    s.(src := Some(s.src.value.(staged := s.src.value.staged - {n})))
  }

  /** The row at a file's source path, if there is one, moves to `side`. */
  function PullRow(s: State, r: Rel, side: Side, now: Instant): State {
    if r in s.rows && s.rows[r].side == Source then s.(rows := s.rows[r := Followed(s.rows[r], side, now)]) else s
  }

  /** The first of the other paths that share a staging name's inode. */
  datatype Partner = Nobody | AtSource | AtDestination | OtherStaging

  predicate HasTwin(dir: Dir, n: Aside) {
    exists m | m in dir.staged :: m != n && m.file == n.file
  }

  function PartnerOf(plan: Plan, s: State, n: Aside): Partner
    requires s.src.Some? && s.dest.Some?
  {
    var src, dest := s.src.value, s.dest.value;
    if plan.destinationFirst && n.file in dest.files then AtDestination
    else if n.file in src.files && (n.file in plan.sourceFirst || !HasTwin(src, n)) then AtSource
    else if HasTwin(src, n) then OtherStaging
    else if n.file in dest.files then AtDestination
    else Nobody
  }

  /** The other paths of the inode behind a staging name. */
  function Candidates(s: State, n: Aside): set<Partner>
    requires s.src.Some? && s.dest.Some?
  {
    (if n.file in s.dest.value.files then {AtDestination} else {})
    + (if n.file in s.src.value.files then {AtSource} else {})
    + if HasTwin(s.src.value, n) then {OtherStaging} else {}
  }

  /** How such paths sort: by folder, and in the source folder a file by its name
      against those of its staging names. */
  predicate SortsBefore(plan: Plan, r: Rel, a: Partner, b: Partner) {
    || (a == AtDestination && b in {AtSource, OtherStaging} && plan.destinationFirst)
    || (a in {AtSource, OtherStaging} && b == AtDestination && !plan.destinationFirst)
    || (a == AtSource && b == OtherStaging && r in plan.sourceFirst)
    || (a == OtherStaging && b == AtSource && r !in plan.sourceFirst)
  }

  /** The partner is the path that sorts first. */
  lemma PartnerIsFirst(plan: Plan, s: State, n: Aside)
    requires s.src.Some? && s.dest.Some?
    ensures PartnerOf(plan, s, n) == Nobody <==> Candidates(s, n) == {}
    ensures PartnerOf(plan, s, n) != Nobody ==>
              && PartnerOf(plan, s, n) in Candidates(s, n)
              && forall other | other in Candidates(s, n) && other != PartnerOf(plan, s, n) ::
                   SortsBefore(plan, n.file, PartnerOf(plan, s, n), other)
  {
    hide HasTwin;
  }

  /** Resolve one staging name: with a partner the name goes and the row follows
      to the partner's path; without one the file goes back to its source path. */
  function SettleStaging(plan: Plan, s: State, n: Aside, now: Instant): State
    requires s.src.Some? && s.dest.Some? && n in s.src.value.staged
  {
    match PartnerOf(plan, s, n)
    case Nobody => DropName(LinkBack(s, n), n)
    case AtSource => DropName(s, n)
    case AtDestination => PullRow(DropName(s, n), n.file, Destination, now)
    case OtherStaging => PullRow(DropName(s, n), n.file, Hidden, now)
  }

  // All names at once.

  predicate Doubled(dir: Dir, r: Rel) {
    exists n | n in dir.staged :: n.file == r && HasTwin(dir, n)
  }

  /** Where resolving the staging names of a file takes its row. */
  datatype Pull = Stay | To(side: Side)

  function PullOf(plan: Plan, s: State, r: Rel): Pull
    requires s.src.Some? && s.dest.Some?
  {
    var src, dest := s.src.value, s.dest.value;
    if !IsAside(src, r) then Stay
    else if r in dest.files && plan.destinationFirst then To(Destination)
    else if Doubled(src, r) && !(r in src.files && r in plan.sourceFirst) then To(Hidden)
    else if r in dest.files then To(Destination)
    else Stay
  }

  function Pulled(row: Row, pull: Pull, now: Instant): Row {
    if row.side == Source && pull.To? then Followed(row, pull.side, now) else row
  }

  /** Some staging name of the file has been resolved. */
  predicate Begun(done: set<Aside>, r: Rel) {
    exists n | n in done :: n.file == r
  }

  /** The file goes back to its source path with the last of its names. */
  predicate GoesBack(s: State, done: set<Aside>, r: Rel)
    requires s.src.Some? && s.dest.Some?
  {
    && IsAside(s.src.value, r) && r !in s.src.value.files && r !in s.dest.value.files
    && forall n | n in s.src.value.staged && n.file == r :: n in done
  }

  function FilesSettled(plan: Plan, s: State, done: set<Aside>): map<Rel, nat>
    requires s.src.Some? && s.dest.Some?
  {
    var files := s.src.value.files;
    map r | r in files.Keys + plan.entries.Keys && (r in files || GoesBack(s, done, r)) ::
      if r in files then files[r] else plan.entries[r]
  }

  function RowsSettled(plan: Plan, s: State, done: set<Aside>, now: Instant): map<Rel, Row>
    requires s.src.Some? && s.dest.Some?
  {
    map r | r in s.rows :: if Begun(done, r) then Pulled(s.rows[r], PullOf(plan, s, r), now) else s.rows[r]
  }

  /** The staging names in `done` resolved. */
  function SettleSome(plan: Plan, s: State, done: set<Aside>, now: Instant): State
    requires s.src.Some? && s.dest.Some?
  {
    var src := s.src.value;
    s.(src := Some(src.(staged := src.staged - done, files := FilesSettled(plan, s, done))),
       rows := RowsSettled(plan, s, done, now))
  }

  /** All staging names resolved. */
  function SettleStagings(plan: Plan, s: State, now: Instant): State {
    if s.src.None? || s.dest.None? then s else SettleSome(plan, s, s.src.value.staged.Keys, now)
  }

  lemma SettleNone(plan: Plan, s: State, now: Instant)
    requires s.src.Some? && s.dest.Some?
    ensures SettleSome(plan, s, {}, now) == s
  {
    assert s.src.value.staged - {} == s.src.value.staged;
    assert SettleSome(plan, s, {}, now).src.value.files == s.src.value.files;
    assert SettleSome(plan, s, {}, now).rows == s.rows;
  }

  /** What is needed of a state to resolve its staging names in any order. */
  ghost predicate Orderly(plan: Plan, s: State) {
    && s.src.Some? && s.dest.Some? && StagedRight(plan, s.src.value)
    && forall r | r in s.src.value.files :: r !in s.dest.value.files
  }

  lemma SettleOneMore(plan: Plan, s: State, done: set<Aside>, n: Aside, now: Instant)
    requires Orderly(plan, s) && n in s.src.value.staged && n !in done && done <= s.src.value.staged.Keys
    ensures n in SettleSome(plan, s, done, now).src.value.staged
    ensures SettleSome(plan, s, done + {n}, now) == SettleStaging(plan, SettleSome(plan, s, done, now), n, now)
  {
    assert s.src.value.staged - (done + {n}) == s.src.value.staged - done - {n};
    FilesSettledMore(plan, s, done, n, now);
    RowsSettledMore(plan, s, done, n, now);
    RowOfSettled(plan, s, done, n, now);
    hide GoesBack, Begun, Orderly, FilesSettled, RowsSettled, HasTwin, PullOf, Pulled;
  }

  /** Only names of the same file matter to a file. */
  lemma OthersUnmoved(s: State, done: set<Aside>, n: Aside, r: Rel)
    requires s.src.Some? && s.dest.Some? && r != n.file
    ensures GoesBack(s, done + {n}, r) <==> GoesBack(s, done, r)
    ensures Begun(done + {n}, r) <==> Begun(done, r)
  {
  }

  /** The last name of a file is the one without a twin. */
  lemma TwinsLeft(plan: Plan, s: State, done: set<Aside>, n: Aside, now: Instant)
    requires Orderly(plan, s) && n in s.src.value.staged && n !in done && done <= s.src.value.staged.Keys
    ensures var some := SettleSome(plan, s, done, now);
            && !GoesBack(s, done, n.file)
            && (HasTwin(some.src.value, n) <==>
                  exists m | m in s.src.value.staged :: m != n && m.file == n.file && m !in done)
            && (n.file in some.src.value.files <==> n.file in s.src.value.files)
  {
  }

  lemma FilesSettledMore(plan: Plan, s: State, done: set<Aside>, n: Aside, now: Instant)
    requires Orderly(plan, s) && n in s.src.value.staged && n !in done && done <= s.src.value.staged.Keys
    ensures var some := SettleSome(plan, s, done, now);
            FilesSettled(plan, s, done + {n})
            == if PartnerOf(plan, some, n) == Nobody then FilesSettled(plan, s, done)[n.file := s.src.value.staged[n]]
                else FilesSettled(plan, s, done)
  {
    var some := SettleSome(plan, s, done, now);
    TwinsLeft(plan, s, done, n, now);
    assert IsAside(s.src.value, n.file);
    assert GoesBack(s, done + {n}, n.file) <==> PartnerOf(plan, some, n) == Nobody;
    forall r | r != n.file
      ensures GoesBack(s, done + {n}, r) <==> GoesBack(s, done, r)
    {
      OthersUnmoved(s, done, n, r);
    }
    hide GoesBack, HasTwin, PartnerOf, SettleSome, IsAside;
  }

  lemma RowsSettledMore(plan: Plan, s: State, done: set<Aside>, n: Aside, now: Instant)
    requires s.src.Some? && s.dest.Some?
    ensures var r := n.file;
            RowsSettled(plan, s, done + {n}, now)
            == if r in s.rows then RowsSettled(plan, s, done, now)[r := Pulled(s.rows[r], PullOf(plan, s, r), now)]
                else RowsSettled(plan, s, done, now)
  {
    forall q | q != n.file
      ensures Begun(done + {n}, q) <==> Begun(done, q)
    {
      OthersUnmoved(s, done, n, q);
    }
    assert Begun(done + {n}, n.file);
    hide Begun, PullOf, Pulled;
  }

  /** The first name of a file to be resolved takes the row along. */
  lemma FirstPartner(plan: Plan, s: State, done: set<Aside>, n: Aside, now: Instant)
    requires Orderly(plan, s) && n in s.src.value.staged && n !in done && done <= s.src.value.staged.Keys
             && !Begun(done, n.file)
    ensures var partner, pull := PartnerOf(plan, SettleSome(plan, s, done, now), n), PullOf(plan, s, n.file);
            && (pull == To(Destination) <==> partner == AtDestination)
            && (pull == To(Hidden) <==> partner == OtherStaging)
            && (pull == Stay <==> partner == AtSource || partner == Nobody)
  {
    TwinsLeft(plan, s, done, n, now);
    assert IsAside(s.src.value, n.file);
    assert Doubled(s.src.value, n.file) <==> HasTwin(s.src.value, n);
    hide GoesBack, Pulled;
  }

  /** Later names find the row gone, or stay at the source with it. */
  lemma LaterPartner(plan: Plan, s: State, done: set<Aside>, n: Aside, now: Instant)
    requires Orderly(plan, s) && n in s.src.value.staged && n !in done && done <= s.src.value.staged.Keys
             && Begun(done, n.file)
    ensures PullOf(plan, s, n.file).To? || PartnerOf(plan, SettleSome(plan, s, done, now), n) == AtSource
  {
    TwinsLeft(plan, s, done, n, now);
    var m :| m in done && m.file == n.file;
    assert HasTwin(s.src.value, n) && HasTwin(s.src.value, m);
    hide GoesBack, Pulled;
  }

  /** The row of a file moves with the first of its names, or never. */
  lemma RowOfSettled(plan: Plan, s: State, done: set<Aside>, n: Aside, now: Instant)
    requires Orderly(plan, s) && n in s.src.value.staged && n !in done && done <= s.src.value.staged.Keys
    ensures var t, r := SettleSome(plan, s, done, now), n.file;
            && n in t.src.value.staged
            && (r in s.rows ==>
                  SettleStaging(plan, t, n, now).rows == t.rows[r := Pulled(s.rows[r], PullOf(plan, s, r), now)])
            && (r !in s.rows ==> SettleStaging(plan, t, n, now).rows == t.rows)
  {
    if Begun(done, n.file) {
      LaterPartner(plan, s, done, n, now);
    } else {
      FirstPartner(plan, s, done, n, now);
    }
    hide GoesBack, HasTwin, Begun, IsAside, PartnerOf, PullOf, FilesSettled, Orderly;
  }
}
