/** Which interrupted folder moves some startup can still complete, when
    startups may die as well, and that nothing brings the others back. */
module FolderMoveRescue {
  import opened Wrappers
  import opened MetadataVersion
  import opened FolderMoveState
  import opened FolderMoveStaging

  /** Files that are neither at the source nor at the destination. */
  function Missing(plan: Plan, s: State): set<Rel>
    requires s.src.Some? && s.dest.Some?
  {
    plan.entries.Keys - s.src.value.files.Keys - s.dest.value.files.Keys
  }

  /** No declared subfolder is removed while staging names are left. */
  predicate ShellsHold(plan: Plan, src: Dir) {
    src.staged != map[] ==> forall d | d in plan.dirs :: exists n | n in src.staged :: d < n.file
  }

  /** The row is committed, or can still be pulled to the destination: at its
      source path, with a staging name unless its file can get one again. */
  predicate CanAgree(plan: Plan, s: State, r: Rel)
    requires s.src.Some? && s.dest.Some? && r in s.rows
  {
    || s.rows[r] == Row(Destination, plan.timestamp)
    || (s.rows[r].side == Source && (r in s.dest.value.files ==> IsAside(s.src.value, r)))
  }

  /** The rows are one of the two tables that metadata recovery accepts. */
  predicate RowsSettle(plan: Plan, s: State) {
    s.rows == plan.prepared || s.rows == plan.Committed()
  }

  /** All files are at the destination, under their names there. */
  predicate AllIn(plan: Plan, s: State)
    requires s.src.Some? && s.dest.Some?
  {
    s.src.value.files == map[] && Missing(plan, s) == {}
  }

  /** A startup, after others that die at the right moments, completes the
      move from here. */
  predicate Rescuable(plan: Plan, s: State)
    requires Inv(plan, s) && s.journal.Some?
  {
    var phase := s.journal.value.phase;
    if phase == Prepared then
      s.dest.None?
    else if plan.strategy == AtomicRename then
      phase == GateCreated ==> s.src.None? || s.dest.value.marker
    else if phase == MetadataCommitted then
      s.src.Some? && s.src.value.dirs == plan.dirs && ShellsHold(plan, s.src.value)
    else if phase == GateCreated && !s.journal.value.recorded then
      s.dest.value.dirs == {}
    else if RowsSettle(plan, s) then
      AllIn(plan, s) ==> ShellsHold(plan, s.src.value)
    else
      forall r | r in s.rows :: CanAgree(plan, s, r)
  }

  ghost predicate Hopeless(plan: Plan, s: State) {
    Inv(plan, s) && s.journal.Some? && !Rescuable(plan, s)
  }

  /** Hopeless, and metadata recovery has nothing left to do. */
  ghost predicate Sunk(plan: Plan, s: State) {
    && Hopeless(plan, s)
    && (plan.strategy == ReplayableMove ==>
          match s.journal.value.phase
          case Prepared => true
          case GateCreated => s.journal.value.recorded ==> !RowsSettle(plan, s)
          case FilesLanded => !RowsSettle(plan, s)
          case MetadataCommitted => s.src.None? || s.src.value.dirs != plan.dirs)
  }

  /** A row that can never agree, and one that has left its prepared state. */
  lemma LostRow(plan: Plan, s: State) returns (r: Rel, q: Rel)
    requires plan.Wf() && Sunk(plan, s) && plan.strategy == ReplayableMove && s.src.Some? && s.dest.Some?
    requires s.journal.value.phase == FilesLanded || (s.journal.value.phase == GateCreated && s.journal.value.recorded)
    ensures r in s.rows && !CanAgree(plan, s, r)
    ensures q in s.rows && q in plan.prepared && s.rows[q] != plan.prepared[q] && s.rows[q].side != Source
  {
    r :| r in s.rows && !CanAgree(plan, s, r);
    q :| q in s.rows && s.rows[q] != plan.prepared[q];
  }

  /** Two rows like that are enough to be sunk. */
  lemma LostRowSinks(plan: Plan, s: State, r: Rel, q: Rel)
    requires plan.Wf() && Inv(plan, s) && plan.strategy == ReplayableMove && s.journal.Some? && s.src.Some?
             && s.dest.Some?
    requires s.journal.value.phase == FilesLanded || (s.journal.value.phase == GateCreated && s.journal.value.recorded)
    requires r in s.rows && !CanAgree(plan, s, r)
    requires q in s.rows && q in plan.prepared && s.rows[q] != plan.prepared[q]
    ensures Sunk(plan, s)
  {
    assert s.rows != plan.prepared;
    assert s.rows.Keys == plan.prepared.Keys;
    hide IsAside, Split;
  }
}
