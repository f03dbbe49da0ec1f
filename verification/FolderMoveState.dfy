/** The two stores a folder move changes, directory trees and metadata rows,
    and what is true of them at every step of every run without outside
    programs: executor, deaths, recoveries and their deaths. */
module FolderMoveState {
  import opened Wrappers
  import opened MetadataVersion

  /** A path inside the moved folder, one name per component. */
  type Rel = seq<string>

  datatype Strategy = AtomicRename | ReplayableMove

  datatype Phase = Prepared | GateCreated | FilesLanded | MetadataCommitted

  /** A private rename-staging name beside a file, told apart by its token. */
  datatype Aside = Aside(file: Rel, token: nat)

  /** A folder: its own identity, the inodes under the journaled names, those
      under rename-staging names, its subfolders, and the gate marker. */
  datatype Dir = Dir(id: nat, files: map<Rel, nat>, staged: map<Aside, nat>, dirs: set<Rel>, marker: bool)

  /** Where the path of a row leads: to the file's place in one of the folders,
      or to a staging name. */
  datatype Side = Source | Destination | Hidden

  /** A document row: the side its path is under, and its version. */
  datatype Row = Row(side: Side, updatedAt: nat)

  /** `gate` is the durable destination identity, `recorded` says that the
      destination subfolders are durable too. */
  datatype Journal = Journal(phase: Phase, gate: nat, recorded: bool)

  /** What the prepared journal fixes for the whole move, and how its paths
      sort: whether the destination folder comes before the source folder, and
      which files come before their own staging names. */
  datatype Plan = Plan(strategy: Strategy, sourceId: nat, entries: map<Rel, nat>, dirs: set<Rel>,
                       prepared: map<Rel, Row>, timestamp: nat, destinationFirst: bool, sourceFirst: set<Rel>)
  {
    predicate Wf() {
      && prepared.Keys <= entries.Keys && timestamp <= MaxSafe
      && forall r | r in prepared :: prepared[r].side == Source && prepared[r].updatedAt < timestamp
    }

    /** The untouched source folder. */
    function Original(): Dir {
      Dir(sourceId, entries, map[], dirs, false)
    }

    /** The rows after every document moved in one batch. */
    function Committed(): map<Rel, Row> {
      map r | r in prepared :: Row(Destination, timestamp)
    }
  }

  datatype State = State(src: Option<Dir>, dest: Option<Dir>, journal: Option<Journal>, rows: map<Rel, Row>)

  function Rank(p: Phase): nat {
    match p
    case Prepared => 0
    case GateCreated => 1
    case FilesLanded => 2
    case MetadataCommitted => 3
  }

  /** The phase only advances, and a removed journal does not come back. */
  ghost predicate Advances(s: State, s': State) {
    && (s.journal.None? ==> s'.journal.None?)
    && (s.journal.Some? && s'.journal.Some? ==> Rank(s.journal.value.phase) <= Rank(s'.journal.value.phase))
  }

  /** Both stores wholly at the source. */
  ghost predicate AllAtSource(plan: Plan, s: State) {
    s.src == Some(plan.Original()) && s.dest.None? && s.rows == plan.prepared
  }

  /** A destination that holds exactly the moved folder. */
  ghost predicate Landed(plan: Plan, dest: Option<Dir>) {
    && dest.Some?
    && dest.value.files == plan.entries && dest.value.staged == map[] && dest.value.dirs == plan.dirs
    && (plan.strategy == AtomicRename ==> dest.value == plan.Original())
  }

  /** Both stores wholly at the destination. */
  ghost predicate AllAtDestination(plan: Plan, s: State) {
    s.src.None? && Landed(plan, s.dest) && s.rows == plan.Committed()
  }

  /** Some staging name of the file is there. */
  predicate IsAside(dir: Dir, r: Rel) {
    exists n | n in dir.staged :: n.file == r
  }

  /** Staging names lead to their file's inode. */
  ghost predicate StagedRight(plan: Plan, dir: Dir) {
    forall n | n in dir.staged :: n.file in plan.entries && dir.staged[n] == plan.entries[n.file]
  }

  /** Every journaled inode is under its source name, a staging name, or its
      destination name; no file is under both of its names. */
  ghost predicate Split(plan: Plan, src: Dir, dest: Dir) {
    && (forall r | r in src.files :: r in plan.entries && src.files[r] == plan.entries[r] && r !in dest.files)
    && StagedRight(plan, src)
    && (forall r | r in dest.files :: r in plan.entries && dest.files[r] == plan.entries[r])
    && (forall r | r in plan.entries :: r in src.files || IsAside(src, r) || r in dest.files)
  }

  /** Rows are as prepared, except those that staging recovery has moved: with a
      file that is at the destination, or astray to a staging name. */
  ghost predicate RowsDrifted(plan: Plan, rows: map<Rel, Row>, landed: set<Rel>) {
    && rows.Keys == plan.prepared.Keys
    && forall r | r in rows ::
         rows[r] == plan.prepared[r] || (rows[r].side == Destination && r in landed) || rows[r].side == Hidden
  }

  ghost predicate GateInv(plan: Plan, s: State, j: Journal) {
    match plan.strategy
    case AtomicRename =>
      && s.rows == plan.prepared
      && ((s.src == Some(plan.Original()) && s.dest.Some?
           && s.dest.value == Dir(j.gate, map[], map[], {}, s.dest.value.marker) && j.gate != plan.sourceId)
          || (s.src.None? && s.dest == Some(plan.Original())))
    case ReplayableMove =>
      && s.src.Some? && s.src.value.id == plan.sourceId && s.src.value.dirs == plan.dirs && !s.src.value.marker
      && s.dest.Some? && s.dest.value.id == j.gate && s.dest.value.marker && s.dest.value.staged == map[]
      && if j.recorded then
           && s.dest.value.dirs == plan.dirs
           && Split(plan, s.src.value, s.dest.value)
           && RowsDrifted(plan, s.rows, s.dest.value.files.Keys)
         else
           && s.src == Some(plan.Original())
           && s.dest.value.files == map[] && s.dest.value.dirs <= plan.dirs
           && s.rows == plan.prepared
  }

  /** A source whose files are gone: only shells and staging names are left. */
  ghost predicate Shell(plan: Plan, src: Option<Dir>) {
    match plan.strategy
    case AtomicRename => src.None?
    case ReplayableMove =>
      src.Some? ==>
        && src.value.id == plan.sourceId && src.value.files == map[] && src.value.dirs <= plan.dirs && !src.value.marker
        && StagedRight(plan, src.value)
  }

  ghost predicate LandedInv(plan: Plan, s: State, j: Journal) {
    && Landed(plan, s.dest) && s.dest.value.id == j.gate
    && Shell(plan, s.src)
    && (plan.strategy == ReplayableMove ==> s.dest.value.marker && s.src.Some? && s.src.value.dirs == plan.dirs)
    && (s.rows == plan.Committed() || RowsDrifted(plan, s.rows, plan.entries.Keys))
    && (plan.strategy == AtomicRename ==> s.rows == plan.Committed() || s.rows == plan.prepared)
  }

  /** What every step of every run keeps. */
  ghost predicate Inv(plan: Plan, s: State) {
    match s.journal
    case None => AllAtSource(plan, s) || AllAtDestination(plan, s)
    case Some(j) =>
      match j.phase
      case Prepared =>
        && s.src == Some(plan.Original()) && s.rows == plan.prepared
        && (s.dest.Some? ==>
              s.dest.value == Dir(s.dest.value.id, map[], map[], {}, s.dest.value.marker)
              && s.dest.value.id != plan.sourceId)
      case GateCreated => GateInv(plan, s, j)
      case FilesLanded => LandedInv(plan, s, j)
      case MetadataCommitted =>
        && Landed(plan, s.dest) && s.dest.value.id == j.gate
        && (plan.strategy == ReplayableMove ==> s.dest.value.marker)
        && Shell(plan, s.src)
        && s.rows == plan.Committed()
  }

  /** At every step each journaled inode is reachable under one of its names,
      and from files-landed on all of them are at the destination. */
  lemma NothingIsLost(plan: Plan, s: State, r: Rel)
    requires plan.Wf() && Inv(plan, s) && r in plan.entries
    ensures || (s.src.Some? && r in s.src.value.files && s.src.value.files[r] == plan.entries[r])
            || (s.src.Some? && exists n | n in s.src.value.staged ::
                  n.file == r && s.src.value.staged[n] == plan.entries[r])
            || (s.dest.Some? && r in s.dest.value.files && s.dest.value.files[r] == plan.entries[r])
    ensures s.journal.Some? && Rank(s.journal.value.phase) >= 2 ==>
              s.dest.Some? && s.dest.value.files == plan.entries && s.dest.value.dirs == plan.dirs
  {
  }
}
