/** The version 4 folder-move transaction: the executor with its durable phases,
    and the startup recovery that takes over from any death. */
module FolderMove {
  import opened Wrappers
  import opened MetadataVersion
  import opened FolderMoveState
  import opened FolderMoveStaging
  import opened FolderMoveRescue

  datatype Verdict = Completed | Cleaned | Quarantined

  // What an uninterrupted recovery does, as functions of the state.

  /** No file lies below subfolder `d`. */
  predicate Bare(dir: Dir, d: Rel) {
    (forall r | r in dir.files :: !(d < r)) && (forall n | n in dir.staged :: !(d < n.file))
  }

  function BareDirs(dir: Dir): set<Rel> {
    set d | d in dir.dirs && Bare(dir, d)
  }

  /** Remove every subfolder that becomes empty, then the root if it is empty. */
  function RemoveShells(dir: Dir): Option<Dir> {
    var left := dir.(dirs := dir.dirs - BareDirs(dir));
    if left.files == map[] && left.staged == map[] && left.dirs == {} then None else Some(left)
  }

  function Finalize(plan: Plan, s: State): (State, Verdict)
    requires s.dest.Some?
  {
    if plan.strategy == AtomicRename then
      (s.(journal := None), Completed)
    else if s.src.None? then
      (s, Quarantined)
    else
      var src' := RemoveShells(s.src.value);
      if s.src.value.dirs != plan.dirs || src'.Some? then
        (s.(src := src'), Quarantined)
      else
        (s.(src := None, journal := None, dest := Some(s.dest.value.(marker := false))), Completed)
  }

  function CompleteMetadata(plan: Plan, s: State): (State, Verdict)
    requires s.dest.Some? && s.journal.Some?
  {
    if s.rows == plan.prepared || s.rows == plan.Committed() then
      Finalize(plan, s.(rows := plan.Committed(), journal := Some(s.journal.value.(phase := MetadataCommitted))))
    else
      (s, Quarantined)
  }

  function Land(plan: Plan, s: State): State
    requires s.src.Some? && s.dest.Some? && s.journal.Some?
  {
    s.(src := Some(s.src.value.(files := map[])),
       dest := Some(s.dest.value.(files := plan.entries)),
       journal := Some(s.journal.value.(phase := FilesLanded)))
  }

  function RecoverReplayable(plan: Plan, s: State): (State, Verdict)
    requires s.src.Some? && s.dest.Some? && s.journal.Some?
  {
    if !s.journal.value.recorded && s.dest.value.dirs != {} then
      (s, Quarantined)
    else
      var ready := s.(dest := Some(s.dest.value.(dirs := plan.dirs)),
                      journal := Some(s.journal.value.(recorded := true)));
      if Missing(plan, ready) != {} then (ready, Quarantined)
      else CompleteMetadata(plan, Land(plan, ready))
  }

  function RecoverAtomic(plan: Plan, s: State): (State, Verdict)
    requires s.dest.Some? && s.journal.Some?
  {
    if s.src.Some? && !s.dest.value.marker then
      (s, Quarantined)
    else
      CompleteMetadata(plan,
                       s.(src := None, dest := Some(plan.Original()),
                          journal := Some(s.journal.value.(phase := FilesLanded, gate := plan.sourceId))))
  }

  function RecoverJournal(plan: Plan, s: State): (State, Verdict)
    requires Inv(plan, s) && s.journal.Some?
  {
    match s.journal.value.phase
    case Prepared => if s.dest.None? then (s.(journal := None), Cleaned) else (s, Quarantined)
    case GateCreated => if plan.strategy == AtomicRename then RecoverAtomic(plan, s) else RecoverReplayable(plan, s)
    case FilesLanded => CompleteMetadata(plan, s)
    case MetadataCommitted => Finalize(plan, s)
  }

  /** A folder none of whose files, staging names or subfolders lies below `d`. */
  predicate Empty(dir: Dir, d: Rel) {
    Bare(dir, d) && forall e | e in dir.dirs :: !(d < e)
  }

  lemma {:induction false} DeepestExists(dirs: set<Rel>) returns (d: Rel)
    requires dirs != {}
    ensures d in dirs && forall e | e in dirs :: |e| <= |d|
  {
    var any :| any in dirs;
    if dirs == {any} {
      d := any;
    } else {
      var rest := DeepestExists(dirs - {any});
      d := if |any| <= |rest| then rest else any;
    }
  }

  lemma BareIsHereditary(dir: Dir, d: Rel, e: Rel)
    requires Bare(dir, d) && d < e
    ensures Bare(dir, e)
  {
    forall r | r in dir.files
      ensures !(e < r)
    {
      BelowBelow(d, e, r);
    }
    forall n | n in dir.staged
      ensures !(e < n.file)
    {
      BelowBelow(d, e, n.file);
    }
  }

  lemma BelowBelow(d: Rel, e: Rel, r: Rel)
    requires d < e
    ensures e < r ==> d < r
  {
  }

  // The three steps of moving one file.

  function TakenAside(s: State, n: Aside): State
    requires s.src.Some? && n.file in s.src.value.files
  {
    var src := s.src.value;
    s.(src := Some(src.(files := src.files - {n.file}, staged := src.staged[n := src.files[n.file]])))
  }

  function LinkedIn(s: State, n: Aside): State
    requires s.src.Some? && s.dest.Some? && n in s.src.value.staged
  {
    s.(dest := Some(s.dest.value.(files := s.dest.value.files[n.file := s.src.value.staged[n]])))
  }

  lemma FileMoves(plan: Plan, s: State, n: Aside)
    requires plan.Wf() && Inv(plan, s) && plan.strategy == ReplayableMove
    requires s.journal.Some? && s.journal.value.phase == GateCreated && s.journal.value.recorded
    requires n.file in s.src.value.files && n !in s.src.value.staged
    ensures var aside := TakenAside(s, n);
            var linked := LinkedIn(aside, n);
            var moved := DropName(linked, n);
            && Inv(plan, aside) && Inv(plan, linked) && Inv(plan, moved)
            && moved.src == Some(s.src.value.(files := s.src.value.files - {n.file}))
            && moved.dest == Some(s.dest.value.(files := s.dest.value.files[n.file := plan.entries[n.file]]))
  {
    var aside := TakenAside(s, n);
    assert n in aside.src.value.staged;
    assert aside.src.value.staged - {n} == s.src.value.staged;
    assert forall r | IsAside(s.src.value, r) :: IsAside(aside.src.value, r);
  }

  /** Moving a file helps no move that is lost. */
  lemma FileMovesHopeless(plan: Plan, s: State, n: Aside)
    requires plan.Wf() && Hopeless(plan, s) && plan.strategy == ReplayableMove
    requires s.journal.value.phase == GateCreated && s.journal.value.recorded
    requires n.file in s.src.value.files && n !in s.src.value.staged
    ensures var aside := TakenAside(s, n);
            var linked := LinkedIn(aside, n);
            Hopeless(plan, aside) && Hopeless(plan, linked) && Hopeless(plan, DropName(linked, n))
  {
    var aside := TakenAside(s, n);
    var linked := LinkedIn(aside, n);
    FileMoves(plan, s, n);
    assert Sunk(plan, s);
    var r, q := LostRow(plan, s);
    assert r in s.dest.value.files && s.rows[r].side == Source ==> r != n.file;
    hide Inv;
    LostRowSinks(plan, aside, r, q);
    LostRowSinks(plan, linked, r, q);
    LostRowSinks(plan, DropName(linked, n), r, q);
  }

  /** The disk and database of a vault during one folder move. */
  class Vault {
    const plan: Plan
    /** Whether the machine may die between two system calls. */
    const mortal: bool
    var s: State

    constructor (plan: Plan, mortal: bool)
      requires plan.Wf()
      ensures this.plan == plan && this.mortal == mortal
              && s == State(Some(plan.Original()), None, Some(Journal(Prepared, 0, false)), plan.prepared)
      ensures Inv(plan, s)
    {
      this.plan, this.mortal := plan, mortal;
      s := State(Some(plan.Original()), None, Some(Journal(Prepared, 0, false)), plan.prepared);
    }

    /** Whether the machine dies here; it does so only if it is mortal. */
    method Dies() returns (yes: bool)
      ensures yes ==> mortal
    {
      yes := *;
      yes := yes && mortal;
    }

    /** One system call, durable rewrite or database transaction: it takes
        effect, or the machine is found dead before it. Every step must keep
        the invariant and must not take the journal back. */
    method Do(next: State) returns (r: Step<()>)
      requires Inv(plan, next) && Advances(s, next)
      modifies this
      ensures !mortal ==> r.Done?
      ensures s == if r.Done? then next else old(s)
    {
      var dies := Dies();
      if dies {
        return Crashed;
      }
      s := next;
      r := Done(());
    }

    /** The create-only move of one file: aside under a staging name, linked
        in at the destination, staging name dropped. */
    method MoveFile(name: Rel) returns (r: Step<()>)
      requires plan.Wf() && Inv(plan, s) && plan.strategy == ReplayableMove
      requires s.journal.Some? && s.journal.value.phase == GateCreated && s.journal.value.recorded
      requires name in s.src.value.files
      modifies this
      ensures !mortal ==> r.Done?
      ensures Inv(plan, s) && s.journal == old(s.journal) && s.rows == old(s.rows)
      ensures Hopeless(plan, old(s)) ==> Hopeless(plan, s)
      ensures r.Done? ==>
                && s.src == Some(old(s).src.value.(files := old(s).src.value.files - {name}))
                && s.dest == Some(old(s).dest.value.(files := old(s).dest.value.files[name := plan.entries[name]]))
    {
      var token := FreshToken(s.src.value.staged);
      var n := Aside(name, token);
      FileMoves(plan, s, n);
      if Hopeless(plan, s) {
        FileMovesHopeless(plan, s, n);
      }
      hide Inv, Hopeless;
      var _ :- Do(TakenAside(s, n));
      var _ :- Do(LinkedIn(s, n));
      var _ :- Do(DropName(s, n));
      r := Done(());
    }

    /** Move every file that is still at the source into the gate. */
    method MoveEntries() returns (r: Step<()>)
      requires plan.Wf() && Inv(plan, s) && plan.strategy == ReplayableMove
      requires s.journal.Some? && s.journal.value.phase == GateCreated && s.journal.value.recorded
      requires Missing(plan, s) == {}
      modifies this
      ensures !mortal ==> r.Done?
      ensures Inv(plan, s) && s.journal == old(s.journal)
      ensures Hopeless(plan, old(s)) ==> Hopeless(plan, s)
      ensures r.Done? ==> s == Land(plan, old(s)).(journal := old(s.journal))
    {
      var todo := s.src.value.files.Keys;
      while todo != {}
        invariant Inv(plan, s) && s.journal == old(s.journal) && s.rows == old(s.rows)
        invariant s.src == Some(old(s).src.value.(files := s.src.value.files)) && s.src.value.files.Keys == todo
        invariant s.dest == Some(old(s).dest.value.(files := s.dest.value.files))
        invariant Missing(plan, s) == {} && (Hopeless(plan, old(s)) ==> Hopeless(plan, s))
      {
        var name :| name in todo;
        var _ :- MoveFile(name);
        todo := todo - {name};
      }
      assert s.dest.value.files == plan.entries;
      r := Done(());
    }

    /** Remove the declared subfolders bottom-up, then the root, as far as they
        are empty. Yields whether a declared subfolder was already gone. */
    method RemoveDeclaredEmptyDirectories() returns (r: Step<bool>)
      requires plan.Wf() && Inv(plan, s) && plan.strategy == ReplayableMove
      requires s.journal.Some? && s.journal.value.phase == MetadataCommitted && s.src.Some?
      modifies this
      ensures !mortal ==> r.Done?
      ensures Inv(plan, s) && s.journal == old(s.journal) && s.dest == old(s.dest) && s.rows == old(s.rows)
      ensures Hopeless(plan, old(s)) ==> Hopeless(plan, s)
      ensures r.Done? ==> s == old(s).(src := RemoveShells(old(s).src.value))
      ensures r.Done? ==> r.value == (old(s).src.value.dirs != plan.dirs)
    {
      ghost var dir := s.src.value;
      var conflict := false;
      var todo := plan.dirs;
      while todo != {}
        invariant todo <= plan.dirs
        invariant s.src.Some? && Inv(plan, s) && s == old(s).(src := Some(dir.(dirs := s.src.value.dirs)))
        invariant s.src.value.dirs == dir.dirs - (BareDirs(dir) - todo)
        invariant conflict == exists d :: d in plan.dirs - todo && d !in dir.dirs
      {
        ghost var deepest := DeepestExists(todo);
        var d :| d in todo && forall e | e in todo :: |e| <= |d|;
        if d !in s.src.value.dirs {
          conflict := true;
        } else if Empty(s.src.value, d) {
          var _ :- Do(s.(src := Some(s.src.value.(dirs := s.src.value.dirs - {d}))));
        } else {
          NotBare(dir, s.src.value.dirs, d, todo);
        }
        todo := todo - {d};
      }
      assert BareDirs(dir) - todo == BareDirs(dir);
      if s.src.value.files == map[] && s.src.value.staged == map[] && s.src.value.dirs == {} {
        var _ :- Do(s.(src := None));
      }
      r := Done(conflict);
    }

    /** Prove both stores committed, clean the source shells, drop the journal
        and then the marker. */
    method FinalizeCleanup() returns (r: Step<Verdict>)
      requires plan.Wf() && Inv(plan, s)
      requires s.journal.Some? && s.journal.value.phase == MetadataCommitted
      modifies this
      ensures !mortal ==> r.Done?
      ensures Inv(plan, s) && Advances(old(s), s)
      ensures Hopeless(plan, old(s)) ==> Hopeless(plan, s)
      ensures r == Done(Completed) ==> s.dest.Some? && !s.dest.value.marker
      ensures r.Done? ==> (s, r.value) == Finalize(plan, old(s))
    {
      assert Landed(plan, s.dest) && s.rows == plan.Committed();
      if plan.strategy == ReplayableMove {
        if s.src.None? {
          return Done(Quarantined);
        }
        var conflict :- RemoveDeclaredEmptyDirectories();
        if conflict || s.src.Some? {
          return Done(Quarantined);
        }
      }
      var _ :- Do(s.(journal := None));
      if plan.strategy == ReplayableMove {
        var _ :- Do(s.(dest := Some(s.dest.value.(marker := false))));
      }
      r := Done(Completed);
    }

    /** Move the rows in one database transaction, make that durable in the
        journal, and finish. Rows that match neither snapshot are left alone. */
    method CompleteFolderMoveMetadata() returns (r: Step<Verdict>)
      requires plan.Wf() && Inv(plan, s)
      requires s.journal.Some? && s.journal.value.phase == FilesLanded
      modifies this
      ensures !mortal ==> r.Done?
      ensures Inv(plan, s) && Advances(old(s), s)
      ensures Hopeless(plan, old(s)) ==> Hopeless(plan, s)
      ensures r == Done(Completed) ==> s.dest.Some? && !s.dest.value.marker
      ensures r.Done? ==> (s, r.value) == CompleteMetadata(plan, old(s))
    {
      assert Landed(plan, s.dest);
      if s.rows != plan.Committed() {
        if s.rows != plan.prepared {
          return Done(Quarantined);
        }
        var _ :- Do(s.(rows := plan.Committed()));
      }
      var _ :- Do(s.(journal := Some(s.journal.value.(phase := MetadataCommitted))));
      r := FinalizeCleanup();
    }

    /** Create the destination subfolders that are not there yet. */
    method CreateDestinationDirectories() returns (r: Step<()>)
      requires plan.Wf() && Inv(plan, s) && plan.strategy == ReplayableMove
      requires s.journal.Some? && s.journal.value.phase == GateCreated && !s.journal.value.recorded
      modifies this
      ensures !mortal ==> r.Done?
      ensures Inv(plan, s) && Advances(old(s), s)
      ensures r.Done? ==> s == old(s).(dest := Some(old(s).dest.value.(dirs := plan.dirs)),
                                       journal := Some(old(s).journal.value.(recorded := true)))
    {
      var todo := plan.dirs;
      while todo != {}
        invariant todo <= plan.dirs && s.dest.Some? && Inv(plan, s)
        invariant s == old(s).(dest := Some(old(s).dest.value.(dirs := s.dest.value.dirs)))
        invariant plan.dirs - todo <= s.dest.value.dirs <= plan.dirs
      {
        var d :| d in todo;
        if d !in s.dest.value.dirs {
          var _ :- Do(s.(dest := Some(s.dest.value.(dirs := s.dest.value.dirs + {d}))));
        }
        todo := todo - {d};
      }
      assert s.dest.value.dirs == plan.dirs;
      r := Do(s.(journal := Some(s.journal.value.(recorded := true))));
    }

    /** Make the destination directory with its marker, and then its identity
        durable. */
    method CreateGate(gate: nat) returns (r: Step<()>)
      requires plan.Wf() && Inv(plan, s) && s.dest.None?
      requires s.journal.Some? && s.journal.value.phase == Prepared && gate != plan.sourceId
      modifies this
      ensures !mortal ==> r.Done?
      ensures Inv(plan, s) && Advances(old(s), s)
      ensures r.Done? ==>
                s == State(Some(plan.Original()), Some(Dir(gate, map[], map[], {}, true)),
                           Some(Journal(GateCreated, gate, false)), plan.prepared)
    {
      // The prepared journal's inventory of the source is intact here.
      assert s.src == Some(plan.Original());
      var _ :- Do(s.(dest := Some(Dir(gate, map[], map[], {}, false))));
      var _ :- Do(s.(dest := Some(s.dest.value.(marker := true))));
      r := Do(s.(journal := Some(Journal(GateCreated, gate, false))));
    }

    /** The executor, then the metadata commit: the whole forward move. `gate`
        is the identity of the directory it creates at the destination. */
    method Execute(gate: nat) returns (r: Step<Verdict>)
      requires plan.Wf() && Inv(plan, s) && s.dest.None?
      requires s.journal.Some? && s.journal.value.phase == Prepared && gate != plan.sourceId
      modifies this
      ensures !mortal ==> r.Done?
      ensures Inv(plan, s) && Advances(old(s), s)
      ensures r.Done? ==> r.value == Completed && s.journal.None? && AllAtDestination(plan, s) && !s.dest.value.marker
    {
      var _ :- CreateGate(gate);
      if plan.strategy == AtomicRename {
        var _ :- RenameOverGate();
      } else {
        var _ :- CreateDestinationDirectories();
        var _ :- MoveEntries();
        var _ :- Do(s.(journal := Some(s.journal.value.(phase := FilesLanded))));
      }
      r := CompleteFolderMoveMetadata();
    }

    /** Drop the marker and rename the source folder over the empty gate; the
        destination then is the source folder itself. */
    method RenameOverGate() returns (r: Step<()>)
      requires plan.Wf() && Inv(plan, s) && plan.strategy == AtomicRename
      requires s.src.Some? && s.dest.Some? && s.dest.value.marker
      requires s.journal.Some? && s.journal.value.phase == GateCreated
      modifies this
      ensures !mortal ==> r.Done?
      ensures Inv(plan, s) && Advances(old(s), s)
      ensures r.Done? ==>
                s == old(s).(src := None, dest := Some(plan.Original()),
                             journal := Some(old(s).journal.value.(phase := FilesLanded, gate := plan.sourceId)))
    {
      var _ :- Do(s.(dest := Some(s.dest.value.(marker := false))));
      var _ :- Do(s.(src := None, dest := s.src));
      r := Do(s.(journal := Some(s.journal.value.(phase := FilesLanded, gate := plan.sourceId))));
    }

    /** Startup recovery of a move whose gate is durable: rename over it, unless
        that has happened. */
    method RecoverAtomicGate() returns (r: Step<Verdict>)
      requires plan.Wf() && Inv(plan, s) && plan.strategy == AtomicRename
      requires s.journal.Some? && s.journal.value.phase == GateCreated
      modifies this
      ensures !mortal ==> r.Done?
      ensures Inv(plan, s) && Advances(old(s), s)
      ensures Hopeless(plan, old(s)) ==> Hopeless(plan, s)
      ensures r.Done? ==> (s, r.value) == RecoverJournal(plan, old(s))
    {
      if s.src.Some? {
        if !s.dest.value.marker {
          return Done(Quarantined);
        }
        var _ :- RenameOverGate();
      } else {
        var _ :- Do(s.(journal := Some(s.journal.value.(phase := FilesLanded, gate := plan.sourceId))));
      }
      r := CompleteFolderMoveMetadata();
    }

    /** The same for a replayable move: move the files that are left. */
    method RecoverReplayableGate() returns (r: Step<Verdict>)
      requires plan.Wf() && Inv(plan, s) && plan.strategy == ReplayableMove
      requires s.journal.Some? && s.journal.value.phase == GateCreated
      modifies this
      ensures !mortal ==> r.Done?
      ensures Inv(plan, s) && Advances(old(s), s)
      ensures Hopeless(plan, old(s)) ==> Hopeless(plan, s)
      ensures r.Done? ==> (s, r.value) == RecoverJournal(plan, old(s))
    {
      if !s.journal.value.recorded {
        if s.dest.value.dirs != {} {
          return Done(Quarantined);
        }
        var _ :- CreateDestinationDirectories();
      }
      r := ResumeEntries();
    }

    /** Move the files that are left and go on, unless one is missing. */
    method ResumeEntries() returns (r: Step<Verdict>)
      requires plan.Wf() && Inv(plan, s) && plan.strategy == ReplayableMove
      requires s.journal.Some? && s.journal.value.phase == GateCreated && s.journal.value.recorded
      modifies this
      ensures !mortal ==> r.Done?
      ensures Inv(plan, s) && Advances(old(s), s)
      ensures Hopeless(plan, old(s)) ==> Hopeless(plan, s)
      ensures r.Done? ==> (s, r.value) == RecoverJournal(plan, old(s))
    {
      if Missing(plan, s) != {} {
        return Done(Quarantined);
      }
      var _ :- MoveEntries();
      var _ :- Do(s.(journal := Some(s.journal.value.(phase := FilesLanded))));
      r := CompleteFolderMoveMetadata();
    }

    /** Startup recovery of the move's journal, by its durable phase. */
    method RecoverFolderMoveJournal() returns (r: Step<Verdict>)
      requires plan.Wf() && Inv(plan, s) && s.journal.Some?
      modifies this
      ensures !mortal ==> r.Done?
      ensures Inv(plan, s) && Advances(old(s), s)
      ensures Hopeless(plan, old(s)) ==> Hopeless(plan, s)
      ensures r.Done? ==> (s, r.value) == RecoverJournal(plan, old(s))
    {
      match s.journal.value.phase {
        case Prepared =>
          if s.dest.Some? {
            return Done(Quarantined);
          }
          var _ :- Do(s.(journal := None));
          return Done(Cleaned);
        case GateCreated =>
          if plan.strategy == AtomicRename {
            r := RecoverAtomicGate();
          } else {
            r := RecoverReplayableGate();
          }
        case FilesLanded =>
          r := CompleteFolderMoveMetadata();
        case MetadataCommitted =>
          r := FinalizeCleanup();
      }
    }

    /** Resolve every rename-staging name left in the source; `now` is the clock. */
    method RecoverRenameStagings(now: Instant) returns (r: Step<bool>)
      requires plan.Wf() && Inv(plan, s)
      modifies this
      ensures !mortal ==> r.Done?
      ensures Inv(plan, s) && s.journal == old(s.journal)
      ensures Sunk(plan, old(s)) ==> Sunk(plan, s)
      ensures r.Done? ==> s == SettleStagings(plan, old(s), now)
      ensures r.Done? ==> r.value == (old(s).src.Some? && old(s).dest.Some? && old(s).src.value.staged != map[])
    {
      if s.src.None? || s.dest.None? {
        return Done(false);
      }
      ghost var s0 := s;
      var todo, found := s.src.value.staged.Keys, s.src.value.staged != map[];
      StagingsAreOrderly(plan, s);
      SettleNone(plan, s, now);
      assert s0.src.value.staged.Keys - todo == {};
      hide Inv, SettleSome, Orderly, Sunk;
      while todo != {}
        invariant Inv(plan, s) && todo <= s0.src.value.staged.Keys
        invariant Sunk(plan, s0) ==> Sunk(plan, s)
        invariant s.journal == s0.journal && s == SettleSome(plan, s0, s0.src.value.staged.Keys - todo, now)
      {
        var n :| n in todo;
        SettleOneMore(plan, s0, s0.src.value.staged.Keys - todo, n, now);
        var _ :- RecoverRenameStaging(n, now);
        assert s0.src.value.staged.Keys - (todo - {n}) == s0.src.value.staged.Keys - todo + {n};
        todo := todo - {n};
      }
      assert s0.src.value.staged.Keys - todo == s0.src.value.staged.Keys;
      r := Done(found);
    }

    /** Resolve one staging name: with a partner, remove the name and let the
        row follow; without, link the file back and then remove the name. */
    method RecoverRenameStaging(n: Aside, now: Instant) returns (r: Step<()>)
      requires plan.Wf() && Inv(plan, s) && s.src.Some? && s.dest.Some? && n in s.src.value.staged
      modifies this
      ensures !mortal ==> r.Done?
      ensures Inv(plan, s) && s.journal == old(s.journal)
      ensures Sunk(plan, old(s)) ==> Sunk(plan, s)
      ensures r.Done? ==> s == SettleStaging(plan, old(s), n, now)
    {
      SettleKeepsInv(plan, s, n, now);
      if Sunk(plan, s) {
        SettleKeepsSunk(plan, s, n, now);
      }
      hide Inv, Sunk;
      match PartnerOf(plan, s, n) {
        case Nobody =>
          var _ :- Do(LinkBack(s, n));
          r := Do(DropName(s, n));
        case AtSource =>
          r := Do(DropName(s, n));
        case AtDestination =>
          var _ :- Do(DropName(s, n));
          r := Do(PullRow(s, n.file, Destination, now));
        case OtherStaging =>
          var _ :- Do(DropName(s, n));
          r := Do(PullRow(s, n.file, Hidden, now));
      }
    }
  }

  /** A token no staging name has; the server draws a random one. */
  method FreshToken(staged: map<Aside, nat>) returns (token: nat)
    ensures forall n | n in staged :: n.token < token
  {
    token := 0;
    var todo := staged.Keys;
    while todo != {}
      invariant todo <= staged.Keys && forall n | n in staged && n !in todo :: n.token < token
    {
      var n :| n in todo;
      todo, token := todo - {n}, if n.token < token then token else n.token + 1;
    }
  }

  lemma StagingsAreOrderly(plan: Plan, s: State)
    requires Inv(plan, s) && s.src.Some? && s.dest.Some?
    ensures Orderly(plan, s)
  {
  }

  lemma LinkBackKeepsInv(plan: Plan, s: State, n: Aside)
    requires plan.Wf() && Inv(plan, s) && s.src.Some? && s.dest.Some? && n in s.src.value.staged
    requires n.file !in s.dest.value.files
    ensures Inv(plan, LinkBack(s, n))
  {
    assert IsAside(s.src.value, n.file);
  }

  /** A staging name may go if its file has another name. */
  lemma DropNameKeepsInv(plan: Plan, s: State, n: Aside)
    requires plan.Wf() && Inv(plan, s) && s.src.Some? && s.dest.Some? && n in s.src.value.staged
    requires n.file in s.src.value.files || n.file in s.dest.value.files || HasTwin(s.src.value, n)
    ensures Inv(plan, DropName(s, n))
  {
    forall r | IsAside(s.src.value, r) && (r != n.file || HasTwin(s.src.value, n))
      ensures IsAside(DropName(s, n).src.value, r)
    {
      var m :| m in s.src.value.staged && m.file == r && m != n;
      assert m in DropName(s, n).src.value.staged;
    }
  }

  lemma PullRowKeepsInv(plan: Plan, s: State, r: Rel, side: Side, now: Instant)
    requires plan.Wf() && Inv(plan, s) && s.src.Some? && s.dest.Some? && plan.strategy == ReplayableMove
    requires s.journal.Some? && (s.journal.value.phase == GateCreated ==> s.journal.value.recorded)
             && s.journal.value.phase != Prepared
    requires side == Hidden || (side == Destination && r in s.dest.value.files)
    ensures Inv(plan, PullRow(s, r, side, now))
  {
  }

  /** Staging names occur only once the moving of files has begun. */
  lemma StagedMeansMoving(plan: Plan, s: State)
    requires Inv(plan, s) && s.src.Some? && s.dest.Some? && s.src.value.staged != map[]
    ensures plan.strategy == ReplayableMove && s.journal.Some? && s.journal.value.phase != Prepared
    ensures s.journal.value.phase == GateCreated ==> s.journal.value.recorded
  {
  }

  /** Every step of resolving a staging name keeps the invariant. */
  lemma SettleKeepsInv(plan: Plan, s: State, n: Aside, now: Instant)
    requires plan.Wf() && Inv(plan, s) && s.src.Some? && s.dest.Some? && n in s.src.value.staged
    ensures match PartnerOf(plan, s, n)
            case Nobody => Inv(plan, LinkBack(s, n))
            case _ => Inv(plan, DropName(s, n))
    ensures Inv(plan, SettleStaging(plan, s, n, now))
  {
    StagedMeansMoving(plan, s);
    match PartnerOf(plan, s, n) {
      case Nobody =>
        LinkBackKeepsInv(plan, s, n);
        DropNameKeepsInv(plan, LinkBack(s, n), n);
      case AtSource =>
        DropNameKeepsInv(plan, s, n);
      case AtDestination =>
        DropNameKeepsInv(plan, s, n);
        PullRowKeepsInv(plan, DropName(s, n), n.file, Destination, now);
      case OtherStaging =>
        DropNameKeepsInv(plan, s, n);
        PullRowKeepsInv(plan, DropName(s, n), n.file, Hidden, now);
    }
    hide Inv, HasTwin;
  }

  /** Nor does any step of resolving a staging name. */
  lemma SettleKeepsSunk(plan: Plan, s: State, n: Aside, now: Instant)
    requires plan.Wf() && Sunk(plan, s) && s.src.Some? && s.dest.Some? && n in s.src.value.staged
    ensures match PartnerOf(plan, s, n)
            case Nobody => Sunk(plan, LinkBack(s, n))
            case _ => Sunk(plan, DropName(s, n))
    ensures Sunk(plan, SettleStaging(plan, s, n, now))
  {
    StagedMeansMoving(plan, s);
    SettleKeepsInv(plan, s, n, now);
    if s.journal.value.phase != MetadataCommitted {
      var r, q := LostRow(plan, s);
      assert IsAside(s.src.value, n.file);
      assert s.rows[r].side == Source ==> r != n.file;
      hide Inv;
      match PartnerOf(plan, s, n) {
        case Nobody =>
          LostRowSinks(plan, LinkBack(s, n), r, q);
          LostRowSinks(plan, DropName(LinkBack(s, n), n), r, q);
        case AtSource =>
          LostRowSinks(plan, DropName(s, n), r, q);
        case AtDestination =>
          LostRowSinks(plan, DropName(s, n), r, q);
          LostRowSinks(plan, SettleStaging(plan, s, n, now), r, q);
        case OtherStaging =>
          LostRowSinks(plan, DropName(s, n), r, q);
          LostRowSinks(plan, SettleStaging(plan, s, n, now), r, q);
      }
    }
  }

  /** Bottom-up, a subfolder that is not empty has a file below it. */
  lemma NotBare(dir: Dir, left: set<Rel>, d: Rel, todo: set<Rel>)
    requires left == dir.dirs - (BareDirs(dir) - todo)
    requires forall e | e in todo :: |e| <= |d|
    requires !Empty(dir.(dirs := left), d)
    ensures !Bare(dir, d)
  {
    if Bare(dir, d) {
      var e :| e in left && d < e;
      assert |d| < |e|;
      BareIsHereditary(dir, d, e);
    }
  }
}
