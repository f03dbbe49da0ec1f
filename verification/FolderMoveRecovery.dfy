/** The startup call that recovers an interrupted folder move: its passes over
    journal and staging names, what every run of it keeps, and exactly when it
    completes the move. */
module FolderMoveRecovery {
  import opened Wrappers
  import opened MetadataVersion
  import opened FolderMoveState
  import opened FolderMoveStaging
  import opened FolderMoveRescue
  import opened FolderMove

  predicate HasStagings(s: State) {
    s.src.Some? && s.dest.Some? && s.src.value.staged != map[]
  }

  /** An uninterrupted call: the journal waits for the staging names, and is
      looked at again once any was resolved. */
  function RecoverCall(plan: Plan, s: State, now: Instant): State
    requires plan.Wf() && Inv(plan, s)
  {
    if s.journal.None? then s
    else
      RecoverJournalKeepsInv(plan, s);
      var first := RecoverJournal(plan, s).0;
      SettleStagingsKeepsInv(plan, first, now);
      var settled := SettleStagings(plan, first, now);
      if HasStagings(first) && settled.journal.Some? then RecoverJournal(plan, settled).0 else settled
  }

  /** What recovering the journal from `s` to `s'` must have kept. */
  ghost predicate Kept(plan: Plan, s: State, s': State, verdict: Verdict) {
    && Inv(plan, s') && Advances(s, s') && (s'.journal.None? <==> verdict != Quarantined)
    && (!HasStagings(s) ==> !HasStagings(s'))
  }

  lemma FinalizeKeepsInv(plan: Plan, s: State)
    requires plan.Wf() && Inv(plan, s) && s.journal.Some? && s.journal.value.phase == MetadataCommitted
    ensures Kept(plan, s, Finalize(plan, s).0, Finalize(plan, s).1)
  {
  }

  lemma CompleteMetadataKeepsInv(plan: Plan, s: State)
    requires plan.Wf() && Inv(plan, s) && s.journal.Some? && s.journal.value.phase == FilesLanded
    ensures Kept(plan, s, CompleteMetadata(plan, s).0, CompleteMetadata(plan, s).1)
  {
    if s.rows == plan.prepared || s.rows == plan.Committed() {
      FinalizeKeepsInv(plan,
                       s.(rows := plan.Committed(), journal := Some(s.journal.value.(phase := MetadataCommitted))));
    }
    hide Finalize;
  }

  lemma RecoverGateKeepsInv(plan: Plan, s: State)
    requires plan.Wf() && Inv(plan, s) && s.journal.Some? && s.journal.value.phase == GateCreated
    ensures Kept(plan, s, RecoverJournal(plan, s).0, RecoverJournal(plan, s).1)
  {
    if plan.strategy == AtomicRename {
      if !(s.src.Some? && !s.dest.value.marker) {
        CompleteMetadataKeepsInv(plan, s.(src := None, dest := Some(plan.Original()),
                                          journal := Some(s.journal.value.(phase := FilesLanded,
                                                                           gate := plan.sourceId))));
      }
    } else if !(!s.journal.value.recorded && s.dest.value.dirs != {}) {
      var ready := s.(dest := Some(s.dest.value.(dirs := plan.dirs)),
                      journal := Some(s.journal.value.(recorded := true)));
      assert Inv(plan, ready);
      if Missing(plan, ready) == {} {
        CompleteMetadataKeepsInv(plan, Land(plan, ready));
      }
    }
    hide CompleteMetadata;
  }

  lemma RecoverJournalKeepsInv(plan: Plan, s: State)
    requires plan.Wf() && Inv(plan, s) && s.journal.Some?
    ensures var (s', verdict) := RecoverJournal(plan, s);
            Inv(plan, s') && Advances(s, s') && (s'.journal.None? <==> verdict != Quarantined)
    ensures !HasStagings(s) ==> !HasStagings(RecoverJournal(plan, s).0)
  {
    match s.journal.value.phase
    case Prepared =>
    case GateCreated => RecoverGateKeepsInv(plan, s);
    case FilesLanded => CompleteMetadataKeepsInv(plan, s);
    case MetadataCommitted => FinalizeKeepsInv(plan, s);
  }

  lemma NoJournalNoStagings(plan: Plan, s: State)
    requires Inv(plan, s) && s.journal.None?
    ensures !HasStagings(s)
  {
  }

  lemma SettleStagingsKeepsInv(plan: Plan, s: State, now: Instant)
    requires plan.Wf() && Inv(plan, s)
    ensures Inv(plan, SettleStagings(plan, s, now)) && SettleStagings(plan, s, now).journal == s.journal
    ensures !HasStagings(SettleStagings(plan, s, now))
    ensures !HasStagings(s) ==> SettleStagings(plan, s, now) == s
  {
    if s.src.Some? && s.dest.Some? {
      SettleSomeKeepsInv(plan, s, s.src.value.staged.Keys, now);
      if !HasStagings(s) {
        assert s.src.value.staged.Keys == {};
        SettleNone(plan, s, now);
      }
    }
  }

  lemma {:induction false} SettleSomeKeepsInv(plan: Plan, s: State, done: set<Aside>, now: Instant)
    requires plan.Wf() && Inv(plan, s) && s.src.Some? && s.dest.Some? && done <= s.src.value.staged.Keys
    ensures Inv(plan, SettleSome(plan, s, done, now))
  {
    if done == {} {
      SettleNone(plan, s, now);
    } else {
      var n :| n in done;
      SettleSomeKeepsInv(plan, s, done - {n}, now);
      StagingsAreOrderly(plan, s);
      SettleOneMore(plan, s, done - {n}, n, now);
      assert done - {n} + {n} == done;
      SettleKeepsInv(plan, SettleSome(plan, s, done - {n}, now), n, now);
      hide Inv, Orderly, SettleSome;
    }
  }

  /** Looking at the journal of a lost move leaves it nothing more to do. */
  lemma HopelessSinks(plan: Plan, s: State)
    requires plan.Wf() && Hopeless(plan, s)
    ensures Sunk(plan, RecoverJournal(plan, s).0)
  {
    RecoverJournalKeepsInv(plan, s);
    if plan.strategy == ReplayableMove {
      match s.journal.value.phase
      case Prepared =>
      case GateCreated =>
        if s.journal.value.recorded && RowsSettle(plan, s) {
          LandedSinks(plan, Land(plan, s));
        } else if s.journal.value.recorded {
          GateSinks(plan, s);
        }
      case FilesLanded => LandedSinks(plan, s);
      case MetadataCommitted => CommittedSinks(plan, s);
    }
  }

  lemma SunkIsHopeless(plan: Plan)
    ensures forall s | Sunk(plan, s) :: Hopeless(plan, s)
    ensures forall s | Hopeless(plan, s) :: s.journal.Some?
  {
  }

  lemma CommittedSinks(plan: Plan, s: State)
    requires plan.Wf() && Hopeless(plan, s) && plan.strategy == ReplayableMove
             && s.journal.value.phase == MetadataCommitted
    ensures Sunk(plan, Finalize(plan, s).0)
  {
    FinalizeKeepsInv(plan, s);
    if s.src.Some? && s.src.value.dirs == plan.dirs {
      ShellsKept(plan, s.src.value);
    }
  }

  lemma LandedSinks(plan: Plan, s: State)
    requires plan.Wf() && Hopeless(plan, s) && plan.strategy == ReplayableMove && s.journal.value.phase == FilesLanded
    ensures Sunk(plan, CompleteMetadata(plan, s).0)
  {
    if RowsSettle(plan, s) {
      CommittedSinks(plan, s.(rows := plan.Committed(), journal := Some(s.journal.value.(phase := MetadataCommitted))));
    }
  }

  lemma GateSinks(plan: Plan, s: State)
    requires plan.Wf() && Hopeless(plan, s) && plan.strategy == ReplayableMove && !RowsSettle(plan, s)
    requires s.journal.value.phase == GateCreated && s.journal.value.recorded
    ensures Sunk(plan, RecoverJournal(plan, s).0)
  {
    assert Sunk(plan, s);
    var r, q := LostRow(plan, s);
    if Missing(plan, s) == {} {
      assert s.rows[r].side == Source ==> r in s.dest.value.files;
      LandKeepsInv(plan, s);
      LostRowSinks(plan, Land(plan, s), r, q);
    }
  }

  lemma LandKeepsInv(plan: Plan, s: State)
    requires plan.Wf() && Inv(plan, s) && plan.strategy == ReplayableMove
    requires s.journal.Some? && s.journal.value.phase == GateCreated && s.journal.value.recorded
             && Missing(plan, s) == {}
    ensures Inv(plan, Land(plan, s))
  {
  }

  /** What one pass reports: the journal's verdict, or a staging name resolved. */
  datatype Action = OfJournal(verdict: Verdict) | OfStaging

  /** The startup call: passes until one reports nothing new, sixteen at most.
      A journal that had to be left alone is terminal until a pass makes
      progress on something else. */
  method RecoverInterruptedOperations(v: Vault, now: Instant) returns (r: Step<()>)
    requires v.plan.Wf() && Inv(v.plan, v.s)
    modifies v
    ensures !v.mortal ==> r.Done?
    ensures Inv(v.plan, v.s) && Advances(old(v.s), v.s)
    ensures Hopeless(v.plan, old(v.s)) ==> Hopeless(v.plan, v.s)
    ensures r.Done? ==> v.s == RecoverCall(v.plan, old(v.s), now)
  {
    SunkIsHopeless(v.plan);
    hide Inv, RecoverJournal, SettleStagings, Hopeless, Sunk;
    var seen: set<Action>, terminal, progressed, pass := {}, false, true, 0;
    while pass < 16 && progressed
      invariant pass <= 16 && Inv(v.plan, v.s) && Advances(old(v.s), v.s)
      invariant pass == 0 ==> v.s == old(v.s) && !terminal && progressed && seen == {}
      invariant pass > 0 ==> !HasStagings(v.s)
      invariant Hopeless(v.plan, old(v.s)) ==> if pass == 0 then Hopeless(v.plan, v.s) else Sunk(v.plan, v.s)
      invariant pass > 0 ==>
                  || (v.s == RecoverCall(v.plan, old(v.s), now) && (v.s.journal.None? || terminal))
                  || (pass == 1 && progressed && !terminal && v.s.journal.Some?
                      && RecoverCall(v.plan, old(v.s), now) == RecoverJournal(v.plan, v.s).0)
    {
      var actions: set<Action> := {};
      ghost var before := v.s;
      if v.s.journal.Some? && !terminal {
        RecoverJournalKeepsInv(v.plan, v.s);
        if Hopeless(v.plan, v.s) {
          HopelessSinks(v.plan, v.s);
        }
        var verdict :- v.RecoverFolderMoveJournal();
        actions := {OfJournal(verdict)};
        terminal := verdict == Quarantined;
      }
      if v.s.journal.None? {
        NoJournalNoStagings(v.plan, v.s);
      }
      SettleStagingsKeepsInv(v.plan, v.s, now);
      var settled :- v.RecoverRenameStagings(now);
      if settled {
        actions := actions + {OfStaging};
        terminal := false;
      }
      progressed := !(actions <= seen);
      seen := seen + actions;
      pass := pass + 1;
    }
    r := Done(());
  }

  /** Startup calls at the given clock readings, each of which may die at any
      step. A move that is lost stays so. */
  method Startups(v: Vault, clock: seq<Instant>)
    requires v.plan.Wf() && Inv(v.plan, v.s)
    modifies v
    ensures Inv(v.plan, v.s) && Advances(old(v.s), v.s)
    ensures Hopeless(v.plan, old(v.s)) ==> Hopeless(v.plan, v.s) && v.s.journal.Some?
    ensures !v.mortal ==> v.s == RecoverCalls(v.plan, old(v.s), clock)
  {
    hide Inv, Rescuable;
    NoCalls(v.plan, v.s, clock);
    for i := 0 to |clock|
      invariant Inv(v.plan, v.s) && Advances(old(v.s), v.s)
      invariant Hopeless(v.plan, old(v.s)) ==> Hopeless(v.plan, v.s)
      invariant !v.mortal ==> v.s == RecoverCalls(v.plan, old(v.s), clock[..i])
    {
      OneCallMore(v.plan, old(v.s), clock, i);
      var _ := RecoverInterruptedOperations(v, clock[i]);
    }
  }

  lemma NoCalls(plan: Plan, s: State, clock: seq<Instant>)
    requires plan.Wf() && Inv(plan, s)
    ensures RecoverCalls(plan, s, clock[..0]) == s && clock[..|clock|] == clock
  {
  }

  lemma {:induction false} OneCallMore(plan: Plan, s: State, clock: seq<Instant>, i: nat)
    requires plan.Wf() && Inv(plan, s) && i < |clock|
    decreases i
    ensures var t := RecoverCalls(plan, s, clock[..i]);
            Inv(plan, t) && RecoverCalls(plan, s, clock[..i + 1]) == RecoverCall(plan, t, clock[i])
  {
    RecoverCallKeepsInv(plan, s, clock[0]);
    if i == 0 {
      assert clock[..1] == [clock[0]];
      NoCalls(plan, RecoverCall(plan, s, clock[0]), []);
    } else {
      OneCallMore(plan, RecoverCall(plan, s, clock[0]), clock[1..], i - 1);
      assert clock[..i][1..] == clock[1..][..i - 1] && clock[..i + 1][1..] == clock[1..][..i];
    }
    hide Inv, RecoverCall;
  }

  /** Any run: the move dies at any step, and so do startup calls. Both stores
      agree as soon as the journal is gone. */
  method MoveAndRestart(plan: Plan, gate: nat, clock: seq<Instant>, mortal: bool) returns (v: Vault)
    requires plan.Wf() && gate != plan.sourceId
    ensures v.plan == plan && Inv(plan, v.s)
    ensures v.s.journal.None? ==> AllAtSource(plan, v.s) || AllAtDestination(plan, v.s)
    ensures !mortal ==> AllAtDestination(plan, v.s)
  {
    v := new Vault(plan, mortal);
    var outcome := v.Execute(gate);
    if outcome.Crashed? {
      Startups(v, clock);
    }
  }

  // When a startup call completes the move.

  /** Once the staging names are resolved, the rows are as prepared or as
      committed: no row moves, or every row that is not committed yet moves to the
      destination and gets the planned version. */
  predicate RowsWillAgree(plan: Plan, s: State, now: Instant)
    requires s.src.Some? && s.dest.Some?
  {
    || (s.rows == plan.prepared && forall r | r in s.rows :: PullOf(plan, s, r) == Stay)
    || forall r | r in s.rows ::
         || s.rows[r] == Row(Destination, plan.timestamp)
         || (s.rows[r].side == Source && PullOf(plan, s, r) == To(Destination)
             && Followed(s.rows[r], Destination, now) == Row(Destination, plan.timestamp))
  }

  predicate Completable(plan: Plan, s: State, now: Instant)
    requires Inv(plan, s) && s.journal.Some?
  {
    var phase := s.journal.value.phase;
    if phase == Prepared then
      s.dest.None?
    else if plan.strategy == AtomicRename then
      phase == GateCreated ==> s.src.None? || s.dest.value.marker
    else if phase == MetadataCommitted then
      s.src.Some? && s.src.value.dirs == plan.dirs && ShellsHold(plan, s.src.value)
    else if phase == GateCreated && !s.journal.value.recorded then
      s.dest.value.dirs == {}
    else if Missing(plan, s) == {} && (s.rows == plan.prepared || s.rows == plan.Committed()) then
      ShellsHold(plan, s.src.value)
    else
      RowsWillAgree(plan, if Missing(plan, s) == {} then Land(plan, s) else s, now)
  }

  /** A call removes the journal exactly in these states. */
  lemma CompletesIff(plan: Plan, s: State, now: Instant)
    requires plan.Wf() && Inv(plan, s) && s.journal.Some?
    ensures RecoverCall(plan, s, now).journal.None? <==> Completable(plan, s, now)
  {
    var phase := s.journal.value.phase;
    if plan.strategy == AtomicRename || phase == Prepared {
      NothingStaged(plan, s, now);
    } else if phase == MetadataCommitted {
      CommittedCompletesIff(plan, s, now);
    } else if phase == FilesLanded {
      LandedCompletesIff(plan, s, now);
    } else if !s.journal.value.recorded {
      UnrecordedCompletesIff(plan, s, now);
    } else if Missing(plan, s) == {} {
      LandsFirst(plan, s, now);
      LandedCompletesIff(plan, Land(plan, s), now);
    } else {
      MissingCompletesIff(plan, s, now);
    }
  }

  lemma NothingStaged(plan: Plan, s: State, now: Instant)
    requires plan.Wf() && Inv(plan, s) && s.journal.Some?
    requires plan.strategy == AtomicRename || s.journal.value.phase == Prepared
    ensures RecoverCall(plan, s, now) == RecoverJournal(plan, s).0
    ensures RecoverCall(plan, s, now).journal.None? <==> Completable(plan, s, now)
  {
    RecoverJournalKeepsInv(plan, s);
    SettleStagingsKeepsInv(plan, RecoverJournal(plan, s).0, now);
  }

  lemma ShellsKept(plan: Plan, src: Dir)
    requires src.files == map[] && src.dirs == plan.dirs
    ensures RemoveShells(src).None? <==> src.staged == map[]
    ensures src.staged != map[] ==> (RemoveShells(src).value.dirs == plan.dirs <==> ShellsHold(plan, src))
  {
  }

  lemma CommittedCompletesIff(plan: Plan, s: State, now: Instant)
    requires plan.Wf() && Inv(plan, s) && plan.strategy == ReplayableMove
    requires s.journal.Some? && s.journal.value.phase == MetadataCommitted
    ensures RecoverCall(plan, s, now).journal.None? <==> Completable(plan, s, now)
  {
    RecoverJournalKeepsInv(plan, s);
    var first := RecoverJournal(plan, s).0;
    SettleStagingsKeepsInv(plan, first, now);
    if s.src.Some? && s.src.value.dirs == plan.dirs {
      ShellsKept(plan, s.src.value);
      if s.src.value.staged != map[] && ShellsHold(plan, s.src.value) {
        ShellsKept(plan, SettleStagings(plan, first, now).src.value);
      }
    }
  }

  lemma LandedCompletesIff(plan: Plan, s: State, now: Instant)
    requires plan.Wf() && Inv(plan, s) && plan.strategy == ReplayableMove
    requires s.journal.Some? && s.journal.value.phase == FilesLanded
    ensures RecoverCall(plan, s, now).journal.None? <==> Completable(plan, s, now)
  {
    if s.rows == plan.prepared || s.rows == plan.Committed() {
      MovedRowsCompleteIff(plan, s, now);
    } else {
      SettledLands(plan, s, now);
    }
  }

  lemma MovedRowsCompleteIff(plan: Plan, s: State, now: Instant)
    requires plan.Wf() && Inv(plan, s) && plan.strategy == ReplayableMove
    requires s.journal.Some? && s.journal.value.phase == FilesLanded
             && (s.rows == plan.prepared || s.rows == plan.Committed())
    ensures RecoverCall(plan, s, now).journal.None? <==> Completable(plan, s, now)
  {
    var committed := s.(rows := plan.Committed(), journal := Some(s.journal.value.(phase := MetadataCommitted)));
    assert RecoverJournal(plan, s) == RecoverJournal(plan, committed);
    CommittedCompletesIff(plan, committed, now);
    hide SettleStagings, Finalize;
  }

  /** After the staging names, a landed move completes iff the rows agree. */
  lemma SettledLands(plan: Plan, s: State, now: Instant)
    requires plan.Wf() && Inv(plan, s) && plan.strategy == ReplayableMove
    requires s.journal.Some?
             && (s.journal.value.phase == FilesLanded
                 || (s.journal.value.phase == GateCreated && s.journal.value.recorded))
    ensures var settled := SettleStagings(plan, s, now);
            && Inv(plan, settled) && settled.journal.Some?
            && (RecoverJournal(plan, settled).0.journal.None? <==> RowsWillAgree(plan, s, now))
  {
    SettleStagingsKeepsInv(plan, s, now);
    RowsAgreeIff(plan, s, now);
    var settled := SettleStagings(plan, s, now);
    ShellsKept(plan, Land(plan, settled).src.value);
  }

  lemma MissingCompletesIff(plan: Plan, s: State, now: Instant)
    requires plan.Wf() && Inv(plan, s) && plan.strategy == ReplayableMove
    requires s.journal.Some? && s.journal.value.phase == GateCreated && s.journal.value.recorded
    requires Missing(plan, s) != {}
    ensures RecoverCall(plan, s, now).journal.None? <==> Completable(plan, s, now)
  {
    assert RecoverJournal(plan, s).0 == s;
    var r :| r in Missing(plan, s);
    assert IsAside(s.src.value, r);
    SettledLands(plan, s, now);
  }

  /** With no file missing, a call carries on from the landed state. */
  lemma LandsFirst(plan: Plan, s: State, now: Instant)
    requires plan.Wf() && Inv(plan, s) && plan.strategy == ReplayableMove
    requires s.journal.Some? && s.journal.value.phase == GateCreated && s.journal.value.recorded
    requires Missing(plan, s) == {}
    ensures var landed := Land(plan, s);
            && Inv(plan, landed) && RecoverCall(plan, s, now) == RecoverCall(plan, landed, now)
  {
    assert RecoverJournal(plan, s) == CompleteMetadata(plan, Land(plan, s));
  }

  lemma UnrecordedCompletesIff(plan: Plan, s: State, now: Instant)
    requires plan.Wf() && Inv(plan, s) && plan.strategy == ReplayableMove
    requires s.journal.Some? && s.journal.value.phase == GateCreated && !s.journal.value.recorded
    ensures RecoverCall(plan, s, now).journal.None? <==> Completable(plan, s, now)
  {
    RecoverJournalKeepsInv(plan, s);
    var first := RecoverJournal(plan, s).0;
    SettleStagingsKeepsInv(plan, first, now);
    if s.dest.value.dirs == {} {
      ShellsKept(plan, plan.Original().(files := map[]));
    }
  }

  lemma RowsAgreeIff(plan: Plan, s: State, now: Instant)
    requires plan.Wf() && s.src.Some? && s.dest.Some? && s.rows.Keys == plan.prepared.Keys
    ensures var rows := SettleStagings(plan, s, now).rows;
            rows == plan.prepared || rows == plan.Committed() <==> RowsWillAgree(plan, s, now)
  {
    SettledRows(plan, s, now);
    hide PullOf, SettleStagings, Pulled, RowsWillAgree;
    var rows := SettleStagings(plan, s, now).rows;
    if rows == plan.prepared || rows == plan.Committed() {
      OnlyIfRowsAgree(plan, s, rows, now);
    }
    if RowsWillAgree(plan, s, now) {
      IfRowsAgree(plan, s, rows, now);
    }
  }

  lemma IfRowsAgree(plan: Plan, s: State, rows: map<Rel, Row>, now: Instant)
    requires plan.Wf() && s.src.Some? && s.dest.Some? && s.rows.Keys == plan.prepared.Keys
    requires rows.Keys == s.rows.Keys && forall r | r in s.rows :: rows[r] == Pulled(s.rows[r], PullOf(plan, s, r), now)
    requires RowsWillAgree(plan, s, now)
    ensures rows == plan.prepared || rows == plan.Committed()
  {
    hide PullOf;
    if s.rows == plan.prepared && forall r | r in s.rows :: PullOf(plan, s, r) == Stay {
      assert rows == plan.prepared;
    } else {
      assert rows == plan.Committed();
    }
  }

  lemma OnlyIfRowsAgree(plan: Plan, s: State, rows: map<Rel, Row>, now: Instant)
    requires plan.Wf() && s.src.Some? && s.dest.Some? && s.rows.Keys == plan.prepared.Keys
    requires rows.Keys == s.rows.Keys && forall r | r in s.rows :: rows[r] == Pulled(s.rows[r], PullOf(plan, s, r), now)
    requires rows == plan.prepared || rows == plan.Committed()
    ensures RowsWillAgree(plan, s, now)
  {
    if rows == plan.prepared {
      forall r | r in s.rows
        ensures s.rows[r] == plan.prepared[r] && PullOf(plan, s, r) == Stay
      {
        assert rows[r] == plan.prepared[r];
      }
    } else {
      forall r | r in s.rows
        ensures s.rows[r] == Row(Destination, plan.timestamp)
                || (s.rows[r].side == Source && PullOf(plan, s, r) == To(Destination)
                    && Followed(s.rows[r], Destination, now) == Row(Destination, plan.timestamp))
      {
        assert rows[r] == plan.Committed()[r];
      }
    }
  }

  lemma SettledRows(plan: Plan, s: State, now: Instant)
    requires s.src.Some? && s.dest.Some?
    ensures var rows := SettleStagings(plan, s, now).rows;
            rows.Keys == s.rows.Keys && forall r | r in s.rows :: rows[r] == Pulled(s.rows[r], PullOf(plan, s, r), now)
  {
    forall r | r in s.rows
      ensures SettleStagings(plan, s, now).rows[r] == Pulled(s.rows[r], PullOf(plan, s, r), now)
    {
      assert Begun(s.src.value.staged.Keys, r) <==> IsAside(s.src.value, r);
    }
    hide FilesSettled;
  }

  /** A call that ends the move undoes it exactly when the destination was not
      created durably, and completes it otherwise. */
  lemma EndsForward(plan: Plan, s: State, now: Instant)
    requires plan.Wf() && Inv(plan, s) && s.journal.Some? && Completable(plan, s, now)
    ensures if s.journal.value.phase == Prepared then AllAtSource(plan, RecoverCall(plan, s, now))
            else AllAtDestination(plan, RecoverCall(plan, s, now))
  {
    CompletesIff(plan, s, now);
    RecoverCallKeepsInv(plan, s, now);
    DestinationStays(plan, s, now);
    hide RecoverCall;
  }

  /** A call that completes a move takes the gate marker away. */
  lemma CompletionUnmarks(plan: Plan, s: State, now: Instant)
    requires plan.Wf() && Inv(plan, s) && s.journal.Some? && s.journal.value.phase != Prepared
    requires RecoverCall(plan, s, now).journal.None?
    ensures RecoverCall(plan, s, now).dest.Some? && !RecoverCall(plan, s, now).dest.value.marker
  {
    RecoverJournalKeepsInv(plan, s);
    var first := RecoverJournal(plan, s).0;
    SettleStagingsKeepsInv(plan, first, now);
    JournalUnmarks(plan, s);
    if first.journal.None? {
      NoJournalNoStagings(plan, first);
    } else if HasStagings(first) {
      JournalUnmarks(plan, SettleStagings(plan, first, now));
    }
    PhasesStay(plan, s);
    hide Inv, RecoverJournal, SettleStagings, HasStagings;
  }

  lemma PhasesStay(plan: Plan, s: State)
    requires plan.Wf() && Inv(plan, s) && s.journal.Some? && s.journal.value.phase != Prepared
    ensures var t := RecoverJournal(plan, s).0;
            t.journal.Some? ==> t.journal.value.phase != Prepared
  {
  }

  lemma JournalUnmarks(plan: Plan, s: State)
    requires plan.Wf() && Inv(plan, s) && s.journal.Some?
    ensures var t := RecoverJournal(plan, s).0;
            s.journal.value.phase != Prepared && t.journal.None? ==> t.dest.Some? && !t.dest.value.marker
  {
  }

  /** Recovery makes no destination and takes none away. */
  lemma DestinationStays(plan: Plan, s: State, now: Instant)
    requires plan.Wf() && Inv(plan, s) && s.journal.Some?
    ensures RecoverCall(plan, s, now).dest.Some? <==> s.dest.Some?
  {
    RecoverJournalKeepsInv(plan, s);
    var first := RecoverJournal(plan, s).0;
    SettleStagingsKeepsInv(plan, first, now);
    JournalKeepsDestination(plan, s);
    if HasStagings(first) && first.journal.Some? {
      JournalKeepsDestination(plan, SettleStagings(plan, first, now));
    }
    hide RecoverJournal, Inv;
  }

  lemma JournalKeepsDestination(plan: Plan, s: State)
    requires plan.Wf() && Inv(plan, s) && s.journal.Some?
    ensures RecoverJournal(plan, s).0.dest.Some? <==> s.dest.Some?
  {
  }

  /** Each file aside has one staging name and no other name. */
  predicate OnlyAside(s: State)
    requires s.src.Some? && s.dest.Some?
  {
    forall n | n in s.src.value.staged ::
      n.file !in s.src.value.files && n.file !in s.dest.value.files && !HasTwin(s.src.value, n)
  }

  /** A replayable move that died while files were aside and none of those was
      linked yet is completed by one call: the staging names are restored in
      the first pass and the journal is followed in the second. */
  lemma TakeoverDeathCompletes(plan: Plan, s: State, now: Instant)
    requires plan.Wf() && Inv(plan, s) && plan.strategy == ReplayableMove
    requires s.journal.Some? && s.journal.value.phase == GateCreated && s.journal.value.recorded
    requires s.rows == plan.prepared && OnlyAside(s)
    ensures AllAtDestination(plan, RecoverCall(plan, s, now))
  {
    forall n | n in s.src.value.staged
      ensures n.file in Missing(plan, s)
    {
    }
    forall r | r in s.rows
      ensures PullOf(plan, s, r) == Stay
    {
    }
    EndsForward(plan, s, now);
  }

  function RecoverCalls(plan: Plan, s: State, clock: seq<Instant>): State
    requires plan.Wf() && Inv(plan, s)
    decreases |clock|
  {
    if clock == [] then s
    else RecoverCallKeepsInv(plan, s, clock[0]); RecoverCalls(plan, RecoverCall(plan, s, clock[0]), clock[1..])
  }

  lemma RecoverCallKeepsInv(plan: Plan, s: State, now: Instant)
    requires plan.Wf() && Inv(plan, s)
    ensures var s' := RecoverCall(plan, s, now); Inv(plan, s') && Advances(s, s') && !HasStagings(s')
  {
    if s.journal.Some? {
      RecoverJournalKeepsInv(plan, s);
      var first := RecoverJournal(plan, s).0;
      SettleStagingsKeepsInv(plan, first, now);
      if HasStagings(first) && first.journal.Some? {
        RecoverJournalKeepsInv(plan, SettleStagings(plan, first, now));
      }
    }
  }

  /** The first call that is not interrupted decides: if it does not remove the
      journal, no later one does. */
  lemma {:induction false} FirstCallDecides(plan: Plan, s: State, clock: seq<Instant>)
    requires plan.Wf() && Inv(plan, s) && clock != []
    decreases |clock|
    ensures RecoverCalls(plan, s, clock).journal.None? <==> RecoverCall(plan, s, clock[0]).journal.None?
  {
    var t := RecoverCall(plan, s, clock[0]);
    RecoverCallKeepsInv(plan, s, clock[0]);
    if |clock| > 1 {
      FirstCallDecides(plan, t, clock[1..]);
      if t.journal.Some? {
        StaysQuarantined(plan, s, clock[0], clock[1]);
      }
    }
  }

  lemma StaysQuarantined(plan: Plan, s: State, now: Instant, later: Instant)
    requires plan.Wf() && Inv(plan, s) && RecoverCall(plan, s, now).journal.Some?
    ensures Inv(plan, RecoverCall(plan, s, now))
    ensures RecoverCall(plan, RecoverCall(plan, s, now), later).journal.Some?
  {
    RecoverCallKeepsInv(plan, s, now);
    RecoverJournalKeepsInv(plan, s);
    var first := RecoverJournal(plan, s).0;
    SettleStagingsKeepsInv(plan, first, now);
    if HasStagings(first) {
      RecoverJournalKeepsInv(plan, SettleStagings(plan, first, now));
      JournalStaysQuarantined(plan, SettleStagings(plan, first, now), later);
    } else {
      JournalStaysQuarantined(plan, s, later);
    }
    hide Inv, RecoverJournal, SettleStagings, HasStagings;
  }

  lemma JournalStaysQuarantined(plan: Plan, s: State, later: Instant)
    requires plan.Wf() && Inv(plan, s) && s.journal.Some?
    requires RecoverJournal(plan, s).0.journal.Some? && !HasStagings(RecoverJournal(plan, s).0)
    ensures Inv(plan, RecoverJournal(plan, s).0)
    ensures RecoverCall(plan, RecoverJournal(plan, s).0, later).journal.Some?
  {
    RecoverJournalKeepsInv(plan, s);
    var t := RecoverJournal(plan, s).0;
    RecoverJournalKeepsInv(plan, t);
    SettleStagingsKeepsInv(plan, RecoverJournal(plan, t).0, later);
    QuarantinedTwice(plan, s);
    hide Inv, RecoverJournal, SettleStagings, HasStagings;
  }

  lemma FinalizeTwice(plan: Plan, s: State)
    requires plan.Wf() && Inv(plan, s) && s.journal.Some? && s.journal.value.phase == MetadataCommitted
    requires Finalize(plan, s).0.journal.Some? && !HasStagings(Finalize(plan, s).0)
    ensures Finalize(plan, Finalize(plan, s).0).0.journal.Some?
  {
  }

  lemma CompleteTwice(plan: Plan, s: State)
    requires plan.Wf() && Inv(plan, s) && s.journal.Some? && s.journal.value.phase == FilesLanded
    requires CompleteMetadata(plan, s).0.journal.Some? && !HasStagings(CompleteMetadata(plan, s).0)
    ensures var t := CompleteMetadata(plan, s).0;
            Inv(plan, t) && RecoverJournal(plan, t).0.journal.Some?
  {
    CompleteMetadataKeepsInv(plan, s);
    if s.rows == plan.prepared || s.rows == plan.Committed() {
      FinalizeTwice(plan, s.(rows := plan.Committed(), journal := Some(s.journal.value.(phase := MetadataCommitted))));
    }
  }

  lemma GateTwice(plan: Plan, s: State)
    requires plan.Wf() && Inv(plan, s) && s.journal.Some? && s.journal.value.phase == GateCreated
    requires RecoverJournal(plan, s).0.journal.Some? && !HasStagings(RecoverJournal(plan, s).0)
    ensures Inv(plan, RecoverJournal(plan, s).0) && RecoverJournal(plan, RecoverJournal(plan, s).0).0.journal.Some?
  {
    RecoverGateKeepsInv(plan, s);
    if plan.strategy == AtomicRename {
      if !(s.src.Some? && !s.dest.value.marker) {
        CompleteTwice(plan, s.(src := None, dest := Some(plan.Original()),
                               journal := Some(s.journal.value.(phase := FilesLanded, gate := plan.sourceId))));
      }
    } else if !(!s.journal.value.recorded && s.dest.value.dirs != {}) {
      var ready := s.(dest := Some(s.dest.value.(dirs := plan.dirs)),
                      journal := Some(s.journal.value.(recorded := true)));
      assert Inv(plan, ready);
      if Missing(plan, ready) == {} {
        CompleteTwice(plan, Land(plan, ready));
      }
    }
  }

  /** A journal that was left alone is left alone again. */
  lemma QuarantinedTwice(plan: Plan, s: State)
    requires plan.Wf() && Inv(plan, s) && s.journal.Some? && RecoverJournal(plan, s).0.journal.Some?
    requires Inv(plan, RecoverJournal(plan, s).0) && !HasStagings(RecoverJournal(plan, s).0)
    ensures RecoverJournal(plan, RecoverJournal(plan, s).0).0.journal.Some?
  {
    match s.journal.value.phase
    case Prepared =>
    case GateCreated => GateTwice(plan, s);
    case FilesLanded => CompleteTwice(plan, s);
    case MetadataCommitted => FinalizeTwice(plan, s);
  }
}
