/** Every folder move that is not lost is completed by some run of startups:
    all but the last of them die at moments chosen so that no row goes astray. */
module FolderMoveRescueRuns {
  import opened Wrappers
  import opened MetadataVersion
  import opened FolderMoveState
  import opened FolderMoveStaging
  import opened FolderMoveRescue
  import opened FolderMove
  import opened FolderMoveRecovery
  import opened FolderMoveRuns

  /** A startup can be found dead in `t`. */
  ghost predicate Dies(plan: Plan, s: State, t: State) {
    s.src.Some? && s.dest.Some? && exists names, now, k :: StartupReaches(plan, s, names, now, k, t)
  }

  /** Startups that die, one after the other. */
  ghost predicate Deaths(plan: Plan, path: seq<State>) {
    path != [] && forall i | 0 < i < |path| :: Dies(plan, path[i - 1], path[i])
  }

  /** The path ends where a startup at `now` that does not die completes the move. */
  ghost predicate Completes(plan: Plan, s: State, path: seq<State>, now: Instant) {
    && plan.Wf() && Deaths(plan, path) && path[0] == s
    && var last := path[|path| - 1];
    Inv(plan, last) && last.journal.Some? && RecoverCall(plan, last, now).journal.None?
  }

  lemma Longer(plan: Plan, s: State, t: State, path: seq<State>, now: Instant)
    requires Dies(plan, s, t) && Completes(plan, t, path, now)
    ensures Completes(plan, s, [s] + path, now)
  {
    var longer := [s] + path;
    forall i | 0 < i < |longer|
      ensures Dies(plan, longer[i - 1], longer[i])
    {
      assert longer[i] == path[i - 1];
    }
    hide Dies, RecoverCall;
  }

  lemma AtOnce(plan: Plan, s: State, now: Instant)
    requires plan.Wf() && Inv(plan, s) && s.journal.Some? && Completable(plan, s, now)
    ensures Completes(plan, s, [s], now)
  {
    CompletesIff(plan, s, now);
    hide Completable, RecoverCall;
  }

  // The first calls of a startup, in any order of names.

  lemma {:induction false} Enumerate(all: set<Aside>) returns (names: seq<Aside>)
    ensures forall n :: n in names <==> n in all
    ensures forall i, j | 0 <= i < j < |names| :: names[i] != names[j]
  {
    names := [];
    if all != {} {
      var n :| n in all;
      var rest := Enumerate(all - {n});
      names := [n] + rest;
    }
  }

  lemma EnumerateFrom(s: State, n: Aside) returns (names: seq<Aside>)
    requires s.src.Some? && n in s.src.value.staged
    ensures names != [] && names[0] == n && Rest(s, {}, names)
  {
    var rest := Enumerate(s.src.value.staged.Keys - {n});
    names := [n] + rest;
  }

  lemma {:induction false} TokenAbove(names: set<Aside>) returns (token: nat)
    ensures forall n | n in names :: n.token < token
  {
    token := 0;
    if names != {} {
      var n :| n in names;
      var rest := TokenAbove(names - {n});
      token := if rest <= n.token then n.token + 1 else rest;
    }
  }

  /** Dying after a staging name is dropped, before a row follows. */
  lemma DiesDropped(plan: Plan, s: State, n: Aside)
    requires s.src.Some? && s.dest.Some? && Waits(plan, s)
    requires n in s.src.value.staged && PartnerOf(plan, s, n) != Nobody
    ensures Dies(plan, s, DropName(s, n))
  {
    var names := EnumerateFrom(s, n);
    var calls, t := StagingCalls(plan, s, names, 0), DropName(s, n);
    assert calls[..1] == [Drop(n)];
    assert Leads(t, [], t);
    assert StartupReaches(plan, s, names, 0, 1, t);
  }

  /** Dying after a file is restored. */
  lemma DiesRestored(plan: Plan, s: State, n: Aside)
    requires s.src.Some? && s.dest.Some? && Waits(plan, s)
    requires n in s.src.value.staged && PartnerOf(plan, s, n) == Nobody
    ensures Dies(plan, s, DropName(LinkBack(s, n), n))
  {
    var names := EnumerateFrom(s, n);
    var calls, half, t := StagingCalls(plan, s, names, 0), LinkBack(s, n), DropName(LinkBack(s, n), n);
    assert calls[..2] == [Back(n), Drop(n)];
    assert Leads(t, [], t) && Leads(half, [Drop(n)], t);
    assert Leads(s, [Back(n), Drop(n)], t);
    assert StartupReaches(plan, s, names, 0, 2, t);
  }

  /** Fresh names for the files at the source, a given one first. */
  lemma NamesFrom(s: State, r: Rel) returns (names: seq<Aside>)
    requires s.src.Some? && r in s.src.value.files
    ensures names != [] && names[0].file == r && NamesFor(s, names)
  {
    var token := TokenAbove(s.src.value.staged.Keys);
    var others := set q | q in s.src.value.files && q != r :: Aside(q, token);
    var rest := Enumerate(others);
    names := [Aside(r, token)] + rest;
    forall q | q in s.src.value.files
      ensures exists n :: n in names && n.file == q
    {
      assert q != r ==> Aside(q, token) in rest;
      assert Aside(q, token) in names;
    }
    forall n | n in names
      ensures n.token == token && n.file in s.src.value.files && n !in s.src.value.staged
    {
      assert n == names[0] || n in others;
    }
    forall i, j | 0 <= i < j < |names|
      ensures names[i].file != names[j].file
    {
      assert names[j] == rest[j - 1] && rest[j - 1] in others;
      assert names[i] in names && names[j] in names;
      assert i > 0 ==> names[i] == rest[i - 1];
    }
  }

  /** Dying with a file aside, or linked in under its staging name. */
  lemma DiesMoving(plan: Plan, s: State, r: Rel) returns (n: Aside)
    requires s.src.Some? && s.dest.Some? && Moves(plan, s) && r in s.src.value.files && r !in s.dest.value.files
    ensures n.file == r && n !in s.src.value.staged
    ensures Dies(plan, s, TakenAside(s, n)) && Dies(plan, s, LinkedIn(TakenAside(s, n), n))
  {
    var names := NamesFrom(s, r);
    n := names[0];
    assert n in names;
    var aside, linked := TakenAside(s, n), LinkedIn(TakenAside(s, n), n);
    var calls := MoveCalls(names) + [RecordLanded];
    assert calls[..1] == [TakeAside(n)] && calls[..2] == [TakeAside(n), LinkIn(n)];
    assert Leads(aside, [], aside) && Leads(linked, [], linked) && Leads(aside, [LinkIn(n)], linked);
    assert Leads(s, [TakeAside(n)], aside) && Leads(s, [TakeAside(n), LinkIn(n)], linked);
    assert StartupReaches(plan, s, names, 0, 1, aside) && StartupReaches(plan, s, names, 0, 2, linked);
  }

  /** Dying right after the landing is recorded. */
  lemma DiesLanded(plan: Plan, s: State)
    requires s.src.Some? && s.dest.Some? && Moves(plan, s) && s.src.value.files == map[]
    ensures Dies(plan, s, After(s, RecordLanded))
  {
    var t := After(s, RecordLanded);
    assert Leads(t, [], t);
    assert (MoveCalls([]) + [RecordLanded])[..1] == [RecordLanded];
    assert StartupReaches(plan, s, [], 0, 1, t);
  }

  // The rescues. Clock readings are chosen as well.

  /** With the rows settled, what can go wrong are only names that would pull a
      row along: each is dropped by a startup that dies before the row moves. */
  lemma {:induction false} RescueSettled(plan: Plan, s: State) returns (path: seq<State>, now: Instant)
    requires plan.Wf() && Inv(plan, s) && plan.strategy == ReplayableMove && s.journal.Some?
    requires s.journal.value.phase == GateCreated && s.journal.value.recorded && Missing(plan, s) != {}
             && RowsSettle(plan, s)
    decreases |s.src.value.staged|
    ensures Completes(plan, s, path, now)
  {
    if s.rows == plan.Committed() || OnlyAside(s) {
      SettledCompletes(plan, s);
      AtOnce(plan, s, 0);
      path, now := [s], 0;
    } else {
      var n :| n in s.src.value.staged
          && (n.file in s.src.value.files || n.file in s.dest.value.files || HasTwin(s.src.value, n));
      var t := DropName(s, n);
      DropNameKeepsInv(plan, s, n);
      DiesDropped(plan, s, n);
      OneNameLess(s.src.value, n);
      var rest, later := RescueSettled(plan, t);
      Longer(plan, s, t, rest, later);
      path, now := [s] + rest, later;
    }
  }

  lemma OneNameLess(src: Dir, n: Aside)
    requires n in src.staged
    ensures |src.staged - {n}| < |src.staged|
  {
    assert (src.staged - {n}).Keys == src.staged.Keys - {n};
    assert |(src.staged - {n}).Keys| < |src.staged.Keys|;
  }

  lemma SettledCompletes(plan: Plan, s: State)
    requires plan.Wf() && Inv(plan, s) && plan.strategy == ReplayableMove && s.journal.Some?
    requires s.journal.value.phase == GateCreated && s.journal.value.recorded && Missing(plan, s) != {}
    requires s.rows == plan.Committed() || (s.rows == plan.prepared && OnlyAside(s))
    ensures Completable(plan, s, 0)
  {
    if s.rows == plan.prepared && OnlyAside(s) {
      forall r | r in s.rows
        ensures PullOf(plan, s, r) == Stay
      {
      }
    }
  }

  /** The rows are not settled, but can still agree. */
  ghost predicate Adrift(plan: Plan, s: State) {
    && plan.Wf() && Inv(plan, s) && plan.strategy == ReplayableMove && s.journal.Some? && s.src.Some? && s.dest.Some?
    && (s.journal.value.phase == FilesLanded || (s.journal.value.phase == GateCreated && s.journal.value.recorded))
    && !RowsSettle(plan, s) && Rescuable(plan, s)
  }

  /** `t` comes before `s` in the order of files not yet landed, phase, and
      staging names. */
  predicate Closer(plan: Plan, s: State, t: State)
    requires s.journal.Some? && s.src.Some? && s.dest.Some? && t.journal.Some? && t.src.Some? && t.dest.Some?
  {
    var left, left' := |plan.entries.Keys - s.dest.value.files.Keys|, |plan.entries.Keys - t.dest.value.files.Keys|;
    var phase, phase' := Rank(s.journal.value.phase), Rank(t.journal.value.phase);
    left' < left || (left' == left
                     && (phase < phase' || (phase == phase' && |t.src.value.staged| < |s.src.value.staged|)))
  }

  /** With rows adrift, files are brought back and moved again until all are at
      the destination, keeping a staging name; then their rows are pulled there. */
  lemma {:induction false} RescueDrifted(plan: Plan, s: State) returns (path: seq<State>, now: Instant)
    requires Adrift(plan, s)
    decreases |plan.entries.Keys - s.dest.value.files.Keys|, Rank(FilesLanded) - Rank(s.journal.value.phase),
              |s.src.value.staged|
    ensures Completes(plan, s, path, now)
  {
    if s.journal.value.phase == FilesLanded && RowsWillAgree(plan, s, plan.timestamp) {
      AtOnce(plan, s, plan.timestamp);
      return [s], plan.timestamp;
    }
    var t := NextRescue(plan, s);
    var rest, later := RescueDrifted(plan, t);
    Longer(plan, s, t, rest, later);
    path, now := [s] + rest, later;
  }

  /** One startup brings the rows closer to agreement, and dies. */
  lemma NextRescue(plan: Plan, s: State) returns (t: State)
    requires Adrift(plan, s)
    requires s.journal.value.phase == FilesLanded ==> !RowsWillAgree(plan, s, plan.timestamp)
    ensures Dies(plan, s, t) && Adrift(plan, t) && Closer(plan, s, t)
  {
    hide Dies, Closer, Inv, Rescuable, RowsSettle, RowsWillAgree;
    if s.journal.value.phase == FilesLanded {
      t := DropTwin(plan, s);
    } else if Missing(plan, s) != {} {
      t := BringBack(plan, s);
    } else if s.src.value.files != map[] {
      t := MoveAgain(plan, s);
    } else {
      DiesLanded(plan, s);
      t := After(s, RecordLanded);
      LandedStays(plan, s);
    }
  }

  lemma LandedStays(plan: Plan, s: State)
    requires Adrift(plan, s) && Moves(plan, s) && s.src.value.files == map[]
    ensures Adrift(plan, After(s, RecordLanded)) && Closer(plan, s, After(s, RecordLanded))
  {
    LandKeepsInv(plan, s);
    forall r | r in plan.entries
      ensures r in s.dest.value.files
    {
      assert r !in Missing(plan, s);
    }
    assert s.dest.value.files == plan.entries;
    assert After(s, RecordLanded) == Land(plan, s);
    hide Inv;
  }

  /** All files are in, but a row would go to a staging name first: drop one of
      several names of its file. */
  lemma DropTwin(plan: Plan, s: State) returns (t: State)
    requires Adrift(plan, s) && s.journal.value.phase == FilesLanded && !RowsWillAgree(plan, s, plan.timestamp)
    ensures Dies(plan, s, t) && Adrift(plan, t) && Closer(plan, s, t)
  {
    var r :| r in s.rows && s.rows[r] != Row(Destination, plan.timestamp)
      && !(s.rows[r].side == Source && PullOf(plan, s, r) == To(Destination)
           && Followed(s.rows[r], Destination, plan.timestamp) == Row(Destination, plan.timestamp));
    assert CanAgree(plan, s, r) && s.rows[r] == plan.prepared[r];
    assert Doubled(s.src.value, r);
    var n :| n in s.src.value.staged && n.file == r && HasTwin(s.src.value, n);
    t := DropName(s, n);
    DiesDropped(plan, s, n);
    DropStaysAdrift(plan, s, n);
    hide Dies, Adrift;
  }

  /** A name may go if its file keeps another staging name. */
  lemma DropStaysAdrift(plan: Plan, s: State, n: Aside)
    requires Adrift(plan, s) && n in s.src.value.staged && HasTwin(s.src.value, n)
    ensures Adrift(plan, DropName(s, n)) && Closer(plan, s, DropName(s, n))
  {
    var t := DropName(s, n);
    DropNameKeepsInv(plan, s, n);
    OneNameLess(s.src.value, n);
    forall r | r in s.rows
      ensures CanAgree(plan, t, r)
    {
      assert CanAgree(plan, s, r);
      if IsAside(s.src.value, r) {
        NamesStay(s, n, r);
      }
    }
    hide Inv;
  }

  lemma NamesStay(s: State, n: Aside, r: Rel)
    requires s.src.Some? && n in s.src.value.staged && (HasTwin(s.src.value, n) || r != n.file)
             && IsAside(s.src.value, r)
    ensures IsAside(DropName(s, n).src.value, r)
  {
    if r == n.file {
      var m :| m in s.src.value.staged && m != n && m.file == n.file;
      assert m in DropName(s, n).src.value.staged;
    } else {
      var m :| m in s.src.value.staged && m.file == r;
      assert m in DropName(s, n).src.value.staged;
    }
  }

  /** A missing file loses one of its names, or goes back to its place with the
      last one. */
  lemma BringBack(plan: Plan, s: State) returns (t: State)
    requires Adrift(plan, s) && s.journal.value.phase == GateCreated && Missing(plan, s) != {}
    ensures Dies(plan, s, t) && Adrift(plan, t) && Closer(plan, s, t)
  {
    var q :| q in Missing(plan, s);
    var n :| n in s.src.value.staged && n.file == q;
    if HasTwin(s.src.value, n) {
      t := DropName(s, n);
      DiesDropped(plan, s, n);
      DropStaysAdrift(plan, s, n);
    } else {
      t := DropName(LinkBack(s, n), n);
      DiesRestored(plan, s, n);
      RestoreStaysAdrift(plan, s, n);
    }
    hide Dies, Adrift;
  }

  lemma StaysAdrift(plan: Plan, s: State, t: State)
    requires Adrift(plan, s) && Inv(plan, t) && t.journal == s.journal && t.rows == s.rows && t.src.Some?
             && t.dest.Some?
    requires forall r | r in t.rows :: CanAgree(plan, t, r)
    ensures Adrift(plan, t)
  {
    hide Inv, CanAgree;
  }

  lemma RestoreStaysAdrift(plan: Plan, s: State, n: Aside)
    requires Adrift(plan, s) && s.journal.value.phase == GateCreated && n in s.src.value.staged
             && n.file in Missing(plan, s)
    ensures var t := DropName(LinkBack(s, n), n); Adrift(plan, t) && Closer(plan, s, t)
  {
    var t := DropName(LinkBack(s, n), n);
    LinkBackKeepsInv(plan, s, n);
    DropNameKeepsInv(plan, LinkBack(s, n), n);
    OneNameLess(s.src.value, n);
    hide Inv;
    forall r | r in s.rows
      ensures CanAgree(plan, t, r)
    {
      assert CanAgree(plan, s, r);
      RestoreAgrees(plan, s, n, r);
    }
    StaysAdrift(plan, s, t);
    hide Adrift, CanAgree;
  }

  lemma RestoreAgrees(plan: Plan, s: State, n: Aside, r: Rel)
    requires s.src.Some? && s.dest.Some? && n in s.src.value.staged && n.file !in s.dest.value.files
    requires r in s.rows && CanAgree(plan, s, r)
    ensures CanAgree(plan, DropName(LinkBack(s, n), n), r)
  {
    if r != n.file && IsAside(s.src.value, r) {
      NamesStay(LinkBack(s, n), n, r);
    }
  }

  /** A file at the source is linked in and keeps its staging name. */
  lemma MoveAgain(plan: Plan, s: State) returns (t: State)
    requires Adrift(plan, s) && Moves(plan, s) && s.src.value.files != map[]
    ensures Dies(plan, s, t) && Adrift(plan, t) && Closer(plan, s, t)
  {
    var f :| f in s.src.value.files;
    var n := DiesMoving(plan, s, f);
    t := LinkedIn(TakenAside(s, n), n);
    MoveStaysAdrift(plan, s, n);
    hide Dies, Adrift;
  }

  lemma MoveStaysAdrift(plan: Plan, s: State, n: Aside)
    requires Adrift(plan, s) && Moves(plan, s) && n.file in s.src.value.files && n !in s.src.value.staged
    ensures var t := LinkedIn(TakenAside(s, n), n); Adrift(plan, t) && Closer(plan, s, t)
  {
    var t := LinkedIn(TakenAside(s, n), n);
    FileMoves(plan, s, n);
    assert n.file !in s.dest.value.files && n.file in plan.entries;
    hide Inv;
    forall r | r in s.rows
      ensures CanAgree(plan, t, r)
    {
      assert CanAgree(plan, s, r);
      MoveAgrees(plan, s, n, r);
    }
    StaysAdrift(plan, s, t);
    MoveIsCloser(plan, s, n);
    hide Adrift, CanAgree, Closer;
  }

  lemma MoveIsCloser(plan: Plan, s: State, n: Aside)
    requires s.journal.Some? && s.src.Some? && s.dest.Some? && n.file in s.src.value.files
    requires n.file in plan.entries && n.file !in s.dest.value.files
    ensures Closer(plan, s, LinkedIn(TakenAside(s, n), n))
  {
    var t := LinkedIn(TakenAside(s, n), n);
    OneFileMore(plan.entries.Keys, s.dest.value.files.Keys, n.file);
    assert t.dest.value.files.Keys == s.dest.value.files.Keys + {n.file};
  }

  lemma MoveAgrees(plan: Plan, s: State, n: Aside, r: Rel)
    requires s.src.Some? && s.dest.Some? && n.file in s.src.value.files
    requires r in s.rows && CanAgree(plan, s, r)
    ensures CanAgree(plan, LinkedIn(TakenAside(s, n), n), r)
  {
    assert n in TakenAside(s, n).src.value.staged;
    AsideStays(s, n, r);
  }

  lemma AsideStays(s: State, n: Aside, r: Rel)
    requires s.src.Some? && n.file in s.src.value.files
    ensures IsAside(s.src.value, r) ==> IsAside(TakenAside(s, n).src.value, r)
  {
    if m :| m in s.src.value.staged && m.file == r {
      assert m in TakenAside(s, n).src.value.staged;
    }
  }

  lemma OneFileMore(all: set<Rel>, there: set<Rel>, f: Rel)
    requires f in all && f !in there
    ensures |all - (there + {f})| < |all - there|
  {
    assert all - there == (all - (there + {f})) + {f};
  }

  /** From every state that is not lost, some run of startups completes the move. */
  lemma RescueExists(plan: Plan, s: State) returns (path: seq<State>, now: Instant)
    requires plan.Wf() && Inv(plan, s) && s.journal.Some? && Rescuable(plan, s)
    ensures Completes(plan, s, path, now)
  {
    var phase := s.journal.value.phase;
    if plan.strategy == AtomicRename || phase == Prepared || phase == MetadataCommitted
       || (phase == GateCreated && !s.journal.value.recorded)
       || (RowsSettle(plan, s) && AllIn(plan, s)) {
      AtOnce(plan, s, 0);
      path, now := [s], 0;
    } else if !RowsSettle(plan, s) {
      path, now := RescueDrifted(plan, s);
    } else if Missing(plan, s) != {} {
      path, now := RescueSettled(plan, s);
    } else {
      var f :| f in s.src.value.files;
      var n := DiesMoving(plan, s, f);
      var t := TakenAside(s, n);
      FileMoves(plan, s, n);
      assert f in Missing(plan, t);
      var rest, later := RescueSettled(plan, t);
      Longer(plan, s, t, rest, later);
      path, now := [s] + rest, later;
    }
  }

  /** The stray row of three deaths, and the startup that dies in time: the
      first staging name is gone, the row is still in its place. */
  lemma ThreeDeathsRescued(now: Instant)
    ensures var plan, t := OneFile({}), DropName(Twice(), Aside(["a"], 0));
            Dies(plan, Twice(), t) && plan.Wf() && Inv(plan, t) && AllAtDestination(plan, RecoverCall(plan, t, now))
  {
    var plan, n, m, t := OneFile({}), Aside(["a"], 0), Aside(["a"], 1), DropName(Twice(), Aside(["a"], 0));
    TwiceAsideStalls();
    assert n in Twice().src.value.staged && m in Twice().src.value.staged && ["a"] in Missing(plan, Twice());
    assert HasTwin(Twice().src.value, n);
    DiesDropped(plan, Twice(), n);
    DropNameKeepsInv(plan, Twice(), n);
    hide Dies, Stalled, Inv, RecoverCall;
    TakeoverDeathCompletes(plan, t, now);
  }
}
