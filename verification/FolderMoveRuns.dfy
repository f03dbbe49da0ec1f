/** Folder moves cut by deaths, call by call: the lists of system calls of
    executor and startup, and concrete runs that leave a move which no startup
    completes, at all or without dying once more. */
module FolderMoveRuns {
  import opened Wrappers
  import opened MetadataVersion
  import opened FolderMoveState
  import opened FolderMoveStaging
  import opened FolderMoveRescue
  import opened FolderMove
  import opened FolderMoveRecovery

  /** The system calls, durable rewrites and transactions of a replayable move
      up to its landing, and those that resolve staging names. */
  datatype Call =
    | MakeGate(gate: nat)
    | MarkGate
    | RecordGate
    | MakeDirectory(d: Rel)
    | RecordDirectories
    | TakeAside(n: Aside)
    | LinkIn(n: Aside)
    | Drop(n: Aside)
    | Back(n: Aside)
    | Pull(r: Rel, side: Side, now: Instant)
    | RecordLanded

  predicate Possible(s: State, c: Call) {
    match c
    case MakeGate(_) => s.dest.None?
    case MarkGate => s.dest.Some?
    case RecordGate => s.dest.Some? && s.journal.Some?
    case MakeDirectory(d) => s.dest.Some? && d !in s.dest.value.dirs
    case RecordDirectories => s.journal.Some?
    case TakeAside(n) => s.src.Some? && n.file in s.src.value.files && n !in s.src.value.staged
    case LinkIn(n) => s.src.Some? && s.dest.Some? && n in s.src.value.staged && n.file !in s.dest.value.files
    case Drop(n) => s.src.Some? && n in s.src.value.staged
    case Back(n) => s.src.Some? && n in s.src.value.staged && n.file !in s.src.value.files
    case Pull(_, _, _) => true
    case RecordLanded => s.journal.Some?
  }

  function After(s: State, c: Call): State
    requires Possible(s, c)
  {
    match c
    case MakeGate(gate) => s.(dest := Some(Dir(gate, map[], map[], {}, false)))
    case MarkGate => s.(dest := Some(s.dest.value.(marker := true)))
    case RecordGate => s.(journal := Some(Journal(GateCreated, s.dest.value.id, false)))
    case MakeDirectory(d) => s.(dest := Some(s.dest.value.(dirs := s.dest.value.dirs + {d})))
    case RecordDirectories => s.(journal := Some(s.journal.value.(recorded := true)))
    case TakeAside(n) => TakenAside(s, n)
    case LinkIn(n) => LinkedIn(s, n)
    case Drop(n) => DropName(s, n)
    case Back(n) => LinkBack(s, n)
    case Pull(r, side, now) => PullRow(s, r, side, now)
    case RecordLanded => s.(journal := Some(s.journal.value.(phase := FilesLanded)))
  }

  /** The calls can be made one after the other from `s`, and lead to `t`. */
  predicate Leads(s: State, calls: seq<Call>, t: State)
    decreases |calls|
  {
    if calls == [] then s == t else Possible(s, calls[0]) && Leads(After(s, calls[0]), calls[1..], t)
  }

  lemma {:induction false} LeadsOn(s: State, first: seq<Call>, t: State, second: seq<Call>, u: State)
    requires Leads(s, first, t) && Leads(t, second, u)
    ensures Leads(s, first + second, u)
    decreases |first|
  {
    if first == [] {
      assert first + second == second;
    } else {
      LeadsOn(After(s, first[0]), first[1..], t, second, u);
      assert (first + second)[0] == first[0] && (first + second)[1..] == first[1..] + second;
    }
  }

  // What executor and startup do.

  function DirectoryCalls(dirs: seq<Rel>): seq<Call> {
    seq(|dirs|, i requires 0 <= i < |dirs| => MakeDirectory(dirs[i]))
  }

  function GateCalls(gate: nat, dirs: seq<Rel>): seq<Call> {
    [MakeGate(gate), MarkGate, RecordGate] + DirectoryCalls(dirs) + [RecordDirectories]
  }

  /** One file after the other: aside, in, name dropped. */
  function MoveCalls(names: seq<Aside>): seq<Call> {
    if names == [] then [] else [TakeAside(names[0]), LinkIn(names[0]), Drop(names[0])] + MoveCalls(names[1..])
  }

  function SettleCalls(plan: Plan, s: State, n: Aside, now: Instant): seq<Call>
    requires s.src.Some? && s.dest.Some?
  {
    match PartnerOf(plan, s, n)
    case Nobody => [Back(n), Drop(n)]
    case AtSource => [Drop(n)]
    case AtDestination => [Drop(n), Pull(n.file, Destination, now)]
    case OtherStaging => [Drop(n), Pull(n.file, Hidden, now)]
  }

  /** One staging name after the other. */
  function StagingCalls(plan: Plan, s: State, names: seq<Aside>, now: Instant): seq<Call>
    requires s.src.Some? && s.dest.Some? && forall n | n in names :: n in s.src.value.staged
    requires forall i, j | 0 <= i < j < |names| :: names[i] != names[j]
    decreases |names|
  {
    if names == [] then []
    else SettleCalls(plan, s, names[0], now) + StagingCalls(plan, SettleStaging(plan, s, names[0], now), names[1..],
                                                            now)
  }

  /** `names` are fresh names for exactly the files left at the source. */
  ghost predicate NamesFor(s: State, names: seq<Aside>)
    requires s.src.Some?
  {
    && (forall n | n in names :: n.file in s.src.value.files && n !in s.src.value.staged)
    && (forall r | r in s.src.value.files :: exists n | n in names :: n.file == r)
    && (forall i, j | 0 <= i < j < |names| :: names[i].file != names[j].file)
  }

  /** Such a list of calls does what moving the entries does. */
  lemma {:induction false} MoveCallsLand(plan: Plan, s: State, names: seq<Aside>)
    requires plan.Wf() && Inv(plan, s) && plan.strategy == ReplayableMove
    requires s.journal.Some? && s.journal.value.phase == GateCreated && s.journal.value.recorded
    requires Missing(plan, s) == {} && NamesFor(s, names)
    decreases |names|
    ensures Leads(s, MoveCalls(names), Land(plan, s).(journal := s.journal))
  {
    if names == [] {
      assert s.src.value.files == map[];
      forall r | r in plan.entries
        ensures r in s.dest.value.files
      {
        assert r !in Missing(plan, s);
      }
      assert s.dest.value.files == plan.entries;
    } else {
      var n := names[0];
      var moved := DropName(LinkedIn(TakenAside(s, n), n), n);
      FileCallsMove(plan, s, names);
      MoveCallsLand(plan, moved, names[1..]);
      LeadsOn(s, [TakeAside(n), LinkIn(n), Drop(n)], moved, MoveCalls(names[1..]),
              Land(plan, s).(journal := s.journal));
      hide Inv, NamesFor, Leads, Missing;
    }
  }

  lemma FileCallsMove(plan: Plan, s: State, names: seq<Aside>)
    requires plan.Wf() && Inv(plan, s) && plan.strategy == ReplayableMove
    requires s.journal.Some? && s.journal.value.phase == GateCreated && s.journal.value.recorded
    requires Missing(plan, s) == {} && NamesFor(s, names) && names != []
    ensures var n := names[0];
            var moved := DropName(LinkedIn(TakenAside(s, n), n), n);
            && Leads(s, [TakeAside(n), LinkIn(n), Drop(n)], moved)
            && Inv(plan, moved) && moved == s.(src := moved.src, dest := moved.dest)
            && moved.dest.value.(files := map[]) == s.dest.value.(files := map[])
            && moved.src.value.(files := map[]) == s.src.value.(files := map[])
            && Missing(plan, moved) == {} && NamesFor(moved, names[1..])
  {
    var n := names[0];
    assert n in names && n.file !in s.dest.value.files;
    FileMoves(plan, s, n);
    hide Inv;
    RestOfFiles(s, names);
    OneFileCalls(s, n);
    NoneMissing(plan, s, n);
    hide NamesFor, Leads, Missing;
  }

  lemma NoneMissing(plan: Plan, s: State, n: Aside)
    requires s.src.Some? && s.dest.Some? && Missing(plan, s) == {} && n.file in s.src.value.files
    ensures Missing(plan, DropName(LinkedIn(TakenAside(s, n), n), n)) == {}
  {
    forall r | r in plan.entries && r != n.file
      ensures r in s.src.value.files || r in s.dest.value.files
    {
      assert r !in Missing(plan, s);
    }
  }

  lemma RestOfFiles(s: State, names: seq<Aside>)
    requires s.src.Some? && NamesFor(s, names) && names != []
    ensures var src := s.src.value;
            NamesFor(s.(src := Some(src.(files := src.files - {names[0].file}))), names[1..])
  {
    var rest := names[1..];
    assert forall i | 0 <= i < |rest| :: rest[i] == names[i + 1];
    forall r | r in s.src.value.files && r != names[0].file
      ensures exists n :: n in rest && n.file == r
    {
      var i :| 0 <= i < |names| && names[i].file == r;
      assert rest[i - 1] == names[i];
    }
  }

  lemma OneFileCalls(s: State, n: Aside)
    requires s.src.Some? && s.dest.Some? && n.file in s.src.value.files && n !in s.src.value.staged
             && n.file !in s.dest.value.files
    ensures Leads(s, [TakeAside(n), LinkIn(n), Drop(n)], DropName(LinkedIn(TakenAside(s, n), n), n))
  {
    var aside := TakenAside(s, n);
    var linked := LinkedIn(aside, n);
    var moved := DropName(linked, n);
    assert Leads(moved, [], moved);
    assert Leads(linked, [Drop(n)], moved);
    assert Leads(aside, [LinkIn(n), Drop(n)], moved);
  }

  lemma SettleCallsSettle(plan: Plan, s: State, n: Aside, now: Instant)
    requires Orderly(plan, s) && n in s.src.value.staged
    ensures Leads(s, SettleCalls(plan, s, n, now), SettleStaging(plan, s, n, now))
  {
    var t := SettleStaging(plan, s, n, now);
    assert Leads(t, [], t);
    match PartnerOf(plan, s, n)
    case Nobody =>
      assert Leads(LinkBack(s, n), [Drop(n)], t);
    case AtSource =>
    case AtDestination =>
      assert Leads(DropName(s, n), [Pull(n.file, Destination, now)], t);
    case OtherStaging =>
      assert Leads(DropName(s, n), [Pull(n.file, Hidden, now)], t);
  }

  /** `names` are the staging names that are not in `done`. */
  ghost predicate Rest(s: State, done: set<Aside>, names: seq<Aside>)
    requires s.src.Some?
  {
    && done <= s.src.value.staged.Keys
    && (forall n :: n in names <==> n in s.src.value.staged.Keys - done)
    && (forall i, j | 0 <= i < j < |names| :: names[i] != names[j])
  }

  /** Such a list of calls does what resolving all staging names does. */
  lemma {:induction false} StagingCallsSettle(plan: Plan, s: State, done: set<Aside>, names: seq<Aside>, now: Instant)
    requires plan.Wf() && Inv(plan, s) && s.src.Some? && s.dest.Some? && Rest(s, done, names)
    decreases |names|
    ensures var some := SettleSome(plan, s, done, now);
            && (forall n | n in names :: n in some.src.value.staged)
            && Leads(some, StagingCalls(plan, some, names, now), SettleStagings(plan, s, now))
  {
    var some := SettleSome(plan, s, done, now);
    if names == [] {
      forall n | n in s.src.value.staged
        ensures n in done
      {
        assert n !in names;
      }
      assert done == s.src.value.staged.Keys;
    } else {
      var n := names[0];
      StagingsAreOrderly(plan, s);
      SettleSomeKeepsInv(plan, s, done, now);
      StagingsAreOrderly(plan, some);
      assert n in names;
      SettleOneMore(plan, s, done, n, now);
      SettleCallsSettle(plan, some, n, now);
      RestOfRest(s, done, names);
      StagingCallsSettle(plan, s, done + {n}, names[1..], now);
      var settled := SettleStaging(plan, some, n, now);
      LeadsOn(some, SettleCalls(plan, some, n, now), settled, StagingCalls(plan, settled, names[1..], now),
              SettleStagings(plan, s, now));
    }
    hide Inv, Orderly, SettleStaging, SettleCalls, RowsSettled, FilesSettled;
  }

  lemma RestOfRest(s: State, done: set<Aside>, names: seq<Aside>)
    requires s.src.Some? && Rest(s, done, names) && names != []
    ensures Rest(s, done + {names[0]}, names[1..])
  {
    var rest := names[1..];
    assert names[0] in names;
    assert forall i | 0 <= i < |rest| :: rest[i] == names[i + 1];
    forall n
      ensures n in rest <==> n in names && n != names[0]
    {
      if n in names && n != names[0] {
        var i :| 0 <= i < |names| && names[i] == n;
        assert rest[i - 1] == n;
      }
    }
  }

  // Lives that end in a death.

  function Start(plan: Plan): State {
    State(Some(plan.Original()), None, Some(Journal(Prepared, 0, false)), plan.prepared)
  }

  /** The executor makes the first `k` of its calls. */
  ghost predicate ExecutorReaches(plan: Plan, gate: nat, dirs: seq<Rel>, names: seq<Aside>, k: nat, t: State) {
    var calls := GateCalls(gate, dirs) + MoveCalls(names);
    && gate != plan.sourceId && (forall d :: d in dirs <==> d in plan.dirs)
    && NamesFor(Start(plan), names)
    && k <= |calls| && Leads(Start(plan), calls[..k], t)
  }

  /** The gate is recorded and no file is missing. */
  predicate Moves(plan: Plan, s: State)
    requires s.src.Some? && s.dest.Some?
  {
    s.journal.Some? && s.journal.value.phase == GateCreated && s.journal.value.recorded && Missing(plan, s) == {}
  }

  /** A startup leaves the journal alone in its first look at it. */
  predicate Waits(plan: Plan, s: State)
    requires s.src.Some? && s.dest.Some?
  {
    && s.journal.Some?
    && if s.journal.value.phase == GateCreated then s.journal.value.recorded && Missing(plan, s) != {}
       else s.journal.value.phase == FilesLanded && !RowsSettle(plan, s)
  }

  /** A startup makes the first `k` of its calls: it moves what is left and
      records that, or, if the journal has to wait, resolves staging names. */
  ghost predicate StartupReaches(plan: Plan, s: State, names: seq<Aside>, now: Instant, k: nat, t: State)
    requires s.src.Some? && s.dest.Some?
  {
    if Moves(plan, s) then
      var calls := MoveCalls(names) + [RecordLanded];
      NamesFor(s, names) && k <= |calls| && Leads(s, calls[..k], t)
    else
      && Waits(plan, s) && Rest(s, {}, names)
      && var calls := StagingCalls(plan, s, names, now);
         k <= |calls| && Leads(s, calls[..k], t)
  }

  /** No number of startups that do not die removes the journal. */
  ghost predicate Stalled(plan: Plan, s: State) {
    && plan.Wf() && Inv(plan, s) && s.journal.Some?
    && forall clock :: RecoverCalls(plan, s, clock).journal.Some?
  }

  lemma NeverCompletes(plan: Plan, s: State)
    requires plan.Wf() && Inv(plan, s) && s.journal.Some?
    requires forall now :: !Completable(plan, s, now)
    ensures Stalled(plan, s)
  {
    forall clock: seq<Instant>
      ensures RecoverCalls(plan, s, clock).journal.Some?
    {
      if clock != [] {
        FirstCallDecides(plan, s, clock);
        CompletesIff(plan, s, clock[0]);
      }
    }
    hide Inv, RecoverCall, Completable;
  }

  /** What the gate calls leave: a recorded gate and an untouched source. */
  function Ready(plan: Plan, gate: nat): State {
    State(Some(plan.Original()), Some(Dir(gate, map[], map[], plan.dirs, true)), Some(Journal(GateCreated, gate, true)),
          plan.prepared)
  }

  lemma {:induction false} DirectoryCallsMake(s: State, dirs: seq<Rel>)
    requires s.dest.Some? && (forall d | d in dirs :: d !in s.dest.value.dirs)
             && (forall i, j | 0 <= i < j < |dirs| :: dirs[i] != dirs[j])
    decreases |dirs|
    ensures Leads(s, DirectoryCalls(dirs),
                  s.(dest := Some(s.dest.value.(dirs := s.dest.value.dirs + set d | d in dirs))))
  {
    var made := s.dest.value.dirs + set d | d in dirs;
    if dirs == [] {
      assert made == s.dest.value.dirs;
    } else {
      var t := After(s, MakeDirectory(dirs[0]));
      assert dirs[0] in dirs;
      DirectoryCallsMake(t, dirs[1..]);
      assert t.dest.value.dirs + (set d | d in dirs[1..]) == made;
      assert DirectoryCalls(dirs)[1..] == DirectoryCalls(dirs[1..]);
    }
  }

  lemma GateCallsMake(plan: Plan, gate: nat, dirs: seq<Rel>)
    requires (forall d :: d in dirs <==> d in plan.dirs) && (forall i, j | 0 <= i < j < |dirs| :: dirs[i] != dirs[j])
    ensures Leads(Start(plan), GateCalls(gate, dirs), Ready(plan, gate))
  {
    var made := Start(plan).(dest := Some(Dir(gate, map[], map[], {}, false)));
    var marked := made.(dest := Some(Dir(gate, map[], map[], {}, true)));
    var recorded := marked.(journal := Some(Journal(GateCreated, gate, false)));
    assert Leads(recorded, [], recorded);
    assert Leads(marked, [RecordGate], recorded);
    assert Leads(made, [MarkGate, RecordGate], recorded);
    assert Leads(Start(plan), [MakeGate(gate), MarkGate, RecordGate], recorded);
    DirectoryCallsMake(recorded, dirs);
    var full := recorded.(dest := Some(Dir(gate, map[], map[], plan.dirs, true)));
    assert {} + (set d | d in dirs) == plan.dirs;
    assert Leads(Ready(plan, gate), [], Ready(plan, gate));
    assert Leads(full, [RecordDirectories], Ready(plan, gate));
    LeadsOn(Start(plan), [MakeGate(gate), MarkGate, RecordGate], recorded, DirectoryCalls(dirs), full);
    LeadsOn(Start(plan), [MakeGate(gate), MarkGate, RecordGate] + DirectoryCalls(dirs), full, [RecordDirectories],
            Ready(plan, gate));
  }

  /** Dying among the files. */
  lemma ExecutorAmongFiles(plan: Plan, gate: nat, dirs: seq<Rel>, names: seq<Aside>, k: nat, t: State)
    requires gate != plan.sourceId && NamesFor(Start(plan), names)
    requires (forall d :: d in dirs <==> d in plan.dirs) && (forall i, j | 0 <= i < j < |dirs| :: dirs[i] != dirs[j])
    requires k <= |MoveCalls(names)| && Leads(Ready(plan, gate), MoveCalls(names)[..k], t)
    ensures ExecutorReaches(plan, gate, dirs, names, |GateCalls(gate, dirs)| + k, t)
  {
    GateCallsMake(plan, gate, dirs);
    LeadsOn(Start(plan), GateCalls(gate, dirs), Ready(plan, gate), MoveCalls(names)[..k], t);
    assert (GateCalls(gate, dirs) + MoveCalls(names))[..|GateCalls(gate, dirs)| + k]
           == GateCalls(gate, dirs) + MoveCalls(names)[..k];
  }

  /** With a file missing, startups that do not die never complete a move in
      which one row leaves its source path and one does not reach the destination;
      it is not lost, though. */
  lemma MissingStalls(plan: Plan, s: State, r: Rel, q: Rel)
    requires plan.Wf() && Inv(plan, s) && plan.strategy == ReplayableMove
    requires s.journal.Some? && s.journal.value.phase == GateCreated && s.journal.value.recorded
    requires Missing(plan, s) != {} && s.rows == plan.prepared && r in s.rows && q in s.rows
    requires PullOf(plan, s, r) != Stay && PullOf(plan, s, q) != To(Destination)
    ensures Stalled(plan, s) && Rescuable(plan, s)
  {
    forall now
      ensures !Completable(plan, s, now)
    {
      assert s.rows[q].side == Source;
      hide PullOf, Inv;
    }
    NeverCompletes(plan, s);
  }

  // Four moves that end stranded. Gate 2, source 1, clock readings arbitrary.

  function OneFile(dirs: set<Rel>): Plan {
    Plan(ReplayableMove, 1, map[["a"] := 3], dirs, map[["a"] := Row(Source, 0)], 9, false, {})
  }

  /** A directory of the move, as its files and staging names. */
  function Folder(plan: Plan, id: nat, files: map<Rel, nat>, staged: map<Aside, nat>): Dir {
    Dir(id, files, staged, plan.dirs, id == 2)
  }

  function Moving(plan: Plan, src: Dir, dest: Dir): State {
    State(Some(src), Some(dest), Some(Journal(GateCreated, 2, true)), plan.prepared)
  }

  function FirstAside(plan: Plan): State
    requires ["a"] in plan.entries
  {
    TakenAside(Ready(plan, 2), Aside(["a"], 0))
  }

  /** The executor dies with file a aside, or linked in under its staging name. */
  lemma ExecutorAtFile(plan: Plan, dirs: seq<Rel>, names: seq<Aside>)
    requires ["a"] in plan.entries && plan.sourceId == 1 && |dirs| <= 1 && (forall d :: d in dirs <==> d in plan.dirs)
    requires NamesFor(Start(plan), names) && names != [] && names[0] == Aside(["a"], 0)
    ensures ExecutorReaches(plan, 2, dirs, names, |dirs| + 5, FirstAside(plan))
    ensures ExecutorReaches(plan, 2, dirs, names, |dirs| + 6, LinkedIn(FirstAside(plan), names[0]))
  {
    var aside := FirstAside(plan);
    var cut := LinkedIn(aside, names[0]);
    assert Leads(aside, [], aside) && Leads(cut, [], cut);
    assert Leads(aside, [LinkIn(names[0])], cut);
    assert MoveCalls(names)[..1] == [TakeAside(names[0])];
    assert MoveCalls(names)[..2] == [TakeAside(names[0]), LinkIn(names[0])];
    ExecutorAmongFiles(plan, 2, dirs, names, 1, aside);
    ExecutorAmongFiles(plan, 2, dirs, names, 2, cut);
    hide NamesFor;
  }

  /** One death, between link and unlink of a file, in a move with an empty
      subfolder: the next startup commits, removes the subfolder, finds the staging
      name in the way of the root, and then misses the subfolder. Whatever dies
      later, the move is lost. */
  lemma OneDeathStrands()
    ensures var plan, n := OneFile({["d"]}), Aside(["a"], 0);
            var cut := LinkedIn(FirstAside(plan), n);
            ExecutorReaches(plan, 2, [["d"]], [n], 7, cut) && Stalled(plan, cut) && Hopeless(plan, cut)
  {
    var plan, n := OneFile({["d"]}), Aside(["a"], 0);
    ExecutorAtFile(plan, [["d"]], [n]);
    NeverCompletes(plan, LinkedIn(FirstAside(plan), n));
    assert !ShellsHold(plan, LinkedIn(FirstAside(plan), n).src.value);
  }

  /** Two deaths, with a file aside and between link and unlink of its
      restoration: the next startup lands the file from its source path, and goes
      wrong the same way, unless it dies with the file aside again. */
  lemma TwoDeathsStall(now: Instant)
    ensures var plan, n := OneFile({["d"]}), Aside(["a"], 0);
            var half := LinkBack(FirstAside(plan), n);
            && ExecutorReaches(plan, 2, [["d"]], [n], 6, FirstAside(plan))
            && StartupReaches(plan, FirstAside(plan), [n], now, 1, half) && Stalled(plan, half) && Rescuable(plan, half)
  {
    var plan, n := OneFile({["d"]}), Aside(["a"], 0);
    ExecutorAtFile(plan, [["d"]], [n]);
    HalfRestored(plan, now);
    HalfRestoredStalls(plan);
    hide StartupReaches, ExecutorReaches, Stalled, Rescuable;
  }

  lemma HalfRestoredStalls(plan: Plan)
    requires plan == OneFile({["d"]})
    ensures Stalled(plan, LinkBack(FirstAside(plan), Aside(["a"], 0)))
            && Rescuable(plan, LinkBack(FirstAside(plan), Aside(["a"], 0)))
  {
    NeverCompletes(plan, LinkBack(FirstAside(plan), Aside(["a"], 0)));
  }

  /** A startup dies with its first file aside. */
  lemma StartupAtFile(plan: Plan, s: State, n: Aside, now: Instant)
    requires s.src.Some? && s.dest.Some? && Missing(plan, s) == {}
    requires s.journal.Some? && s.journal.value.phase == GateCreated && s.journal.value.recorded
    requires s.src.value.files.Keys == {n.file} && n !in s.src.value.staged
    ensures StartupReaches(plan, s, [n], now, 1, TakenAside(s, n))
  {
    var names := [n];
    assert n in names;
    assert NamesFor(s, names);
    assert (MoveCalls(names) + [RecordLanded])[..1] == [TakeAside(n)];
    assert Leads(TakenAside(s, n), [], TakenAside(s, n));
  }

  lemma HalfRestored(plan: Plan, now: Instant)
    requires plan == OneFile(plan.dirs)
    ensures var n := Aside(["a"], 0);
            StartupReaches(plan, FirstAside(plan), [n], now, 1, LinkBack(FirstAside(plan), n))
  {
    var n := Aside(["a"], 0);
    var half := LinkBack(FirstAside(plan), n);
    assert ["a"] in Missing(plan, FirstAside(plan));
    assert PartnerOf(plan, FirstAside(plan), n) == Nobody;
    assert StagingCalls(plan, FirstAside(plan), [n], now)[..1] == [Back(n)];
    assert Leads(half, [], half);
  }

  /** The file is half restored: at its source path and under its staging name. */
  function Half(): (s: State)
    ensures s.src.Some? && s.dest.Some?
  {
    LinkBack(FirstAside(OneFile({})), Aside(["a"], 0))
  }

  /** It is aside once more, under two staging names. */
  function Twice(): State {
    TakenAside(Half(), Aside(["a"], 1))
  }

  /** Three deaths: the file is taken aside once more while its first staging
      name is still there. The two names then are each other's partner, and the row
      goes astray to a staging name, unless a startup dies before it does. */
  lemma ThreeDeathsStray(now: Instant)
    ensures var plan, n, m := OneFile({}), Aside(["a"], 0), Aside(["a"], 1);
            && ExecutorReaches(plan, 2, [], [n], 5, FirstAside(plan))
            && StartupReaches(plan, FirstAside(plan), [n], now, 1, Half())
            && StartupReaches(plan, Half(), [m], now, 1, Twice())
            && Stalled(plan, Twice()) && Rescuable(plan, Twice())
  {
    HalfReached(now);
    TakenTwice(now);
    TwiceAsideStalls();
    hide *;
  }

  lemma HalfReached(now: Instant)
    ensures var plan, n := OneFile({}), Aside(["a"], 0);
            && ExecutorReaches(plan, 2, [], [n], 5, FirstAside(plan))
            && StartupReaches(plan, FirstAside(plan), [n], now, 1, Half())
  {
    ExecutorAtFile(OneFile({}), [], [Aside(["a"], 0)]);
    HalfRestored(OneFile({}), now);
    hide StartupReaches, ExecutorReaches;
  }

  lemma TakenTwice(now: Instant)
    ensures StartupReaches(OneFile({}), Half(), [Aside(["a"], 1)], now, 1, Twice())
  {
    assert Missing(OneFile({}), Half()) == {} && Half().src.value.files.Keys == {["a"]};
    StartupAtFile(OneFile({}), Half(), Aside(["a"], 1), now);
  }

  lemma TwiceAsideStalls()
    ensures Inv(OneFile({}), Twice()) && Stalled(OneFile({}), Twice()) && Rescuable(OneFile({}), Twice())
  {
    var plan, n, m, twice := OneFile({}), Aside(["a"], 0), Aside(["a"], 1), Twice();
    assert n in twice.src.value.staged && m in twice.src.value.staged;
    assert HasTwin(twice.src.value, m);
    assert ["a"] in twice.rows && PullOf(plan, twice, ["a"]) == To(Hidden);
    assert ["a"] in Missing(plan, twice);
    hide Rescuable, Stalled;
    MissingStalls(plan, twice, ["a"], ["a"]);
  }

  function TwoFiles(): Plan {
    var row := Row(Source, 0);
    Plan(ReplayableMove, 1, map[["a"] := 3, ["b"] := 4], {}, map[["a"] := row, ["b"] := row], 9, false, {})
  }

  /** The first file is linked in and still has its staging name. */
  function Cut(): (s: State)
    ensures s.src.Some? && s.dest.Some?
  {
    LinkedIn(FirstAside(TwoFiles()), Aside(["a"], 0))
  }

  /** The second is aside as well. */
  function Torn(): State {
    TakenAside(Cut(), Aside(["b"], 1))
  }

  /** Two deaths, between link and unlink of one file and with another aside:
      the row of the first goes to the destination, that of the second stays,
      unless a startup dies before the first does. */
  lemma TornRows(now: Instant)
    ensures var plan, n, m := TwoFiles(), Aside(["a"], 0), Aside(["b"], 1);
            && ExecutorReaches(plan, 2, [], [n, m], 6, Cut())
            && StartupReaches(plan, Cut(), [m], now, 1, Torn()) && Stalled(plan, Torn()) && Rescuable(plan, Torn())
  {
    CutReached();
    SecondAside(now);
    TornStalls();
    hide *;
  }

  lemma CutReached()
    ensures ExecutorReaches(TwoFiles(), 2, [], [Aside(["a"], 0), Aside(["b"], 1)], 6, Cut())
  {
    BothNamed();
    ExecutorAtFile(TwoFiles(), [], [Aside(["a"], 0), Aside(["b"], 1)]);
    hide ExecutorReaches;
  }

  lemma SecondAside(now: Instant)
    ensures StartupReaches(TwoFiles(), Cut(), [Aside(["b"], 1)], now, 1, Torn())
  {
    assert Missing(TwoFiles(), Cut()) == {} && Cut().src.value.files.Keys == {["b"]};
    StartupAtFile(TwoFiles(), Cut(), Aside(["b"], 1), now);
  }

  lemma BothNamed()
    ensures NamesFor(Start(TwoFiles()), [Aside(["a"], 0), Aside(["b"], 1)])
  {
    var names := [Aside(["a"], 0), Aside(["b"], 1)];
    assert names[0] in names && names[1] in names;
  }

  lemma TornInv()
    ensures Inv(TwoFiles(), Torn()) && ["b"] in Missing(TwoFiles(), Torn())
  {
    var torn := Torn();
    assert Aside(["a"], 0) in torn.src.value.staged && Aside(["b"], 1) in torn.src.value.staged;
    assert forall r | r in TwoFiles().entries :: r == ["a"] || r == ["b"];
  }

  lemma TornPulls()
    ensures PullOf(TwoFiles(), Torn(), ["a"]) == To(Destination) && PullOf(TwoFiles(), Torn(), ["b"]) == Stay
  {
    assert Aside(["a"], 0) in Torn().src.value.staged && Aside(["b"], 1) in Torn().src.value.staged;
  }

  lemma TornStalls()
    ensures Stalled(TwoFiles(), Torn()) && Rescuable(TwoFiles(), Torn())
  {
    TornInv();
    TornPulls();
    hide Rescuable, Stalled, Inv, PullOf, Missing;
    MissingStalls(TwoFiles(), Torn(), ["a"], ["b"]);
  }
}
