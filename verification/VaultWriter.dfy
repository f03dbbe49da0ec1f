/** The owner file that keeps a vault to one server process: exclusive creation,
    takeover from a dead owner under a guard directory, and release, with any
    number of processes that start, act, meet I/O errors and die in any order. */
module VaultWriter {
  import opened Wrappers

  type ProcessId = nat

  type Nonce = nat

  datatype Record = Record(nonce: Nonce, host: string, pid: nat)

  /** The owner file: exclusive creation leaves it empty until it is written. */
  datatype OwnerFile = Absent | Empty(creator: Nonce) | Complete(record: Record)

  /** What a process does next. `incumbent` is the record it has read. */
  datatype Stage =
    | Idle
    | Creating
    | Writing
    | Reading
    | Testing(incumbent: Record)
    | Guarding(incumbent: Record)
    | Signing(incumbent: Record)
    | Rereading(incumbent: Record)
    | Retesting(incumbent: Record)
    | Unlinking
    | Recreating
    | Rewriting
    | Clearing
    | Withdrawing
    | Owning
    | Releasing

  datatype Process = Process(host: string, pid: nat, alive: bool, stage: Stage, nonce: Nonce)

  /** `guard` is who made the takeover guard, `issued` who drew a nonce. */
  datatype State = State(file: OwnerFile, guard: Option<ProcessId>, processes: map<ProcessId, Process>,
                         issued: map<Nonce, ProcessId>)

  const Init := State(Absent, None, map[], map[])

  function Own(s: State, p: ProcessId): Record
    requires p in s.processes
  {
    Record(s.processes[p].nonce, s.processes[p].host, s.processes[p].pid)
  }

  /** ESRCH: no living process on this host has the pid. */
  predicate PositivelyDead(s: State, host: string, pid: nat) {
    forall q | q in s.processes && s.processes[q].alive :: !(s.processes[q].host == host && s.processes[q].pid == pid)
  }

  datatype Effect = Effect(stage: Stage, file: OwnerFile, guard: Option<ProcessId>)

  /** The next step of a process when the system call it makes does not fail. */
  function Turn(s: State, p: ProcessId): Effect
    requires p in s.processes
  {
    var me, own := s.processes[p], Own(s, p);
    match me.stage
    case Idle => Effect(Creating, s.file, s.guard)
    case Creating =>
      if s.file.Absent? then Effect(Writing, Empty(me.nonce), s.guard) else Effect(Reading, s.file, s.guard)
    case Writing => Effect(Owning, Complete(own), s.guard)
    case Reading =>
      Effect(if s.file.Complete? && s.file.record.host == me.host then Testing(s.file.record) else Idle, s.file,
             s.guard)
    case Testing(incumbent) =>
      Effect(if PositivelyDead(s, me.host, incumbent.pid) then Guarding(incumbent) else Idle, s.file, s.guard)
    case Guarding(incumbent) =>
      if s.guard.None? then Effect(Signing(incumbent), s.file, Some(p)) else Effect(Idle, s.file, s.guard)
    case Signing(incumbent) => Effect(Rereading(incumbent), s.file, s.guard)
    case Rereading(incumbent) =>
      Effect(if s.file.Complete? && s.file.record.nonce == incumbent.nonce then Retesting(s.file.record)
               else Withdrawing, s.file, s.guard)
    case Retesting(incumbent) =>
      Effect(if incumbent.host == me.host && PositivelyDead(s, me.host, incumbent.pid) then Unlinking else Withdrawing,
             s.file, s.guard)
    case Unlinking => Effect(Recreating, Absent, s.guard)
    case Recreating =>
      if s.file.Absent? then Effect(Rewriting, Empty(me.nonce), s.guard) else Effect(Idle, s.file, s.guard)
    case Rewriting => Effect(Clearing, Complete(own), s.guard)
    case Clearing => Effect(Owning, s.file, None)
    case Withdrawing => Effect(Idle, s.file, None)
    case Owning =>
      Effect(if s.file.Complete? && s.file.record.nonce == me.nonce then Releasing else Owning, s.file, s.guard)
    case Releasing => Effect(Idle, Absent, s.guard)
  }

  /** A turn, with the nonce drawn when it begins an acquisition. */
  function Act(s: State, p: ProcessId, drawn: Nonce): State
    requires p in s.processes
  {
    var me, e := s.processes[p], Turn(s, p);
    State(e.file, e.guard,
          s.processes[p := me.(stage := e.stage, nonce := if me.stage.Idle? then drawn else me.nonce)],
          if me.stage.Idle? then s.issued[drawn := p] else s.issued)
  }

  /** The next step when its system call fails: the acquisition is given up and
      the guard left behind, except that errors in removing the guard after a
      takeover are ignored, and a failed release leaves the owner in place.
      `written` says whether a failing write of the record got it into the file:
      the sync after it may be what failed. */
  function Fault(s: State, p: ProcessId, written: bool): State
    requires p in s.processes
  {
    var stage := match s.processes[p].stage
                 case Unlinking | Rereading(_) | Retesting(_) => Withdrawing
                 case Clearing | Owning | Releasing => Owning
                 case _ => Idle;
    s.(processes := s.processes[p := s.processes[p].(stage := stage)],
       file := if written && s.processes[p].stage in {Writing, Rewriting} then Complete(Own(s, p)) else s.file)
  }

  datatype Event = Start(p: ProcessId, host: string,
                         pid: nat) | Run(p: ProcessId, drawn: Nonce) | Fail(p: ProcessId,
                                                                            written: bool) | Die(p: ProcessId)

  /** Only living processes act, nonces are never drawn twice, and a host gives
      a pid to one living process at a time. */
  predicate Enabled(s: State, e: Event) {
    match e
    case Start(p, host, pid) => p !in s.processes && PositivelyDead(s, host, pid)
    case Run(p, drawn) => p in s.processes && s.processes[p].alive && drawn !in s.issued
    case Fail(p, _) => p in s.processes && s.processes[p].alive
    case Die(p) => p in s.processes
  }

  function Next(s: State, e: Event): State
    requires Enabled(s, e)
  {
    match e
    case Start(p, host, pid) => s.(processes := s.processes[p := Process(host, pid, true, Idle, 0)])
    case Run(p, drawn) => Act(s, p, drawn)
    case Fail(p, written) => Fault(s, p, written)
    case Die(p) => s.(processes := s.processes[p := s.processes[p].(alive := false)])
  }

  /** The process may write to the vault: it took ownership and has not given
      it back. */
  predicate Owns(s: State, p: ProcessId) {
    p in s.processes && s.processes[p].alive && s.processes[p].stage in {Clearing, Owning, Releasing}
  }

  /** The process holds the takeover guard. */
  predicate Guards(stage: Stage) {
    stage.Signing? || stage.Rereading? || stage.Retesting?
    || stage in {Unlinking, Recreating, Rewriting, Clearing, Withdrawing}
  }

  ghost predicate RecordOfDead(s: State, r: Record) {
    r.nonce in s.issued && s.issued[r.nonce] in s.processes && !s.processes[s.issued[r.nonce]].alive
  }

  /** The record was written by the process that drew its nonce. */
  ghost predicate Genuine(s: State, r: Record) {
    r.nonce in s.issued && s.issued[r.nonce] in s.processes
    && var q := s.processes[s.issued[r.nonce]]; r.host == q.host && r.pid == q.pid
  }

  ghost predicate ProcessInv(s: State, p: ProcessId)
    requires p in s.processes
  {
    var me := s.processes[p];
    && (me.stage != Idle ==> me.nonce in s.issued && s.issued[me.nonce] == p)
    && (Guards(me.stage) ==> s.guard == Some(p))
    && match me.stage
       case Writing | Rewriting => s.file == Empty(me.nonce)
       case Testing(incumbent) => Genuine(s, incumbent) && incumbent.host == me.host
       case Guarding(incumbent) => RecordOfDead(s, incumbent)
       case Signing(incumbent) => RecordOfDead(s, incumbent)
       case Rereading(incumbent) => RecordOfDead(s, incumbent)
       case Retesting(incumbent) => s.file == Complete(incumbent) && RecordOfDead(s, incumbent)
       case Unlinking => s.file.Complete? && RecordOfDead(s, s.file.record)
       case Clearing | Owning | Releasing => s.file == Complete(Own(s, p))
       case _ => true
  }

  ghost predicate Inv(s: State) {
    && (s.file.Empty? ==> s.file.creator in s.issued)
    && (s.file.Complete? ==> Genuine(s, s.file.record))
    && forall p | p in s.processes && s.processes[p].alive :: ProcessInv(s, p)
  }

  lemma NextKeepsInv(s: State, e: Event)
    requires Inv(s) && Enabled(s, e)
    ensures Inv(Next(s, e))
  {
    var s' := Next(s, e);
    NextKeepsFile(s, e);
    forall q | q in s'.processes && s'.processes[q].alive
      ensures ProcessInv(s', q)
    {
      match e
      case Run(p, drawn) =>
        if q == p {
          ActKeepsSelf(s, p, drawn);
        } else {
          ActKeepsOthers(s, p, drawn, q);
        }
      case _ => QuietKeeps(s, e, q);
    }
  }

  lemma NextKeepsFile(s: State, e: Event)
    requires Inv(s) && Enabled(s, e)
    ensures var s' := Next(s, e);
            && (s'.file.Empty? ==> s'.file.creator in s'.issued)
            && (s'.file.Complete? ==> Genuine(s', s'.file.record))
  {
    assert e.Run? || e.Fail? ==> ProcessInv(s, e.p);
  }

  lemma ActKeepsSelf(s: State, p: ProcessId, drawn: Nonce)
    requires Inv(s) && Enabled(s, Run(p, drawn))
    ensures ProcessInv(Act(s, p, drawn), p)
  {
    assert ProcessInv(s, p);
  }

  /** The stages whose part of the invariant speaks of the owner file. */
  predicate MindsFile(stage: Stage) {
    stage.Retesting? || stage in {Writing, Rewriting, Unlinking, Clearing, Owning, Releasing}
  }

  /** What the others do is harmless as long as it leaves a process its guard
      and, where it matters, the file. */
  ghost predicate Harmless(s: State, s': State, q: ProcessId)
    requires q in s.processes
  {
    && q in s'.processes && s'.processes[q] == s.processes[q]
    && (forall n | n in s.issued :: n in s'.issued && s'.issued[n] == s.issued[n])
    && (forall r | r in s.processes :: r in s'.processes && s'.processes[r].host == s.processes[r].host
                                        && s'.processes[r].pid == s.processes[r].pid
                                        && (s'.processes[r].alive ==> s.processes[r].alive))
    && (Guards(s.processes[q].stage) ==> s'.guard == s.guard)
    && (MindsFile(s.processes[q].stage) ==> s'.file == s.file)
  }

  lemma HarmlessKeeps(s: State, s': State, q: ProcessId)
    requires q in s.processes && ProcessInv(s, q) && Harmless(s, s', q)
    ensures ProcessInv(s', q)
  {
  }

  /** Nobody touches the file while another process relies on it. */
  lemma FileIsLeft(s: State, p: ProcessId, drawn: Nonce, q: ProcessId)
    requires Inv(s) && Enabled(s, Run(p, drawn))
    requires q in s.processes && s.processes[q].alive && q != p && MindsFile(s.processes[q].stage)
    ensures Act(s, p, drawn).file == s.file
  {
    assert ProcessInv(s, p) && ProcessInv(s, q);
  }

  lemma GuardIsLeft(s: State, p: ProcessId, drawn: Nonce, q: ProcessId)
    requires Inv(s) && Enabled(s, Run(p, drawn))
    requires q in s.processes && s.processes[q].alive && q != p && Guards(s.processes[q].stage)
    ensures Act(s, p, drawn).guard == s.guard
  {
    assert ProcessInv(s, p) && ProcessInv(s, q);
  }

  lemma ActKeepsOthers(s: State, p: ProcessId, drawn: Nonce, q: ProcessId)
    requires Inv(s) && Enabled(s, Run(p, drawn))
    requires q in s.processes && s.processes[q].alive && q != p
    ensures ProcessInv(Act(s, p, drawn), q)
  {
    if MindsFile(s.processes[q].stage) {
      FileIsLeft(s, p, drawn, q);
    }
    if Guards(s.processes[q].stage) {
      GuardIsLeft(s, p, drawn, q);
    }
    hide Turn, Guards, MindsFile, ProcessInv, PositivelyDead;
    HarmlessKeeps(s, Act(s, p, drawn), q);
  }

  lemma FaultKeepsSelf(s: State, p: ProcessId, written: bool)
    requires Inv(s) && Enabled(s, Fail(p, written))
    ensures ProcessInv(Fault(s, p, written), p)
  {
    assert ProcessInv(s, p);
  }

  /** A failing step too leaves the file to those who rely on it. */
  lemma FaultLeavesFile(s: State, p: ProcessId, written: bool, q: ProcessId)
    requires Inv(s) && Enabled(s, Fail(p, written))
    requires q in s.processes && s.processes[q].alive && q != p && MindsFile(s.processes[q].stage)
    ensures Fault(s, p, written).file == s.file
  {
    assert ProcessInv(s, p) && ProcessInv(s, q);
  }

  /** Starting, failing and dying leave the guard alone, and the file to those
      who rely on it. */
  lemma QuietKeeps(s: State, e: Event, q: ProcessId)
    requires Inv(s) && Enabled(s, e) && !e.Run?
    requires q in Next(s, e).processes && Next(s, e).processes[q].alive
    ensures ProcessInv(Next(s, e), q)
  {
    if e.Fail? && e.p == q {
      FaultKeepsSelf(s, q, e.written);
    } else if q in s.processes {
      assert ProcessInv(s, q);
      if e.Fail? && MindsFile(s.processes[q].stage) {
        FaultLeavesFile(s, e.p, e.written, q);
      }
      hide Guards, MindsFile, ProcessInv, PositivelyDead;
      HarmlessKeeps(s, Next(s, e), q);
    }
  }

  /** A run from the empty vault. */
  ghost predicate IsRun(run: seq<State>, events: seq<Event>) {
    && |run| == |events| + 1 && run[0] == Init
    && forall i | 0 <= i < |events| :: Enabled(run[i], events[i]) && run[i + 1] == Next(run[i], events[i])
  }

  /** At every state of every run at most one living process owns the vault,
      and while one does the owner file holds its nonce. */
  lemma {:induction false} MutualExclusion(run: seq<State>, events: seq<Event>, i: nat, p: ProcessId, q: ProcessId)
    requires IsRun(run, events) && i < |run|
    ensures Inv(run[i])
    ensures Owns(run[i], p) ==> run[i].file.Complete? && run[i].file.record.nonce == run[i].processes[p].nonce
    ensures Owns(run[i], p) && Owns(run[i], q) ==> p == q
  {
    if i > 0 {
      MutualExclusion(run, events, i - 1, p, q);
      NextKeepsInv(run[i - 1], events[i - 1]);
    }
    if Owns(run[i], p) {
      OneOwner(run[i], p, q);
    }
  }

  lemma OneOwner(s: State, p: ProcessId, q: ProcessId)
    requires Inv(s) && Owns(s, p)
    ensures s.file.Complete? && s.file.record.nonce == s.processes[p].nonce
    ensures Owns(s, q) ==> p == q
  {
    assert ProcessInv(s, p) && (Owns(s, q) ==> ProcessInv(s, q));
  }

  /** `n` undisturbed turns of one process. */
  function Solo(s: State, p: ProcessId, drawn: Nonce, n: nat): (r: State)
    requires p in s.processes
    ensures p in r.processes
  {
    if n == 0 then s else Act(Solo(s, p, drawn, n - 1), p, drawn)
  }

  /** A process of the owner's host that starts after the owner died, finds no
      guard and is left alone becomes the owner, and leaves no guard. */
  lemma DeadOwnerIsReplaced(s: State, p: ProcessId, drawn: Nonce)
    requires Inv(s) && Enabled(s, Run(p, drawn)) && s.processes[p].stage == Idle
    requires s.file.Complete? && s.file.record.host == s.processes[p].host && s.guard.None?
    requires PositivelyDead(s, s.file.record.host, s.file.record.pid)
    ensures Owns(Solo(s, p, drawn, 12), p) && Solo(s, p, drawn, 12).guard.None?
  {
    var inc := s.file.record;
    SoloTurns(s, p, drawn, inc, 12);
  }

  /** The stages of a takeover, one turn each. */
  function Takeover(inc: Record): seq<Stage> {
    [Idle, Creating, Reading, Testing(inc), Guarding(inc), Signing(inc), Rereading(inc), Retesting(inc),
     Unlinking, Recreating, Rewriting, Clearing, Owning]
  }

  /** `p` has taken `n` turns of its takeover from the dead owner `inc`. */
  predicate OnTrack(s: State, p: ProcessId, inc: Record, n: nat)
    requires n <= 12
  {
    && p in s.processes && s.processes[p].stage == Takeover(inc)[n] && s.processes[p].alive
    && s.processes[p].host == inc.host
    && (n <= 8 ==> s.file == Complete(inc)) && (n == 9 ==> s.file == Absent)
    && (n <= 4 || n == 12 ==> s.guard.None?)
    && PositivelyDead(s, inc.host, inc.pid)
  }

  lemma OneTurn(s: State, p: ProcessId, drawn: Nonce, inc: Record, n: nat)
    requires n < 12 && OnTrack(s, p, inc, n)
    ensures OnTrack(Act(s, p, drawn), p, inc, n + 1)
  {
    var s' := Act(s, p, drawn);
    assert forall q | q in s'.processes ::
           s'.processes[q].host == s.processes[q].host && s'.processes[q].pid == s.processes[q].pid
                                           && s'.processes[q].alive == s.processes[q].alive;
  }

  lemma {:induction false} SoloTurns(s: State, p: ProcessId, drawn: Nonce, inc: Record, n: nat)
    requires n <= 12 && OnTrack(s, p, inc, 0)
    ensures OnTrack(Solo(s, p, drawn, n), p, inc, n)
  {
    if n > 0 {
      SoloTurns(s, p, drawn, inc, n - 1);
      OneTurn(Solo(s, p, drawn, n - 1), p, drawn, inc, n - 1);
    }
  }

  /** What holds of a process that acts alone. */
  lemma SoloKeeps(s: State, p: ProcessId, drawn: Nonce)
    requires p in s.processes
    ensures var s' := Act(s, p, drawn);
            && s'.processes.Keys == s.processes.Keys && s'.processes[p].alive == s.processes[p].alive
            && forall q | q in s.processes && q != p :: s'.processes[q] == s.processes[q]
  {
  }

  /** How many turns a release takes from the given stage of ownership. */
  function Release(stage: Stage): nat {
    match stage
    case Releasing => 1
    case Owning => 2
    case _ => 3
  }

  /** An owner that is left alone and releases frees the vault: the owner file is
      gone, the process is idle and still alive. */
  lemma ReleaseFrees(s: State, p: ProcessId, drawn: Nonce)
    requires Inv(s) && Owns(s, p)
    ensures var freed := Solo(s, p, drawn, Release(s.processes[p].stage));
            && freed.file == Absent && freed.processes[p] == s.processes[p].(stage := Idle)
            && (s.processes[p].stage != Clearing ==> freed.guard == s.guard)
            && forall q | q in s.processes && q != p :: q in freed.processes && freed.processes[q] == s.processes[q]
  {
    assert ProcessInv(s, p);
    var first := Act(s, p, drawn);
    assert Solo(s, p, drawn, 0) == s && Solo(s, p, drawn, 1) == first;
    if s.processes[p].stage != Releasing {
      var second := Act(first, p, drawn);
      assert Solo(s, p, drawn, 2) == second;
      if s.processes[p].stage == Clearing {
        assert Solo(s, p, drawn, 3) == Act(second, p, drawn);
      }
    }
  }

  /** A living idle process that finds no owner file and is left alone becomes
      the owner, with its own record in the file. */
  lemma FreeVaultIsTaken(s: State, q: ProcessId, drawn: Nonce)
    requires Enabled(s, Run(q, drawn)) && s.processes[q].stage == Idle && s.file.Absent?
    ensures var taken := Solo(s, q, drawn, 3);
            && Owns(taken, q) && taken.guard == s.guard
            && taken.file == Complete(Record(drawn, s.processes[q].host, s.processes[q].pid))
  {
    var first := Act(s, q, drawn);
    var second := Act(first, q, drawn);
    assert Solo(s, q, drawn, 0) == s && Solo(s, q, drawn, 1) == first && Solo(s, q, drawn, 2) == second;
    assert Solo(s, q, drawn, 3) == Act(second, q, drawn);
  }

  /** A released vault can be taken while the releaser still lives. */
  lemma ReleasedIsTaken(s: State, p: ProcessId, q: ProcessId, drawn: Nonce)
    requires Inv(s) && Owns(s, p) && p != q && Enabled(s, Run(q, drawn)) && s.processes[q].stage == Idle
    ensures var freed := Solo(s, p, drawn, Release(s.processes[p].stage));
            && q in freed.processes && freed.processes[p].alive
            && Owns(Solo(freed, q, drawn, 3), q)
  {
    ReleaseFrees(s, p, drawn);
    var n := Release(s.processes[p].stage);
    SoloDrawsNothing(s, p, drawn, n);
    FreeVaultIsTaken(Solo(s, p, drawn, n), q, drawn);
    hide Inv, Owns, Act;
  }

  lemma SoloDrawsNothing(s: State, p: ProcessId, drawn: Nonce, n: nat)
    requires Inv(s) && Owns(s, p) && n == Release(s.processes[p].stage)
    ensures Solo(s, p, drawn, n).issued == s.issued
  {
    assert ProcessInv(s, p);
    var first := Act(s, p, drawn);
    assert Solo(s, p, drawn, 0) == s && Solo(s, p, drawn, 1) == first;
    if s.processes[p].stage != Releasing {
      var second := Act(first, p, drawn);
      assert Solo(s, p, drawn, 2) == second;
      if s.processes[p].stage == Clearing {
        assert Solo(s, p, drawn, 3) == Act(second, p, drawn);
      }
    }
  }

  /** A process that finds a living owner of its host, or an owner of another
      host, gives up and leaves file and guard alone. */
  lemma OwnerIsRespected(s: State, q: ProcessId, drawn: Nonce)
    requires Enabled(s, Run(q, drawn)) && s.processes[q].stage == Idle && s.file.Complete?
    requires s.file.record.host != s.processes[q].host || !PositivelyDead(s, s.file.record.host, s.file.record.pid)
    ensures var n := if s.file.record.host == s.processes[q].host then 4 else 3;
            var end := Solo(s, q, drawn, n);
            end.processes[q].stage == Idle && end.file == s.file && end.guard == s.guard
  {
    var first := Act(s, q, drawn);
    var second := Act(first, q, drawn);
    var third := Act(second, q, drawn);
    assert Solo(s, q, drawn, 0) == s && Solo(s, q, drawn, 1) == first && Solo(s, q, drawn, 2) == second;
    assert Solo(s, q, drawn, 3) == third && Solo(s, q, drawn, 4) == Act(third, q, drawn);
    var r := s.file.record;
    if r.host == s.processes[q].host {
      var w :| w in s.processes && s.processes[w].alive && s.processes[w].host == r.host && s.processes[w].pid == r.pid;
      assert third.processes[w].alive && third.processes[w].host == r.host && third.processes[w].pid == r.pid;
    }
  }

  /** A takeover that finds another owner than it has read, or a living one, is
      called off: its guard goes, the file stays. */
  lemma CalledOff(s: State, q: ProcessId, drawn: Nonce)
    requires q in s.processes && s.processes[q].stage.Rereading?
    requires !(s.file.Complete? && s.file.record.nonce == s.processes[q].stage.incumbent.nonce)
    ensures var end := Solo(s, q, drawn, 2);
            end.processes[q].stage == Idle && end.file == s.file && end.guard.None?
  {
    var first := Act(s, q, drawn);
    assert Solo(s, q, drawn, 0) == s && Solo(s, q, drawn, 1) == first && Solo(s, q, drawn, 2) == Act(first, q, drawn);
  }

  /** The guard belongs to somebody who will not remove it any more. */
  predicate GuardStranded(s: State) {
    s.guard.Some? && s.guard.value in s.processes
    && var p := s.processes[s.guard.value]; !p.alive || !Guards(p.stage)
  }

  /** A takeover that fails once the guard is made, and not in its second look or
      in the removal of the dead owner's file, strands the guard, and so does a
      death. */
  lemma FailureStrands(s: State, p: ProcessId, written: bool)
    requires Inv(s) && p in s.processes && s.processes[p].alive
    requires s.processes[p].stage.Signing? || s.processes[p].stage in {Recreating, Rewriting}
    ensures GuardStranded(Next(s, Fail(p, written))) && GuardStranded(Next(s, Die(p)))
  {
    assert ProcessInv(s, p);
  }

  /** Nobody ever removes a stranded guard: from then on no takeover begins. */
  lemma StrandedStays(s: State, e: Event)
    requires Inv(s) && Enabled(s, e) && GuardStranded(s)
    ensures GuardStranded(Next(s, e)) && Next(s, e).guard == s.guard
    ensures forall p | p in s.processes && s.processes[p].alive && !Guards(s.processes[p].stage) ::
              !Guards(Next(s, e).processes[p].stage)
  {
    assert forall p | p in s.processes && s.processes[p].alive :: ProcessInv(s, p);
  }
}
