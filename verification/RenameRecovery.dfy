/** The steps of rename-reference recovery, with outside programs and deaths
    between any two of them. */
module RenameRecovery {
  import opened Wrappers
  import opened RenameReferences

  /** Whose step led to a state: outside programs only change files. */
  datatype Actor = Theirs | Ours

  datatype Entry = Entry(actor: Actor, s: State)

  /** One document that holds the version opposite to the journal's direction is
      rewritten to the other. */
  predicate RewriteStep(plan: Plan, a: State, b: State) {
    && a.gone == 0 && a.journal.Some? && a.journal.value in {RollForward, RollBack}
    && exists i | 0 <= i < |plan.references| ::
         var r, phase := plan.references[i], a.journal.value;
         At(a.files, r.path) == Some(Expected(r, phase)) && b == a.(files := a.files[r.path := Desired(r, phase)])
  }

  /** The document goes back to its old path, which is free. */
  predicate MoveStep(plan: Plan, a: State, b: State) {
    && a.gone == 0 && a.journal == Some(RollBack) && plan.dest in a.files && plan.src !in a.files
    && b == a.(files := (a.files - {plan.dest})[plan.src := a.files[plan.dest]])
  }

  /** Identities, payloads and journal: an identity is detached or moves back,
      rolling back turns forward, payloads go before the journal. */
  predicate OwnStep(plan: Plan, a: State, b: State) {
    && a.journal.Some? && b.files == a.files
    && (|| (a.gone == 0 && a.journal == Some(RollForward) && At(a.identities, plan.dest) == Some(plan.document)
            && b == a.(identities := a.identities - {plan.dest}))
        || (a.gone == 0 && a.journal == Some(RollBack) && plan.dest in a.identities
            && b == a.(identities := (a.identities - {plan.dest})[plan.src := a.identities[plan.dest]]))
        || (a.gone == 0 && a.journal == Some(RollBack) && b == a.(journal := Some(RollForward)))
        || (a.gone < 2 * |plan.references| && b == a.(gone := a.gone + 1))
        || (a.gone == 2 * |plan.references| && b == a.(journal := None)))
  }

  predicate Next(plan: Plan, rivals: bool, a: State, actor: Actor, b: State) {
    match actor
    case Theirs => rivals && b == a.(files := b.files)
    case Ours => RewriteStep(plan, a, b) || MoveStep(plan, a, b) || OwnStep(plan, a, b)
  }

  /** A history of steps, each allowed in the state it started from. */
  predicate Run(plan: Plan, rivals: bool, h: seq<Entry>) {
    h != [] && forall k | 0 < k < |h| :: Next(plan, rivals, h[k - 1].s, h[k].actor, h[k].s)
  }

  /** A text in no version of a reference is never overwritten by this program:
      until outside programs change files again, it stays at its path, or moves
      back with the document. */
  lemma {:induction false} OutsideTextStays(plan: Plan, rivals: bool, h: seq<Entry>, k: nat, p: Path, text: Text)
    requires Run(plan, rivals, h) && k < |h| && forall j | k < j < |h| :: h[j].actor == Ours
    requires At(h[k].s.files, p) == Some(text)
    requires forall i | 0 <= i < |plan.references| && plan.references[i].path in {p, plan.src} ::
               text != plan.references[i].before && text != plan.references[i].after
    ensures var files := h[|h| - 1].s.files;
            At(files, p) == Some(text) || (p == plan.dest && At(files, plan.src) == Some(text))
    decreases |h|
  {
    if k < |h| - 1 {
      OutsideTextStays(plan, rivals, h[..|h| - 1], k, p, text);
      assert Next(plan, rivals, h[|h| - 2].s, Ours, h[|h| - 1].s);
    }
  }

  /** There is no turning back: once forward, always forward, also over
      startups, until the journal is gone with every payload. */
  lemma {:induction false} NeverBackAgain(plan: Plan, rivals: bool, h: seq<Entry>, k: nat)
    requires Run(plan, rivals, h) && k < |h| && (h[k].s.journal == Some(RollForward) || h[k].s.journal.None?)
    ensures var last := h[|h| - 1].s;
            && (last.journal == Some(RollForward) || last.journal.None?)
            && (h[k].s.journal.Some? && last.journal.None? ==> last.gone == 2 * |plan.references|)
    decreases |h|
  {
    if k < |h| - 1 {
      NeverBackAgain(plan, rivals, h[..|h| - 1], k);
      assert Next(plan, rivals, h[|h| - 2].s, h[|h| - 1].actor, h[|h| - 1].s);
    }
  }

  datatype MoveResult = Moved | SourceTaken | Vanished

  /** Files, identity rows, payloads and journal of one document rename. */
  class Vault {
    const plan: Plan
    const rivals: bool
    /** Whether the machine may die between two system calls. */
    const mortal: bool
    var s: State
    /** All steps so far, and whose they were. */
    ghost var history: seq<Entry>

    constructor (plan: Plan, s: State, rivals: bool, mortal: bool)
      ensures this.plan == plan && this.s == s && this.rivals == rivals && this.mortal == mortal
      ensures history == [Entry(Ours, s)]
      ensures Valid()
    {
      this.plan, this.s, this.rivals, this.mortal, history := plan, s, rivals, mortal, [Entry(Ours, s)];
    }

    /** The history is a run that leads here. */
    ghost predicate Valid()
      reads this
    {
      Run(plan, rivals, history) && history[|history| - 1].s == s
    }

    /** Only recovery's own files of state are as they were: outside programs
        may have changed any document. */
    ghost predicate Drifted(s0: State)
      reads this
    {
      s == s0.(files := s.files) && (!rivals ==> s == s0)
    }

    /** Whether the machine dies here; it does so only if it is mortal. */
    method Dies() returns (yes: bool)
      ensures yes ==> mortal
    {
      yes := *;
      yes := yes && mortal;
    }

    method Rivals()
      requires Valid()
      modifies `s, `history
      ensures Valid() && Drifted(old(s)) && old(history) <= history
    {
      if rivals {
        var files: map<Path, Text> :| true;
        s := s.(files := files);
        history := history + [Entry(Theirs, s)];
      }
    }

    /** A step on identities, payloads or journal, which are this program's own. */
    method Do(next: State) returns (r: Step<()>)
      requires Valid() && OwnStep(plan, s, next)
      modifies `s, `history
      ensures !mortal ==> r.Done?
      ensures Valid() && old(history) <= history
      ensures r.Crashed? ==> Drifted(old(s))
      ensures r.Done? ==> s == next.(files := s.files)
      ensures !rivals ==> s.files == old(s).files
    {
      Rivals();
      var dies := Dies();
      if dies {
        return Crashed;
      }
      s := next.(files := s.files);
      history := history + [Entry(Ours, s)];
      r := Done(());
    }

    /** The atomic replace of a referring document that still holds the version
        opposite to the direction. */
    method ReplaceIfUnchanged(i: nat, phase: Phase) returns (r: Step<bool>)
      requires Valid() && i < |plan.references| && s.gone == 0 && s.journal == Some(phase)
               && phase in {RollForward, RollBack}
      modifies `s, `history
      ensures !mortal ==> r.Done?
      ensures Valid() && old(history) <= history && s == old(s).(files := s.files)
      ensures r == Done(true) ==> |old(history)| < |history| && history[|history| - 1].actor == Ours
      ensures !rivals && r.Crashed? ==> s == old(s)
      ensures !rivals && r.Done? ==> var p := plan.references[i];
                r.value == (At(old(s).files, p.path) == Some(Expected(p, phase)))
                && s == if r.value then old(s).(files := old(s).files[p.path := Desired(p, phase)]) else old(s)
    {
      Rivals();
      var dies := Dies();
      if dies {
        return Crashed;
      }
      var reference := plan.references[i];
      if At(s.files, reference.path) != Some(Expected(reference, phase)) {
        return Done(false);
      }
      s := s.(files := s.files[reference.path := Desired(reference, phase)]);
      history := history + [Entry(Ours, s)];
      r := Done(true);
    }

    /** The create-only move of the document back to its old path. */
    method MoveFileBack() returns (r: Step<MoveResult>)
      requires Valid() && s.gone == 0 && s.journal == Some(RollBack)
      modifies `s, `history
      ensures !mortal ==> r.Done?
      ensures Valid() && old(history) <= history && s == old(s).(files := s.files)
      ensures !rivals && r.Crashed? ==> s == old(s)
      ensures !rivals && r.Done? && plan.dest in old(s).files && plan.src !in old(s).files ==>
                r.value == Moved && s.files == (old(s).files - {plan.dest})[plan.src := old(s).files[plan.dest]]
    {
      Rivals();
      var dies := Dies();
      if dies {
        return Crashed;
      }
      if plan.dest !in s.files {
        return Done(Vanished);
      }
      if plan.src in s.files {
        return Done(SourceTaken);
      }
      s := s.(files := (s.files - {plan.dest})[plan.src := s.files[plan.dest]]);
      history := history + [Entry(Ours, s)];
      r := Done(Moved);
    }

    /** Bring every reference into the version of the direction. Yields whether
        all of them could be. */
    method RewriteReferences(phase: Phase) returns (r: Step<bool>)
      requires plan.Parses() && Valid() && s.gone == 0 && s.journal == Some(phase) && phase in {RollForward, RollBack}
      modifies `s, `history
      ensures !mortal ==> r.Done?
      ensures Valid() && old(history) <= history && s == old(s).(files := s.files)
      ensures !rivals && r.Done? ==> var n := Reach(old(s).files, plan.references, phase);
                                     s.files == Rewritten(old(s).files, plan.references, phase, n)
                                     && r.value == (n == |plan.references|)
      ensures !rivals && r.Crashed? ==> exists k | 0 <= k <= Reach(old(s).files, plan.references, phase) ::
                                          s.files == Rewritten(old(s).files, plan.references, phase, k)
    {
      ghost var files0, n := s.files, Reach(s.files, plan.references, phase);
      assert Rewritten(files0, plan.references, phase, 0) == files0;
      hide Reach, Rewritten, Run;
      for i := 0 to |plan.references|
        invariant Valid() && old(history) <= history && s == old(s).(files := s.files)
        invariant !rivals ==> i <= n && s.files == Rewritten(files0, plan.references, phase, i)
      {
        if i <= n {
          OneRewriteMore(plan, files0, phase, i);
        }
        var desired :- RewriteReference(i, phase);
        if !desired {
          return Done(false);
        }
      }
      r := Done(true);
    }

    /** Bring one reference into the version of the direction, if it holds
        either version. */
    method RewriteReference(i: nat, phase: Phase) returns (r: Step<bool>)
      requires i < |plan.references| && Valid() && s.gone == 0 && s.journal == Some(phase)
               && phase in {RollForward, RollBack}
      modifies `s, `history
      ensures !mortal ==> r.Done?
      ensures Valid() && old(history) <= history && s == old(s).(files := s.files)
      ensures !rivals && r.Crashed? ==> s == old(s)
      ensures !rivals && r.Done? ==> var p := plan.references[i];
                r.value == (At(old(s).files, p.path) in {Some(p.before), Some(p.after)})
                && s.files == if r.value then old(s).files[p.path := Desired(p, phase)] else old(s).files
    {
      var reference := plan.references[i];
      Rivals();
      if At(s.files, reference.path) == Some(Desired(reference, phase)) {
        AlreadyDesired(s.files, reference, phase);
        return Done(true);
      }
      if At(s.files, reference.path) != Some(Expected(reference, phase)) {
        return Done(false);
      }
      r := ReplaceIfUnchanged(i, phase);
    }

    /** Remove the payloads one by one, then the journal. A death leaves the
        journal, and some of them gone. */
    method CleanUp() returns (r: Step<()>)
      requires Valid() && s.gone == 0 && s.journal.Some?
      modifies `s, `history
      ensures !mortal ==> r.Done?
      ensures Valid() && old(history) <= history
      ensures !rivals ==> s.files == old(s).files
      ensures s.identities == old(s).identities
      ensures r.Done? ==> s.gone == 2 * |plan.references| && s.journal.None?
      ensures r.Crashed? ==> s.gone <= 2 * |plan.references| && s == CleanedTo(old(s).(files := s.files), s.gone)
    {
      while s.gone < 2 * |plan.references|
        invariant Valid() && old(history) <= history
        invariant s.gone <= 2 * |plan.references| && s == CleanedTo(old(s).(files := s.files), s.gone)
        invariant !rivals ==> s.files == old(s).files
      {
        var _ :- Do(s.(gone := s.gone + 1));
      }
      r := Do(s.(journal := None));
    }

    /** Recovery in the forward direction, from which there is no turning back. */
    method RecoverRollForward() returns (r: Step<Verdict>)
      requires plan.Parses() && Valid() && s.gone == 0 && s.journal == Some(RollForward)
      modifies `s, `history
      ensures !mortal ==> r.Done?
      ensures Valid() && old(history) <= history && (s.journal == Some(RollForward) || s.journal.None?)
      ensures r.Done? ==> (r.value == Completed <==> s.journal.None?)
      ensures r.Crashed? ==> s.journal.Some?
      ensures !rivals && r.Done? ==> (s, r.value) == RecoverForward(plan, old(s))
      ensures !rivals && r.Crashed? && s.gone == 0 ==> s == old(s) || exists k :: IsUnderway(plan, old(s), s, k)
    {
      Rivals();
      if plan.dest !in s.files {
        return Done(Quarantined);
      }
      var identity := At(s.identities, plan.dest);
      if !plan.Owned(At(s.files, plan.dest)) {
        if identity == Some(plan.document) {
          var _ :- Do(s.(identities := s.identities - {plan.dest}));
        }
        return Done(Quarantined);
      }
      if identity != Some(plan.document) {
        return Done(Quarantined);
      }
      var all := RewriteReferences(RollForward);
      if all.Crashed? {
        if !rivals {
          ghost var k :| 0 <= k <= Reach(old(s).files, plan.references, RollForward)
              && s.files == Rewritten(old(s).files, plan.references, RollForward, k);
          assert IsUnderway(plan, old(s), s, k);
        }
        return Crashed;
      }
      if !all.value {
        return Done(Quarantined);
      }
      assert !rivals ==> IsUnderway(plan, old(s), s, |plan.references|);
      var _ :- CleanUp();
      r := Done(Completed);
    }

    /** Bring document and identity back to the old path. If that is taken,
        the transaction must finish forward. */
    method MoveBackToSource(moves: bool) returns (r: Step<Option<Verdict>>)
      requires Valid() && s.gone == 0 && s.journal == Some(RollBack)
      modifies `s, `history
      ensures !mortal ==> r.Done?
      ensures Valid() && old(history) <= history && s.gone == 0 && s.journal == Some(RollBack)
      ensures r.Done? && r.value.Some? ==> r.value.value != Cleaned && r.value.value != Quarantined
      ensures !rivals && moves == (plan.dest in old(s).files && plan.src !in old(s).files) ==>
                && (r.Done? ==> r.value.Some? && (s, r.value.value) == MoveBack(plan, old(s)))
                && (r.Crashed? ==> s == old(s) || s.files == MoveBack(plan, old(s)).0.files)
    {
      if moves {
        var moved :- MoveFileBack();
        if moved == SourceTaken {
          return Done(None);
        }
        if moved == Vanished || plan.dest !in s.identities {
          return Done(Some(Failed));
        }
        var _ :- Do(s.(identities := (s.identities - {plan.dest})[plan.src := s.identities[plan.dest]]));
      } else if At(s.identities, plan.src) != Some(plan.document)
                && At(s.identities, plan.dest) == Some(plan.document) {
        var _ :- Do(s.(identities := (s.identities - {plan.dest})[plan.src := plan.document]));
      }
      r := Done(Some(Completed));
    }

    /** Make the turn durable, then finish forward. */
    method TurnForward() returns (r: Step<Verdict>)
      requires plan.Parses() && Valid() && s.gone == 0 && s.journal == Some(RollBack)
      modifies `s, `history
      ensures !mortal ==> r.Done?
      ensures Valid() && old(history) <= history && (s.journal.None? || s.journal.value in {RollBack, RollForward})
      ensures r.Done? ==> (r.value == Completed <==> s.journal.None?)
      ensures r.Crashed? ==> s.journal.Some?
      ensures !rivals && r.Done? ==> (s, r.value) == RecoverForward(plan, old(s).(journal := Some(RollForward)))
      ensures !rivals && r.Crashed? && s.gone == 0 ==>
                s == old(s) || s == old(s).(journal := Some(RollForward))
                || exists k :: IsUnderway(plan, old(s).(journal := Some(RollForward)), s, k)
    {
      var _ :- Do(s.(journal := Some(RollForward)));
      r := RecoverRollForward();
    }

    /** Recovery in the backward direction, unless the old path was taken. */
    method RecoverRollBack() returns (r: Step<Verdict>)
      requires plan.Parses() && plan.AsWritten() && Valid() && s.gone == 0 && s.journal == Some(RollBack)
      modifies `s, `history
      ensures !mortal ==> r.Done?
      ensures Valid() && old(history) <= history && (s.journal.None? || s.journal.value in {RollBack, RollForward})
      ensures r.Done? ==> (r.value == Completed <==> s.journal.None?)
      ensures r.Crashed? ==> s.journal.Some?
      ensures !rivals && r.Done? ==> (s, r.value) == RecoverBack(plan, old(s))
      ensures !rivals && r.Crashed? && s.gone == 0 ==> Interrupted(plan, old(s), s)
    {
      var sourceThere, destinationThere := plan.src in s.files, plan.dest in s.files;
      var sourceOwned, destinationOwned := plan.Owned(At(s.files, plan.src)), plan.Owned(At(s.files, plan.dest));
      if !sourceOwned && !destinationOwned {
        return Done(Quarantined);
      }
      if destinationOwned && sourceThere {
        TurnedUnderway(plan, s);
        r := TurnForward();
        return;
      }
      if At(s.identities, plan.src) != Some(plan.document) && At(s.identities, plan.dest) != Some(plan.document) {
        return Done(Quarantined);
      }
      var all := RewriteReferences(RollBack);
      if all.Crashed? {
        if !rivals {
          ghost var k :| 0 <= k <= Reach(old(s).files, plan.references, RollBack)
              && s.files == Rewritten(old(s).files, plan.references, RollBack, k);
          assert IsUnderway(plan, old(s), s, k);
        }
        return Crashed;
      }
      if !all.value {
        return Done(Quarantined);
      }
      if !rivals {
        UnderwayKeeps(plan, old(s), |plan.references|);
        assert IsUnderway(plan, old(s), s, |plan.references|);
      }
      var back :- MoveBackToSource(destinationThere && !sourceThere);
      if back.None? {
        r := TurnForward();
        return;
      }
      if back.value == Failed {
        return Done(Failed);
      }
      var _ :- CleanUp();
      r := Done(Completed);
    }

    /** Recover the journal of a rename. A journal with a payload missing is not
        believed, whatever its phase. */
    method RecoverRenameReferencesJournal() returns (r: Step<Verdict>)
      requires plan.Parses() && plan.AsWritten() && Valid() && s.journal.Some?
      modifies `s, `history
      ensures !mortal ==> r.Done?
      ensures Valid() && old(history) <= history
      ensures old(s).journal == Some(RollForward) ==> s.journal.None? || s.journal == Some(RollForward)
      ensures r.Done? && r.value == Completed ==> s.journal.None?
      ensures old(s).gone > 0 ==> r.Done?
      ensures r.Crashed? ==> s.journal.Some?
      ensures !rivals && r.Done? ==> (s, r.value) == Recover(plan, old(s))
      ensures !rivals && r.Crashed? && s.gone == 0 && old(s).journal.value in {RollBack, RollForward} ==>
                Interrupted(plan, old(s), s)
    {
      if s.gone > 0 {
        return Done(Quarantined);
      }
      match s.journal.value {
        case Preparing =>
          var _ :- CleanUp();
          return Done(Cleaned);
        case Cleanup =>
          var _ :- CleanUp();
          return Done(Cleaned);
        case RollForward =>
          r := RecoverRollForward();
        case RollBack =>
          r := RecoverRollBack();
      }
    }
  }

  /** Where recovery can be found dead while its payloads are whole: before or
      among the references, or after all of them with the document perhaps
      back at its old path. */
  ghost predicate Interrupted(plan: Plan, s: State, u: State) {
    || u == s || u == Turned(plan, s)
    || (exists k :: IsUnderway(plan, s, u, k))
    || (!Forward(plan, s) && Rewrites(plan, s) && Reach(s.files, plan.references, RollBack) == |plan.references|
        && u.files == MoveBack(plan, Underway(plan, s, |plan.references|)).0.files)
  }

  /** `u` is `s` with the first `k` references rewritten, and recovery gets
      that far. */
  ghost predicate IsUnderway(plan: Plan, s: State, u: State, k: int) {
    && Rewrites(plan, s)
    && 0 <= k <= Reach(s.files, plan.references, Turned(plan, s).journal.value)
    && u == Underway(plan, s, k)
  }

  /** The next reference is as it was, and can be rewritten exactly if rewriting
      gets further. */
  lemma OneRewriteMore(plan: Plan, files0: map<Path, Text>, phase: Phase, i: nat)
    requires plan.Parses() && i < |plan.references| && i <= Reach(files0, plan.references, phase)
    ensures var r, files := plan.references[i], Rewritten(files0, plan.references, phase, i);
            && (At(files, r.path) in {Some(r.before), Some(r.after)} <==> i < Reach(files0, plan.references, phase))
            && Rewritten(files0, plan.references, phase, i + 1) == files[r.path := Desired(r, phase)]
  {
    ReachMeans(files0, plan.references, phase);
    RewrittenAt(files0, plan.references, phase, i, plan.references[i].path);
    hide Reach;
  }

  lemma TurnedUnderway(plan: Plan, s: State)
    requires Forward(plan, s)
    ensures forall u, k | IsUnderway(plan, s.(journal := Some(RollForward)), u, k) && s.journal == Some(RollBack) ::
              IsUnderway(plan, s, u, k)
  {
  }

  lemma AlreadyDesired(files: map<Path, Text>, r: Reference, phase: Phase)
    requires At(files, r.path) == Some(Desired(r, phase))
    ensures files[r.path := Desired(r, phase)] == files
  {
  }

  /** Startups that die leave a journal that would be left alone so. */
  lemma InterruptedQuarantine(plan: Plan, s: State, u: State)
    requires plan.Parses() && plan.AsWritten() && Recover(plan, s).1 == Quarantined
    requires u.gone == 0 ==> Interrupted(plan, s, u)
    requires u.journal.Some?
    ensures Recover(plan, u).1 == Quarantined
  {
    if u.gone == 0 {
      if k: nat :| IsUnderway(plan, s, u, k) {
        RerunIsSame(plan, s, k);
      } else if u != s && u != Turned(plan, s) {
        assert false;
      }
    }
    hide Reach, Rewritten, Underway;
  }

  lemma StaysQuarantined(plan: Plan, s: State, u: State, r: Step<Verdict>)
    requires plan.Parses() && plan.AsWritten() && Recover(plan, s).1 == Quarantined
    requires r.Done? ==> (u, r.value) == Recover(plan, s)
    requires r.Crashed? ==> u.journal.Some? && s.gone == 0
    requires r.Crashed? && u.gone == 0 && s.journal.Some? && s.journal.value in {RollBack, RollForward} ==>
               Interrupted(plan, s, u)
    ensures Recover(plan, u).1 == Quarantined && u.journal.Some?
  {
    if r.Done? {
      QuarantinedAgain(plan, s);
      RecoverCompletesIffAt(plan, s);
    } else {
      assert s.journal.Some? && s.journal.value in {RollBack, RollForward};
      InterruptedQuarantine(plan, s, u);
    }
  }

  /** Recovered from `last`, the reference is in the version of the direction,
      wherever its document is now. */
  predicate Settled(plan: Plan, last: State, s: State, i: nat)
    requires i < |plan.references|
  {
    var r := plan.references[i];
    var back := if r.path == plan.dest && plan.src !in last.files then plan.src else r.path;
    if Forward(plan, last) then At(s.files, r.path) == Some(r.after) else At(s.files, back) == Some(r.before)
  }

  /** Startups that may die anywhere. With nobody else at work, the first one
      that completes leaves every reference in its direction's version, and none
      completes once an undisturbed one would leave the journal alone. */
  method Restart(v: Vault, startups: nat) returns (done: bool, ghost last: State)
    requires v.plan.Parses() && v.plan.AsWritten() && v.Valid() && v.s.journal.Some?
    modifies v
    ensures v.Valid() && old(v.history) <= v.history
    ensures !v.rivals && Recover(v.plan, old(v.s)).1 == Quarantined ==>
              Recover(v.plan, v.s).1 == Quarantined && v.s.journal.Some?
    ensures !v.mortal && !v.rivals && startups > 0 && Recover(v.plan, old(v.s)).1 == Completed ==> done
    ensures done && !v.rivals ==> Recover(v.plan, last) == (v.s, Completed)
    ensures done && !v.rivals ==> forall i: nat | i < |v.plan.references| :: Settled(v.plan, last, v.s, i)
  {
    done, last := false, v.s;
    for n := 0 to startups
      invariant v.Valid() && old(v.history) <= v.history && v.s.journal.Some?
      invariant !v.rivals && Recover(v.plan, old(v.s)).1 == Quarantined ==> Recover(v.plan, v.s).1 == Quarantined
      invariant !v.mortal && !v.rivals && Recover(v.plan, old(v.s)).1 == Completed ==> n == 0 && v.s == old(v.s)
    {
      last := v.s;
      var r := v.RecoverRenameReferencesJournal();
      if !v.rivals && Recover(v.plan, last).1 == Quarantined {
        StaysQuarantined(v.plan, last, v.s, r);
      }
      if r == Done(Completed) {
        if !v.rivals {
          forall i: nat | i < |v.plan.references|
            ensures Settled(v.plan, last, v.s, i)
          {
            CompletedMeansDesired(v.plan, last, i);
          }
        }
        return true, last;
      }
      if v.s.journal.None? {
        return false, last;
      }
    }
  }

  // Runs without outside programs that end in a death and a stranded journal.

  function Uncleaned(s: State, k: nat): seq<Entry> {
    seq(k + 1, i requires 0 <= i => Entry(Ours, CleanedTo(s, i)))
  }

  /** Dying in cleanup with some payload gone: no startup removes the journal. */
  lemma CleanupDeathStrands(plan: Plan, s: State, k: nat, n: nat)
    requires s.gone == 0 && s.journal.Some? && 0 < k <= 2 * |plan.references|
    ensures Uncleaned(s, k)[0].s == s && Run(plan, false, Uncleaned(s, k))
    ensures var dead := Uncleaned(s, k)[k].s;
            && dead.journal == s.journal && Recover(plan, dead).1 == Quarantined
            && Startups(plan, dead, n) == dead
  {
    DeathInCleanupStrands(plan, s, k, n);
    hide Startups;
  }

  /** Dying after the document has moved back: the rollback would have completed,
      and no startup removes the journal. */
  lemma MoveBackDeathStrands(n: nat)
    ensures var plan, s := SelfReferring(), State(map["b" := "y"], map["b" := "i"], 0, Some(RollBack));
            var h := [s, s.(files := map["b" := "x"]), s.(files := map["a" := "x"]),
                      s.(files := map["a" := "x"], identities := map["a" := "i"])];
            && Recover(plan, s).1 == Completed
            && Run(plan, false, seq(|h|, i requires 0 <= i < |h| => Entry(Ours, h[i])))
            && Recover(plan, h[3]).1 == Quarantined && Startups(plan, h[3], n).journal.Some?
  {
    var plan, s := SelfReferring(), State(map["b" := "y"], map["b" := "i"], 0, Some(RollBack));
    var h := [s, s.(files := map["b" := "x"]), s.(files := map["a" := "x"]),
              s.(files := map["a" := "x"], identities := map["a" := "i"])];
    DeathAfterMoveBackStrands(n);
    assert MoveBack(plan, Underway(plan, s, 1)).0 == h[3];
    hide Startups, Recover, Underway, MoveBack;
    assert At(h[0].files, plan.references[0].path) == Some(Expected(plan.references[0], RollBack));
    assert RewriteStep(plan, h[0], h[1]) && MoveStep(plan, h[1], h[2]) && OwnStep(plan, h[2], h[3]);
    hide RewriteStep, MoveStep, OwnStep;
  }
}
