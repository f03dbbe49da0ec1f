/** Startup recovery of a document rename that also rewrites the documents
    referring to it: in one direction, all or nothing short of outside edits. */
module RenameReferences {
  import opened Wrappers
  import opened Documents

  type Path = string

  type Text = string

  /** One referring document, with its text before and after the rename. */
  datatype Reference = Reference(path: Path, before: Text, after: Text)

  /** What the journal fixes. Hashes are taken to be injective, so texts stand
      for them. */
  datatype Plan = Plan(src: Path, dest: Path, document: DocId, source: Text, references: seq<Reference>)
  {
    /** A journal that parses: distinct paths, and every reference changes. */
    ghost predicate Parses() {
      && src != dest && references != []
      && (forall i, j | 0 <= i < j < |references| :: references[i].path != references[j].path)
      && forall i | 0 <= i < |references| :: references[i].before != references[i].after
    }

    /** As the route writes it: the renamed document refers to itself under its
        new path, with the text it was moved with, and never under its old one. */
    ghost predicate AsWritten() {
      forall i | 0 <= i < |references| ::
        references[i].path != src && (references[i].path == dest ==> references[i].before == source)
    }

    /** The renamed document is among the referring ones. */
    predicate RefersToItself() {
      exists i | 0 <= i < |references| :: references[i].path == dest
    }

    /** The text is the moved document's, rewritten or not. */
    predicate Owned(text: Option<Text>) {
      text == Some(source)
      || exists i | 0 <= i < |references| :: references[i].path == dest && text == Some(references[i].after)
    }
  }

  datatype Phase = Preparing | RollBack | RollForward | Cleanup

  /** `gone` counts the payloads cleanup has removed; identities are the
      document ids by path. */
  datatype State = State(files: map<Path, Text>, identities: map<Path, DocId>, gone: nat, journal: Option<Phase>)

  datatype Verdict = Cleaned | Completed | Quarantined | Failed

  function At<T>(m: map<Path, T>, p: Path): Option<T> {
    if p in m then Some(m[p]) else None
  }

  function Desired(r: Reference, phase: Phase): Text {
    if phase == RollForward then r.after else r.before
  }

  function Expected(r: Reference, phase: Phase): Text {
    if phase == RollForward then r.before else r.after
  }

  /** How far the references can be rewritten. */
  function Reach(files: map<Path, Text>, references: seq<Reference>, phase: Phase): (n: nat)
    ensures n <= |references|
  {
    if references == [] then 0
    else
      var r := references[0];
      if At(files, r.path) == Some(Desired(r, phase)) || At(files, r.path) == Some(Expected(r, phase))
      then 1 + Reach(files, references[1..], phase)
      else 0
  }

  /** The first `n` references rewritten. */
  function Rewritten(files: map<Path, Text>, references: seq<Reference>, phase: Phase, n: nat): map<Path, Text>
    requires n <= |references|
  {
    if n == 0 then files
    else Rewritten(files, references, phase, n - 1)[references[n - 1].path := Desired(references[n - 1], phase)]
  }

  function RecoverForward(plan: Plan, s: State): (State, Verdict) {
    if plan.dest !in s.files then (s, Quarantined)
    else if !plan.Owned(At(s.files, plan.dest)) then
      (if At(s.identities, plan.dest) == Some(plan.document) then s.(identities := s.identities - {plan.dest})
       else s, Quarantined)
    else if At(s.identities, plan.dest) != Some(plan.document) then (s, Quarantined)
    else
      var n := Reach(s.files, plan.references, RollForward);
      var done := s.(files := Rewritten(s.files, plan.references, RollForward, n));
      if n < |plan.references| then (done, Quarantined)
      else (done.(gone := 2 * |plan.references|, journal := None), Completed)
  }

  /** The moved file and its identity go back to the source path. */
  function MoveBack(plan: Plan, s: State): (State, Verdict) {
    if plan.dest in s.files && plan.src !in s.files then
      var moved := s.(files := (s.files - {plan.dest})[plan.src := s.files[plan.dest]]);
      if plan.dest !in s.identities then (moved, Failed)
      else (moved.(identities := (s.identities - {plan.dest})[plan.src := s.identities[plan.dest]]), Completed)
    else if At(s.identities, plan.src) != Some(plan.document) && At(s.identities, plan.dest) == Some(plan.document) then
      (s.(identities := (s.identities - {plan.dest})[plan.src := plan.document]), Completed)
    else (s, Completed)
  }

  function RecoverBack(plan: Plan, s: State): (State, Verdict) {
    var sourceOwned, destinationOwned := plan.Owned(At(s.files, plan.src)), plan.Owned(At(s.files, plan.dest));
    if !sourceOwned && !destinationOwned then (s, Quarantined)
    else if destinationOwned && plan.src in s.files then RecoverForward(plan, s.(journal := Some(RollForward)))
    else if At(s.identities, plan.src) != Some(plan.document) && At(s.identities, plan.dest) != Some(plan.document)
        then (s, Quarantined)
    else
      var n := Reach(s.files, plan.references, RollBack);
      var done := s.(files := Rewritten(s.files, plan.references, RollBack, n));
      if n < |plan.references| then (done, Quarantined)
      else
        var (back, verdict) := MoveBack(plan, done);
        if verdict == Failed then (back, Failed)
        else (back.(gone := 2 * |plan.references|, journal := None), Completed)
  }

  /** What an undisturbed recovery does. Once a payload is gone the journal is
      no longer believed. */
  function Recover(plan: Plan, s: State): (State, Verdict) {
    if s.journal.None? then (s, Cleaned)
    else if s.gone > 0 then (s, Quarantined)
    else
      match s.journal.value
      case Preparing | Cleanup => (s.(gone := 2 * |plan.references|, journal := None), Cleaned)
      case RollForward => RecoverForward(plan, s)
      case RollBack => RecoverBack(plan, s)
  }

  // What a completed recovery means, and what a rerun of a died one does.

  lemma {:induction false} RewrittenAt(files: map<Path, Text>, references: seq<Reference>, phase: Phase, n: nat,
                                       p: Path)
    requires n <= |references| && forall i, j | 0 <= i < j < |references| :: references[i].path != references[j].path
    ensures forall i | 0 <= i < n ::
              At(Rewritten(files, references, phase, n), references[i].path) == Some(Desired(references[i], phase))
    ensures (forall i | 0 <= i < n :: references[i].path != p) ==>
              At(Rewritten(files, references, phase, n), p) == At(files, p)
  {
    if n > 0 {
      RewrittenAt(files, references, phase, n - 1, p);
    }
  }

  /** The references hold the texts that rewriting starts from or ends in. */
  lemma {:induction false} ReachMeans(files: map<Path, Text>, references: seq<Reference>, phase: Phase)
    ensures var n := Reach(files, references, phase);
            && (forall i | 0 <= i < n ::
                  At(files, references[i].path) in {Some(references[i].before), Some(references[i].after)})
            && (n < |references| ==>
                  At(files, references[n].path) !in {Some(references[n].before), Some(references[n].after)})
  {
    if references != [] && Reach(files, references, phase) > 0 {
      ReachMeans(files, references[1..], phase);
      assert forall i | 1 <= i < |references| :: references[i] == references[1..][i - 1];
    }
  }

  /** `n` is how far the references can be rewritten. */
  lemma {:induction false} ReachIs(files: map<Path, Text>, references: seq<Reference>, phase: Phase, n: nat)
    requires n <= |references|
    requires forall i | 0 <= i < n ::
               At(files, references[i].path) in {Some(references[i].before), Some(references[i].after)}
    requires n < |references| ==>
               At(files, references[n].path) !in {Some(references[n].before), Some(references[n].after)}
    ensures Reach(files, references, phase) == n
  {
    if n > 0 {
      ReachIs(files, references[1..], phase, n - 1);
    }
  }

  /** Recovery turns to roll-forward, or is there already. */
  predicate Forward(plan: Plan, s: State) {
    s.journal == Some(RollForward) || (plan.Owned(At(s.files, plan.dest)) && plan.src in s.files)
  }

  /** A completed recovery leaves every reference in the version of its
      direction, the one inside the document itself wherever that is now. */
  lemma CompletedMeansDesired(plan: Plan, s: State, i: nat)
    requires plan.Parses() && plan.AsWritten() && i < |plan.references|
    requires Recover(plan, s).1 == Completed
    ensures var (s', r) := (Recover(plan, s).0, plan.references[i]);
            && s'.journal.None?
            && (Forward(plan, s) ==>
                  At(s'.files, r.path) == Some(r.after) && At(s'.identities, plan.dest) == Some(plan.document))
            && (!Forward(plan, s) ==>
                  At(s'.files, if r.path == plan.dest && plan.src !in s.files then plan.src else r.path)
                  == Some(r.before))
  {
    var n := |plan.references|;
    if Forward(plan, s) {
      RewrittenAt(s.files, plan.references, RollForward, n, plan.dest);
    } else {
      BackMeansBefore(plan, s, i);
    }
  }

  /** The rollback has the document's file to move. */
  predicate Moves(plan: Plan, s: State) {
    plan.dest in s.files && plan.src !in s.files
  }

  /** A completed rollback leaves the document at its old path and the new one
      free, unless the old path was taken already. */
  lemma CompletedBackPlaces(plan: Plan, s: State)
    requires plan.Parses() && plan.AsWritten() && !Forward(plan, s) && Recover(plan, s).1 == Completed
    ensures var s' := Recover(plan, s).0;
            && plan.src in s'.files && plan.Owned(At(s'.files, plan.src))
            && if Moves(plan, s) then At(s'.files, plan.src) == Some(plan.source) && plan.dest !in s'.files
               else At(s'.files, plan.src) == At(s.files, plan.src)
  {
    BackFiles(plan, s);
    BackCompletesIff(plan, s);
    RewrittenAt(s.files, plan.references, RollBack, |plan.references|, plan.src);
    RewrittenAt(s.files, plan.references, RollBack, |plan.references|, plan.dest);
    hide Reach, Rewritten, Unedited, Recover;
  }

  /** Its identity goes back with it: it ends at the old path exactly unless the
      move finds another document's identity at the new one, and nobody else's
      identity changes. */
  lemma CompletedBackIdentifies(plan: Plan, s: State)
    requires plan.Parses() && plan.AsWritten() && !Forward(plan, s) && Recover(plan, s).1 == Completed
    ensures var s' := Recover(plan, s).0;
            && (At(s'.identities, plan.src) == Some(plan.document) <==>
                  !Moves(plan, s) || At(s.identities, plan.dest) == Some(plan.document))
            && (Moves(plan, s) || At(s.identities, plan.src) != Some(plan.document) ==>
                  plan.dest !in s'.identities && At(s'.identities, plan.src) == At(s.identities, plan.dest))
            && (!Moves(plan, s) && At(s.identities, plan.src) == Some(plan.document) ==> s'.identities == s.identities)
            && forall p | p != plan.src && p != plan.dest :: At(s'.identities, p) == At(s.identities, p)
  {
    BackFiles(plan, s);
    BackCompletesIff(plan, s);
    hide Reach, Rewritten, Unedited;
  }

  /** Whatever recovery comes to, it changes no document but the referring ones
      and the renamed one. */
  lemma OthersStay(plan: Plan, s: State, p: Path)
    requires plan.Parses() && p != plan.src && p != plan.dest
    requires forall i | 0 <= i < |plan.references| :: plan.references[i].path != p
    ensures At(Recover(plan, s).0.files, p) == At(s.files, p)
  {
    OthersStayForward(plan, s, p);
    OthersStayForward(plan, s.(journal := Some(RollForward)), p);
    RewrittenAt(s.files, plan.references, RollBack, Reach(s.files, plan.references, RollBack), p);
    hide Reach, Rewritten, RecoverForward;
  }

  lemma OthersStayForward(plan: Plan, s: State, p: Path)
    requires plan.Parses() && forall i | 0 <= i < |plan.references| :: plan.references[i].path != p
    ensures At(RecoverForward(plan, s).0.files, p) == At(s.files, p)
  {
    RewrittenAt(s.files, plan.references, RollForward, Reach(s.files, plan.references, RollForward), p);
    hide Reach, Rewritten;
  }

  /** Forward, recovery only detaches an identity whose document is not the
      moved one any more. */
  lemma ForwardIdentities(plan: Plan, s: State)
    requires s.gone == 0 && s.journal.Some? && s.journal.value in {RollBack, RollForward} && Forward(plan, s)
    ensures Recover(plan, s).0.identities
            == if plan.dest in s.files && !plan.Owned(At(s.files, plan.dest))
                  && At(s.identities, plan.dest) == Some(plan.document)
               then s.identities - {plan.dest} else s.identities
  {
    hide Reach, Rewritten;
  }

  /** A rename that was not decided yet, or was through, is only cleaned up. */
  lemma UndecidedStays(plan: Plan, s: State)
    requires s.journal.None? || s.journal.value in {Preparing, Cleanup} || s.gone > 0
    ensures var s' := Recover(plan, s).0; s'.files == s.files && s'.identities == s.identities
  {
  }

  /** A journal goes with all its payloads. */
  lemma PayloadsGoToo(plan: Plan, s: State)
    requires s.journal.Some? && Recover(plan, s).1 in {Completed, Cleaned}
    ensures Recover(plan, s).0.journal.None? && Recover(plan, s).0.gone == 2 * |plan.references|
  {
    hide Reach, Rewritten;
  }

  lemma BackFiles(plan: Plan, s: State)
    requires !Forward(plan, s) && Recover(plan, s).1 == Completed
    ensures Reach(s.files, plan.references, RollBack) == |plan.references|
    ensures var done := Rewritten(s.files, plan.references, RollBack, |plan.references|);
            && Recover(plan, s).0.journal.None?
            && Recover(plan, s).0.files
                 == if plan.dest in done && plan.src !in done then (done - {plan.dest})[plan.src := done[plan.dest]]
                     else done
  {
    hide Rewritten, Reach;
  }

  lemma BackMeansBefore(plan: Plan, s: State, i: nat)
    requires plan.Parses() && plan.AsWritten() && i < |plan.references|
    requires !Forward(plan, s) && Recover(plan, s).1 == Completed
    ensures var (s', r) := (Recover(plan, s).0, plan.references[i]);
            && s'.journal.None?
            && At(s'.files, if r.path == plan.dest && plan.src !in s.files then plan.src else r.path) == Some(r.before)
  {
    BackFiles(plan, s);
    RewrittenAt(s.files, plan.references, RollBack, |plan.references|, plan.src);
    RewrittenAt(s.files, plan.references, RollBack, |plan.references|, plan.dest);
    ReachMeans(s.files, plan.references, RollBack);
    hide Recover, Reach, Rewritten, Forward;
  }

  lemma {:induction false} RewrittenAgain(files: map<Path, Text>, references: seq<Reference>, phase: Phase, k: nat,
                                          n: nat)
    requires k <= n <= |references|
             && forall i, j | 0 <= i < j < |references| :: references[i].path != references[j].path
    ensures Rewritten(Rewritten(files, references, phase, k), references, phase, n)
            == Rewritten(files, references, phase, n)
    decreases n, 1
  {
    if n > 0 {
      if k < n {
        RewrittenAgain(files, references, phase, k, n - 1);
      } else {
        RewritesOnce(files, references, phase, n);
      }
    }
  }

  lemma {:induction false} RewritesOnce(files: map<Path, Text>, references: seq<Reference>, phase: Phase, n: nat)
    requires 0 < n <= |references|
             && forall i, j | 0 <= i < j < |references| :: references[i].path != references[j].path
    ensures Rewritten(Rewritten(files, references, phase, n), references, phase, n)
            == Rewritten(files, references, phase, n)
    decreases n, 0
  {
    var last, before := references[n - 1], Rewritten(files, references, phase, n - 1);
    RewrittenAgain(files, references, phase, n - 1, n - 1);
    SetsCommute(before, references, phase, n - 1, last.path, Desired(last, phase));
  }

  lemma {:induction false} SetsCommute(files: map<Path, Text>, references: seq<Reference>, phase: Phase, n: nat,
                                       p: Path, text: Text)
    requires n <= |references| && forall i | 0 <= i < n :: references[i].path != p
    ensures Rewritten(files[p := text], references, phase, n) == Rewritten(files, references, phase, n)[p := text]
  {
    if n > 0 {
      SetsCommute(files, references, phase, n - 1, p, text);
    }
  }

  function Turned(plan: Plan, s: State): State {
    if Forward(plan, s) then s.(journal := Some(RollForward)) else s
  }

  /** Recovery gets as far as rewriting references. */
  predicate Rewrites(plan: Plan, s: State) {
    && s.gone == 0 && (s.journal == Some(RollBack) || s.journal == Some(RollForward))
    && if Forward(plan, s) then
         plan.Owned(At(s.files, plan.dest)) && plan.dest in s.files
         && At(s.identities, plan.dest) == Some(plan.document)
       else
         && (plan.Owned(At(s.files, plan.src)) || plan.Owned(At(s.files, plan.dest)))
         && (At(s.identities, plan.src) == Some(plan.document) || At(s.identities, plan.dest) == Some(plan.document))
  }

  /** The state after `k` rewritten references. */
  function Underway(plan: Plan, s: State, k: nat): State
    requires k <= |plan.references|
  {
    var t := Turned(plan, s);
    if t.journal.Some? then t.(files := Rewritten(t.files, plan.references, t.journal.value, k)) else t
  }

  lemma UnderwayKeeps(plan: Plan, s: State, k: nat)
    requires plan.Parses() && plan.AsWritten() && Rewrites(plan, s)
    requires k <= Reach(s.files, plan.references, Turned(plan, s).journal.value)
    ensures var u := Underway(plan, s, k);
            && At(u.files, plan.src) == At(s.files, plan.src)
            && (plan.dest in u.files <==> plan.dest in s.files)
            && (plan.Owned(At(u.files, plan.dest)) <==> plan.Owned(At(s.files, plan.dest)))
  {
    var phase := Turned(plan, s).journal.value;
    RewrittenAt(s.files, plan.references, phase, k, plan.src);
    RewrittenAt(s.files, plan.references, phase, k, plan.dest);
    ReachMeans(s.files, plan.references, phase);
    if i :| 0 <= i < k && plan.references[i].path == plan.dest {
      assert At(Underway(plan, s, k).files, plan.references[i].path) == Some(Desired(plan.references[i], phase));
    }
  }

  /** Died among the references and run again, recovery comes to the same end. */
  lemma RerunIsSame(plan: Plan, s: State, k: nat)
    requires plan.Parses() && plan.AsWritten() && Rewrites(plan, s)
    requires k <= Reach(s.files, plan.references, Turned(plan, s).journal.value)
    ensures Recover(plan, Underway(plan, s, k)) == Recover(plan, s)
  {
    var phase, u := Turned(plan, s).journal.value, Underway(plan, s, k);
    UnderwayKeeps(plan, s, k);
    var n := Reach(s.files, plan.references, phase);
    RewrittenAgain(s.files, plan.references, phase, k, n);
    ReachMeans(s.files, plan.references, phase);
    forall i | 0 <= i < |plan.references|
      ensures At(u.files, plan.references[i].path)
              == if i < k then Some(Desired(plan.references[i], phase)) else At(s.files, plan.references[i].path)
    {
      RewrittenAt(s.files, plan.references, phase, k, plan.references[i].path);
    }
    ReachIs(u.files, plan.references, phase, n);
    hide Reach, Rewritten;
  }

  /** The document is back under its old name, but its journal is still there:
      rolling back completes then exactly if nothing refers to the document
      from inside it and the other references are still as they were. */
  lemma BackAgainIff(plan: Plan, s: State)
    requires plan.Parses() && plan.AsWritten() && s.gone == 0 && s.journal == Some(RollBack)
    requires plan.dest !in s.files && plan.Owned(At(s.files, plan.src))
    requires At(s.identities, plan.src) == Some(plan.document) || At(s.identities, plan.dest) == Some(plan.document)
    ensures Recover(plan, s).1 == Completed <==>
              forall i | 0 <= i < |plan.references| ::
                plan.references[i].path != plan.dest
                && At(s.files, plan.references[i].path) in {Some(plan.references[i].before),
                                                            Some(plan.references[i].after)}
  {
    var n := Reach(s.files, plan.references, RollBack);
    ReachMeans(s.files, plan.references, RollBack);
    if Recover(plan, s).1 == Completed {
      forall i | 0 <= i < |plan.references|
        ensures plan.references[i].path != plan.dest
      {
        assert At(s.files, plan.references[i].path) != None;
      }
    } else {
      RewrittenAt(s.files, plan.references, RollBack, n, plan.dest);
    }
  }

  // When a startup removes the journal, and when none ever does.

  /** Every reference holds one of its two versions. */
  predicate Unedited(plan: Plan, files: map<Path, Text>) {
    forall i | 0 <= i < |plan.references| ::
      At(files, plan.references[i].path) in {Some(plan.references[i].before), Some(plan.references[i].after)}
  }

  predicate ForwardCompletes(plan: Plan, s: State) {
    plan.Owned(At(s.files, plan.dest)) && At(s.identities, plan.dest) == Some(plan.document) && Unedited(plan, s.files)
  }

  /** The payloads are whole and, unless there is nothing to do, document and
      identity are where the direction can use them, with no reference edited. */
  predicate Completable(plan: Plan, s: State) {
    && s.gone == 0
    && match s.journal
       case None => true
       case Some(Preparing) => true
       case Some(Cleanup) => true
       case Some(RollForward) => ForwardCompletes(plan, s)
       case Some(RollBack) =>
         if plan.Owned(At(s.files, plan.dest)) && plan.src in s.files then ForwardCompletes(plan, s)
         else
           && (plan.Owned(At(s.files, plan.src)) || plan.Owned(At(s.files, plan.dest)))
           && (At(s.identities, plan.src) == Some(plan.document) || At(s.identities, plan.dest) == Some(plan.document))
           && Unedited(plan, s.files)
           && (plan.dest in s.files && plan.src !in s.files ==> plan.dest in s.identities)
  }

  lemma ReachAllIff(plan: Plan, files: map<Path, Text>, phase: Phase)
    ensures Reach(files, plan.references, phase) == |plan.references| <==> Unedited(plan, files)
  {
    ReachMeans(files, plan.references, phase);
    hide Reach;
  }

  /** An undisturbed startup removes the journal exactly in these states. */
  lemma RecoverCompletesIff(plan: Plan, s: State)
    requires plan.Parses() && plan.AsWritten() && s.journal.Some?
    ensures Recover(plan, s).0.journal.None? <==> Completable(plan, s)
    ensures Recover(plan, s).0.journal.None? <==> Recover(plan, s).1 in {Completed, Cleaned}
  {
    if s.journal == Some(RollForward) {
      ForwardCompletesIff(plan, s);
    } else {
      ForwardCompletesIff(plan, s.(journal := Some(RollForward)));
      BackCompletesIff(plan, s);
    }
    hide RecoverForward, Unedited;
  }

  lemma ForwardCompletesIff(plan: Plan, s: State)
    requires s.journal == Some(RollForward)
    ensures RecoverForward(plan, s).0.journal.None? <==> ForwardCompletes(plan, s)
    ensures RecoverForward(plan, s).1 == if ForwardCompletes(plan, s) then Completed else Quarantined
  {
    ReachAllIff(plan, s.files, RollForward);
    hide Reach, Rewritten, Unedited;
  }

  /** What rolling back needs of the files to do its move. */
  lemma BackCompletesIff(plan: Plan, s: State)
    requires plan.Parses() && plan.AsWritten()
    ensures Reach(s.files, plan.references, RollBack) == |plan.references| <==> Unedited(plan, s.files)
    ensures Unedited(plan, s.files) ==>
              var done := Rewritten(s.files, plan.references, RollBack, |plan.references|);
              (plan.src in done <==> plan.src in s.files) && (plan.dest in done <==> plan.dest in s.files)
  {
    ReachAllIff(plan, s.files, RollBack);
    if Unedited(plan, s.files) {
      RewrittenHas(plan, s.files, RollBack, |plan.references|, plan.src);
      RewrittenHas(plan, s.files, RollBack, |plan.references|, plan.dest);
    }
    hide Reach, Rewritten, Unedited;
  }

  /** Rewriting references that are all there adds and removes no file. */
  lemma RewrittenHas(plan: Plan, files: map<Path, Text>, phase: Phase, n: nat, p: Path)
    requires plan.Parses() && n <= |plan.references| && Unedited(plan, files)
    ensures p in Rewritten(files, plan.references, phase, n) <==> p in files
  {
    RewrittenAt(files, plan.references, phase, n, p);
    if i :| 0 <= i < n && plan.references[i].path == p {
      assert At(files, plan.references[i].path) != None;
      assert At(Rewritten(files, plan.references, phase, n), plan.references[i].path) != None;
    }
    hide Rewritten;
  }

  /** `n` undisturbed startups. */
  function Startups(plan: Plan, s: State, n: nat): State {
    if n == 0 then s else Recover(plan, Startups(plan, s, n - 1)).0
  }

  /** Left alone once, the journal is left alone by the next startup too. */
  lemma QuarantinedAgain(plan: Plan, s: State)
    requires plan.Parses() && plan.AsWritten() && Recover(plan, s).1 == Quarantined
    ensures Recover(plan, Recover(plan, s).0).1 == Quarantined
  {
    if s.gone == 0 && Rewrites(plan, s) {
      var n := Reach(s.files, plan.references, Turned(plan, s).journal.value);
      assert Recover(plan, s).0 == Underway(plan, s, n);
      RerunIsSame(plan, s, n);
    }
    hide Reach, Rewritten, Underway;
  }

  lemma {:induction false} QuarantinedForGood(plan: Plan, s: State, n: nat)
    requires plan.Parses() && plan.AsWritten() && n > 0 && Recover(plan, s).1 == Quarantined
    ensures Recover(plan, Startups(plan, s, n)).1 == Quarantined && Startups(plan, s, n).journal.Some?
    ensures Recover(plan, Startups(plan, s, n - 1)).1 == Quarantined
  {
    if n > 1 {
      QuarantinedForGood(plan, s, n - 1);
    }
    RecoverCompletesIffAt(plan, Startups(plan, s, n - 1));
    QuarantinedAgain(plan, Startups(plan, s, n - 1));
    hide Recover;
  }

  lemma RecoverCompletesIffAt(plan: Plan, s: State)
    requires plan.Parses() && plan.AsWritten() && Recover(plan, s).1 == Quarantined
    ensures Recover(plan, s).0.journal.Some?
  {
    RecoverCompletesIff(plan, s);
    hide Completable;
  }

  /** Document and identity are apart: the move back finds no identity to take
      along, and fails once. */
  predicate Apart(plan: Plan, s: State) {
    && s.gone == 0 && s.journal == Some(RollBack)
    && plan.dest in s.files && plan.src !in s.files && plan.Owned(At(s.files, plan.dest))
    && At(s.identities, plan.src) == Some(plan.document) && plan.dest !in s.identities
    && Unedited(plan, s.files)
  }

  lemma FailsIff(plan: Plan, s: State)
    requires plan.Parses() && plan.AsWritten()
    ensures Recover(plan, s).1 == Failed <==> Apart(plan, s)
  {
    BackCompletesIff(plan, s);
    hide Reach, Rewritten, Unedited;
  }

  /** After such a failure the next startup completes, unless the document
      refers to itself. */
  lemma ApartThenCompletesIff(plan: Plan, s: State)
    requires plan.Parses() && plan.AsWritten() && Apart(plan, s)
    ensures var r := Recover(plan, Recover(plan, s).0).1;
            r == if plan.RefersToItself() then Quarantined else Completed
  {
    var n, s' := |plan.references|, Recover(plan, s).0;
    ReachAllIff(plan, s.files, RollBack);
    UnderwayKeeps(plan, s, n);
    var done := Rewritten(s.files, plan.references, RollBack, n);
    assert s' == s.(files := (done - {plan.dest})[plan.src := done[plan.dest]]);
    forall i | 0 <= i < n && plan.references[i].path != plan.dest
      ensures At(s'.files, plan.references[i].path) == Some(plan.references[i].before)
    {
      RewrittenAt(s.files, plan.references, RollBack, n, plan.dest);
      assert plan.references[i].path != plan.src;
    }
    BackAgainIff(plan, s');
    FailsIff(plan, s');
    assert !Apart(plan, s');
    hide Reach, Rewritten, Underway, Unedited, MoveBack;
  }

  /** Over startups that do not die, the journal goes exactly if the first removes
      it, or if it only failed to find the identity and the document does not refer
      to itself. */
  lemma EverCompletesIff(plan: Plan, s: State, n: nat)
    requires plan.Parses() && plan.AsWritten() && s.journal.Some? && n >= 2
    ensures Startups(plan, s, n).journal.None? <==>
              || Completable(plan, s)
              || (Apart(plan, s) && !plan.RefersToItself())
  {
    RecoverCompletesIff(plan, s);
    FailsIff(plan, s);
    match Recover(plan, s).1 {
      case Quarantined =>
        QuarantinedForGood(plan, s, n);
      case Failed =>
        FailedThenDecides(plan, s, n);
      case _ =>
        StartupsFrom(plan, s, n - 1);
        NothingLeft(plan, Recover(plan, s).0, n - 1);
    }
    hide Recover, Completable, Apart;
  }

  lemma FailedThenDecides(plan: Plan, s: State, n: nat)
    requires plan.Parses() && plan.AsWritten() && s.journal.Some? && n >= 2 && Recover(plan, s).1 == Failed
    ensures Startups(plan, s, n).journal.None? <==> !plan.RefersToItself()
  {
    hide Recover, Completable, Apart, Startups;
    var first := Recover(plan, s).0;
    FailsIff(plan, s);
    ApartThenCompletesIff(plan, s);
    RecoverCompletesIff(plan, s);
    RecoverCompletesIff(plan, first);
    StartupsFrom(plan, s, n - 1);
    if plan.RefersToItself() {
      QuarantinedForGood(plan, first, n - 1);
    } else {
      StartupsFrom(plan, first, n - 2);
      NothingLeft(plan, Recover(plan, first).0, n - 2);
    }
  }

  lemma {:induction false} StartupsFrom(plan: Plan, s: State, n: nat)
    ensures Startups(plan, s, n + 1) == Startups(plan, Recover(plan, s).0, n)
  {
    if n > 0 {
      StartupsFrom(plan, s, n - 1);
    }
    hide Recover;
  }

  lemma {:induction false} NothingLeft(plan: Plan, s: State, n: nat)
    requires s.journal.None?
    ensures Startups(plan, s, n) == s
  {
    if n > 0 {
      NothingLeft(plan, s, n - 1);
    }
  }

  /** Cleanup after `k` removed payloads. */
  function CleanedTo(s: State, k: nat): State {
    s.(gone := k)
  }

  /** A death in cleanup with a payload removed leaves the journal for good,
      whatever its phase and however many startups follow. */
  lemma {:induction false} DeathInCleanupStrands(plan: Plan, s: State, k: nat, n: nat)
    requires s.journal.Some? && 0 < k
    ensures Startups(plan, CleanedTo(s, k), n) == CleanedTo(s, k) && CleanedTo(s, k).journal.Some?
  {
    if n > 0 {
      DeathInCleanupStrands(plan, s, k, n - 1);
    }
  }

  function SelfReferring(): Plan {
    Plan("a", "b", "i", "x", [Reference("b", "x", "y")])
  }

  /** A rollback that would complete, cut right after its move: the document
      that refers to itself is back under its old name, its reference is looked for
      under the new one, and the journal stays for good. */
  lemma DeathAfterMoveBackStrands(n: nat)
    ensures var plan, s := SelfReferring(), State(map["b" := "y"], map["b" := "i"], 0, Some(RollBack));
            && plan.Parses() && plan.AsWritten() && Recover(plan, s).1 == Completed
            && Rewrites(plan, s) && Reach(s.files, plan.references, RollBack) == |plan.references|
            && var (cut, moved) := MoveBack(plan, Underway(plan, s, |plan.references|));
            && moved == Completed && Recover(plan, cut).1 == Quarantined && Startups(plan, cut, n).journal.Some?
  {
    var plan, s := SelfReferring(), State(map["b" := "y"], map["b" := "i"], 0, Some(RollBack));
    ReachIs(s.files, plan.references, RollBack, 1);
    var done := Underway(plan, s, 1);
    assert done.files == map["b" := "x"];
    assert !Forward(plan, s) && plan.Owned(Some("x"));
    RecoverCompletesIff(plan, s);
    var cut := MoveBack(plan, done).0;
    assert cut == State(map["a" := "x"], map["a" := "i"], 0, Some(RollBack));
    BackAgainIff(plan, cut);
    RecoverCompletesIff(plan, cut);
    FailsIff(plan, cut);
    if n > 0 {
      QuarantinedForGood(plan, cut, n);
    }
  }
}
