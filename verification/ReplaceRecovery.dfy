/** Startup recovery of interrupted conditional replacements: finish or undo
    the write a journal describes, then settle artifacts no journal names. */
module ReplaceRecovery {
  import opened Wrappers
  import opened ReplaceDisk
  import opened AtomicReplace

  /** A staged generation whose text was expected may go. */
  lemma SpareIfExpected(d: Disk, id: nat, text: Text, busy: set<nat>)
    requires Safe(d, busy) && d.Holds(Staged(id), text)
    requires id in d.journals && !Terminal(d.journals[id]) && d.journals[id].expected.of == text
    ensures d.Spare(Staged(id))
  {
  }

  /** Remove an artifact after proving its generation twice; false when an
      outside program changed the bytes in between. */
  method RemovePayload(d: Disk, n: Name, ghost busy: set<nat>) returns (r: Step<bool>)
    requires Safe(d, busy) && d.Spare(n)
    modifies d`target, d`bytes, d`next, d`touched, d`artifacts
    ensures !d.mortal ==> r.Done?
    ensures Safe(d, busy) && d.Drifted(old(d.target), old(d.bytes), old(d.touched))
    ensures d.artifacts == if r == Done(true) then old(d.artifacts) - {n} else old(d.artifacts)
    ensures r.Done? && !d.rivals ==> r.value
  {
    TidyLess(d.artifacts, d.journals, d.taken, d.apart, {n});
    hide Conserved, Tidy;
    var c := d.CaptureArtifact(n);
    if c.Missing? {
      return Done(true);
    }
    if c.Changed? {
      return Done(false);
    }
    ghost var target1, bytes1, touched1 := d.target, d.bytes, d.touched;
    r := RemoveCaptured(d, n, c.raw, busy);
    RivalsRanTransitive(old(d.target), old(d.bytes), old(d.touched), target1, bytes1, touched1, d.target, d.bytes,
                        d.touched);
  }

  /** Look at the artifact again, and remove it. */
  method RemoveCaptured(d: Disk, n: Name, raw: Text, ghost busy: set<nat>) returns (r: Step<bool>)
    requires Safe(d, busy) && n in d.artifacts && d.Spare(n)
    requires Tidy(d.artifacts - {n}, d.journals, d.taken, d.apart)
    requires !d.rivals ==> d.Holds(n, raw)
    modifies d`target, d`bytes, d`next, d`touched, d`artifacts
    ensures !d.mortal ==> r.Done?
    ensures Safe(d, busy) && d.Drifted(old(d.target), old(d.bytes), old(d.touched))
    ensures d.artifacts == if r == Done(true) then old(d.artifacts) - {n} else old(d.artifacts)
    ensures r.Done? && !d.rivals ==> r.value
  {
    hide Conserved, Tidy;
    var still := d.HashMatches(n, Sha256(raw));
    if !still {
      return Done(false);
    }
    ghost var target1, bytes1, touched1 := d.target, d.bytes, d.touched;
    var gone := d.Unlink(n);
    RivalsRanTransitive(old(d.target), old(d.bytes), old(d.touched), target1, bytes1, touched1, d.target, d.bytes,
                        d.touched);
    var _ :- gone;
    r := Done(true);
  }

  /** Link a staged generation back create-only and drop the staged name. */
  method RestoreCreateOnly(d: Disk, m: nat, ghost busy: set<nat>) returns (r: Step<bool>)
    requires Safe(d, busy) && Staged(m) in d.artifacts
    modifies d`target, d`links, d`bytes, d`next, d`touched, d`artifacts
    ensures !d.mortal ==> r.Done?
    ensures Safe(d, busy)
    ensures d.artifacts == if r == Done(true) then old(d.artifacts) - {Staged(m)} else old(d.artifacts)
    ensures !d.rivals ==>
              && d.bytes == old(d.bytes)
              && (old(d.target).Some? ==> d.target == old(d.target) && (r.Done? ==> !r.value))
              && (old(d.target).None? ==> d.target.None? || d.target == Some(old(d.artifacts[Staged(m)])))
              && (old(d.target).None? && r.Done? ==> r.value && d.target.Some?)
  {
    assert d.artifacts[Staged(m)] in d.taken && d.artifacts[Staged(m)] !in d.apart;
    hide Conserved, Tidy, RivalsRan;
    var linked :- d.LinkToTarget(Staged(m));
    if !linked {
      return Done(false);
    }
    r := RemovePayload(d, Staged(m), busy);
  }

  lemma TidyTerminal(artifacts: map<Name, nat>, journals: map<nat, Journal>, taken: map<nat, Taking>, apart: set<nat>,
                     id: nat, j: Journal)
    requires Tidy(artifacts, journals, taken, apart)
    requires Terminal(j)
    ensures Tidy(artifacts, journals[id := j], taken, apart)
  {
    assert !NoneTerminal(journals[id := j]) by {
      assert id in journals[id := j];
    }
  }

  lemma TidyPending(artifacts: map<Name, nat>, journals: map<nat, Journal>, taken: map<nat, Taking>, apart: set<nat>,
                    id: nat, j: Journal)
    requires Tidy(artifacts, journals, taken, apart)
    requires id in journals && !Terminal(journals[id]) && j == journals[id].(phase := QuarantineSavePending)
    ensures Tidy(artifacts, journals[id := j], taken, apart)
  {
    assert NoneTerminal(journals[id := j]) ==> NoneTerminal(journals) by {
      assert forall k | k in journals :: k in journals[id := j];
    }
  }

  lemma TidyQuarantined(artifacts: map<Name, nat>, journals: map<nat, Journal>, taken: map<nat, Taking>,
                        apart: set<nat>, id: nat)
    requires Tidy(artifacts, journals, taken, apart) && OnlyBusy(journals, {id})
    requires id in journals && journals[id].phase == QuarantineSavePending && Save(id) in artifacts
    ensures Tidy(artifacts[QuarantineSave(id) := artifacts[Save(id)]] - {Save(id)}, journals, taken, apart)
  {
  }

  /** Both payloads of the write and its journal are gone, all else is as it was. */
  ghost predicate Dropped(artifacts: map<Name, nat>, journals: map<nat, Journal>, id: nat,
                          artifacts': map<Name, nat>, journals': map<nat, Journal>) {
    artifacts' == artifacts - {Save(id), Staged(id)} && journals' == journals - {id}
  }

  /** The save, if there is one, is kept under its quarantine name, and the
      journal is a manual recovery set; all else is as it was. */
  ghost predicate SetAside(artifacts: map<Name, nat>, journals: map<nat, Journal>, id: nat,
                           artifacts': map<Name, nat>, journals': map<nat, Journal>)
    requires id in journals
  {
    if Save(id) in artifacts then
      && artifacts' == artifacts[QuarantineSave(id) := artifacts[Save(id)]] - {Save(id)}
      && journals' == journals[id := journals[id].(phase := ManualRecoveryRequired, replacement := QuarantineSave(id))]
    else
      artifacts' == artifacts && journals' == journals[id := journals[id].(phase := ManualRecoveryRequired)]
  }

  /** The write is undone: its save is set aside, or without one its journal
      goes. */
  ghost predicate Undone(artifacts: map<Name, nat>, journals: map<nat, Journal>, id: nat,
                         artifacts': map<Name, nat>, journals': map<nat, Journal>)
    requires id in journals
  {
    if Save(id) in artifacts then SetAside(artifacts, journals, id, artifacts', journals')
    else artifacts' == artifacts && journals' == journals - {id}
  }

  /** Complete a pending quarantine of the save: rename it to the name the
      journal already holds, then make the journal a manual recovery set. */
  method FinishQuarantine(d: Disk, id: nat, ghost before: Text, ghost expected: Text, ghost replacement: Text)
    returns (r: Step<()>)
    requires Safe(d, {id}) && id in d.journals && d.journals[id].phase == QuarantineSavePending
    modifies d`target, d`bytes, d`next, d`touched, d`artifacts, d`journals
    ensures !d.mortal ==> r.Done?
    ensures Safe(d, {id})
    ensures !d.rivals ==> d.target == old(d.target) && d.bytes == old(d.bytes)
    ensures !d.rivals && r.Done? && old(Save(id) in d.artifacts && QuarantineSave(id) !in d.artifacts) ==>
              SetAside(old(d.artifacts), old(d.journals), id, d.artifacts, d.journals)
    ensures !d.rivals && r.Done? && old(Save(id) !in d.artifacts || QuarantineSave(id) in d.artifacts) ==>
              && d.artifacts == old(d.artifacts)
              && d.journals == if QuarantineSave(id) !in d.artifacts then old(d.journals)
                 else old(d.journals)[id :=
                                      old(d.journals)[id].(phase := ManualRecoveryRequired,
                                                           replacement := QuarantineSave(id))]
    ensures !d.rivals && old(d.target).Some? && old(Recoverable(d, id, before, expected, replacement)) ==>
              && d.target == old(d.target)
              && Recoverable(d, id, before, expected, replacement)
              && (r.Done? ==> Safe(d, {}))
  {
    var journal := d.journals[id];
    assert !Terminal(journal);
    if Save(id) in d.artifacts {
      TidyQuarantined(d.artifacts, d.journals, d.taken, d.apart, id);
    }
    hide Conserved, Tidy, RivalsRan;
    if Save(id) in d.artifacts && QuarantineSave(id) !in d.artifacts {
      var _ :- d.Rename(Save(id), QuarantineSave(id));
    }
    if QuarantineSave(id) !in d.artifacts {
      return Done(());
    }
    var done := journal.(phase := ManualRecoveryRequired, replacement := QuarantineSave(id));
    TidyTerminal(d.artifacts, d.journals, d.taken, d.apart, id, done);
    r := d.WriteJournal(id, done);
  }

  /** Keep the save for inspection: the journal names its quarantine before the
      rename, so that a death in between is completed by the next run. */
  method Quarantine(d: Disk, id: nat, ghost before: Text, ghost expected: Text, ghost replacement: Text)
    returns (r: Step<()>)
    requires Safe(d, {id}) && id in d.journals && d.journals[id].phase == InFlight
    modifies d`target, d`bytes, d`next, d`touched, d`artifacts, d`journals
    ensures !d.mortal ==> r.Done?
    ensures Safe(d, {id})
    ensures !d.rivals ==> d.target == old(d.target) && d.bytes == old(d.bytes)
    ensures !d.rivals && r.Done? ==> SetAside(old(d.artifacts), old(d.journals), id, d.artifacts, d.journals)
    ensures !d.rivals && old(d.target).Some? && old(Recoverable(d, id, before, expected, replacement)) ==>
              && d.target == old(d.target)
              && Recoverable(d, id, before, expected, replacement)
              && (r.Done? ==> Safe(d, {}))
  {
    var journal := d.journals[id];
    assert !Terminal(journal);
    var pending, done := journal.(phase := QuarantineSavePending), journal.(phase := ManualRecoveryRequired);
    TidyPending(d.artifacts, d.journals, d.taken, d.apart, id, pending);
    TidyTerminal(d.artifacts, d.journals, d.taken, d.apart, id, done);
    assert QuarantineSave(id) !in d.artifacts;
    hide Conserved, Tidy, RivalsRan;
    if Save(id) !in d.artifacts {
      r := d.WriteJournal(id, done);
      return;
    }
    var _ :- d.WriteJournal(id, pending);
    r := FinishQuarantine(d, id, before, expected, replacement);
  }

  /** The takeover never happened, or is already resolved. The save goes only
      if its target exists; otherwise it stays for inspection. */
  method DropStaleJournal(d: Disk, id: nat, ghost before: Text, ghost expected: Text, ghost replacement: Text)
    returns (r: Step<()>)
    requires Safe(d, {id}) && id in d.journals && d.journals[id].phase == InFlight && Staged(id) !in d.artifacts
    modifies d`target, d`bytes, d`next, d`touched, d`artifacts, d`journals, d`apart
    ensures !d.mortal ==> r.Done?
    ensures Safe(d, {id})
    ensures !d.rivals ==> d.target == old(d.target) && d.bytes == old(d.bytes)
    ensures !d.rivals && r.Done? ==>
              && d.artifacts == (if old(d.target).Some? then old(d.artifacts) - {Save(id)} else old(d.artifacts))
              && d.journals == old(d.journals) - {id}
    ensures !d.rivals && old(d.target).Some? && old(Recoverable(d, id, before, expected, replacement)) ==>
              && d.target == old(d.target)
              && Recoverable(d, id, before, expected, replacement)
              && (r.Done? ==> Safe(d, {}))
  {
    assert Save(id) in d.artifacts ==> d.artifacts[Save(id)] !in d.taken;
    hide Conserved, Tidy, RivalsRan;
    var targetExists := d.TargetExists();
    if Save(id) in d.artifacts {
      if targetExists {
        var gone :- RemovePayload(d, Save(id), {id});
        if !gone {
          return Done(());
        }
      } else {
        TidySetApart(d.artifacts, d.journals, d.taken, d.apart, id);
        d.apart := d.apart + {d.artifacts[Save(id)]};
      }
    }
    TidySettled(d.artifacts, d.journals, d.taken, d.apart, id);
    r := d.RemoveJournal(id);
  }

  /** A save kept while the target is absent never reaches the target again. */
  lemma TidySetApart(artifacts: map<Name, nat>, journals: map<nat, Journal>, taken: map<nat, Taking>, apart: set<nat>,
                     id: nat)
    requires Tidy(artifacts, journals, taken, apart) && OnlyBusy(journals, {id})
    requires Save(id) in artifacts && artifacts[Save(id)] !in taken && Staged(id) !in artifacts
    ensures Tidy(artifacts, journals, taken, apart + {artifacts[Save(id)]})
  {
  }

  /** The replacement is published: drop what is left of the write, unless the
      staged generation is not the expected one. */
  method SettlePublished(d: Disk, id: nat, ghost before: Text, ghost expected: Text, ghost replacement: Text)
    returns (r: Step<()>)
    requires Safe(d, {id}) && id in d.journals && d.journals[id].phase == InFlight && Staged(id) in d.artifacts
    modifies d`target, d`bytes, d`next, d`touched, d`artifacts, d`journals
    ensures !d.mortal ==> r.Done?
    ensures Safe(d, {id})
    ensures !d.rivals ==> d.target == old(d.target) && d.bytes == old(d.bytes)
    ensures !d.rivals && r.Done? ==>
              if old(d.Holds(Staged(id), d.journals[id].expected.of)) then
                Dropped(old(d.artifacts), old(d.journals), id, d.artifacts, d.journals)
              else
                && d.artifacts == old(d.artifacts)
                && d.journals == old(d.journals)[id := old(d.journals)[id].(phase := PostCommitExternalMutation)]
    ensures !d.rivals && old(d.target).Some? && old(Recoverable(d, id, before, expected, replacement)) ==>
              && d.target == old(d.target)
              && Recoverable(d, id, before, expected, replacement)
              && (r.Done? ==> Safe(d, {}))
  {
    var journal := d.journals[id];
    assert d.Spare(Save(id));
    var changed := journal.(phase := PostCommitExternalMutation);
    TidyTerminal(d.artifacts, d.journals, d.taken, d.apart, id, changed);
    var asExpected := d.HashMatches(Staged(id), journal.expected);
    if !asExpected {
      r := d.WriteJournal(id, changed);
      return;
    }
    SpareIfExpected(d, id, journal.expected.of, {id});
    r := DropPublished(d, id);
  }

  /** The replacement is published and the staged generation as expected: drop
      both payloads and the journal. */
  method DropPublished(d: Disk, id: nat) returns (r: Step<()>)
    requires Safe(d, {id}) && id in d.journals && !Terminal(d.journals[id]) && d.Spare(Save(id)) && d.Spare(Staged(id))
    modifies d`target, d`bytes, d`next, d`touched, d`artifacts, d`journals
    ensures !d.mortal ==> r.Done?
    ensures Safe(d, {id})
    ensures !d.rivals ==> d.target == old(d.target) && d.bytes == old(d.bytes)
    ensures !d.rivals && r.Done? ==>
              Safe(d, {}) && Dropped(old(d.artifacts), old(d.journals), id, d.artifacts, d.journals)
    ensures d.journals == old(d.journals) || d.journals == old(d.journals) - {id}
  {
    hide Conserved, Tidy, RivalsRan;
    var gone :- RemovePayload(d, Staged(id), {id});
    if !gone {
      return Done(());
    }
    if Save(id) in d.artifacts {
      SpareStays(d.taken, d.artifacts[Save(id)], old(d.target), old(d.bytes), old(d.touched), d.target, d.bytes,
                 d.touched);
    }
    gone :- RemovePayload(d, Save(id), {id});
    if !gone {
      return Done(());
    }
    TidySettled(d.artifacts, d.journals, d.taken, d.apart, id);
    r := d.RemoveJournal(id);
  }

  /** The write died between takeover and link with both generations intact:
      finish it. False when an outside program took the path first. */
  method CompleteSave(d: Disk, id: nat, ghost before: Text, ghost expected: Text, ghost replacement: Text)
    returns (r: Step<bool>)
    requires Safe(d, {id}) && id in d.journals && d.journals[id].phase == InFlight
    requires d.Holds(Staged(id), d.journals[id].expected.of) && Save(id) in d.artifacts
    requires !d.rivals ==> d.Holds(Save(id), d.journals[id].replacementHash.of)
    modifies d`target, d`links, d`bytes, d`next, d`touched, d`artifacts, d`journals
    ensures !d.mortal ==> r.Done?
    ensures Safe(d, {id})
    ensures !d.rivals ==> d.bytes == old(d.bytes)
    ensures !d.rivals && old(d.target).None? && r.Done? ==>
              && r.value && d.target == Some(old(d.artifacts[Save(id)]))
              && Dropped(old(d.artifacts), old(d.journals), id, d.artifacts, d.journals)
    ensures r == Done(false) ==>
              d.artifacts == old(d.artifacts) && d.journals == old(d.journals)
    ensures !d.rivals && old(d.target).None? && old(Recoverable(d, id, before, expected, replacement)) ==>
              && Recoverable(d, id, before, expected, replacement)
              && (r.Done? ==> r.value && d.target.Some? && Safe(d, {}))
  {
    var journal := d.journals[id];
    assert d.artifacts[Save(id)] !in d.taken && d.artifacts[Save(id)] !in d.apart;
    SpareIfExpected(d, id, journal.expected.of, {id});
    assert d.artifacts[Staged(id)] in d.taken;
    hide Conserved, Tidy, RivalsRan;
    var linked :- d.LinkToTarget(Save(id));
    if !linked {
      return Done(false);
    }
    var _ :- DropBoth(d, id);
    r := Done(true);
  }

  /** The replacement is linked: drop save, staged generation and journal. */
  method DropBoth(d: Disk, id: nat) returns (r: Step<()>)
    requires Safe(d, {id}) && id in d.journals && !Terminal(d.journals[id]) && d.Spare(Save(id)) && d.Spare(Staged(id))
    modifies d`target, d`bytes, d`next, d`touched, d`artifacts, d`journals
    ensures !d.mortal ==> r.Done?
    ensures Safe(d, {id})
    ensures !d.rivals && r.Done? ==> Dropped(old(d.artifacts), old(d.journals), id, d.artifacts, d.journals)
    ensures !d.rivals ==> d.target == old(d.target) && d.bytes == old(d.bytes)
    ensures !d.rivals && r.Done? ==> Safe(d, {})
    ensures d.journals == old(d.journals) || d.journals == old(d.journals) - {id}
  {
    hide Conserved, Tidy, RivalsRan;
    var gone :- RemovePayload(d, Save(id), {id});
    if !gone {
      return Done(());
    }
    if Staged(id) in d.artifacts {
      SpareStays(d.taken, d.artifacts[Staged(id)], old(d.target), old(d.bytes), old(d.touched), d.target, d.bytes,
                 d.touched);
    }
    gone :- RemovePayload(d, Staged(id), {id});
    if !gone {
      return Done(());
    }
    TidySettled(d.artifacts, d.journals, d.taken, d.apart, id);
    r := d.RemoveJournal(id);
  }

  /** Outside steps leave an inode that may be dropped so. */
  lemma SpareStays(taken: map<nat, Taking>, i: nat, target: Option<nat>, bytes: Inodes, t: set<nat>,
                   target': Option<nat>, bytes': Inodes, t': set<nat>)
    requires RivalsRan(target, bytes, t, target', bytes', t')
    requires i !in taken || i in t || taken[i].text == taken[i].expected || target == Some(i)
    ensures i !in taken || i in t' || taken[i].text == taken[i].expected || target' == Some(i)
  {
  }

  /** The staged generation goes back; the save stays as a recovery set. */
  method RollBack(d: Disk, id: nat, ghost before: Text, ghost expected: Text, ghost replacement: Text)
    returns (r: Step<()>)
    requires Safe(d, {id}) && id in d.journals && d.journals[id].phase == InFlight && Staged(id) in d.artifacts
    modifies d`target, d`links, d`bytes, d`next, d`touched, d`artifacts, d`journals
    ensures !d.mortal ==> r.Done?
    ensures Safe(d, {id})
    ensures !d.rivals ==> d.bytes == old(d.bytes)
    ensures !d.rivals && old(d.target).None? && r.Done? ==>
              && d.target == Some(old(d.artifacts[Staged(id)]))
              && Undone(old(d.artifacts) - {Staged(id)}, old(d.journals), id, d.artifacts, d.journals)
    ensures !d.rivals && old(d.target).None? && old(Recoverable(d, id, before, expected, replacement)) ==>
              && Recoverable(d, id, before, expected, replacement)
              && (r.Done? ==> d.target.Some? && Safe(d, {}))
  {
    hide Conserved, Tidy, RivalsRan;
    var restored :- RestoreCreateOnly(d, id, {id});
    if Save(id) in d.artifacts {
      r := Quarantine(d, id, before, expected, replacement);
    } else {
      TidySettled(d.artifacts, d.journals, d.taken, d.apart, id);
      r := d.RemoveJournal(id);
    }
  }

  /** The write was cut between takeover and link. */
  predicate Cut(d: Disk, id: nat)
    reads d
  {
    id in d.journals && d.journals[id].phase == InFlight && Staged(id) in d.artifacts && d.target.None?
  }

  /** Something is at the target again, and what was taken is still staged. */
  predicate TargetBack(d: Disk, id: nat)
    reads d
  {
    id in d.journals && d.journals[id].phase == InFlight && Staged(id) in d.artifacts && d.target.Some?
  }

  /** The save was about to be set aside. */
  predicate HalfSetAside(d: Disk, id: nat)
    reads d
  {
    && id in d.journals && d.journals[id].phase == QuarantineSavePending
    && Save(id) in d.artifacts && QuarantineSave(id) !in d.artifacts
  }

  /** What was taken is what the write expected, and its save is whole. */
  ghost predicate Intact(d: Disk, id: nat)
    requires id in d.journals
    reads d
  {
    d.Holds(Staged(id), d.journals[id].expected.of) && d.Holds(Save(id), d.journals[id].replacementHash.of)
  }

  /** Finish or undo the write a replace journal describes. */
  method RecoverJournal(d: Disk, id: nat, ghost before: Text, ghost expected: Text, ghost replacement: Text)
    returns (r: Step<()>)
    requires Safe(d, {id}) && id in d.journals
    modifies d`target, d`links, d`bytes, d`next, d`touched, d`artifacts, d`journals, d`apart
    ensures !d.mortal ==> r.Done?
    ensures Safe(d, {id})
    ensures !d.rivals ==> d.bytes == old(d.bytes) && (old(d.target).Some? ==> d.target == old(d.target))
    ensures !d.rivals && r.Done? && old(Cut(d, id)) ==>
              if old(Intact(d, id)) then
                && d.target == Some(old(d.artifacts[Save(id)])) && d.Shows(old(d.journals[id].replacementHash.of))
                && Dropped(old(d.artifacts), old(d.journals), id, d.artifacts, d.journals)
              else
                && d.target == Some(old(d.artifacts[Staged(id)]))
                && Undone(old(d.artifacts) - {Staged(id)}, old(d.journals), id, d.artifacts, d.journals)
    ensures !d.rivals && r.Done? && old(TargetBack(d, id)) ==>
              if old(!d.Shows(d.journals[id].replacementHash.of)) then
                SetAside(old(d.artifacts), old(d.journals), id, d.artifacts, d.journals)
              else if old(d.Holds(Staged(id), d.journals[id].expected.of)) then
                Dropped(old(d.artifacts), old(d.journals), id, d.artifacts, d.journals)
              else
                && d.artifacts == old(d.artifacts)
                && d.journals == old(d.journals)[id := old(d.journals)[id].(phase := PostCommitExternalMutation)]
    ensures !d.rivals && r.Done? && old(d.journals[id].phase == InFlight && Staged(id) !in d.artifacts) ==>
              && d.target == old(d.target)
              && d.artifacts == (if old(d.target).Some? then old(d.artifacts) - {Save(id)} else old(d.artifacts))
              && d.journals == old(d.journals) - {id}
    ensures !d.rivals && r.Done? && old(HalfSetAside(d, id)) ==>
              d.target == old(d.target) && SetAside(old(d.artifacts), old(d.journals), id, d.artifacts, d.journals)
    ensures old(Terminal(d.journals[id])) ==>
              d.target == old(d.target) && d.artifacts == old(d.artifacts) && d.journals == old(d.journals)
    ensures !d.rivals && old(Recoverable(d, id, before, expected, replacement)) ==>
              && Recoverable(d, id, before, expected, replacement)
              && (r.Done? ==> d.target.Some? && Safe(d, {}))
  {
    var journal := d.journals[id];
    hide Conserved, Tidy, RivalsRan;
    if Terminal(journal) {
      return Done(());
    }
    if journal.phase == QuarantineSavePending {
      r := FinishQuarantine(d, id, before, expected, replacement);
      return;
    }
    if Staged(id) !in d.artifacts {
      r := DropStaleJournal(d, id, before, expected, replacement);
      return;
    }
    var targetExists := d.TargetExists();
    if targetExists {
      var published := d.TargetHashMatches(journal.replacementHash);
      if published {
        r := SettlePublished(d, id, before, expected, replacement);
      } else {
        r := Quarantine(d, id, before, expected, replacement);
      }
      return;
    }
    r := ResumeCommit(d, id, before, expected, replacement);
  }

  /** The write died after the takeover and the target is still absent. */
  method ResumeCommit(d: Disk, id: nat, ghost before: Text, ghost expected: Text, ghost replacement: Text)
    returns (r: Step<()>)
    requires Safe(d, {id}) && id in d.journals && d.journals[id].phase == InFlight && Staged(id) in d.artifacts
    requires d.target.None?
    modifies d`target, d`links, d`bytes, d`next, d`touched, d`artifacts, d`journals
    ensures !d.mortal ==> r.Done?
    ensures Safe(d, {id})
    ensures !d.rivals ==> d.bytes == old(d.bytes)
    ensures !d.rivals && r.Done? ==>
              if old(Intact(d, id)) then
                && d.target == Some(old(d.artifacts[Save(id)])) && d.Shows(old(d.journals[id].replacementHash.of))
                && Dropped(old(d.artifacts), old(d.journals), id, d.artifacts, d.journals)
              else
                && d.target == Some(old(d.artifacts[Staged(id)]))
                && Undone(old(d.artifacts) - {Staged(id)}, old(d.journals), id, d.artifacts, d.journals)
    ensures !d.rivals && old(Recoverable(d, id, before, expected, replacement)) ==>
              && Recoverable(d, id, before, expected, replacement)
              && (r.Done? ==> d.target.Some? && Safe(d, {}))
  {
    var journal := d.journals[id];
    hide Conserved, Tidy, RivalsRan;
    ghost var inode := d.artifacts[Staged(id)];
    var asExpected := d.HashMatches(Staged(id), journal.expected);
    StillPrivate(old(d.target), old(d.bytes), old(d.touched), d.target, d.bytes, d.touched, inode);
    if asExpected && Save(id) in d.artifacts {
      ghost var target1, bytes1, touched1 := d.target, d.bytes, d.touched;
      var intact := d.HashMatches(Save(id), journal.replacementHash);
      StillPrivate(target1, bytes1, touched1, d.target, d.bytes, d.touched, inode);
      if intact {
        var finished :- CompleteSave(d, id, before, expected, replacement);
        if finished {
          return Done(());
        }
      }
    }
    r := RollBack(d, id, before, expected, replacement);
  }

  function WithoutSaves(artifacts: map<Name, nat>): map<Name, nat> {
    map n | n in artifacts && !n.Save? :: artifacts[n]
  }

  /** Settle artifacts no journal names: a staged generation returns to an
      absent target, a save goes if its target exists. */
  method SettleOrphans(d: Disk, ghost shown: Text) returns (r: Step<()>)
    requires Safe(d, {}) && d.journals == map[]
    modifies d`target, d`links, d`bytes, d`next, d`touched, d`artifacts
    ensures !d.mortal ==> r.Done?
    ensures Safe(d, {})
    ensures !d.rivals && old(d.Shows(shown)) ==> d.target == old(d.target) && d.Shows(shown)
    ensures !d.rivals && r.Done? && old(d.target).Some? ==>
              d.target == old(d.target) && d.artifacts == WithoutSaves(old(d.artifacts))
    ensures !d.rivals && r.Done? && old(d.target).None? && (forall n | n in old(d.artifacts) :: !n.Staged?) ==>
              d.target.None? && d.artifacts == old(d.artifacts)
    ensures !d.rivals && r.Done? && old(d.target).None? && (exists n :: n in old(d.artifacts) && n.Staged?) ==>
              exists n | n in old(d.artifacts) && n.Staged? ::
                d.target == Some(old(d.artifacts)[n]) && d.artifacts == WithoutSaves(old(d.artifacts) - {n})
  {
    var _ :- RestoreOrphans(d, shown);
    hide Conserved, Tidy, RivalsRan;
    r := DropOrphanSaves(d, shown);
  }

  /** The first orphaned staged generation returns to an absent target. */
  method RestoreOrphans(d: Disk, ghost shown: Text) returns (r: Step<()>)
    requires Safe(d, {}) && d.journals == map[]
    modifies d`target, d`links, d`bytes, d`next, d`touched, d`artifacts
    ensures !d.mortal ==> r.Done?
    ensures Safe(d, {})
    ensures !d.rivals && old(d.Shows(shown)) ==> d.target == old(d.target) && d.Shows(shown)
    ensures !d.rivals && old(d.target).Some? ==> d.target == old(d.target) && d.artifacts == old(d.artifacts)
    ensures !d.rivals && r.Done? && old(d.target).None? && (forall n | n in old(d.artifacts) :: !n.Staged?) ==>
              d.target.None? && d.artifacts == old(d.artifacts)
    ensures !d.rivals && r.Done? && old(d.target).None? && (exists n :: n in old(d.artifacts) && n.Staged?) ==>
              exists n | n in old(d.artifacts) && n.Staged? ::
                d.target == Some(old(d.artifacts)[n]) && d.artifacts == old(d.artifacts) - {n}
  {
    hide Conserved, Tidy, RivalsRan;
    var staged := set n | n in d.artifacts && n.Staged?;
    while staged != {}
      invariant Safe(d, {}) && staged <= d.artifacts.Keys && (forall n | n in staged :: n.Staged?)
      invariant !d.rivals && old(d.Shows(shown)) ==> d.target == old(d.target) && d.Shows(shown)
      invariant !d.rivals && d.target == old(d.target) ==> d.artifacts == old(d.artifacts)
      invariant !d.rivals && old(d.target).Some? ==> d.target == old(d.target)
      invariant !d.rivals && d.target.None? ==> forall n | n in old(d.artifacts) && n.Staged? :: n in staged
      invariant !d.rivals && d.target != old(d.target) ==>
                  exists n | n in old(d.artifacts) && n.Staged? ::
                    d.target == Some(old(d.artifacts)[n]) && d.artifacts == old(d.artifacts) - {n}
    {
      var n :| n in staged;
      staged := staged - {n};
      var targetExists := d.TargetExists();
      if !targetExists {
        var _ :- RestoreCreateOnly(d, n.id, {});
      }
    }
    r := Done(());
  }

  /** Orphaned saves go if the target exists. */
  method DropOrphanSaves(d: Disk, ghost shown: Text) returns (r: Step<()>)
    requires Safe(d, {}) && d.journals == map[]
    modifies d`target, d`bytes, d`next, d`touched, d`artifacts
    ensures !d.mortal ==> r.Done?
    ensures Safe(d, {})
    ensures !d.rivals && old(d.Shows(shown)) ==> d.target == old(d.target) && d.Shows(shown)
    ensures !d.rivals ==> d.target == old(d.target)
    ensures !d.rivals && r.Done? ==>
              d.artifacts == if d.target.Some? then WithoutSaves(old(d.artifacts)) else old(d.artifacts)
  {
    var saves := set n | n in d.artifacts && n.Save?;
    while saves != {}
      invariant Safe(d, {}) && saves <= d.artifacts.Keys && (forall n | n in saves :: n.Save?)
      invariant !d.rivals && old(d.Shows(shown)) ==> d.target == old(d.target) && d.Shows(shown)
      invariant !d.rivals ==> d.target == old(d.target)
      invariant !d.rivals && d.target.None? ==> d.artifacts == old(d.artifacts)
      invariant !d.rivals && d.target.Some? ==>
                  && (forall n | n in d.artifacts :: n in old(d.artifacts) && d.artifacts[n] == old(d.artifacts)[n])
                  && forall n | n in old(d.artifacts) :: n in d.artifacts <==> !n.Save? || n in saves
    {
      var n :| n in saves;
      assert d.Spare(n);
      TidyLess(d.artifacts, d.journals, d.taken, d.apart, {n});
      hide Conserved, Tidy, RivalsRan;
      saves := saves - {n};
      var targetExists := d.TargetExists();
      if targetExists {
        var _ :- d.Unlink(n);
      }
    }
    r := Done(());
  }

  /** One recovery pass over the directory: every journal, then, if none is
      left, the orphans. A write cut between takeover and link is finished if both
      its generations are intact, and undone otherwise. */
  method RecoverDirectory(d: Disk, id: nat, ghost before: Text, ghost expected: Text, ghost replacement: Text)
    returns (r: Step<()>)
    requires Safe(d, {id})
    modifies d`target, d`links, d`bytes, d`next, d`touched, d`artifacts, d`journals, d`apart
    ensures !d.mortal ==> r.Done?
    ensures Safe(d, {id})
    ensures !d.rivals && old(Recoverable(d, id, before, expected, replacement)) ==>
              && Recoverable(d, id, before, expected, replacement)
              && (r.Done? ==> d.target.Some? && Safe(d, {}))
    ensures !d.rivals && r.Done? && old(Cut(d, id) && Intact(d, id)) ==>
              && d.target == Some(old(d.artifacts[Save(id)])) && d.Shows(old(d.journals[id].replacementHash.of))
              && Save(id) !in d.artifacts && Staged(id) !in d.artifacts && id !in d.journals
    ensures !d.rivals && r.Done? && old(Cut(d, id) && !Intact(d, id)) ==>
              && d.target == Some(old(d.artifacts[Staged(id)])) && Staged(id) !in d.artifacts
              && if old(Save(id) in d.artifacts) then
                   && QuarantineSave(id) in d.artifacts && d.artifacts[QuarantineSave(id)] == old(d.artifacts[Save(id)])
                   && id in d.journals && d.journals[id].phase == ManualRecoveryRequired
                   && d.journals[id].replacement == QuarantineSave(id)
                 else id !in d.journals
  {
    hide Conserved, Tidy, RivalsRan;
    var todo := d.journals.Keys;
    while todo != {}
      invariant Safe(d, {id})
      invariant !d.rivals && old(Recoverable(d, id, before, expected, replacement)) ==>
          && Recoverable(d, id, before, expected, replacement)
          && (id !in todo ==> d.target.Some? && Safe(d, {}))
      invariant !d.rivals && id in todo ==>
                  && d.target == old(d.target) && d.artifacts == old(d.artifacts)
                  && d.bytes == old(d.bytes) && d.journals == old(d.journals)
      invariant !d.rivals && old(Cut(d, id)) && id !in todo ==>
                  if old(Intact(d, id)) then
                    && d.target == Some(old(d.artifacts[Save(id)])) && d.Shows(old(d.journals[id].replacementHash.of))
                    && Dropped(old(d.artifacts), old(d.journals), id, d.artifacts, d.journals)
                  else
                    && d.target == Some(old(d.artifacts[Staged(id)]))
                    && Undone(old(d.artifacts) - {Staged(id)}, old(d.journals), id, d.artifacts, d.journals)
    {
      var k :| k in todo;
      todo := todo - {k};
      if k in d.journals && !Terminal(d.journals[k]) {
        assert k == id;
        var _ :- RecoverJournal(d, k, before, expected, replacement);
      }
    }
    if d.journals.Keys == {} {
      assert d.journals == map[];
      r := SettleOrphans(d, if d.target.Some? then d.bytes[d.target.value] else "");
    } else {
      r := Done(());
    }
  }

  /** Startup recovery after a death: passes over the directory, each of which
      may itself die, until one finishes or `attempts` runs were cut short. */
  method Restart(d: Disk, id: nat, attempts: nat, ghost before: Text, ghost expected: Text, ghost replacement: Text)
    returns (finished: bool)
    requires Safe(d, {id})
    modifies d`target, d`links, d`bytes, d`next, d`touched, d`artifacts, d`journals, d`apart
    ensures !d.mortal && attempts > 0 ==> finished
    ensures Safe(d, {id})
    ensures !d.rivals && old(Recoverable(d, id, before, expected, replacement)) ==>
              && Recoverable(d, id, before, expected, replacement)
              && (finished ==> d.target.Some? && Safe(d, {}))
  {
    hide Conserved, Tidy, RivalsRan;
    finished := false;
    for i := 0 to attempts
      invariant Safe(d, {id}) && !finished && (!d.mortal ==> i == 0)
      invariant !d.rivals && old(Recoverable(d, id, before, expected, replacement)) ==>
          Recoverable(d, id, before, expected, replacement)
    {
      var run := RecoverDirectory(d, id, before, expected, replacement);
      if run.Done? {
        return true;
      }
    }
  }

  datatype Request = Request(expected: Text, replacement: Text)

  /** A request and its answer; a death leaves the caller without one. */
  datatype Event = Event(request: Request, answer: Step<CommitResult>)

  /** One answered request took effect exactly if it was told so; one cut by a
      death did nothing or replaced exactly its expected text. */
  ghost predicate Applied(before: Text, event: Event, after: Text) {
    var done := before == event.request.expected && after == event.request.replacement;
    match event.answer
    case Crashed => after == before || done
    case Done(Committed) => done
    case Done(Conflict) => after == before && before != event.request.expected
    case Done(_) => false
  }

  /** The events, in order, lead from `before` to `after`. */
  ghost predicate Explains(before: Text, events: seq<Event>, after: Text) {
    if events == [] then after == before
    else
      var last := |events| - 1;
      exists mid :: Explains(before, events[..last], mid) && Applied(mid, events[last], after)
  }

  /** An identifier above every one in use; the server draws a random one. */
  method FreshId(d: Disk) returns (id: nat)
    ensures Unused(d, id)
  {
    id := 0;
    var names, journals := d.artifacts.Keys, d.journals.Keys;
    while names != {}
      invariant names <= d.artifacts.Keys
      invariant forall n | n in d.artifacts && n !in names :: n.id < id
    {
      var n :| n in names;
      names, id := names - {n}, if n.id < id then id else n.id + 1;
    }
    while journals != {}
      invariant journals <= d.journals.Keys
      invariant forall n | n in d.artifacts :: n.id < id
      invariant forall k | k in d.journals && k !in journals :: k < id
    {
      var k :| k in journals;
      journals, id := journals - {k}, if k < id then id else k + 1;
    }
  }

  /** What was taken since, was taken by a request that expected the text it is
      recorded with. */
  ghost predicate TakenByRequests(taken: map<nat, Taking>, taken': map<nat, Taking>, requests: seq<Request>) {
    && taken.Keys <= taken'.Keys
    && forall i | i in taken' :: (i in taken && taken'[i] == taken[i]) || exists r ::
         r in requests && r.expected == taken'[i].expected
  }

  lemma MoreTaken(taken: map<nat, Taking>, taken': map<nat, Taking>, taken'': map<nat, Taking>, requests: seq<Request>,
                  k: nat)
    requires k < |requests| && TakenByRequests(taken, taken', requests)
             && TakenFor(taken', taken'', requests[k].expected)
    ensures TakenByRequests(taken, taken'', requests)
  {
  }

  /** One conditional write, possibly cut by a death at any step and followed by
      recoveries that may die as well. The server is down afterwards if recovery
      did not finish or left a write in flight. */
  method Handle(d: Disk, request: Request, attempts: nat) returns (up: bool, event: Event)
    requires Safe(d, {})
    modifies d
    ensures d.Valid() && TakenFor(old(d.taken), d.taken, request.expected)
    ensures (!d.mortal ==> up) && (!up ==> event.answer.Crashed?) && event.request == request
    ensures up ==> Safe(d, {})
    ensures !d.rivals && old(d.target).Some? && up ==>
              d.target.Some? && Applied(old(d.bytes[d.target.value]), event, d.bytes[d.target.value])
  {
    hide Conserved, Tidy, RivalsRan, TakenFor;
    ghost var before := if d.target.Some? then d.bytes[d.target.value] else "";
    var id := FreshId(d);
    var answer := ReplaceIfUnchanged(d, id, request.expected, request.replacement);
    event := Event(request, answer);
    if answer.Crashed? {
      var finished := Restart(d, id, attempts, before, request.expected, request.replacement);
      if !finished || (id in d.journals && !Terminal(d.journals[id])) {
        return false, event;
      }
    }
    up := true;
  }

  lemma ExplainsMore(before: Text, events: seq<Event>, mid: Text, event: Event, after: Text)
    requires Explains(before, events, mid) && Applied(mid, event, after)
    ensures Explains(before, events + [event], after)
  {
    assert (events + [event])[..|events|] == events;
    hide Applied;
  }

  /** A server's life: conditional writes, one after the other, until one
      leaves it down. */
  method Serve(d: Disk, requests: seq<Request>, attempts: nat) returns (up: bool, events: seq<Event>)
    requires Safe(d, {})
    modifies d
    ensures d.Valid() && TakenByRequests(old(d.taken), d.taken, requests)
    ensures !d.mortal ==> up
    ensures !d.rivals && old(d.target).Some? && up ==>
              && d.target.Some? && |events| == |requests|
              && (forall k | 0 <= k < |events| :: events[k].request == requests[k])
              && Explains(old(d.bytes[d.target.value]), events, d.bytes[d.target.value])
  {
    assert TakenByRequests(d.taken, d.taken, requests);
    assert d.target.Some? ==> Explains(d.bytes[d.target.value], [], d.bytes[d.target.value]);
    hide Safe, TakenByRequests, TakenFor, Applied, Explains;
    events := [];
    while |events| < |requests|
      invariant |events| <= |requests|
      invariant forall k | 0 <= k < |events| :: events[k].request == requests[k]
      invariant Safe(d, {}) && d.Valid() && TakenByRequests(old(d.taken), d.taken, requests)
      invariant !d.rivals && old(d.target).Some? ==>
          && d.target.Some?
          && Explains(old(d.bytes[d.target.value]), events, d.bytes[d.target.value])
    {
      ghost var taken0, mid := d.taken, if d.target.Some? then d.bytes[d.target.value] else "";
      var live, event := Handle(d, requests[|events|], attempts);
      MoreTaken(old(d.taken), taken0, d.taken, requests, |events|);
      if !live {
        return false, events;
      }
      if !d.rivals && old(d.target).Some? {
        ExplainsMore(old(d.bytes[d.target.value]), events, mid, event, d.bytes[d.target.value]);
      }
      events := events + [event];
    }
    up := true;
  }

  /** The last change of the target in a history replaced the text that the
      request behind it expected; every later event left the text as it was. */
  lemma {:induction false} ExplainsLastChange(before: Text, events: seq<Event>, after: Text)
    requires Explains(before, events, after) && after != before
    ensures exists k ::
              && 0 <= k < |events|
              && var request := events[k].request;
              && request.expected != after == request.replacement
              && Explains(before, events[..k], request.expected) && Applied(request.expected, events[k], after)
              && forall m | k < m < |events| :: Applied(after, events[m], after)
  {
    var last := |events| - 1;
    var mid :| Explains(before, events[..last], mid) && Applied(mid, events[last], after);
    if mid == after {
      ExplainsLastChange(before, events[..last], after);
      var k :| && 0 <= k < last
               && var request := events[..last][k].request;
               && request.expected != after == request.replacement
               && Explains(before, events[..last][..k], request.expected)
               && Applied(request.expected, events[..last][k], after)
               && forall m | k < m < last :: Applied(after, events[..last][m], after);
      assert events[..last][..k] == events[..k];
      forall m | k < m < |events|
        ensures Applied(after, events[m], after)
      {
        if m < last {
          assert events[..last][m] == events[m];
        }
      }
    }
  }

  /** A text no request carries is never shown, whatever dies when. */
  lemma {:induction false} ExplainsOnlyKnownTexts(before: Text, events: seq<Event>, after: Text)
    requires Explains(before, events, after)
    ensures after == before || exists k :: 0 <= k < |events| && events[k].request.replacement == after
  {
    if events != [] {
      var last := |events| - 1;
      var mid :| Explains(before, events[..last], mid) && Applied(mid, events[last], after);
      ExplainsOnlyKnownTexts(before, events[..last], mid);
    }
  }
}
