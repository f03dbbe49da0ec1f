/** Conditional replacement of the target: take the current generation aside,
    verify it, link the new one create-only, clean up. A death may fall before
    any step, and outside programs may run before any step. */
module AtomicReplace {
  import opened Wrappers
  import opened ReplaceDisk

  datatype CommitResult =
    | Committed
    | Conflict
    | TargetMissing
    | OwnershipLost

  ghost predicate NoneTerminal(journals: map<nat, Journal>) {
    forall k | k in journals :: !Terminal(journals[k])
  }

  /** What is on disk besides the target: what recovery may delete is not a
      generation taken from the target, and saves no journal names are apart. */
  ghost predicate Tidy(artifacts: map<Name, nat>, journals: map<nat, Journal>, taken: map<nat, Taking>,
                       apart: set<nat>) {
    && (forall m | Staged(m) in artifacts :: artifacts[Staged(m)] in taken)
    && (forall i | i in apart :: i !in taken)
    && (NoneTerminal(journals) ==>
          forall m | Save(m) in artifacts && m !in journals :: artifacts[Save(m)] in apart)
    && (forall k | k in journals && !Terminal(journals[k]) ::
          && journals[k].replacement == Save(k)
          && (Save(k) in artifacts ==> artifacts[Save(k)] !in taken)
          && (Staged(k) in artifacts ==>
                artifacts[Staged(k)] in taken && taken[artifacts[Staged(k)]].expected == journals[k].expected.of)
          && (Save(k) in artifacts && Staged(k) in artifacts ==> artifacts[Save(k)] !in apart)
          && (journals[k].phase == InFlight ==> QuarantineSave(k) !in artifacts))
  }

  /** Only the writes in `busy` are in flight. */
  ghost predicate OnlyBusy(journals: map<nat, Journal>, busy: set<nat>) {
    forall k | k in journals :: k in busy || Terminal(journals[k])
  }

  /** Holds at every step while the writes in `busy` are in flight. */
  ghost predicate Safe(d: Disk, busy: set<nat>)
    reads d
  {
    d.Valid() && Tidy(d.artifacts, d.journals, d.taken, d.apart) && OnlyBusy(d.journals, busy)
  }

  lemma TidyLess(artifacts: map<Name, nat>, journals: map<nat, Journal>, taken: map<nat, Taking>, apart: set<nat>,
                 gone: set<Name>)
    requires Tidy(artifacts, journals, taken, apart)
    ensures Tidy(artifacts - gone, journals, taken, apart)
  {
  }

  /** Dropping the journal of a write whose save is gone or apart. */
  lemma TidySettled(artifacts: map<Name, nat>, journals: map<nat, Journal>, taken: map<nat, Taking>, apart: set<nat>,
                    id: nat)
    requires Tidy(artifacts, journals, taken, apart)
    requires id in journals ==> !Terminal(journals[id])
    requires Save(id) in artifacts ==> artifacts[Save(id)] in apart
    ensures Tidy(artifacts, journals - {id}, taken, apart)
  {
    assert forall k | k in journals && k != id :: k in journals - {id};
  }

  lemma TidyTaken(artifacts: map<Name, nat>, journals: map<nat, Journal>, taken: map<nat, Taking>, apart: set<nat>,
                  id: nat, i: nat, taking: Taking)
    requires Tidy(artifacts, journals, taken, apart) && OnlyBusy(journals, {id})
    requires id in journals ==> journals[id].expected.of == taking.expected
    requires i !in apart && (Save(id) in artifacts ==> artifacts[Save(id)] != i && artifacts[Save(id)] !in apart)
    ensures Tidy(artifacts[Staged(id) := i], journals, taken[i := taking], apart)
  {
  }

  /** The journal puts the save of `id` in flight. */
  lemma TidyJournaled(artifacts: map<Name, nat>, journals: map<nat, Journal>, taken: map<nat, Taking>, apart: set<nat>,
                      id: nat, j: Journal)
    requires Tidy(artifacts, journals, taken, apart)
    requires id !in journals && j.replacement == Save(id) && j.phase == InFlight
    requires Save(id) in artifacts && artifacts[Save(id)] !in taken
    requires Staged(id) !in artifacts && QuarantineSave(id) !in artifacts
    ensures Tidy(artifacts, journals[id := j], taken, apart)
  {
    assert NoneTerminal(journals[id := j]) ==> NoneTerminal(journals) by {
      assert forall k | k in journals :: k in journals[id := j];
    }
  }

  lemma TidyReleased(artifacts: map<Name, nat>, journals: map<nat, Journal>, taken: map<nat, Taking>, apart: set<nat>,
                     id: nat, i: nat)
    requires Tidy(artifacts, journals, taken, apart) && id in journals
    requires forall n | n in artifacts && artifacts[n] == i :: n == Save(id)
    ensures Tidy(artifacts, journals, taken, apart - {i})
  {
  }

  /** A fresh save that no journal names yet. */
  lemma TidySaved(artifacts: map<Name, nat>, journals: map<nat, Journal>, taken: map<nat, Taking>, apart: set<nat>,
                  id: nat, i: nat)
    requires Tidy(artifacts, journals, taken, apart) && OnlyBusy(journals, {})
    requires Save(id) !in artifacts && id !in journals && i !in taken
    ensures Tidy(artifacts[Save(id) := i], journals, taken, apart + {i})
  {
  }

  /** Generations are only ever taken, from `taken` on, by writes that expect
      this text. */
  ghost predicate TakenFor(taken: map<nat, Taking>, taken': map<nat, Taking>, expected: Text) {
    && taken.Keys <= taken'.Keys
    && forall i | i in taken' :: (i in taken && taken'[i] == taken[i]) || taken'[i].expected == expected
  }

  lemma TakenNone(taken: map<nat, Taking>, expected: Text)
    ensures TakenFor(taken, taken, expected)
  {
  }

  lemma TakenOne(taken: map<nat, Taking>, i: nat, taking: Taking)
    ensures TakenFor(taken, taken[i := taking], taking.expected)
  {
  }

  /** The names of write `id` have never been used. */
  ghost predicate Unused(d: Disk, id: nat)
    reads d
  {
    id !in d.journals && Save(id) !in d.artifacts && Staged(id) !in d.artifacts && QuarantineSave(id) !in d.artifacts
  }

  /** What recovery relies on when nobody else touches the target: it shows the
      old text, or the new text if the old one was as expected; if it is absent,
      both texts and an in-flight journal naming them are on disk. */
  ghost predicate Recoverable(d: Disk, id: nat, before: Text, expected: Text, replacement: Text)
    reads d
  {
    && (d.target.Some? ==> d.Shows(before) || (before == expected && d.Shows(replacement)))
    && (d.target.None? ==>
          && d.Holds(Staged(id), before)
          && d.Holds(Save(id), replacement)
          && id in d.journals
          && d.journals[id] == Journal(Sha256(expected), Sha256(replacement), Save(id), InFlight))
    && (id in d.journals && !Terminal(d.journals[id]) ==>
          && d.journals[id].expected == Sha256(expected) && d.journals[id].replacementHash == Sha256(replacement)
          && (d.journals[id].phase == QuarantineSavePending ==>
                Save(id) in d.artifacts || QuarantineSave(id) in d.artifacts))
  }

  /** No link was made, or one of inode `i`. */
  ghost predicate LinkedBack(before: seq<Linking>, after: seq<Linking>, i: nat) {
    after == before || (|after| == |before| + 1 && after[..|before|] == before && after[|before|].inode == i)
  }

  /** The answer is true whatever outside programs do: committed, the replacement
      was linked, over a taken generation with the expected text; otherwise it never
      was. */
  ghost predicate Announced(before: seq<Linking>, after: seq<Linking>, taken: map<nat, Taking>, temporary: nat,
                            expected: Text, replacement: Text, answer: CommitResult) {
    if answer == Committed then
      && after == before + [Linking(temporary, replacement)]
      && exists i | i in taken :: taken[i] == Taking(expected, expected)
    else
      exists i :: i != temporary && LinkedBack(before, after, i)
  }

  lemma LinkedBackAtMost(links: seq<Linking>, i: nat)
    ensures LinkedBack(links, links, i) && forall text :: LinkedBack(links, links + [Linking(i, text)], i)
  {
  }

  lemma AnnouncedBack(before: seq<Linking>, after: seq<Linking>, taken: map<nat, Taking>, temporary: nat,
                      expected: Text, replacement: Text, answer: CommitResult, i: nat)
    requires answer != Committed && i != temporary && LinkedBack(before, after, i)
    ensures Announced(before, after, taken, temporary, expected, replacement, answer)
  {
  }

  lemma AnnouncedNothing(links: seq<Linking>, taken: map<nat, Taking>, temporary: nat, expected: Text,
                         replacement: Text, answer: CommitResult)
    requires answer != Committed
    ensures Announced(links, links, taken, temporary, expected, replacement, answer)
  {
    assert LinkedBack(links, links, temporary + 1);
  }

  /** Remove an artifact of ours. The caller proves what the server rereads
      before the unlink: the name still leads to the inode it took. */
  method RemoveOwned(d: Disk, n: Name, inode: nat, ghost busy: set<nat>) returns (r: Step<()>)
    requires Safe(d, busy) && n in d.artifacts && d.artifacts[n] == inode && d.Spare(n)
    modifies d`target, d`bytes, d`next, d`touched, d`artifacts
    ensures !d.mortal ==> r.Done?
    ensures Safe(d, busy) && d.Drifted(old(d.target), old(d.bytes), old(d.touched))
    ensures d.artifacts == if r.Done? then old(d.artifacts) - {n} else old(d.artifacts)
  {
    hide Conserved, Tidy;
    TidyLess(d.artifacts, d.journals, d.taken, d.apart, {n});
    r := d.Unlink(n);
  }

  /** Put a staged generation back under the target, create-only. False means
      the bytes stay under their staged name. */
  method RestoreStaged(d: Disk, m: nat, ghost busy: set<nat>) returns (r: Step<bool>)
    requires Safe(d, busy) && d.Private(Staged(m))
    modifies d`target, d`links, d`bytes, d`next, d`touched, d`artifacts
    ensures !d.mortal ==> r.Done?
    ensures Safe(d, busy)
    ensures LinkedBack(old(d.links), d.links, old(d.artifacts[Staged(m)]))
    ensures r == Done(false) ==> d.links == old(d.links)
    ensures r == Done(false) ==> d.target.Some? && d.Drifted(old(d.target), old(d.bytes), old(d.touched))
    ensures d.artifacts == if r == Done(true) then old(d.artifacts) - {Staged(m)} else old(d.artifacts)
    ensures d.target.Some? ==>
              d.target == old(d.target) || d.target == Some(old(d.artifacts[Staged(m)]))
              || d.target.value !in old(d.bytes)
    ensures !d.rivals ==>
              && d.bytes == old(d.bytes) && d.touched == old(d.touched)
              && (r.Done? ==> r.value == old(d.target.None?))
              && (r == Done(true) ==> d.target == Some(old(d.artifacts[Staged(m)])))
              && (d.target == old(d.target) || (old(d.target).None? && d.target == Some(old(d.artifacts[Staged(m)]))))
  {
    assert d.artifacts[Staged(m)] in d.taken && d.artifacts[Staged(m)] !in d.apart;
    LinkedBackAtMost(d.links, d.artifacts[Staged(m)]);
    hide Conserved, Tidy, LinkedBack;
    var c := d.CaptureArtifact(Staged(m));
    var linked :- d.LinkToTarget(Staged(m));
    if !linked {
      return Done(false);
    }
    var _ :- RemoveOwned(d, Staged(m), c.inode, busy);
    r := Done(true);
  }

  /** The failure path of a commit: drop the save, then the journal. */
  method Fail(d: Disk, id: nat, temporary: nat, result: CommitResult) returns (r: Step<CommitResult>)
    requires Safe(d, {id}) && Save(id) in d.artifacts && d.artifacts[Save(id)] == temporary
    requires temporary !in d.taken && QuarantineSave(id) !in d.artifacts
    requires id in d.journals ==> !Terminal(d.journals[id])
    modifies d`target, d`bytes, d`next, d`touched, d`artifacts, d`journals
    ensures !d.mortal ==> r.Done?
    ensures Safe(d, {id}) && d.Drifted(old(d.target), old(d.bytes), old(d.touched))
    ensures r.Done? ==> Safe(d, {}) && r.value == result
    ensures r.Done? ==> d.journals == old(d.journals) - {id} && d.artifacts == old(d.artifacts) - {Save(id)}
    ensures d.artifacts == old(d.artifacts) || d.artifacts == old(d.artifacts) - {Save(id)}
    ensures d.journals == old(d.journals) || d.journals == old(d.journals) - {id}
  {
    hide Conserved, Tidy;
    var _ :- RemoveOwned(d, Save(id), temporary, {id});
    TidySettled(d.artifacts, d.journals, d.taken, d.apart, id);
    if id in d.journals {
      ghost var target1, bytes1, touched1 := d.target, d.bytes, d.touched;
      var removed := d.RemoveJournal(id);
      RivalsRanTransitive(old(d.target), old(d.bytes), old(d.touched), target1, bytes1, touched1, d.target, d.bytes,
                          d.touched);
      var _ :- removed;
    }
    assert d.journals == old(d.journals) - {id};
    r := Done(result);
  }

  /** The save and the staged generation of write `id` between takeover and link. */
  ghost predicate Owned(d: Disk, id: nat, temporary: nat, expected: Text, replacement: Text)
    reads d
  {
    && Safe(d, {id})
    && id in d.journals && d.journals[id] == Journal(Sha256(expected), Sha256(replacement), Save(id), InFlight)
    && QuarantineSave(id) !in d.artifacts
    && d.Private(Save(id)) && d.artifacts[Save(id)] == temporary && temporary !in d.taken && temporary !in d.apart
    && d.Holds(Save(id), replacement)
    && d.Private(Staged(id))
  }

  /** Drop the artifacts of a published write in the given order, the journal last. */
  method Finish(d: Disk, id: nat, first: Name, second: Name) returns (r: Step<()>)
    requires Safe(d, {id}) && {first, second} == {Save(id), Staged(id)}
    requires first in d.artifacts && second in d.artifacts && d.Spare(first) && d.Spare(second)
    requires id in d.journals && !Terminal(d.journals[id])
    requires d.artifacts[first] !in d.taken || d.taken[d.artifacts[first]].text == d.taken[d.artifacts[first]].expected
    requires d.artifacts[second] !in d.taken
             || d.taken[d.artifacts[second]].text == d.taken[d.artifacts[second]].expected
    modifies d`target, d`bytes, d`next, d`touched, d`artifacts, d`journals
    ensures !d.mortal ==> r.Done?
    ensures Safe(d, {id})
    ensures r.Done? ==> Safe(d, {})
    ensures r.Done? ==> d.artifacts == old(d.artifacts) - {first, second} && d.journals == old(d.journals) - {id}
    ensures d.journals == old(d.journals) || d.journals == old(d.journals) - {id}
    ensures d.Drifted(old(d.target), old(d.bytes), old(d.touched))
  {
    hide Conserved, Tidy, RivalsRan;
    var removed := RemoveOwned(d, first, d.artifacts[first], {id});
    var _ :- removed;
    ghost var target1, bytes1, touched1 := d.target, d.bytes, d.touched;
    removed := RemoveOwned(d, second, d.artifacts[second], {id});
    RivalsRanTransitive(old(d.target), old(d.bytes), old(d.touched), target1, bytes1, touched1, d.target, d.bytes,
                        d.touched);
    var _ :- removed;
    target1, bytes1, touched1 := d.target, d.bytes, d.touched;
    TidySettled(d.artifacts, d.journals, d.taken, d.apart, id);
    removed := d.RemoveJournal(id);
    RivalsRanTransitive(old(d.target), old(d.bytes), old(d.touched), target1, bytes1, touched1, d.target, d.bytes,
                        d.touched);
    r := removed;
  }

  /** Link the new generation in create-only and clean up. The last read of the
      staged generation cannot differ: outside programs act on the target path. */
  method Publish(d: Disk, id: nat, temporary: nat, inode: nat, expected: Text, replacement: Text)
    returns (r: Step<CommitResult>)
    requires Owned(d, id, temporary, expected, replacement)
    requires d.artifacts[Staged(id)] == inode && d.bytes[inode] == expected
    requires inode in d.taken && d.taken[inode] == Taking(expected, expected)
    modifies d`target, d`links, d`bytes, d`next, d`touched, d`artifacts, d`journals
    ensures !d.mortal ==> r.Done?
    ensures Safe(d, {id})
    ensures r == Done(Committed) ==> d.links == old(d.links) + [Linking(temporary, replacement)]
    ensures r == Done(Conflict) ==> d.links == old(d.links)
    ensures r.Done? ==> Safe(d, {}) && (r.value == Committed || r.value == Conflict)
    ensures r.Done? ==> d.artifacts == old(d.artifacts) - {Save(id), Staged(id)} && d.journals == old(d.journals) - {id}
    ensures !d.rivals && old(d.target).None? ==>
              && Recoverable(d, id, expected, expected, replacement)
              && (r.Done? ==> r.value == Committed && d.Shows(replacement))
  {
    assert temporary != inode;
    hide Conserved, Tidy, RivalsRan;
    var linked :- d.LinkToTarget(Save(id));
    if !linked {
      r := GiveWay(d, id, temporary, inode);
      return;
    }
    var final := d.CaptureArtifact(Staged(id));
    assert final == Captured(inode, expected);
    var _ :- Finish(d, id, Save(id), Staged(id));
    r := Done(Committed);
  }

  /** Somebody else has the target again: drop the expected generation that was
      taken, and the replacement. */
  method GiveWay(d: Disk, id: nat, temporary: nat, inode: nat) returns (r: Step<CommitResult>)
    requires Safe(d, {id}) && Save(id) in d.artifacts && d.artifacts[Save(id)] == temporary && temporary !in d.taken
    requires Staged(id) in d.artifacts && d.artifacts[Staged(id)] == inode && d.Spare(Staged(id))
    requires QuarantineSave(id) !in d.artifacts && id in d.journals && !Terminal(d.journals[id])
    modifies d`target, d`bytes, d`next, d`touched, d`artifacts, d`journals
    ensures !d.mortal ==> r.Done?
    ensures Safe(d, {id})
    ensures r.Done? ==> Safe(d, {}) && r.value == Conflict
    ensures r.Done? ==> d.artifacts == old(d.artifacts) - {Save(id), Staged(id)} && d.journals == old(d.journals) - {id}
  {
    hide Conserved, Tidy, RivalsRan;
    var _ :- RemoveOwned(d, Staged(id), inode, {id});
    r := Fail(d, id, temporary, Conflict);
  }

  /** Verify the generation just taken; publish over it or put it back. */
  method VerifyTaken(d: Disk, id: nat, temporary: nat, inode: nat, expected: Text, replacement: Text)
    returns (r: Step<CommitResult>)
    requires Owned(d, id, temporary, expected, replacement) && d.artifacts[Staged(id)] == inode
    requires inode in d.taken && inode in d.bytes && d.taken[inode] == Taking(d.bytes[inode], expected)
    modifies d`target, d`links, d`bytes, d`next, d`touched, d`artifacts, d`journals
    ensures !d.mortal ==> r.Done?
    ensures Safe(d, {id})
    ensures r.Done? ==> Announced(old(d.links), d.links, d.taken, temporary, expected, replacement, r.value)
    ensures r.Done? ==> Safe(d, {}) && (r.value == Committed || r.value == Conflict)
    ensures !d.rivals && old(d.target).None? ==>
              var before := old(d.bytes[inode]);
              && Recoverable(d, id, before, expected, replacement)
              && (r.Done? ==>
                    && d.artifacts == old(d.artifacts) - {Save(id), Staged(id)} && d.journals == old(d.journals) - {id}
                    && if before == expected then r.value == Committed && d.Shows(replacement)
                       else r.value == Conflict && d.target == Some(inode) && d.Shows(before))
  {
    assert temporary != inode;
    hide Conserved, Tidy, RivalsRan;
    var staged := d.CaptureArtifact(Staged(id));
    if staged.raw == expected {
      AnnouncedNothing(d.links, d.taken, temporary, expected, replacement, Conflict);
      r := Publish(d, id, temporary, inode, expected, replacement);
      assert d.taken[inode] == Taking(expected, expected);
      return;
    }
    r := PutBack(d, id, temporary);
    AnnouncedBack(old(d.links), d.links, d.taken, temporary, expected, replacement, Conflict, inode);
  }

  /** Restore what was taken and give the write up. */
  method PutBack(d: Disk, id: nat, temporary: nat) returns (r: Step<CommitResult>)
    requires Safe(d, {id}) && Save(id) in d.artifacts && d.artifacts[Save(id)] == temporary && temporary !in d.taken
    requires d.Private(Staged(id)) && QuarantineSave(id) !in d.artifacts && id in d.journals
             && !Terminal(d.journals[id])
    modifies d`target, d`links, d`bytes, d`next, d`touched, d`artifacts, d`journals
    ensures !d.mortal ==> r.Done?
    ensures Safe(d, {id})
    ensures LinkedBack(old(d.links), d.links, old(d.artifacts[Staged(id)]))
    ensures r.Done? ==> Safe(d, {}) && r.value == Conflict && d.journals == old(d.journals) - {id}
    ensures !d.rivals ==> d.bytes == old(d.bytes) && d.touched == old(d.touched)
    ensures !d.rivals && old(d.target).None? ==>
              var i := old(d.artifacts[Staged(id)]);
              || (d.target.None? && d.artifacts == old(d.artifacts) && d.journals == old(d.journals) && r.Crashed?)
              || (d.target == Some(i) && (if r.Done? then d.artifacts == old(d.artifacts) - {Save(id), Staged(id)}
                                          else (d.artifacts == old(d.artifacts)
                                                || d.artifacts == old(d.artifacts) - {Staged(id)}
                                                || d.artifacts == old(d.artifacts) - {Save(id), Staged(id)})
                                               && (d.journals == old(d.journals)
                                                   || d.journals == old(d.journals) - {id})))
  {
    hide Conserved, Tidy, RivalsRan;
    var _ :- RestoreStaged(d, id, {id});
    r := Fail(d, id, temporary, Conflict);
  }

  /** Take whatever generation is at the target, then verify and publish. */
  method TakeAndPublish(d: Disk, id: nat, temporary: nat, expected: Text, replacement: Text)
    returns (r: Step<CommitResult>)
    requires Safe(d, {id})
    requires id in d.journals && d.journals[id] == Journal(Sha256(expected), Sha256(replacement), Save(id), InFlight)
    requires Staged(id) !in d.artifacts && QuarantineSave(id) !in d.artifacts
    requires d.Private(Save(id)) && d.artifacts[Save(id)] == temporary && temporary !in d.taken && temporary !in d.apart
    requires d.Holds(Save(id), replacement)
    modifies d`target, d`links, d`bytes, d`next, d`touched, d`artifacts, d`journals, d`taken
    ensures !d.mortal ==> r.Done?
    ensures Safe(d, {id})
    ensures r.Done? ==> Announced(old(d.links), d.links, d.taken, temporary, expected, replacement, r.value)
    ensures r.Done? ==> Safe(d, {})
    ensures TakenFor(old(d.taken), d.taken, expected)
    ensures !d.rivals && old(d.target).Some? ==>
              Recoverable(d, id, old(d.bytes[d.target.value]), expected, replacement)
    ensures !d.rivals && r.Done? ==>
              && d.artifacts == old(d.artifacts) - {Save(id)} && d.journals == old(d.journals) - {id}
              && match old(d.target)
                 case None => r.value == TargetMissing && d.target.None?
                 case Some(i) =>
                   if old(d.bytes[i]) == expected then r.value == Committed && d.Shows(replacement)
                   else r.value == Conflict && d.target == Some(i) && d.Shows(old(d.bytes[i]))
  {
    TakenNone(d.taken, expected);
    AnnouncedNothing(d.links, d.taken, temporary, expected, replacement, TargetMissing);
    AnnouncedNothing(d.links, d.taken, temporary, expected, replacement, OwnershipLost);
    hide Conserved, Tidy, RivalsRan, TakenFor, Announced;
    var seen := d.CaptureTarget();
    StillPrivate(old(d.target), old(d.bytes), old(d.touched), d.target, d.bytes, d.touched, temporary);
    if !seen.Captured? {
      r := Fail(d, id, temporary, if seen.Missing? then TargetMissing else OwnershipLost);
      return;
    }
    r := TakeSeen(d, id, temporary, seen.inode, expected, replacement);
  }

  /** The takeover rename, with what is known of the write afterwards. */
  method TakeTarget(d: Disk, id: nat, temporary: nat, expected: Text, replacement: Text) returns (r: Step<bool>)
    requires Safe(d, {id})
    requires id in d.journals && d.journals[id] == Journal(Sha256(expected), Sha256(replacement), Save(id), InFlight)
    requires Staged(id) !in d.artifacts && QuarantineSave(id) !in d.artifacts
    requires d.Private(Save(id)) && d.artifacts[Save(id)] == temporary && temporary !in d.taken && temporary !in d.apart
    requires d.Holds(Save(id), replacement)
    modifies d`target, d`bytes, d`next, d`touched, d`artifacts, d`taken
    ensures !d.mortal ==> r.Done?
    ensures Safe(d, {id})
    ensures r != Done(true) ==>
              d.artifacts == old(d.artifacts) && d.taken == old(d.taken)
              && (!d.rivals ==> d.target == old(d.target) && d.bytes == old(d.bytes))
    ensures r == Done(false) && !d.rivals ==> d.target.None?
    ensures r == Done(true) ==>
              && Owned(d, id, temporary, expected, replacement) && d.target.None?
              && var i := d.artifacts[Staged(id)];
              && d.artifacts == old(d.artifacts)[Staged(id) := i]
              && i in d.bytes && d.taken == old(d.taken)[i := Taking(d.bytes[i], expected)]
              && (!d.rivals ==> old(d.target) == Some(i) && d.bytes == old(d.bytes))
  {
    hide Conserved, Tidy, RivalsRan;
    ghost var artifacts0, taken0 := d.artifacts, d.taken;
    ghost var target1, bytes1, touched1 := d.target, d.bytes, d.touched;
    var owned :- d.TakeOver(id, expected);
    if owned {
      ghost var inode := d.artifacts[Staged(id)];
      StillPrivate(target1, bytes1, touched1, Some(inode), d.bytes, d.touched + {inode}, temporary);
      TidyTaken(artifacts0, d.journals, taken0, d.apart, id, inode, Taking(d.bytes[inode], expected));
    }
    r := Done(owned);
  }

  /** Take over the target; only the generation that was seen there counts. */
  method TakeSeen(d: Disk, id: nat, temporary: nat, seen: nat, expected: Text, replacement: Text)
    returns (r: Step<CommitResult>)
    requires Safe(d, {id})
    requires id in d.journals && d.journals[id] == Journal(Sha256(expected), Sha256(replacement), Save(id), InFlight)
    requires Staged(id) !in d.artifacts && QuarantineSave(id) !in d.artifacts
    requires d.Private(Save(id)) && d.artifacts[Save(id)] == temporary && temporary !in d.taken && temporary !in d.apart
    requires d.Holds(Save(id), replacement)
    requires !d.rivals ==> d.target == Some(seen)
    modifies d`target, d`links, d`bytes, d`next, d`touched, d`artifacts, d`journals, d`taken
    ensures !d.mortal ==> r.Done?
    ensures Safe(d, {id})
    ensures r.Done? ==> Announced(old(d.links), d.links, d.taken, temporary, expected, replacement, r.value)
    ensures r.Done? ==> Safe(d, {})
    ensures TakenFor(old(d.taken), d.taken, expected)
    ensures !d.rivals ==> Recoverable(d, id, old(d.bytes[seen]), expected, replacement)
    ensures !d.rivals && r.Done? ==>
              && d.artifacts == old(d.artifacts) - {Save(id)} && d.journals == old(d.journals) - {id}
              && if old(d.bytes[seen]) == expected then r.value == Committed && d.Shows(replacement)
                 else r.value == Conflict && d.target == Some(seen) && d.Shows(old(d.bytes[seen]))
  {
    TakenNone(d.taken, expected);
    hide Conserved, Tidy, RivalsRan, TakenFor, Announced;
    ghost var taken0 := d.taken;
    var owned :- TakeTarget(d, id, temporary, expected, replacement);
    AnnouncedNothing(d.links, d.taken, temporary, expected, replacement, TargetMissing);
    AnnouncedNothing(d.links, d.taken, temporary, expected, replacement, OwnershipLost);
    if !owned {
      r := Fail(d, id, temporary, TargetMissing);
      return;
    }
    var inode := d.artifacts[Staged(id)];
    TakenOne(taken0, inode, Taking(d.bytes[inode], expected));
    if inode != seen {
      r := Fail(d, id, temporary, OwnershipLost);
      return;
    }
    r := VerifyTaken(d, id, temporary, inode, expected, replacement);
  }

  /** The conditional replacement itself, once the save file `temporary` is durable. */
  method Commit(d: Disk, id: nat, temporary: nat, expected: Text, replacement: Text) returns (r: Step<CommitResult>)
    requires Safe(d, {}) && id !in d.journals
    requires Staged(id) !in d.artifacts && QuarantineSave(id) !in d.artifacts
    requires Prepared(d, id, temporary, replacement)
    modifies d`target, d`links, d`bytes, d`next, d`touched, d`artifacts, d`journals, d`taken, d`apart
    ensures !d.mortal ==> r.Done?
    ensures Safe(d, if r.Done? then {} else {id})
    ensures r.Done? ==> Announced(old(d.links), d.links, d.taken, temporary, expected, replacement, r.value)
    ensures TakenFor(old(d.taken), d.taken, expected)
    ensures !d.rivals && old(d.target).Some? ==>
              Recoverable(d, id, old(d.bytes[d.target.value]), expected, replacement)
    ensures !d.rivals && r.Done? ==>
              && d.artifacts == old(d.artifacts) - {Save(id)} && d.journals == old(d.journals)
              && match old(d.target)
                 case None => r.value == TargetMissing && d.target.None?
                 case Some(i) =>
                   if old(d.bytes[i]) == expected then r.value == Committed && d.Shows(replacement)
                   else r.value == Conflict && d.target == Some(i) && d.Shows(old(d.bytes[i]))
  {
    var j := Journal(Sha256(expected), Sha256(replacement), Save(id), InFlight);
    assert temporary !in d.taken;
    TidyJournaled(d.artifacts, d.journals, d.taken, d.apart, id, j);
    hide Conserved, Tidy, RivalsRan, Announced;
    var _ :- d.WriteJournal(id, j);
    StillPrivate(old(d.target), old(d.bytes), old(d.touched), d.target, d.bytes, d.touched, temporary);
    TidyReleased(d.artifacts, d.journals, d.taken, d.apart, id, temporary);
    d.apart := d.apart - {temporary};
    r := TakeAndPublish(d, id, temporary, expected, replacement);
    assert old(d.journals)[id := j] - {id} == old(d.journals);
  }

  /** A durable save file whose inode nothing else names. */
  ghost predicate Prepared(d: Disk, id: nat, temporary: nat, replacement: Text)
    reads d
  {
    && d.Private(Save(id)) && d.artifacts[Save(id)] == temporary && temporary in d.apart
    && (forall n | n in d.artifacts && d.artifacts[n] == temporary :: n == Save(id))
    && d.Holds(Save(id), replacement)
  }

  /** Create the save file exclusively, then write and sync the text. */
  method Prepare(d: Disk, id: nat, replacement: Text) returns (r: Step<nat>)
    requires Safe(d, {}) && Unused(d, id)
    modifies d`target, d`bytes, d`next, d`touched, d`artifacts, d`apart
    ensures !d.mortal ==> r.Done?
    ensures Safe(d, {})
    ensures r.Done? ==> r.value !in old(d.bytes)
    ensures r.Done? ==> Prepared(d, id, r.value, replacement) && d.artifacts == old(d.artifacts)[Save(id) := r.value]
    ensures !d.rivals ==> d.target == old(d.target)
    ensures !d.rivals ==> forall i | i in old(d.bytes) :: i in d.bytes && d.bytes[i] == old(d.bytes[i])
  {
    hide Tidy;
    var temporary :- d.CreateExclusive(Save(id));
    TidySaved(old(d.artifacts), d.journals, d.taken, d.apart, id, temporary);
    d.apart := d.apart + {temporary};
    var _ :- d.WriteText(Save(id), replacement);
    r := Done(temporary);
  }

  /** Write the replacement to a durable save file, then commit it if the
      target's text is `expected`. */
  method ReplaceIfUnchanged(d: Disk, id: nat, expected: Text, replacement: Text) returns (r: Step<CommitResult>)
    requires Safe(d, {}) && Unused(d, id)
    modifies d
    ensures !d.mortal ==> r.Done?
    ensures Safe(d, if r.Done? then {} else {id})
    ensures r.Done? ==> exists temporary ::
              && temporary !in old(d.bytes)
              && Announced(old(d.links), d.links, d.taken, temporary, expected, replacement, r.value)
    ensures TakenFor(old(d.taken), d.taken, expected)
    ensures !d.rivals && old(d.target).Some? ==>
              Recoverable(d, id, old(d.bytes[d.target.value]), expected, replacement)
    ensures !d.rivals && r.Done? ==>
              && d.artifacts == old(d.artifacts) && d.journals == old(d.journals)
              && match old(d.target)
                 case None => r.value == TargetMissing && d.target.None?
                 case Some(i) =>
                   if old(d.bytes[i]) == expected then r.value == Committed && d.Shows(replacement)
                   else r.value == Conflict && d.target == Some(i) && d.Shows(old(d.bytes[i]))
  {
    hide Tidy, RivalsRan, Announced;
    var temporary :- Prepare(d, id, replacement);
    r := Commit(d, id, temporary, expected, replacement);
    assert old(d.artifacts)[Save(id) := temporary] - {Save(id)} == old(d.artifacts);
  }
}
