/** Moving one file without ever replacing a generation of somebody else, and
    what startup recovery makes of a move that died. */
module CreateOnlyMove {
  import opened Wrappers
  import opened VaultDisk

  datatype Outcome = Moved | SourceMissing | MismatchBefore | MismatchAfter(quarantined: bool) | DestinationOccupied
                   | SourceReused

  /** The links made since `before`: at most one, and one that is not a restore
      of the source links exactly the expected generation. */
  ghost predicate LinkedOnly(before: seq<(Path, nat, Text)>, after: seq<(Path, nat, Text)>, from: Path, to: Path,
                             expected: Option<(nat, Text)>) {
    after != before ==>
      && |after| == |before| + 1 && after[..|before|] == before
      && var (p, i, text) := after[|before|];
         p == from || (p == to && (expected.Some? ==> expected.value == (i, text)))
  }

  function MovedPaths(paths: map<Path, nat>, from: Path, to: Path): map<Path, nat>
    requires from in paths
  {
    (paths - {from})[to := paths[from]]
  }

  /** What an undisturbed move yields. */
  function Expect(paths: map<Path, nat>, bytes: Inodes, from: Path, to: Path, expected: Option<(nat, Text)>): Outcome
    requires forall p | p in paths :: paths[p] in bytes
  {
    if expected.Some? && (from !in paths || (paths[from], bytes[paths[from]]) != expected.value) then MismatchBefore
    else if from !in paths then SourceMissing
    else if to in paths && to != from then DestinationOccupied
    else Moved
  }

  /** Put a staged file back, unless its path was taken meanwhile. Yields
      whether it had to stay under its staging name. */
  method RestoreStagedGeneration(d: Disk, n: nat, from: Path) returns (r: Step<bool>)
    requires d.Valid() && d.Private(n)
    modifies d
    ensures !d.mortal ==> r.Done?
    ensures d.Valid()
    ensures r.Done? && r.value ==> n in d.staged && d.staged == old(d.staged) && d.links == old(d.links)
    ensures r.Done? && !r.value ==> d.staged == old(d.staged) - {n}
    ensures LinkedOnly(old(d.links), d.links, from, from, None)
    ensures !d.rivals ==> d.bytes == old(d.bytes) && d.touched == old(d.touched)
    ensures !d.rivals && r.Done? ==> r.value == (from in old(d.paths))
    ensures !d.rivals ==>
              || (d.paths == old(d.paths) && d.staged == old(d.staged) && !(r.Done? && !r.value))
              || (d.paths == old(d.paths)[from := old(d.staged)[n]] && from !in old(d.paths)
                  && (if r.Done? then d.staged == old(d.staged) - {n} else d.staged == old(d.staged)))
  {
    // The capture of the staged bytes and its check agree: nobody else reaches them.
    var first := d.ReadStaged(n);
    var again := d.ReadStaged(n);
    assert first == again;
    var linked :- d.Link(n, from);
    if linked == Exists {
      return Done(true);
    }
    var _ :- d.Unlink(n);
    r := Done(false);
  }

  /** Move `from` to `to` through the fresh staging name `n`. With `expected`,
      only that inode with those bytes. */
  method CreateOnlyMoveFile(d: Disk, from: Path, to: Path, expected: Option<(nat, Text)>, n: nat)
    returns (r: Step<Outcome>)
    requires d.Valid() && n !in d.staged
    modifies d
    ensures !d.mortal ==> r.Done?
    ensures d.Valid()
    ensures LinkedOnly(old(d.links), d.links, from, to, expected)
    ensures r.Done? && r.value != Moved ==> LinkedOnly(old(d.links), d.links, from, from, None)
    ensures r == Done(Moved) ==> |d.links| == |old(d.links)| + 1 && d.links[|old(d.links)|].0 == to
    ensures r.Done? ==>
              if r.value == SourceReused || r.value == MismatchAfter(true) then n in d.staged
              else d.staged == old(d.staged)
    ensures !d.rivals ==>
              d.bytes == old(d.bytes) && d.touched == old(d.touched)
              && Midway(old(d.paths), old(d.staged), d.paths, d.staged, from, to, n)
    ensures !d.rivals && r.Done? ==>
              && r.value == Expect(old(d.paths), old(d.bytes), from, to, expected)
              && (r.value == Moved <==>
                    && from in old(d.paths) && (to !in old(d.paths) || to == from)
                    && (expected.Some? ==> expected.value == (old(d.paths)[from], old(d.bytes)[old(d.paths)[from]])))
              && (r.value == Moved ==>
                    && to in d.paths && d.paths[to] == old(d.paths)[from] && (to != from ==> from !in d.paths)
                    && forall p | p != from && p != to :: (p in d.paths <==> p in old(d.paths))
                         && (p in d.paths ==> d.paths[p] == old(d.paths)[p]))
              && d.staged == old(d.staged)
              && d.paths == if r.value == Moved then MovedPaths(old(d.paths), from, to) else old(d.paths)
  {
    ghost var paths0 := d.paths;
    var refused :- TakeOver(d, from, expected, n);
    if refused.Some? {
      return Done(refused.value);
    }
    if !d.rivals {
      TakenThenLanded(paths0, old(d.staged), from, to, n);
    }
    hide Midway;
    r := Land(d, from, to, n);
  }

  lemma TakenThenLanded(paths: map<Path, nat>, staged: map<nat, nat>, from: Path, to: Path, n: nat)
    requires from in paths && n !in staged
    ensures var i, taken := paths[from], staged[n := paths[from]];
            && taken - {n} == staged
            && Midway(paths, staged, paths - {from}, taken, from, to, n)
            && (paths - {from})[from := i] == paths
            && Midway(paths, staged, paths, taken, from, to, n) && Midway(paths, staged, paths, staged, from, to, n)
            && (to !in paths - {from} ==>
                  && Midway(paths, staged, (paths - {from})[to := i], taken, from, to, n)
                  && Midway(paths, staged, (paths - {from})[to := i], staged, from, to, n))
  {
  }

  /** Take the file aside and check that it is the expected generation, before
      and after. Yields why the move must not go on, if it must not. */
  method TakeOver(d: Disk, from: Path, expected: Option<(nat, Text)>, n: nat) returns (r: Step<Option<Outcome>>)
    requires d.Valid() && n !in d.staged
    modifies d
    ensures !d.mortal ==> r.Done?
    ensures d.Valid() && LinkedOnly(old(d.links), d.links, from, from, None)
    ensures r == Done(None) ==>
              && d.Private(n) && d.staged == old(d.staged)[n := d.staged[n]] && d.links == old(d.links)
              && (expected.Some? ==> expected.value == (d.staged[n], d.bytes[d.staged[n]]))
    ensures r.Done? && r.value.Some? ==> r.value.value != Moved && r.value.value != SourceReused
                                         && (if r.value.value == MismatchAfter(true) then n in d.staged
                                             else d.staged == old(d.staged))
    ensures !d.rivals ==> d.bytes == old(d.bytes) && d.touched == old(d.touched)
    ensures !d.rivals && r != Done(None) ==> d.paths == old(d.paths) && d.staged == old(d.staged)
    ensures !d.rivals && r == Done(None) ==>
              && from in old(d.paths) && d.paths == old(d.paths) - {from}
              && d.staged == old(d.staged)[n := old(d.paths)[from]]
              && (expected.Some? ==> expected.value == (old(d.paths)[from], old(d.bytes)[old(d.paths)[from]]))
    ensures !d.rivals && r.Done? && r.value.Some? ==>
              r.value.value == Expect(old(d.paths), old(d.bytes), from, from, expected)
  {
    hide RivalsRan, Conserved, Single;
    if expected.Some? {
      var before := d.Read(from);
      if before != expected {
        return Done(Some(MismatchBefore));
      }
    }
    var taken :- d.Take(from, n);
    if !taken {
      return Done(Some(SourceMissing));
    }
    if expected.None? {
      return Done(None);
    }
    r := CheckTaken(d, from, expected.value, n);
  }

  /** The check after the take-over: another generation goes back. */
  method CheckTaken(d: Disk, from: Path, expected: (nat, Text), n: nat) returns (r: Step<Option<Outcome>>)
    requires d.Valid() && d.Private(n)
    modifies d
    ensures !d.mortal ==> r.Done?
    ensures d.Valid() && LinkedOnly(old(d.links), d.links, from, from, None)
    ensures r == Done(None) ==>
              d.Private(n) && d.staged == old(d.staged) && d.links == old(d.links)
              && expected == (d.staged[n], d.bytes[d.staged[n]])
    ensures r.Done? && r.value.Some? ==> r.value.value.MismatchAfter?
                                         && (if r.value.value == MismatchAfter(true) then n in d.staged
                                             else d.staged == old(d.staged) - {n})
    ensures !d.rivals && expected == (old(d.staged)[n], old(d.bytes)[old(d.staged)[n]]) ==>
              r == Done(None) && d.paths == old(d.paths) && d.staged == old(d.staged) && d.bytes == old(d.bytes)
              && d.touched == old(d.touched)
  {
    hide RivalsRan, Conserved, Single;
    var generation := d.ReadStaged(n);
    if generation == expected {
      return Done(None);
    }
    var quarantined :- RestoreStagedGeneration(d, n, from);
    r := Done(Some(MismatchAfter(quarantined)));
  }

  /** Link the staged file in at the destination, or put it back. */
  method Land(d: Disk, from: Path, to: Path, n: nat) returns (r: Step<Outcome>)
    requires d.Valid() && d.Private(n)
    modifies d
    ensures !d.mortal ==> r.Done?
    ensures d.Valid()
    ensures LinkedOnly(old(d.links), d.links, from, to, Some((old(d.staged)[n], old(d.bytes)[old(d.staged)[n]])))
    ensures r.Done? ==> r.value in {Moved, SourceReused, DestinationOccupied}
    ensures r.Done? && r.value != Moved ==> LinkedOnly(old(d.links), d.links, from, from, None)
    ensures r == Done(Moved) ==> |d.links| == |old(d.links)| + 1 && d.links[|old(d.links)|].0 == to
    ensures r.Done? ==> if r.value == SourceReused then n in d.staged else d.staged == old(d.staged) - {n}
    ensures !d.rivals ==> d.bytes == old(d.bytes) && d.touched == old(d.touched)
    ensures !d.rivals ==> var i := old(d.staged)[n];
              if to in old(d.paths) then
                || (d.paths == old(d.paths) && d.staged == old(d.staged))
                || (from !in old(d.paths) && d.paths == old(d.paths)[from := i]
                    && (d.staged == old(d.staged) || d.staged == old(d.staged) - {n}))
              else
                || (d.paths == old(d.paths) && d.staged == old(d.staged))
                || (d.paths == old(d.paths)[to := i] && (d.staged == old(d.staged) || d.staged == old(d.staged) - {n}))
    ensures !d.rivals && r.Done? && from !in old(d.paths) ==>
              && r.value == (if to in old(d.paths) then DestinationOccupied else Moved)
              && d.staged == old(d.staged) - {n}
              && d.paths == old(d.paths)[if r.value == Moved then to else from := old(d.staged)[n]]
  {
    var linked :- d.Link(n, to);
    if linked == Exists {
      var quarantined :- RestoreStagedGeneration(d, n, from);
      return Done(if quarantined then SourceReused else DestinationOccupied);
    }
    var _ :- d.Unlink(n);
    r := Done(Moved);
  }

  /** The places an undisturbed move of `from` passes through. */
  ghost predicate Midway(paths: map<Path, nat>, staged: map<nat, nat>, paths': map<Path, nat>, staged': map<nat, nat>,
                         from: Path, to: Path, n: nat) {
    || (paths' == paths && staged' == staged)
    || (from in paths && staged' == staged[n := paths[from]]
        && (paths' == paths - {from} || paths' == paths
            || ((to in paths ==> to == from) && paths' == MovedPaths(paths, from, to))))
    || (from in paths && staged' == staged && (to in paths ==> to == from) && paths' == MovedPaths(paths, from, to))
  }

  datatype Recovered = CompletedRename | Restored | Quarantined

  /** Startup recovery of one staging name left beside `base`: complete the
      rename if the inode has a public path, or else put the file back. */
  method RecoverRenameStaging(d: Disk, n: nat, base: Path) returns (r: Step<Recovered>)
    requires d.Valid() && n in d.staged
    modifies d
    ensures !d.mortal ==> r.Done?
    ensures d.Valid()
    ensures LinkedOnly(old(d.links), d.links, base, base, None)
    ensures r.Done? ==> d.staged == if r.value == Quarantined then old(d.staged) else old(d.staged) - {n}
    ensures !d.rivals ==> d.bytes == old(d.bytes) && d.touched == old(d.touched)
    ensures !d.rivals ==>
              var i := old(d.staged)[n];
              || (d.paths == old(d.paths)
                  && (d.staged == old(d.staged) || (i in old(d.paths).Values && d.staged == old(d.staged) - {n})))
              || (base !in old(d.paths) && i !in old(d.paths).Values && d.paths == old(d.paths)[base := i]
                  && (d.staged == old(d.staged) || d.staged == old(d.staged) - {n}))
    ensures !d.rivals && r.Done? ==>
              if old(d.staged)[n] in old(d.paths).Values then r.value == CompletedRename && d.paths == old(d.paths)
              else if base in old(d.paths) then r.value == Quarantined
              else r.value == Restored && d.paths == old(d.paths)[base := old(d.staged)[n]]
  {
    d.Rivals();
    if d.staged[n] in d.paths.Values {
      var _ :- d.Unlink(n);
      return Done(CompletedRename);
    }
    var there := d.Read(base);
    if there.Some? {
      return Done(Quarantined);
    }
    var quarantined :- RestoreStagedGeneration(d, n, base);
    r := Done(if quarantined then Quarantined else Restored);
  }

  /** A move that may die anywhere, then startups that may die too. Without
      outside programs, once the staging name is gone the file is under exactly
      one of its two paths and nothing else changed. */
  method MoveAndRestart(d: Disk, from: Path, to: Path, expected: Option<(nat, Text)>, n: nat, startups: nat)
    requires d.Valid() && d.staged == map[] && (forall p | p in d.paths :: d.paths[p] in d.bytes)
    modifies d
    ensures d.Valid()
    ensures !d.rivals && !d.mortal ==> n !in d.staged
    ensures !d.rivals && n !in d.staged ==>
              && d.staged == map[] && d.bytes == old(d.bytes)
              && (d.paths == old(d.paths)
                  || (Expect(old(d.paths), old(d.bytes), from, to, None) == Moved
                      && d.paths == MovedPaths(old(d.paths), from, to)))
  {
    ghost var paths0 := d.paths;
    var outcome := CreateOnlyMoveFile(d, from, to, expected, n);
    for i := 0 to startups
      invariant !d.rivals && !d.mortal ==> n !in d.staged
      invariant d.Valid()
                && (!d.rivals ==> d.bytes == old(d.bytes) && Midway(paths0, map[], d.paths, d.staged, from, to, n))
    {
      if n in d.staged {
        ghost var paths1, staged1 := d.paths, d.staged;
        hide Midway, Conserved;
        var r := RecoverRenameStaging(d, n, from);
        if !d.rivals {
          RecoveryStaysMidway(paths0, paths1, staged1, d.paths, d.staged, from, to, n);
        }
      }
    }
  }

  lemma RecoveryStaysMidway(paths0: map<Path, nat>, paths: map<Path, nat>, staged: map<nat, nat>,
                            paths': map<Path, nat>, staged': map<nat, nat>,
                            from: Path, to: Path, n: nat)
    requires Single(paths0) && Midway(paths0, map[], paths, staged, from, to, n) && n in staged
    requires var i := staged[n];
             || (paths' == paths && (staged' == staged || (i in paths.Values && staged' == staged - {n})))
             || (from !in paths && i !in paths.Values && paths' == paths[from := i]
                 && (staged' == staged || staged' == staged - {n}))
    ensures Midway(paths0, map[], paths', staged', from, to, n)
  {
    var i := paths0[from];
    assert staged == map[n := i] && staged - {n} == map[];
    assert (paths0 - {from})[from := i] == paths0;
    if paths == paths0 - {from} {
      assert i !in paths.Values;
    } else if paths != paths0 {
      assert paths[to] == i;
    }
  }
}
