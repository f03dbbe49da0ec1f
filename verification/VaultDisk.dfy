/** The files of a vault under their public paths and under private staging
    names, with outside programs that act on any path between system calls. */
module VaultDisk {
  import opened Wrappers

  type Path = string

  type Text = string

  /** The bytes behind every inode ever used. */
  type Inodes = map<nat, Text>

  datatype RivalAct = Write(path: Path,
                            text: Text) | Replace(path: Path, text: Text) | Rename(path: Path,
                                                                                   to: Path) | Delete(path: Path)

  /** No inode has two public paths. */
  ghost predicate Single(paths: map<Path, nat>) {
    forall p, q | p in paths && q in paths && p != q :: paths[p] != paths[q]
  }

  /** What any number of outside steps may have changed; `t` and `t'` are the
      inodes an outside program has overwritten or removed. */
  ghost predicate RivalsRan(paths: map<Path, nat>, bytes: Inodes, t: set<nat>, paths': map<Path, nat>, bytes': Inodes,
                            t': set<nat>) {
    && bytes.Keys <= bytes'.Keys && t <= t'
    && (forall i | i in bytes :: bytes'[i] == bytes[i] || (i in paths.Values && i in t'))
    && (forall p | p in paths' :: paths'[p] in paths.Values || paths'[p] !in bytes)
    && (forall p | p in paths :: paths[p] in paths'.Values || paths[p] in t')
    && (forall i | i in t' && i in bytes :: i in t || i in paths.Values)
    && (Single(paths) ==> Single(paths'))
  }

  lemma RivalsRanTransitive(a: map<Path, nat>, ab: Inodes, at: set<nat>, b: map<Path, nat>, bb: Inodes, bt: set<nat>,
                            c: map<Path, nat>, cb: Inodes, ct: set<nat>)
    requires forall p | p in a :: a[p] in ab
    requires RivalsRan(a, ab, at, b, bb, bt) && RivalsRan(b, bb, bt, c, cb, ct)
    ensures RivalsRan(a, ab, at, c, cb, ct)
  {
    forall p | p in c
      ensures c[p] in a.Values || c[p] !in ab
    {
      if c[p] in b.Values {
        var q :| q in b && b[q] == c[p];
      }
    }
    forall i | i in b.Values
      ensures i in a.Values || i !in ab
    {
      var q :| q in b && b[q] == i;
    }
    forall p | p in a
      ensures a[p] in c.Values || a[p] in ct
    {
      if a[p] in b.Values {
        var q :| q in b && b[q] == a[p];
      }
    }
  }

  /** Nothing is lost: an inode no outside program has overwritten or removed
      still has its first bytes, under some name. */
  ghost predicate Conserved(paths: map<Path, nat>, staged: map<nat, nat>, bytes: Inodes, touched: set<nat>,
                            born: Inodes) {
    && bytes.Keys == born.Keys
    && forall i | i in bytes && i !in touched :: bytes[i] == born[i] && (i in paths.Values || i in staged.Values)
  }

  lemma RivalsConserve(paths: map<Path, nat>, staged: map<nat, nat>, bytes: Inodes, t: set<nat>, born: Inodes,
                       paths': map<Path, nat>, bytes': Inodes, t': set<nat>, born': Inodes)
    requires RivalsRan(paths, bytes, t, paths', bytes', t') && Conserved(paths, staged, bytes, t, born)
    requires born'.Keys == bytes'.Keys && born.Keys <= born'.Keys
    requires forall i | i in bytes' ::
               if i in bytes then born'[i] == born[i] else i in t' || (born'[i] == bytes'[i] && i in paths'.Values)
    ensures Conserved(paths', staged, bytes', t', born')
  {
    forall i | i in bytes' && i !in t'
      ensures bytes'[i] == born'[i] && (i in paths'.Values || i in staged.Values)
    {
      if i in bytes && i in paths.Values {
        var p :| p in paths && paths[p] == i;
      }
    }
  }

  lemma RenameRan(paths: map<Path, nat>, bytes: Inodes, t: set<nat>, p: Path, to: Path)
    requires p in paths && p != to && Single(paths) && forall q | q in paths :: paths[q] in bytes
    ensures var paths' := (paths - {p})[to := paths[p]];
            && RivalsRan(paths, bytes, t, paths', bytes, t + if to in paths then {paths[to]} else {})
            && Single(paths') && forall q | q in paths' :: paths'[q] in bytes
  {
    var paths' := (paths - {p})[to := paths[p]];
    assert paths'[to] == paths[p];
    assert forall q | q in paths && q != p && q != to :: paths'[q] == paths[q];
  }

  lemma TakingLosesNothing(paths: map<Path, nat>, staged: map<nat, nat>, bytes: Inodes, touched: set<nat>, born: Inodes,
                           p: Path, n: nat)
    requires Conserved(paths, staged, bytes, touched, born) && p in paths && n !in staged && Single(paths)
    ensures Conserved(paths - {p}, staged[n := paths[p]], bytes, touched, born) && Single(paths - {p})
    ensures paths[p] !in (paths - {p}).Values
  {
    var paths', staged' := paths - {p}, staged[n := paths[p]];
    assert forall q | q in paths && q != p :: paths'[q] == paths[q];
    assert staged'[n] == paths[p] && forall m | m in staged :: staged'[m] == staged[m];
  }

  /** An inode under a public path stays there or is touched. */
  lemma StaysSpare(paths: map<Path, nat>, t: set<nat>, paths': map<Path, nat>, t': set<nat>, i: nat)
    requires t <= t' && forall p | p in paths :: paths[p] in paths'.Values || paths[p] in t'
    requires i in paths.Values || i in t
    ensures i in paths'.Values || i in t'
  {
    if i in paths.Values {
      var p :| p in paths && paths[p] == i;
    }
  }

  lemma UnlinkingLosesNothing(paths: map<Path, nat>, staged: map<nat, nat>, bytes: Inodes, touched: set<nat>,
                              born: Inodes, n: nat)
    requires Conserved(paths, staged, bytes, touched, born)
             && (n in staged ==> staged[n] in paths.Values || staged[n] in touched)
    ensures Conserved(paths, staged - {n}, bytes, touched, born)
  {
    var staged' := staged - {n};
    assert forall m | m in staged && m != n :: staged'[m] == staged[m];
  }

  /** What link() reports. */
  datatype LinkResult = Linked | Exists

  /** Every method that changes something first lets the outside programs run,
      and may then find the machine dead. Class invariant: nothing is lost. */
  class Disk {
    var paths: map<Path, nat>
    var staged: map<nat, nat>
    var bytes: Inodes
    var next: nat
    const rivals: bool
    /** Whether the machine may die between two system calls. */
    const mortal: bool
    ghost var touched: set<nat>
    ghost var born: Inodes
    /** The links this program made, with the bytes linked. */
    ghost var links: seq<(Path, nat, Text)>

    ghost predicate Valid()
      reads this
    {
      && (forall p | p in paths :: paths[p] in bytes) && Single(paths)
      && (forall n | n in staged :: staged[n] in bytes)
      && (forall i | i in bytes :: i < next)
      && Conserved(paths, staged, bytes, touched, born)
    }

    /** Only outside steps lie between the given state and this one. */
    ghost predicate Drifted(paths0: map<Path, nat>, bytes0: Inodes, touched0: set<nat>)
      reads this
    {
      && RivalsRan(paths0, bytes0, touched0, paths, bytes, touched)
      && (!rivals ==> paths == paths0 && bytes == bytes0 && touched == touched0)
    }

    /** No public path leads to the staged inode, so no outside step reaches it. */
    ghost predicate Private(n: nat)
      reads this
    {
      n in staged && staged[n] !in paths.Values
    }

    /** Dropping staging name `n` loses nothing; outside steps keep this so. */
    ghost predicate Spare(n: nat)
      reads this
    {
      n in staged ==> staged[n] in paths.Values || staged[n] in touched
    }

    constructor (paths: map<Path, nat>, bytes: Inodes, next: nat, rivals: bool, mortal: bool)
      requires (forall p | p in paths :: paths[p] in bytes) && Single(paths)
               && (forall i | i in bytes :: i < next && i in paths.Values)
      ensures Valid() && this.paths == paths && this.bytes == bytes && this.rivals == rivals && staged == map[]
      ensures this.mortal == mortal
    {
      this.paths, this.bytes, this.next, this.rivals, this.mortal := paths, bytes, next, rivals, mortal;
      staged, touched, born, links := map[], {}, bytes, [];
    }

    /** Whether the machine dies here; it does so only if it is mortal. */
    method Dies() returns (yes: bool)
      ensures yes ==> mortal
    {
      yes := *;
      yes := yes && mortal;
    }

    /** One outside step; an act that the paths rule out does nothing. */
    method Rival(act: RivalAct)
      requires Valid()
      modifies `paths, `bytes, `next, `touched, `born
      ensures Valid()
      ensures RivalsRan(old(paths), old(bytes), old(touched), paths, bytes, touched)
    {
      match act {
        case Write(p, text) =>
          if p in paths {
            RivalOverwrites(p, text);
          } else {
            RivalCreates(p, text);
          }
        case Replace(p, text) =>
          RivalDeletes(p);
          assert p !in paths;
          ghost var paths1, touched1 := paths, touched;
          RivalCreates(p, text);
          RivalsRanTransitive(old(paths), old(bytes), old(touched), paths1, old(bytes), touched1, paths, bytes,
                              touched);
        case Delete(p) =>
          RivalDeletes(p);
        case Rename(p, to) =>
          if p in paths && p != to {
            RivalRenames(p, to);
          }
      }
    }

    method RivalOverwrites(p: Path, text: Text)
      requires Valid() && p in paths
      modifies `bytes, `touched
      ensures Valid()
      ensures RivalsRan(paths, old(bytes), old(touched), paths, bytes, touched)
    {
      bytes, touched := bytes[paths[p] := text], touched + {paths[p]};
      RivalsConserve(paths, staged, old(bytes), old(touched), born, paths, bytes, touched, born);
    }

    method RivalCreates(p: Path, text: Text)
      requires Valid() && p !in paths
      modifies `paths, `bytes, `next, `born
      ensures Valid()
      ensures RivalsRan(old(paths), old(bytes), touched, paths, bytes, touched)
    {
      paths, bytes, born, next := paths[p := next], bytes[next := text], born[next := text], next + 1;
      assert paths[p] == next - 1 && forall q | q in old(paths) :: paths[q] == old(paths)[q];
      RivalsConserve(old(paths), staged, old(bytes), touched, old(born), paths, bytes, touched, born);
    }

    method RivalDeletes(p: Path)
      requires Valid()
      modifies `paths, `touched
      ensures Valid() && p !in paths
      ensures RivalsRan(old(paths), bytes, old(touched), paths, bytes, touched)
    {
      touched := touched + if p in paths then {paths[p]} else {};
      paths := paths - {p};
      assert forall q | q in old(paths) && q != p :: paths[q] == old(paths)[q];
      RivalsConserve(old(paths), staged, bytes, old(touched), born, paths, bytes, touched, born);
    }

    method RivalRenames(p: Path, to: Path)
      requires Valid() && p in paths && p != to
      modifies `paths, `touched
      ensures Valid()
      ensures RivalsRan(old(paths), bytes, old(touched), paths, bytes, touched)
    {
      RenameRan(paths, bytes, touched, p, to);
      hide RivalsRan, Single, Conserved;
      touched := touched + if to in paths then {paths[to]} else {};
      paths := (paths - {p})[to := paths[p]];
      RivalsConserve(old(paths), staged, bytes, old(touched), born, paths, bytes, touched, born);
    }

    /** Outside programs act on the paths, any number of times. */
    method Rivals()
      requires Valid()
      modifies `paths, `bytes, `next, `touched, `born
      ensures Valid() && Drifted(old(paths), old(bytes), old(touched))
    {
      var steps: nat :| true;
      if !rivals {
        return;
      }
      while steps > 0
        invariant Valid() && RivalsRan(old(paths), old(bytes), old(touched), paths, bytes, touched)
      {
        var act: RivalAct :| true;
        ghost var paths0, bytes0, touched0 := paths, bytes, touched;
        Rival(act);
        RivalsRanTransitive(old(paths), old(bytes), old(touched), paths0, bytes0, touched0, paths, bytes, touched);
        steps := steps - 1;
      }
    }

    /** rename() of a public path onto a fresh staging name. */
    method Take(p: Path, n: nat) returns (r: Step<bool>)
      requires Valid() && n !in staged
      modifies `paths, `bytes, `next, `touched, `born, `staged
      ensures !mortal ==> r.Done?
      ensures Valid() && links == old(links)
      ensures r.Crashed? ==> staged == old(staged) && Drifted(old(paths), old(bytes), old(touched))
      ensures r.Done? && !r.value ==>
                staged == old(staged) && Drifted(old(paths), old(bytes), old(touched)) && p !in paths
      ensures r.Done? && r.value ==> n in staged && staged == old(staged)[n := staged[n]] && p !in paths && Private(n)
      ensures !rivals && r.Done? ==> r.value == (p in old(paths)) && bytes == old(bytes) && touched == old(touched)
      ensures !rivals && r.Done? && r.value ==> paths == old(paths) - {p} && staged[n] == old(paths)[p]
    {
      Rivals();
      var dies := Dies();
      if dies {
        return Crashed;
      }
      if p !in paths {
        return Done(false);
      }
      TakingLosesNothing(paths, staged, bytes, touched, born, p, n);
      hide Conserved, RivalsRan;
      paths, staged := paths - {p}, staged[n := paths[p]];
      r := Done(true);
    }

    /** link() of a staging name: it never replaces a path. */
    method Link(n: nat, p: Path) returns (r: Step<LinkResult>)
      requires Valid() && Private(n)
      modifies `paths, `bytes, `next, `touched, `born, `links
      ensures !mortal ==> r.Done?
      ensures Valid()
      ensures r != Done(Linked) ==> links == old(links) && Drifted(old(paths), old(bytes), old(touched))
      ensures r == Done(Exists) ==> p in paths
      ensures r == Done(Linked) ==>
                p in paths && paths[p] == staged[n] && links == old(links) + [(p, staged[n], bytes[staged[n]])]
      ensures n in staged && bytes[staged[n]] == old(bytes)[staged[n]] && (r != Done(Linked) ==> Private(n))
      ensures !rivals && r.Done? ==>
                (r.value == Exists <==> p in old(paths)) && bytes == old(bytes) && touched == old(touched)
      ensures !rivals && r == Done(Linked) ==> paths == old(paths)[p := staged[n]]
    {
      Rivals();
      var dies := Dies();
      if dies {
        return Crashed;
      }
      if p in paths {
        return Done(Exists);
      }
      ghost var paths0 := paths;
      paths := paths[p := staged[n]];
      assert forall q | q in paths0 :: paths[q] == paths0[q];
      links := links + [(p, staged[n], bytes[staged[n]])];
      r := Done(Linked);
    }

    /** unlink() of a staging name whose inode is no longer needed there. */
    method Unlink(n: nat) returns (r: Step<()>)
      requires Valid() && Spare(n)
      modifies `paths, `bytes, `next, `touched, `born, `staged
      ensures !mortal ==> r.Done?
      ensures Valid() && Drifted(old(paths), old(bytes), old(touched)) && links == old(links)
      ensures staged == if r.Crashed? then old(staged) else old(staged) - {n}
    {
      ghost var paths0, touched0 := paths, touched;
      Rivals();
      var dies := Dies();
      if dies {
        return Crashed;
      }
      if n in staged {
        StaysSpare(paths0, touched0, paths, touched, staged[n]);
      }
      UnlinkingLosesNothing(paths, staged, bytes, touched, born, n);
      hide Conserved, RivalsRan, Single;
      staged := staged - {n};
      r := Done(());
    }

    /** The inode and bytes under a public path. */
    method Read(p: Path) returns (r: Option<(nat, Text)>)
      requires Valid()
      modifies `paths, `bytes, `next, `touched, `born
      ensures Valid() && Drifted(old(paths), old(bytes), old(touched)) && links == old(links)
      ensures r == if p in paths then Some((paths[p], bytes[paths[p]])) else None
    {
      Rivals();
      r := if p in paths then Some((paths[p], bytes[paths[p]])) else None;
    }

    /** The inode and bytes under a staging name. */
    method ReadStaged(n: nat) returns (r: (nat, Text))
      requires Valid() && n in staged
      modifies `paths, `bytes, `next, `touched, `born
      ensures Valid() && Drifted(old(paths), old(bytes), old(touched)) && links == old(links)
      ensures r == (staged[n], bytes[staged[n]])
      ensures old(Private(n)) ==> Private(n) && bytes[staged[n]] == old(bytes)[staged[n]]
    {
      Rivals();
      r := (staged[n], bytes[staged[n]]);
    }
  }
}
