/** One directory as the atomic text writer sees it: a target file, the hidden
    artifacts of the writes on it, their journals, and outside programs that
    act on the target path between any two system calls. */
module ReplaceDisk {
  import opened Wrappers

  type Text = string

  /** SHA-256, taken to be injective. */
  datatype Hash = Sha256(of: Text)

  /** The reserved names of write `id`. */
  datatype Name = Save(id: nat) | Staged(id: nat) | QuarantineSave(id: nat)

  datatype Phase = InFlight | QuarantineSavePending | ManualRecoveryRequired | PostCommitExternalMutation

  datatype Journal = Journal(expected: Hash, replacementHash: Hash, replacement: Name, phase: Phase)

  predicate Terminal(j: Journal) {
    j.phase == ManualRecoveryRequired || j.phase == PostCommitExternalMutation
  }

  /** The bytes behind every inode ever used. */
  type Inodes = map<nat, Text>

  /** What an outside program does to the target path in one step. */
  datatype RivalAct = Create(text: Text) | Overwrite(text: Text) | Replace(text: Text) | Delete

  /** What any number of outside steps may have changed: the target's entry and
      the bytes of its inode. `t` and `t'` are the inodes an outside program has
      overwritten at the target or removed from it. */
  ghost predicate RivalsRan(target: Option<nat>, bytes: Inodes, t: set<nat>, target': Option<nat>, bytes': Inodes,
                            t': set<nat>) {
    && bytes.Keys <= bytes'.Keys
    && t <= t'
    && (forall i | i in bytes :: bytes'[i] == bytes[i] || (target == Some(i) && i in t'))
    && (target'.Some? ==> target' == target || target'.value !in bytes)
    && (target.Some? && target' != target ==> target.value in t')
    && (forall i | i in t' && i in bytes :: i in t || target == Some(i))
  }

  lemma RivalsRanTransitive(a: Option<nat>, ab: Inodes, at: set<nat>, b: Option<nat>, bb: Inodes, bt: set<nat>,
                            c: Option<nat>, cb: Inodes, ct: set<nat>)
    requires a.Some? ==> a.value in ab
    requires RivalsRan(a, ab, at, b, bb, bt) && RivalsRan(b, bb, bt, c, cb, ct)
    ensures RivalsRan(a, ab, at, c, cb, ct)
  {
  }

  lemma StillPrivate(target: Option<nat>, bytes: Inodes, t: set<nat>, target': Option<nat>, bytes': Inodes,
                     t': set<nat>, i: nat)
    requires RivalsRan(target, bytes, t, target', bytes', t')
    requires i in bytes && target != Some(i)
    ensures target' != Some(i) && i in bytes' && bytes'[i] == bytes[i]
  {
  }

  /** Some name leads to inode `i`. */
  ghost predicate Named(target: Option<nat>, artifacts: map<Name, nat>, i: nat) {
    target == Some(i) || exists n :: n in artifacts && artifacts[n] == i
  }

  /** What a takeover found at the target, and the text expected by the write
      that took it last. */
  datatype Taking = Taking(text: Text, expected: Text)

  /** Nothing taken from the target is lost: a taken generation still has its
      bytes under some name, or it is what the write that took it expected, or it
      went back to the target and an outside program changed it there. */
  ghost predicate Conserved(target: Option<nat>, artifacts: map<Name, nat>, bytes: Inodes, taken: map<nat, Taking>,
                            touched: set<nat>) {
    forall i | i in taken && i !in touched ::
      && i in bytes
      && bytes[i] == taken[i].text
      && (taken[i].text == taken[i].expected || Named(target, artifacts, i))
  }

  lemma RivalsConserve(target: Option<nat>, artifacts: map<Name, nat>, bytes: Inodes, t: set<nat>, target': Option<nat>,
                       bytes': Inodes, t': set<nat>, taken: map<nat, Taking>)
    requires RivalsRan(target, bytes, t, target', bytes', t')
    requires Conserved(target, artifacts, bytes, taken, t)
    ensures Conserved(target', artifacts, bytes', taken, t')
  {
    forall i | i in taken && i !in t' && taken[i].text != taken[i].expected
      ensures Named(target', artifacts, i)
    {
      assert Named(target, artifacts, i);
    }
  }

  /** A link this program made to the target, with the bytes linked. */
  datatype Linking = Linking(inode: nat, text: Text)

  /** A path's generation as read around two looks at it. */
  datatype Capture = Missing | Changed | Captured(inode: nat, raw: Text)

  /** The directory, its journals and the outside programs. Every method that
      changes something first lets the outside programs run, and may then find
      the machine dead. Class invariant: nothing taken from the target is lost. */
  class Disk {
    var target: Option<nat>
    var artifacts: map<Name, nat>
    var bytes: Inodes
    var next: nat
    var journals: map<nat, Journal>
    /** Whether any outside program touches the target. */
    const rivals: bool
    /** Whether the machine may die between two system calls. */
    const mortal: bool
    ghost var taken: map<nat, Taking>
    ghost var touched: set<nat>
    /** The links this program made to the target. */
    ghost var links: seq<Linking>
    /** Inodes that will never be at the target. */
    ghost var apart: set<nat>

    ghost predicate Valid()
      reads this
    {
      && (target.Some? ==> target.value in bytes)
      && (forall n | n in artifacts :: artifacts[n] in bytes)
      && (forall i | i in bytes :: i < next)
      && taken.Keys <= bytes.Keys
      && touched <= bytes.Keys
      && apart <= bytes.Keys
      && (target.Some? ==> target.value !in apart)
      && Conserved(target, artifacts, bytes, taken, touched)
    }

    /** Only outside steps lie between the given directory state and this one. */
    ghost predicate Drifted(target0: Option<nat>, bytes0: Inodes, touched0: set<nat>)
      reads this
    {
      && RivalsRan(target0, bytes0, touched0, target, bytes, touched)
      && (!rivals ==> target == target0 && bytes == bytes0 && touched == touched0)
    }

    /** The artifact's inode is not the target's, so no outside step reaches it. */
    ghost predicate Private(n: Name)
      reads this
    {
      n in artifacts && target != Some(artifacts[n])
    }

    ghost predicate Holds(n: Name, text: Text)
      reads this
    {
      n in artifacts && artifacts[n] in bytes && bytes[artifacts[n]] == text
    }

    ghost predicate Shows(text: Text)
      reads this
    {
      target.Some? && target.value in bytes && bytes[target.value] == text
    }

    /** Dropping name `n` loses nothing; outside steps keep this so. */
    ghost predicate Spare(n: Name)
      reads this
    {
      n in artifacts ==>
        var i := artifacts[n];
        i !in taken || i in touched || taken[i].text == taken[i].expected || target == Some(i)
    }

    constructor (bytes: Inodes, next: nat, target: Option<nat>, rivals: bool, mortal: bool)
      requires forall i | i in bytes :: i < next
      requires target.Some? ==> target.value in bytes
      ensures Valid()
      ensures this.bytes == bytes && this.target == target && this.rivals == rivals && this.mortal == mortal
      ensures artifacts == map[] && journals == map[]
      ensures taken == map[] && touched == {} && apart == {} && links == []
    {
      this.bytes, this.next, this.target, this.rivals, this.mortal := bytes, next, target, rivals, mortal;
      artifacts, journals, taken, touched, apart, links := map[], map[], map[], {}, {}, [];
    }

    /** Whether the machine dies here; it does so only if it is mortal. */
    method Dies() returns (yes: bool)
      ensures yes ==> mortal
    {
      yes := *;
      yes := yes && mortal;
    }

    /** One outside step; an act that the path's state rules out does nothing. */
    method Rival(act: RivalAct)
      requires Valid()
      modifies `target, `bytes, `next, `touched
      ensures Valid()
      ensures RivalsRan(old(target), old(bytes), old(touched), target, bytes, touched)
    {
      var was := target;
      ghost var bytes0, touched0 := bytes, touched;
      match act {
        case Create(text) =>
          if was.None? {
            target, bytes, next := Some(next), bytes[next := text], next + 1;
          }
        case Overwrite(text) =>
          if was.Some? {
            bytes, touched := bytes[was.value := text], touched + {was.value};
          }
        case Replace(text) =>
          target, bytes, next := Some(next), bytes[next := text], next + 1;
          touched := touched + if was.Some? then {was.value} else {};
        case Delete =>
          target := None;
          touched := touched + if was.Some? then {was.value} else {};
      }
      RivalsConserve(was, artifacts, bytes0, touched0, target, bytes, touched, taken);
    }

    /** Outside programs act on the target path, any number of times. */
    method Rivals()
      requires Valid()
      modifies `target, `bytes, `next, `touched
      ensures Valid() && Drifted(old(target), old(bytes), old(touched))
    {
      var steps: nat :| true;
      if !rivals {
        return;
      }
      while steps > 0
        invariant Valid() && RivalsRan(old(target), old(bytes), old(touched), target, bytes, touched)
      {
        var act: RivalAct :| true;
        ghost var target0, bytes0, touched0 := target, bytes, touched;
        Rival(act);
        RivalsRanTransitive(old(target), old(bytes), old(touched), target0, bytes0, touched0, target, bytes, touched);
        steps := steps - 1;
      }
    }

    method TargetExists() returns (yes: bool)
      requires Valid()
      modifies `target, `bytes, `next, `touched
      ensures Valid() && Drifted(old(target), old(bytes), old(touched))
      ensures yes == target.Some?
    {
      Rivals();
      yes := target.Some?;
    }

    method TargetHashMatches(hash: Hash) returns (yes: bool)
      requires Valid()
      modifies `target, `bytes, `next, `touched
      ensures Valid() && Drifted(old(target), old(bytes), old(touched))
      ensures yes == Shows(hash.of)
    {
      Rivals();
      yes := target.Some? && Sha256(bytes[target.value]) == hash;
    }

    method HashMatches(n: Name, hash: Hash) returns (yes: bool)
      requires Valid()
      modifies `target, `bytes, `next, `touched
      ensures Valid() && Drifted(old(target), old(bytes), old(touched))
      ensures yes == Holds(n, hash.of)
    {
      Rivals();
      yes := n in artifacts && Sha256(bytes[artifacts[n]]) == hash;
    }

    /** Read the target's identity and bytes twice; outside steps may fall in between. */
    method CaptureTarget() returns (c: Capture)
      requires Valid()
      modifies `target, `bytes, `next, `touched
      ensures Valid() && Drifted(old(target), old(bytes), old(touched))
      ensures c.Captured? ==> target == Some(c.inode) && bytes[c.inode] == c.raw
      ensures c.Missing? ==> target.None?
      ensures !rivals ==> c == if target.Some? then Captured(target.value, bytes[target.value]) else Missing
    {
      Rivals();
      if target.None? {
        return Missing;
      }
      var inode, raw := target.value, bytes[target.value];
      ghost var target0, bytes0, touched0 := target, bytes, touched;
      Rivals();
      RivalsRanTransitive(old(target), old(bytes), old(touched), target0, bytes0, touched0, target, bytes, touched);
      if target.None? {
        return Missing;
      }
      if target.value != inode || bytes[inode] != raw {
        return Changed;
      }
      return Captured(inode, raw);
    }

    /** The same for an artifact, whose entry nobody else changes. */
    method CaptureArtifact(n: Name) returns (c: Capture)
      requires Valid()
      modifies `target, `bytes, `next, `touched
      ensures Valid() && Drifted(old(target), old(bytes), old(touched))
      ensures c.Missing? <==> n !in artifacts
      ensures c.Captured? ==> c == Captured(artifacts[n], bytes[artifacts[n]])
      ensures !rivals && n in artifacts ==> c.Captured?
      ensures old(Private(n)) ==> Private(n) && c == Captured(artifacts[n], old(bytes[artifacts[n]]))
    {
      Rivals();
      if n !in artifacts {
        return Missing;
      }
      var inode, raw := artifacts[n], bytes[artifacts[n]];
      ghost var target0, bytes0, touched0 := target, bytes, touched;
      Rivals();
      RivalsRanTransitive(old(target), old(bytes), old(touched), target0, bytes0, touched0, target, bytes, touched);
      if bytes[inode] != raw {
        return Changed;
      }
      return Captured(inode, raw);
    }

    /** open(O_CREAT | O_EXCL) of an artifact nobody else names. */
    method CreateExclusive(n: Name) returns (r: Step<nat>)
      requires Valid() && n !in artifacts
      modifies `target, `bytes, `next, `touched, `artifacts
      ensures !mortal ==> r.Done?
      ensures Valid()
      ensures r.Crashed? ==> artifacts == old(artifacts) && Drifted(old(target), old(bytes), old(touched))
      ensures r.Done? ==>
                && artifacts == old(artifacts)[n := r.value]
                && r.value !in old(bytes) && r.value !in taken && target != Some(r.value)
                && r.value in bytes && bytes[r.value] == "" && r.value !in apart
                && RivalsRan(old(target), old(bytes), old(touched), target, bytes, touched)
                && (!rivals ==> target == old(target) && touched == old(touched) && bytes == old(bytes)[r.value := ""])
    {
      Rivals();
      var dies := Dies();
      if dies {
        return Crashed;
      }
      ghost var artifacts0 := artifacts;
      r := Done(next);
      artifacts, bytes, next := artifacts[n := next], bytes[next := ""], next + 1;
      StillNamed(target, artifacts0, target, artifacts, {});
    }

    /** Write and sync through the descriptor CreateExclusive opened. */
    method WriteText(n: Name, text: Text) returns (r: Step<()>)
      requires Valid() && Private(n) && artifacts[n] !in taken
      modifies `target, `bytes, `next, `touched
      ensures !mortal ==> r.Done?
      ensures Valid() && Private(n)
      ensures RivalsRan(old(target), if r.Crashed? then old(bytes) else old(bytes[artifacts[n] := text]), old(touched),
                        target, bytes, touched)
      ensures !rivals ==> target == old(target) && touched == old(touched)
      ensures !rivals ==> bytes == if r.Crashed? then old(bytes) else old(bytes[artifacts[n] := text])
    {
      Rivals();
      var dies := Dies();
      if dies {
        return Crashed;
      }
      bytes := bytes[artifacts[n] := text];
      r := Done(());
    }

    /** link(n, target): create-only, so false means the target exists. */
    method LinkToTarget(n: Name) returns (r: Step<bool>)
      requires Valid() && n in artifacts && artifacts[n] !in apart
      modifies `target, `bytes, `next, `touched, `links
      ensures !mortal ==> r.Done?
      ensures Valid()
      ensures r != Done(true) ==> links == old(links)
      ensures r == Done(true) ==>
                artifacts[n] in bytes && links == old(links) + [Linking(artifacts[n], bytes[artifacts[n]])]
      ensures r == Done(true) ==>
                && target == Some(artifacts[n])
                && RivalsRan(old(target), old(bytes), old(touched), None, bytes, touched)
                && (forall m | old(Private(m)) ::
                      artifacts[m] in bytes && bytes[artifacts[m]] == old(bytes[artifacts[m]]))
                && (!rivals ==> old(target).None? && bytes == old(bytes) && touched == old(touched))
      ensures r == Done(false) ==> target.Some?
      ensures r != Done(true) ==> Drifted(old(target), old(bytes), old(touched))
    {
      Rivals();
      var dies := Dies();
      if dies {
        return Crashed;
      }
      if target.Some? {
        return Done(false);
      }
      target := Some(artifacts[n]);
      links := links + [Linking(artifacts[n], bytes[artifacts[n]])];
      StillNamed(None, artifacts, target, artifacts, {});
      r := Done(true);
    }

    /** rename(target, staged): whatever generation is at the target is taken.
        False means the target is gone. */
    method TakeOver(id: nat, ghost expected: Text) returns (r: Step<bool>)
      requires Valid() && Staged(id) !in artifacts
      modifies `target, `bytes, `next, `touched, `artifacts, `taken
      ensures !mortal ==> r.Done?
      ensures Valid()
      ensures r == Done(false) ==> target.None?
      ensures r != Done(true) ==>
                && artifacts == old(artifacts) && taken == old(taken)
                && Drifted(old(target), old(bytes), old(touched))
      ensures r == Done(true) ==>
                && target.None? && Staged(id) in artifacts
                && var i := artifacts[Staged(id)];
                && artifacts == old(artifacts)[Staged(id) := i]
                && i in bytes && taken == old(taken)[i := Taking(bytes[i], expected)] && i !in touched
                && RivalsRan(old(target), old(bytes), old(touched), Some(i), bytes, touched + {i})
                && (!rivals ==> old(target) == Some(i) && bytes == old(bytes) && touched == old(touched) - {i})
    {
      Rivals();
      var dies := Dies();
      if dies {
        return Crashed;
      }
      if target.None? {
        return Done(false);
      }
      var i := target.value;
      ghost var artifacts0 := artifacts;
      target, artifacts := None, artifacts[Staged(id) := i];
      assert artifacts[Staged(id)] == i;
      StillNamed(Some(i), artifacts0, None, artifacts, {i});
      taken, touched := taken[i := Taking(bytes[i], expected)], touched - {i};
      r := Done(true);
    }

    /** rename of one artifact to a fresh artifact name. */
    method Rename(from: Name, to: Name) returns (r: Step<()>)
      requires Valid() && from in artifacts && to !in artifacts
      modifies `target, `bytes, `next, `touched, `artifacts
      ensures !mortal ==> r.Done?
      ensures Valid() && Drifted(old(target), old(bytes), old(touched))
      ensures artifacts == if r.Crashed? then old(artifacts) else old(artifacts)[to := old(artifacts)[from]] - {from}
    {
      Rivals();
      var dies := Dies();
      if dies {
        return Crashed;
      }
      ghost var artifacts0 := artifacts;
      artifacts := artifacts[to := artifacts[from]] - {from};
      assert artifacts[to] == artifacts0[from];
      StillNamed(target, artifacts0, target, artifacts, {artifacts0[from]});
      r := Done(());
    }

    /** unlink of an artifact whose loss costs no taken generation. */
    method Unlink(n: Name) returns (r: Step<()>)
      requires Valid() && n in artifacts && Spare(n)
      modifies `target, `bytes, `next, `touched, `artifacts
      ensures !mortal ==> r.Done?
      ensures Valid() && Drifted(old(target), old(bytes), old(touched))
      ensures artifacts == if r.Crashed? then old(artifacts) else old(artifacts) - {n}
    {
      Rivals();
      var dies := Dies();
      if dies {
        return Crashed;
      }
      ghost var artifacts0 := artifacts;
      artifacts := artifacts - {n};
      StillNamed(target, artifacts0, target, artifacts, {artifacts0[n]});
      r := Done(());
    }

    /** A completed journal appears, or replaces its predecessor, in one step. */
    method WriteJournal(id: nat, j: Journal) returns (r: Step<()>)
      requires Valid()
      modifies `target, `bytes, `next, `touched, `journals
      ensures !mortal ==> r.Done?
      ensures Valid() && Drifted(old(target), old(bytes), old(touched))
      ensures journals == if r.Done? then old(journals)[id := j] else old(journals)
    {
      Rivals();
      var dies := Dies();
      if dies {
        return Crashed;
      }
      journals := journals[id := j];
      r := Done(());
    }

    method RemoveJournal(id: nat) returns (r: Step<()>)
      requires Valid()
      modifies `target, `bytes, `next, `touched, `journals
      ensures !mortal ==> r.Done?
      ensures Valid() && Drifted(old(target), old(bytes), old(touched))
      ensures journals == if r.Done? then old(journals) - {id} else old(journals)
    {
      Rivals();
      var dies := Dies();
      if dies {
        return Crashed;
      }
      journals := journals - {id};
      r := Done(());
    }
  }

  /** A change of entries that keeps every entry whose inode is outside `dropped`. */
  lemma StillNamed(target: Option<nat>, artifacts: map<Name, nat>, target': Option<nat>, artifacts': map<Name, nat>,
                   dropped: set<nat>)
    requires forall n | n in artifacts && artifacts[n] !in dropped :: n in artifacts' && artifacts'[n] == artifacts[n]
    requires target.Some? && target.value !in dropped ==> target' == target
    ensures forall i | Named(target, artifacts, i) && i !in dropped :: Named(target', artifacts', i)
  {
    forall i | Named(target, artifacts, i) && i !in dropped
      ensures Named(target', artifacts', i)
    {
      if target != Some(i) {
        var n :| n in artifacts && artifacts[n] == i;
        assert n in artifacts' && artifacts'[n] == i;
      }
    }
  }
}
