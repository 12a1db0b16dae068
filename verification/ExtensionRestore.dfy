/**
 The guarded replacement of a profile's extension targets: the live ones are moved aside, the
 staged ones moved in, and a failure on the way is undone. Any file-system call may fail.
 */
module ExtensionRestore {
  import opened Wrappers
  import opened FileTree

  // ----- targets -----

  /** No target lies inside another, so they can be moved in any order. */
  predicate Separate(targets: seq<Path>)
  {
    && [] !in targets
    && Distinct(targets)
    && forall a, b :: a in targets && b in targets && Under(a, b) ==> a == b
  }

  predicate Distinct(paths: seq<Path>)
  {
    forall i, j :: 0 <= i < j < |paths| ==> paths[i] != paths[j]
  }

  predicate Targeted(targets: seq<Path>, q: Path)
  {
    exists t :: t in targets && Under(t, q)
  }

  function WithoutAll(tree: Tree, targets: seq<Path>): Tree
  {
    map q | q in tree && !Targeted(targets, q) :: tree[q]
  }

  /** Outside the targets nothing changed, except that a missing parent directory may exist now. */
  ghost predicate SameOutside(before: Tree, after: Tree, targets: seq<Path>)
  {
    && (forall q :: q in before && !Targeted(targets, q) ==> q in after && after[q] == before[q])
    && forall q :: q in after && !Targeted(targets, q) && q !in before ==>
         after[q] == Directory && exists t :: t in targets && Under(q, t)
  }

  /** Where no file stands in the way of a staged target's parent directories. */
  ghost predicate Fits(before: Tree, t: Path)
  {
    forall q :: q in before && Under(q, t) && q != t ==> before[q] == Directory
  }

  /** The targets there are to move aside. */
  function Present(targets: seq<Path>, before: Tree): seq<Path>
  {
    if targets == [] then []
    else
      var rest, last := Present(targets[..|targets| - 1], before), targets[|targets| - 1];
      if last in before then rest + [last] else rest
  }

  lemma {:induction false} PresentPrefix(targets: seq<Path>, before: Tree, n: nat)
    requires n <= |targets|
    ensures Present(targets[..n], before) <= Present(targets, before)
  {
    if n < |targets| {
      PresentPrefix(targets[..|targets| - 1], before, n);
      assert targets[..|targets| - 1][..n] == targets[..n];
    } else {
      assert targets[..n] == targets;
    }
  }

  lemma PresentNext(targets: seq<Path>, before: Tree, i: nat)
    requires i < |targets|
    ensures Present(targets[..i + 1], before)
         == Present(targets[..i], before) + if targets[i] in before then [targets[i]] else []
    ensures Present(targets[..i + 1], before) <= Present(targets, before)
  {
    assert targets[..i + 1][..i] == targets[..i];
    PresentPrefix(targets, before, i + 1);
  }

  lemma NonePresent(before: Tree)
    ensures Present([], before) == []
  {
  }

  /** Abandoning loses something exactly when something had been moved. */
  lemma AbandonedUnchangedExactly(before: Tree, targets: seq<Path>, moved: seq<Path>)
    requires forall t :: t in moved ==> t in targets && t in before
    ensures WithoutAll(before, moved) == before <==> moved == []
  {
    if moved != [] {
      assert moved[0] in moved && Under(moved[0], moved[0]);
      assert moved[0] !in WithoutAll(before, moved);
    } else {
      assert WithoutAll(before, []) == before;
    }
  }

  ghost predicate AllFit(before: Tree, targets: seq<Path>, incoming: Tree)
  {
    forall t :: t in targets && t in incoming ==> Fits(before, t)
  }

  // ----- one target at a time -----

  lemma AboveNotTargeted(targets: seq<Path>, t: Path, q: Path)
    requires Separate(targets) && t in targets && Under(q, t) && q != t
    ensures !Targeted(targets, q)
  {
    if other :| other in targets && Under(other, q) {
      assert other == q[..|other|] == t[..|other|];
      assert Under(other, t);
    }
  }

  lemma OtherTarget(targets: seq<Path>, a: Path, b: Path, q: Path)
    requires Separate(targets) && a in targets && b in targets && a != b && Under(a, q)
    ensures !Under(b, q)
  {
    if Under(b, q) { Comparable(a, b, q); }
  }

  lemma WithoutTarget(tree: Tree, targets: seq<Path>, p: Path)
    requires Separate(targets) && p in targets
    ensures Subtree(Without(tree, p), p) == map[]
    ensures forall t :: t in targets && t != p ==> Subtree(Without(tree, p), t) == Subtree(tree, t)
    ensures forall q :: !Targeted(targets, q) ==> (q in Without(tree, p) <==> q in tree)
  {
    forall t | t in targets && t != p ensures Subtree(Without(tree, p), t) == Subtree(tree, t) {
      forall q | q in tree && Under(t, q) ensures !Under(p, q) { OtherTarget(targets, t, p, q); }
    }
  }

  lemma ArrivedTarget(from: Tree, to: Tree, targets: seq<Path>, p: Path)
    requires Separate(targets) && p in targets
    ensures Subtree(Arrived(from, to, p), p) == Subtree(from, p)
    ensures forall t :: t in targets && t != p ==> Subtree(Arrived(from, to, p), t) == Subtree(to, t)
    ensures forall q :: !Targeted(targets, q) ==>
              (q in Arrived(from, to, p) <==> q in to) && (q in to ==> Arrived(from, to, p)[q] == to[q])
  {
    WithoutTarget(to, targets, p);
    forall t | t in targets && t != p ensures Subtree(Arrived(from, to, p), t) == Subtree(to, t) {
      forall q | Under(t, q) ensures q !in Subtree(from, p) && (q in to ==> q in Without(to, p)) {
        OtherTarget(targets, t, p, q);
      }
    }
  }

  lemma ParentsOfTarget(tree: Tree, targets: seq<Path>, p: Path)
    requires Separate(targets) && p in targets
    requires [] in tree && tree[[]] == Directory
    ensures CreateDirAll(tree, Parent(p)).Some? <==> Fits(tree, p)
    ensures CreateDirAll(tree, Parent(p)).Some? ==>
              var made := CreateDirAll(tree, Parent(p)).value;
              && (forall t :: t in targets ==> Subtree(made, t) == Subtree(tree, t))
              && SameOutside(tree, made, targets)
              && [] in made && made[[]] == Directory
              && Parent(p) in made && made[Parent(p)] == Directory
  {
    CreateDirAllExactly(tree, Parent(p));
    forall q | Under(q, Parent(p)) ensures Under(q, p) && q != p && !Targeted(targets, q) {
      assert q == p[..|q|];
      AboveNotTargeted(targets, p, q);
    }
    forall q | Under(q, p) && q != p ensures Under(q, Parent(p)) {
      assert q == Parent(p)[..|q|];
    }
    if CreateDirAll(tree, Parent(p)).Some? {
      var made := CreateDirAll(tree, Parent(p)).value;
      forall t | t in targets ensures Subtree(made, t) == Subtree(tree, t) {
        forall q | q in made && Under(t, q) ensures q in tree && made[q] == tree[q] {
          assert Targeted(targets, q);
        }
      }
    }
  }

  lemma SameOutsideTransitive(a: Tree, b: Tree, c: Tree, targets: seq<Path>)
    requires SameOutside(a, b, targets) && SameOutside(b, c, targets)
    ensures SameOutside(a, c, targets)
  {
  }

  lemma EmptyWhenAbsent(tree: Tree, t: Path)
    requires WellFormed(tree) && t !in tree
    ensures Subtree(tree, t) == map[]
  {
    forall q | q in tree ensures !Under(t, q) {
      if Under(t, q) { AncestorsAreDirectories(tree, t, q); }
    }
  }

  lemma PresentInSubtree(a: Tree, b: Tree, t: Path)
    requires Subtree(a, t) == Subtree(b, t)
    ensures t in a <==> t in b
    ensures t in a ==> a[t] == b[t]
  {
    assert t in Subtree(a, t) <==> t in a;
    assert t in Subtree(b, t) <==> t in b;
    assert t in a ==> Subtree(a, t)[t] == a[t];
    assert t in b ==> Subtree(b, t)[t] == b[t];
  }

  /** Fits only looks above the target, where nothing but directories is ever added. */
  lemma FitsOutside(before: Tree, after: Tree, targets: seq<Path>, t: Path)
    requires Separate(targets) && t in targets && SameOutside(before, after, targets)
    ensures Fits(before, t) <==> Fits(after, t)
  {
    forall q | Under(q, t) && q != t ensures !Targeted(targets, q) { AboveNotTargeted(targets, t, q); }
  }

  lemma PresentFits(tree: Tree, t: Path)
    requires WellFormed(tree) && t in tree
    ensures Fits(tree, t)
  {
    forall q | q in tree && Under(q, t) && q != t ensures tree[q] == Directory {
      AncestorsAreDirectories(tree, q, t);
    }
  }

  // ----- where the targets are during a restore -----

  /**
   Each target of the live tree while installed ones have to be taken out again and moved ones
   have to come back: the others are as they were, and nothing is said of those that failed to.
   */
  ghost predicate Displaced(live: Tree, targets: seq<Path>, moved: seq<Path>, installed: seq<Path>, before: Tree,
                            failed: seq<Path>)
  {
    && SameOutside(before, live, targets)
    && [] in live && live[[]] == Directory
    && forall t :: t in targets && t !in failed ==>
         && (t in installed ==> t in live && (t !in moved ==> t !in before))
         && (t !in installed && t in moved ==> Subtree(live, t) == map[])
         && (t !in installed && t !in moved ==> Subtree(live, t) == Subtree(before, t))
  }

  ghost predicate Kept(aside: Tree, moved: seq<Path>, before: Tree)
  {
    forall t :: t in moved ==> t in before && Subtree(aside, t) == Subtree(before, t)
  }

  ghost predicate Unchanged(before: Tree, live: Tree, targets: seq<Path>)
  {
    UnchangedBut(before, live, targets, [])
  }

  /** Whatever else failed, the targets that are not reported are as they were. */
  ghost predicate UnchangedBut(before: Tree, live: Tree, targets: seq<Path>, reported: seq<Path>)
  {
    && SameOutside(before, live, targets)
    && forall t :: t in targets && t !in reported ==> Subtree(live, t) == Subtree(before, t)
  }

  lemma OutsideWithout(before: Tree, tree: Tree, targets: seq<Path>, p: Path)
    requires Separate(targets) && p in targets
    requires [] in tree && tree[[]] == Directory && SameOutside(before, tree, targets)
    ensures SameOutside(before, Without(tree, p), targets)
    ensures [] in Without(tree, p) && Without(tree, p)[[]] == Directory
  {
    WithoutTarget(tree, targets, p);
    AboveNotTargeted(targets, p, []);
  }

  lemma OutsideArrived(before: Tree, from: Tree, tree: Tree, targets: seq<Path>, p: Path)
    requires Separate(targets) && p in targets
    requires [] in tree && tree[[]] == Directory && SameOutside(before, tree, targets)
    ensures SameOutside(before, Arrived(from, tree, p), targets)
    ensures [] in Arrived(from, tree, p) && Arrived(from, tree, p)[[]] == Directory
  {
    OutsideWithout(before, tree, targets, p);
    assert forall q :: q in Subtree(from, p) ==> Targeted(targets, q);
    AboveNotTargeted(targets, p, []);
    hide Separate, Targeted, Without;
  }

  lemma Last(paths: seq<Path>)
    requires paths != [] && Distinct(paths)
    ensures var rest, last := paths[..|paths| - 1], paths[|paths| - 1];
            last !in rest && forall t :: t in paths <==> t in rest || t == last
  {
    assert paths == paths[..|paths| - 1] + [paths[|paths| - 1]];
  }

  lemma RemovedInstalled(live: Tree, targets: seq<Path>, moved: seq<Path>, installed: seq<Path>, before: Tree,
                         failed: seq<Path>, p: Path)
    requires WellFormed(before) && Separate(targets) && p in targets
    requires installed != [] && p == installed[|installed| - 1] && Distinct(installed)
    requires Displaced(live, targets, moved, installed, before, failed)
    requires p !in failed
    ensures Displaced(Without(live, p), targets, moved, installed[..|installed| - 1], before, failed)
  {
    Last(installed);
    WithoutTarget(live, targets, p);
    OutsideWithout(before, live, targets, p);
    if p !in moved { EmptyWhenAbsent(before, p); }
    hide SameOutside, Separate, Distinct, Targeted, Without, WellFormed;
    var rest, t' := installed[..|installed| - 1], Without(live, p);
    forall t | t in targets && t !in failed && t in rest ensures t in t' && (t !in moved ==> t !in before) {
      PresentInSubtree(live, t', t);
    }
    hide Subtree;
  }

  lemma NotRemoved(live: Tree, targets: seq<Path>, moved: seq<Path>, installed: seq<Path>, before: Tree,
                   failed: seq<Path>, p: Path)
    requires installed != [] && p == installed[|installed| - 1] && Distinct(installed)
    requires Displaced(live, targets, moved, installed, before, failed)
    ensures Displaced(live, targets, moved, installed[..|installed| - 1], before, failed + [p])
  {
    Last(installed);
    hide SameOutside, Distinct, Subtree;
  }

  lemma ReturnedMoved(live: Tree, aside: Tree, targets: seq<Path>, moved: seq<Path>, before: Tree,
                      failed: seq<Path>, p: Path)
    requires WellFormed(before) && Separate(targets) && p in targets
    requires moved != [] && p == moved[|moved| - 1] && Distinct(moved)
    requires Displaced(live, targets, moved, [], before, failed)
    requires Subtree(aside, p) == Subtree(before, p)
    ensures Displaced(Arrived(aside, live, p), targets, moved[..|moved| - 1], [], before, failed)
  {
    Last(moved);
    ArrivedTarget(aside, live, targets, p);
    OutsideArrived(before, aside, live, targets, p);
    hide SameOutside, Separate, Distinct, Targeted, Arrived, Subtree, WellFormed;
  }

  lemma NotReturned(live: Tree, targets: seq<Path>, moved: seq<Path>, before: Tree, failed: seq<Path>, p: Path)
    requires moved != [] && p == moved[|moved| - 1] && Distinct(moved)
    requires Displaced(live, targets, moved, [], before, failed)
    ensures Displaced(live, targets, moved[..|moved| - 1], [], before, failed + [p])
  {
    Last(moved);
    hide SameOutside, Distinct, Subtree;
  }

  lemma KeptRest(aside: Tree, targets: seq<Path>, moved: seq<Path>, before: Tree, p: Path)
    requires Separate(targets) && p in targets
    requires moved != [] && p == moved[|moved| - 1] && Distinct(moved)
    requires forall t :: t in moved ==> t in targets
    requires Kept(aside, moved, before)
    ensures Kept(Without(aside, p), moved[..|moved| - 1], before) && Kept(aside, moved[..|moved| - 1], before)
    ensures Subtree(aside, p) == Subtree(before, p)
  {
    Last(moved);
    WithoutTarget(aside, targets, p);
    hide Separate, Distinct, Without, Subtree;
  }

  // ----- the work -----

  datatype Outcome =
    | Restored
    | RolledBack(errors: seq<Path>)
    | Abandoned(moved: seq<Path>)

  class Workspace {
    var live: Tree
    /** The two temporary directories of a restore. */
    var aside: Tree
    var staged: Tree
    /** Which file-system calls fail for reasons outside the trees; the clock counts the calls. */
    const obstructed: nat -> bool
    var clock: nat

    constructor (live: Tree, staged: Tree, obstructed: nat -> bool)
      ensures this.live == live && this.staged == staged && this.aside == EmptyTree && this.obstructed == obstructed
      ensures clock == 0
    {
      this.live, this.staged, this.aside, this.obstructed := live, staged, EmptyTree, obstructed;
      clock := 0;
    }

    /** Every call from some moment on is left alone. */
    ghost predicate QuietFrom(start: nat)
    {
      forall k :: start <= k ==> !obstructed(k)
    }

    ghost predicate QuietBetween(start: nat, end: nat)
    {
      forall k :: start <= k < end ==> !obstructed(k)
    }

    /** No second call fails for outside reasons. */
    ghost predicate OneObstructionFrom(start: nat)
    {
      forall j, k :: start <= j && start <= k && obstructed(j) && obstructed(k) ==> j == k
    }

    /** The call before `failedAt` was the first to fail: it was obstructed, or a file was in its way. */
    ghost predicate FailedFirst(start: nat, failedAt: nat, unfit: bool)
      reads this
    {
      && start < failedAt <= clock && QuietBetween(start, failedAt - 1)
      && (obstructed(failedAt - 1) || unfit)
    }

    /**
     The call that makes the directory to move the (n+1)-th present target aside into is the
     first to fail; each target before it took two calls.
     */
    ghost predicate AbandonedAt(start: nat, n: nat, present: nat)
    {
      n < present && obstructed(start + 2 * n) && forall k :: start <= k < start + 2 * n ==> !obstructed(k)
    }

    ghost predicate RolledBackOk(before: Tree, targets: seq<Path>, errors: seq<Path>, failedAt: nat)
      reads this
    {
      && (errors == [] ==> Unchanged(before, live, targets))
      && UnchangedBut(before, live, targets, errors)
      && failedAt <= clock && (errors == [] <==> QuietBetween(failedAt, clock))
    }

    ghost predicate AbandonedOk(before: Tree, targets: seq<Path>, moved: seq<Path>)
      reads this
    {
      && live == WithoutAll(before, moved)
      && forall t :: t in moved ==> t in targets && t in before
    }

    ghost predicate RestoredOk(before: Tree, targets: seq<Path>, incoming: Tree)
      reads this
    {
      && SameOutside(before, live, targets)
      && (forall t :: t in targets ==> Subtree(live, t) == Subtree(incoming, t))
      && AllFit(before, targets, incoming)
      && forall t :: t in targets && t in incoming ==> HasParent(live, t)
    }

    method MoveAway(p: Path) returns (ok: bool)
      modifies this`live, this`aside, this`clock
      ensures ok <==> !obstructed(old(clock)) && Renamable(old(live), old(aside), p)
      ensures ok ==> aside == Arrived(old(live), old(aside), p) && live == Without(old(live), p)
      ensures !ok ==> aside == old(aside) && live == old(live)
      ensures clock == old(clock) + 1
    {
      ok := !obstructed(clock) && Renamable(live, aside, p);
      if ok { aside, live := Arrived(live, aside, p), Without(live, p); }
      clock := clock + 1;
    }

    method MoveIn(p: Path) returns (ok: bool)
      modifies this`live, this`staged, this`clock
      ensures ok <==> !obstructed(old(clock)) && Renamable(old(staged), old(live), p)
      ensures ok ==> live == Arrived(old(staged), old(live), p) && staged == Without(old(staged), p)
      ensures !ok ==> staged == old(staged) && live == old(live)
      ensures clock == old(clock) + 1
    {
      ok := !obstructed(clock) && Renamable(staged, live, p);
      if ok { live, staged := Arrived(staged, live, p), Without(staged, p); }
      clock := clock + 1;
    }

    method MoveBack(p: Path) returns (ok: bool)
      modifies this`live, this`aside, this`clock
      ensures ok <==> !obstructed(old(clock)) && Renamable(old(aside), old(live), p)
      ensures ok ==> live == Arrived(old(aside), old(live), p) && aside == Without(old(aside), p)
      ensures !ok ==> aside == old(aside) && live == old(live)
      ensures clock == old(clock) + 1
    {
      ok := !obstructed(clock) && Renamable(aside, live, p);
      if ok { live, aside := Arrived(aside, live, p), Without(aside, p); }
      clock := clock + 1;
    }

    method MakeLiveDirectory(p: Path) returns (ok: bool)
      modifies this`live, this`clock
      ensures ok <==> !obstructed(old(clock)) && CreateDirAll(old(live), p).Some?
      ensures live == if ok then CreateDirAll(old(live), p).value else old(live)
      ensures clock == old(clock) + 1
    {
      ok := !obstructed(clock) && CreateDirAll(live, p).Some?;
      if ok { live := CreateDirAll(live, p).value; }
      clock := clock + 1;
    }

    method MakeAsideDirectory(p: Path) returns (ok: bool)
      modifies this`aside, this`clock
      ensures ok <==> !obstructed(old(clock)) && CreateDirAll(old(aside), p).Some?
      ensures aside == if ok then CreateDirAll(old(aside), p).value else old(aside)
      ensures clock == old(clock) + 1
    {
      ok := !obstructed(clock) && CreateDirAll(aside, p).Some?;
      if ok { aside := CreateDirAll(aside, p).value; }
      clock := clock + 1;
    }

    /** Removes the file, or the directory with everything in it. */
    method Remove(p: Path) returns (ok: bool)
      modifies this`live, this`clock
      ensures ok <==> !obstructed(old(clock)) && p in old(live)
      ensures live == if ok then Without(old(live), p) else old(live)
      ensures clock == old(clock) + 1
    {
      ok := !obstructed(clock) && p in live;
      if ok { live := Without(live, p); }
      clock := clock + 1;
    }

    /**
     Takes the installed targets out again, newest first, and then moves the old ones back; a
     call that fails is reported and the others are still made. So each target that it does not
     report is as it was, and it has something to report exactly when a call of its own was
     obstructed.
     */
    method RollBack(targets: seq<Path>, moved: seq<Path>, installed: seq<Path>, ghost before: Tree)
      returns (errors: seq<Path>)
      requires WellFormed(before) && Separate(targets)
      requires Distinct(moved) && Distinct(installed)
      requires forall t :: t in moved || t in installed ==> t in targets
      requires Displaced(live, targets, moved, installed, before, []) && Kept(aside, moved, before)
      modifies this`live, this`aside, this`clock
      ensures errors == [] ==> Unchanged(before, live, targets)
      ensures UnchangedBut(before, live, targets, errors)
      ensures forall t :: t in errors ==> t in moved || t in installed
      ensures errors == [] <==> QuietBetween(old(clock), clock)
      ensures old(clock) <= clock
    {
      hide SameOutside, Separate, Without, Distinct, Displaced, Kept;
      errors := [];
      var i := |installed|;
      assert installed[..i] == installed;
      while i > 0
        invariant i <= |installed| && old(clock) <= clock && aside == old(aside)
        invariant Displaced(live, targets, moved, installed[..i], before, errors)
        invariant forall t :: t in errors ==> t in installed[i..]
        invariant errors == [] <==> QuietBetween(old(clock), clock)
      {
        i := i - 1;
        ghost var rest := installed[..i + 1];
        DistinctPrefix(installed, i + 1);
        assert rest[..i] == installed[..i];
        OnlyOnce(installed, i);
        assert installed[i..] == [installed[i]] + installed[i + 1..];
        InstalledIsLive(live, targets, moved, rest, before, errors, installed[i]);
        RemovedInstalled(live, targets, moved, rest, before, errors, installed[i]);
        NotRemoved(live, targets, moved, rest, before, errors, installed[i]);
        var ok := Remove(installed[i]);
        if !ok { errors := errors + [installed[i]]; }
      }
      assert installed[..0] == [];
      errors := MoveAllBack(targets, moved, before, errors);
    }

    method MoveAllBack(targets: seq<Path>, moved: seq<Path>, ghost before: Tree, earlier: seq<Path>)
      returns (errors: seq<Path>)
      requires WellFormed(before) && Separate(targets) && Distinct(moved)
      requires forall t :: t in moved ==> t in targets
      requires Displaced(live, targets, moved, [], before, earlier) && Kept(aside, moved, before)
      modifies this`live, this`aside, this`clock
      ensures UnchangedBut(before, live, targets, errors)
      ensures forall t :: t in errors ==> t in moved || t in earlier
      ensures errors == [] <==> earlier == [] && QuietBetween(old(clock), clock)
      ensures old(clock) <= clock
    {
      hide SameOutside, Separate, Without, Arrived, Distinct, Displaced, Kept, Renamable, CreateDirAll;
      errors := earlier;
      var i := |moved|;
      assert moved[..i] == moved;
      while i > 0
        invariant i <= |moved| && old(clock) <= clock
        invariant Displaced(live, targets, moved[..i], [], before, errors) && Kept(aside, moved[..i], before)
        invariant forall t :: t in errors ==> t in moved || t in earlier
        invariant errors == [] <==> earlier == [] && QuietBetween(old(clock), clock)
      {
        i := i - 1;
        ghost var rest := moved[..i + 1];
        DistinctPrefix(moved, i + 1);
        assert rest[..i] == moved[..i];
        NonRoot(targets, moved[i]);
        KeptRest(aside, targets, rest, before, moved[i]);
        NotReturned(live, targets, rest, before, errors, moved[i]);
        ParentOfMoved(live, aside, targets, rest, before, errors, moved[i]);
        var made := MakeLiveDirectory(Parent(moved[i]));
        if !made {
          errors := errors + [moved[i]];
          continue;
        }
        ReturnedMoved(live, aside, targets, rest, before, errors, moved[i]);
        NotReturned(live, targets, rest, before, errors, moved[i]);
        var ok := MoveBack(moved[i]);
        if !ok { errors := errors + [moved[i]]; }
      }
      assert moved[..0] == [];
      NothingDisplaced(live, targets, before, errors);
    }

    /** The first loop: live targets go aside, in any order. */
    method MoveAllAway(targets: seq<Path>) returns (outcome: Option<Outcome>, moved: seq<Path>, ghost failedAt: nat)
      requires WellFormed(live) && Separate(targets) && aside == EmptyTree
      modifies this`live, this`aside, this`clock
      ensures old(clock) <= clock
      ensures outcome.None? ==> MovedAway(old(live), live, aside, targets, targets, moved)
      ensures outcome.None? ==> QuietBetween(old(clock), clock)
      ensures outcome.Some? ==> !outcome.value.Restored?
      ensures outcome.Some? ==> FailedFirst(old(clock), failedAt, false)
      ensures outcome.Some? && outcome.value.RolledBack? ==>
                RolledBackOk(old(live), targets, outcome.value.errors, failedAt)
      ensures outcome.Some? && outcome.value.Abandoned? ==> AbandonedOk(old(live), targets, outcome.value.moved)
      ensures outcome.Some? && outcome.value.Abandoned? ==>
                && AbandonedAt(old(clock), |outcome.value.moved|, |Present(targets, old(live))|)
                && outcome.value.moved <= Present(targets, old(live))
      ensures !(outcome.Some? && outcome.value.Abandoned?) ==>
                forall n :: !AbandonedAt(old(clock), n, |Present(targets, old(live))|)
    {
      hide MovedAway, Separate, WellFormed, CreateDirAll, Arrived, Without, SameOutside, Displaced, Kept, Unchanged;
      hide WithoutAll, Present, Distinct;
      ghost var before, start := live, clock;
      moved := [];
      failedAt := clock;
      NothingMovedAway(before, targets);
      NonePresent(before);
      assert targets[..0] == [];
      for i := 0 to |targets|
        invariant MovedAway(before, live, aside, targets, targets[..i], moved)
        invariant moved == Present(targets[..i], before) && clock == start + 2 * |moved|
        invariant QuietBetween(start, clock)
      {
        var p := targets[i];
        NotYet(targets, i);
        assert targets[..i + 1] == targets[..i] + [p];
        PresentNext(targets, before, i);
        PresentBefore(before, live, aside, targets, targets[..i], moved, p);
        if p !in live {
          MovedAwaySkips(before, live, aside, targets, targets[..i], moved, p);
          continue;
        }
        MovedAwayWithParents(before, live, aside, targets, targets[..i], moved, p);
        var made := MakeAsideDirectory(Parent(p));
        if !made {
          MovedAwayFacts(before, live, aside, targets, targets[..i], moved);
          return Some(Abandoned(moved)), moved, clock;
        }
        MovedAwayFacts(before, live, aside, targets, targets[..i], moved);
        MovedAwayOneMore(before, live, aside, targets, targets[..i], moved, p);
        var ok := MoveAway(p);
        if !ok {
          failedAt := clock;
          assert forall n :: !AbandonedAt(start, n, |Present(targets, before)|);
          var errors := RollBack(targets, moved, [], before);
          return Some(RolledBack(errors)), moved, failedAt;
        }
        moved := moved + [p];
      }
      assert targets[..|targets|] == targets;
      outcome := None;
    }

    /** The second loop: staged targets go in. */
    method MoveAllIn(targets: seq<Path>, moved: seq<Path>, ghost before: Tree)
      returns (outcome: Outcome, ghost failedAt: nat)
      requires WellFormed(before) && WellFormed(staged) && Separate(targets)
      requires MovedAway(before, live, aside, targets, targets, moved)
      modifies this
      ensures old(clock) <= clock
      ensures !outcome.Abandoned?
      ensures outcome.Restored? ==> RestoredOk(before, targets, old(staged))
      ensures outcome.RolledBack? ==> RolledBackOk(before, targets, outcome.errors, failedAt)
      ensures outcome.Restored? ==> QuietBetween(old(clock), clock)
      ensures outcome.RolledBack? ==> FailedFirst(old(clock), failedAt, !AllFit(before, targets, old(staged)))
    {
      hide MovedAway, Separate, WellFormed, CreateDirAll, Arrived, Without, SameOutside, Displaced, Kept, Unchanged;
      hide Installed, Fits, Distinct, Subtree;
      ghost var incoming := staged;
      var installed: seq<Path> := [];
      failedAt := clock;
      MovedAwayFacts(before, live, aside, targets, targets, moved);
      NothingInstalled(before, live, aside, staged, targets, moved);
      assert targets[..0] == [];
      for i := 0 to |targets|
        invariant old(clock) <= clock && aside == old(aside) && QuietBetween(old(clock), clock)
        invariant Installed(before, live, staged, incoming, targets, targets[..i], installed)
      {
        var p := targets[i];
        NotYet(targets, i);
        assert targets[..i + 1] == targets[..i] + [p];
        InstalledWithParents(before, live, staged, incoming, targets, targets[..i], installed, p);
        if p !in staged {
          InstalledSkips(before, live, staged, incoming, targets, targets[..i], installed, p);
          continue;
        }
        var made := MakeLiveDirectory(Parent(p));
        if !made {
          failedAt := clock;
          InstalledDisplaced(before, live, staged, incoming, targets, targets[..i], installed, moved);
          var errors := RollBack(targets, moved, installed, before);
          return RolledBack(errors), failedAt;
        }
        InstalledOneMore(before, live, staged, incoming, targets, targets[..i], installed, p);
        var ok := MoveIn(p);
        if !ok {
          failedAt := clock;
          InstalledDisplaced(before, live, staged, incoming, targets, targets[..i], installed, moved);
          var errors := RollBack(targets, moved, installed, before);
          return RolledBack(errors), failedAt;
        }
        installed := installed + [p];
      }
      assert targets[..|targets|] == targets;
      AllInstalled(before, live, staged, incoming, targets, installed);
      outcome := Outcome.Restored;
    }

    /**
     Replaces the targets by the staged ones, in any order. Success means every target is as
     staged and nothing else changed. A reported failure means the profile is as it was, unless
     the rollback itself reports errors, or there was none because moving aside was abandoned:
     then exactly what had been moved is gone, as the temporary directories are dropped.
     The first failure is an obstructed call, or a live file where a staged target needs a
     directory. With no call obstructed it succeeds exactly when there is no such file; with one
     call obstructed and no such file, a failure leaves the profile as it was, or is the abandoning.
     */
    method Replace(targets: seq<Path>) returns (outcome: Outcome, ghost failedAt: nat)
      requires WellFormed(live) && WellFormed(staged) && Separate(targets) && aside == EmptyTree
      modifies this
      ensures outcome.Restored? ==> RestoredOk(old(live), targets, old(staged))
      ensures outcome.RolledBack? ==> RolledBackOk(old(live), targets, outcome.errors, failedAt)
      ensures outcome.Abandoned? ==> AbandonedOk(old(live), targets, outcome.moved)
      ensures outcome.Abandoned? <==> exists n :: AbandonedAt(old(clock), n, |Present(targets, old(live))|)
      ensures outcome.Abandoned? ==> AbandonedAt(old(clock), |outcome.moved|, |Present(targets, old(live))|)
      ensures outcome.Restored? ==> QuietBetween(old(clock), clock)
      ensures !outcome.Restored? ==> FailedFirst(old(clock), failedAt, !AllFit(old(live), targets, old(staged)))
      ensures QuietFrom(old(clock)) ==> (outcome.Restored? <==> AllFit(old(live), targets, old(staged)))
      ensures OneObstructionFrom(old(clock)) && AllFit(old(live), targets, old(staged)) ==>
                || outcome.Restored? || outcome.Abandoned?
                || (outcome == RolledBack([]) && Unchanged(old(live), live, targets))
      ensures aside == EmptyTree && staged == EmptyTree
    {
      hide MovedAway, Separate, WellFormed, SameOutside, Unchanged, WithoutAll, Fits, Subtree, AbandonedAt;
      ghost var before := live;
      var failure, moved;
      failure, moved, failedAt := MoveAllAway(targets);
      if failure.Some? {
        outcome := failure.value;
      } else {
        outcome, failedAt := MoveAllIn(targets, moved, before);
      }
      aside, staged := EmptyTree, EmptyTree;
    }
  }

  lemma NotYet(targets: seq<Path>, i: nat)
    requires Separate(targets) && i < |targets|
    ensures targets[i] !in targets[..i] && targets[i] != []
  {
  }

  lemma NonRoot(targets: seq<Path>, t: Path)
    requires Separate(targets) && t in targets
    ensures t != []
  {
  }

  lemma DistinctPrefix(paths: seq<Path>, n: nat)
    requires Distinct(paths) && n <= |paths|
    ensures Distinct(paths[..n])
  {
  }

  lemma OnlyOnce(paths: seq<Path>, i: nat)
    requires Distinct(paths) && i < |paths|
    ensures paths[i] !in paths[i + 1..]
  {
  }

  lemma InstalledIsLive(live: Tree, targets: seq<Path>, moved: seq<Path>, installed: seq<Path>, before: Tree,
                        failed: seq<Path>, p: Path)
    requires Displaced(live, targets, moved, installed, before, failed)
    requires p in targets && p in installed && p !in failed
    ensures p in live
  {
  }

  lemma NothingDisplaced(live: Tree, targets: seq<Path>, before: Tree, failed: seq<Path>)
    requires Displaced(live, targets, [], [], before, failed)
    ensures UnchangedBut(before, live, targets, failed)
  {
  }

  /** An old target's parents can be recreated, and then it can be renamed back. */
  lemma ParentOfMoved(live: Tree, aside: Tree, targets: seq<Path>, moved: seq<Path>, before: Tree,
                      failed: seq<Path>, p: Path)
    requires WellFormed(before) && Separate(targets) && p in targets && p in moved
    requires Displaced(live, targets, moved, [], before, failed) && Kept(aside, moved, before)
    ensures p != [] && CreateDirAll(live, Parent(p)).Some?
    ensures Displaced(CreateDirAll(live, Parent(p)).value, targets, moved, [], before, failed)
    ensures p !in failed ==> Renamable(aside, CreateDirAll(live, Parent(p)).value, p)
  {
    PresentFits(before, p);
    FitsOutside(before, live, targets, p);
    ParentsOfTarget(live, targets, p);
    var made := CreateDirAll(live, Parent(p)).value;
    SameOutsideTransitive(before, live, made, targets);
    PresentInSubtree(aside, before, p);
    forall t | t in targets && t in made ensures t in live && made[t] == live[t] { PresentInSubtree(made, live, t); }
    forall t | t in targets && t in live ensures t in made { PresentInSubtree(made, live, t); }
    assert p in made ==> p in Subtree(made, p);
    hide SameOutside, CreateDirAll, Separate;
  }

  // ----- the two loops -----

  /** After the first loop has gone through `done`. */
  ghost predicate MovedAway(before: Tree, live: Tree, aside: Tree, targets: seq<Path>, done: seq<Path>,
                            moved: seq<Path>)
  {
    && live == WithoutAll(before, moved)
    && Displaced(live, targets, moved, [], before, []) && Kept(aside, moved, before) && Distinct(moved)
    && (forall t :: t in moved <==> t in done && t in before)
    && (forall t :: t in moved ==> t in targets)
    && SameOutside(EmptyTree, aside, targets) && [] in aside && aside[[]] == Directory
    && forall t :: t in targets && t !in done ==> Subtree(aside, t) == map[]
  }

  lemma NothingMovedAway(before: Tree, targets: seq<Path>)
    requires WellFormed(before) && Separate(targets)
    ensures MovedAway(before, before, EmptyTree, targets, [], [])
  {
    assert WithoutAll(before, []) == before;
    assert forall t :: t in targets ==> Subtree(EmptyTree, t) == map[];
  }

  lemma MovedAwayFacts(before: Tree, live: Tree, aside: Tree, targets: seq<Path>, done: seq<Path>, moved: seq<Path>)
    requires MovedAway(before, live, aside, targets, done, moved)
    ensures live == WithoutAll(before, moved) && Distinct(moved)
    ensures Displaced(live, targets, moved, [], before, []) && Kept(aside, moved, before)
    ensures forall t :: t in moved <==> t in done && t in before
    ensures forall t :: t in moved ==> t in targets
  {
  }

  lemma WithoutOneMore(before: Tree, moved: seq<Path>, p: Path)
    ensures Without(WithoutAll(before, moved), p) == WithoutAll(before, moved + [p])
  {
    forall q ensures Targeted(moved + [p], q) <==> Targeted(moved, q) || Under(p, q) {
      if Targeted(moved, q) {
        var t :| t in moved && Under(t, q);
        assert t in moved + [p];
      }
      if Under(p, q) { assert p in moved + [p]; }
    }
  }

  lemma DisplacedOneMore(before: Tree, live: Tree, targets: seq<Path>, moved: seq<Path>, p: Path)
    requires Separate(targets) && p in targets
    requires Displaced(live, targets, moved, [], before, [])
    ensures Displaced(Without(live, p), targets, moved + [p], [], before, [])
  {
    WithoutTarget(live, targets, p);
    OutsideWithout(before, live, targets, p);
    hide Separate, SameOutside, Targeted, Without, Subtree;
  }

  lemma KeptOneMore(before: Tree, live: Tree, aside: Tree, targets: seq<Path>, moved: seq<Path>, p: Path)
    requires Separate(targets) && p in targets && p in before
    requires Subtree(live, p) == Subtree(before, p)
    requires Kept(aside, moved, before) && p !in moved && forall t :: t in moved ==> t in targets
    ensures Kept(Arrived(live, aside, p), moved + [p], before)
  {
    ArrivedTarget(live, aside, targets, p);
    hide Separate, Targeted, Arrived, Subtree;
  }

  lemma MovedAwayWithParents(before: Tree, live: Tree, aside: Tree, targets: seq<Path>, done: seq<Path>,
                             moved: seq<Path>, p: Path)
    requires Separate(targets) && p in targets && p !in done
    requires MovedAway(before, live, aside, targets, done, moved)
    ensures p != [] && CreateDirAll(aside, Parent(p)).Some?
    ensures var made := CreateDirAll(aside, Parent(p)).value;
            && MovedAway(before, live, made, targets, done, moved)
            && Parent(p) in made && made[Parent(p)] == Directory
            && p !in made
  {
    hide Displaced, Kept, WithoutAll, Distinct;
    assert Fits(EmptyTree, p);
    FitsOutside(EmptyTree, aside, targets, p);
    ParentsOfTarget(aside, targets, p);
    var made := CreateDirAll(aside, Parent(p)).value;
    SameOutsideTransitive(EmptyTree, aside, made, targets);
    assert p in made ==> p in Subtree(made, p);
    hide SameOutside, Separate, CreateDirAll, Fits, Subtree;
    assert Kept(made, moved, before) by { SameKept(aside, made, moved, before, targets); }
  }

  lemma SameKept(aside: Tree, made: Tree, moved: seq<Path>, before: Tree, targets: seq<Path>)
    requires Kept(aside, moved, before) && forall t :: t in moved ==> t in targets
    requires forall t :: t in targets ==> Subtree(made, t) == Subtree(aside, t)
    ensures Kept(made, moved, before)
  {
    hide Subtree;
  }

  lemma MovedAwayOneMore(before: Tree, live: Tree, aside: Tree, targets: seq<Path>, done: seq<Path>,
                         moved: seq<Path>, p: Path)
    requires Separate(targets) && p in targets && p !in done && p in live
    requires MovedAway(before, live, aside, targets, done, moved)
    ensures MovedAway(before, Without(live, p), Arrived(live, aside, p), targets, done + [p], moved + [p])
  {
    WithoutOneMore(before, moved, p);
    DisplacedOneMore(before, live, targets, moved, p);
    KeptOneMore(before, live, aside, targets, moved, p);
    ArrivedTarget(live, aside, targets, p);
    OutsideArrived(EmptyTree, live, aside, targets, p);
    hide Separate, SameOutside, Targeted, Without, Arrived, Subtree, Displaced, Kept, WithoutAll;
  }

  lemma PresentBefore(before: Tree, live: Tree, aside: Tree, targets: seq<Path>, done: seq<Path>, moved: seq<Path>,
                      p: Path)
    requires p in targets && p !in done
    requires MovedAway(before, live, aside, targets, done, moved)
    ensures p in live <==> p in before
  {
    PresentInSubtree(live, before, p);
  }

  lemma MovedAwaySkips(before: Tree, live: Tree, aside: Tree, targets: seq<Path>, done: seq<Path>, moved: seq<Path>,
                       p: Path)
    requires p in targets && p !in done && p !in before
    requires MovedAway(before, live, aside, targets, done, moved)
    ensures MovedAway(before, live, aside, targets, done + [p], moved)
  {
    hide Subtree, SameOutside, Displaced, Kept;
  }

  predicate HasParent(live: Tree, t: Path)
  {
    t != [] && Parent(t) in live && live[Parent(t)] == Directory
  }

  /** After the second loop has gone through `done`. */
  ghost predicate Installed(before: Tree, live: Tree, staged: Tree, incoming: Tree, targets: seq<Path>,
                            done: seq<Path>, installed: seq<Path>)
  {
    && InstalledInside(live, staged, incoming, targets, done, installed)
    && InstalledOutside(before, live, targets, installed)
  }

  ghost predicate InstalledInside(live: Tree, staged: Tree, incoming: Tree, targets: seq<Path>, done: seq<Path>,
                                  installed: seq<Path>)
  {
    && Distinct(installed)
    && (forall t :: t in installed <==> t in done && t in incoming)
    && (forall t :: t in targets && t in installed ==> Subtree(live, t) == Subtree(incoming, t))
    && (forall t :: t in targets && t !in installed ==> Subtree(live, t) == map[])
    && forall t :: t in targets && t !in done ==> Subtree(staged, t) == Subtree(incoming, t)
  }

  ghost predicate InstalledOutside(before: Tree, live: Tree, targets: seq<Path>, installed: seq<Path>)
  {
    && SameOutside(before, live, targets) && [] in live && live[[]] == Directory
    && forall t :: t in installed ==> t in targets && Fits(before, t) && HasParent(live, t)
  }

  lemma NothingInstalled(before: Tree, live: Tree, aside: Tree, staged: Tree, targets: seq<Path>, moved: seq<Path>)
    requires WellFormed(before)
    requires MovedAway(before, live, aside, targets, targets, moved)
    ensures Installed(before, live, staged, staged, targets, [], [])
  {
    forall t | t in targets ensures Subtree(live, t) == map[] {
      if t !in before { EmptyWhenAbsent(before, t); }
    }
    hide Subtree, SameOutside, WellFormed;
  }

  lemma InstalledDisplaced(before: Tree, live: Tree, staged: Tree, incoming: Tree, targets: seq<Path>,
                           done: seq<Path>, installed: seq<Path>, moved: seq<Path>)
    requires WellFormed(before)
    requires Installed(before, live, staged, incoming, targets, done, installed)
    requires forall t :: t in moved <==> t in targets && t in before
    requires forall t :: t in done ==> t in targets
    ensures Displaced(live, targets, moved, installed, before, [])
    ensures Distinct(installed) && forall t :: t in installed ==> t in targets
  {
    forall t | t in targets ensures t in installed ==> t in live {
      if t in installed { PresentInSubtree(live, incoming, t); }
    }
    forall t | t in targets && t !in moved ensures Subtree(before, t) == map[] { EmptyWhenAbsent(before, t); }
    hide Subtree, SameOutside, WellFormed, Fits;
  }

  lemma AllInstalled(before: Tree, live: Tree, staged: Tree, incoming: Tree, targets: seq<Path>, installed: seq<Path>)
    requires WellFormed(incoming)
    requires Installed(before, live, staged, incoming, targets, targets, installed)
    ensures SameOutside(before, live, targets)
    ensures forall t :: t in targets ==> Subtree(live, t) == Subtree(incoming, t)
    ensures forall t :: t in targets && t in incoming ==> Fits(before, t) && HasParent(live, t)
  {
    forall t | t in targets && t !in incoming ensures Subtree(incoming, t) == map[] { EmptyWhenAbsent(incoming, t); }
    hide Subtree, SameOutside, WellFormed, Fits;
  }

  lemma InstalledWithParents(before: Tree, live: Tree, staged: Tree, incoming: Tree, targets: seq<Path>,
                             done: seq<Path>, installed: seq<Path>, p: Path)
    requires Separate(targets) && p in targets && p !in done
    requires Installed(before, live, staged, incoming, targets, done, installed)
    ensures p in staged <==> p in incoming
    ensures p != []
    ensures Fits(before, p) <==> CreateDirAll(live, Parent(p)).Some?
    ensures CreateDirAll(live, Parent(p)).Some? ==>
              var made := CreateDirAll(live, Parent(p)).value;
              && Installed(before, made, staged, incoming, targets, done, installed)
              && HasParent(made, p)
              && p !in made
  {
    PresentInSubtree(staged, incoming, p);
    ParentsOfTarget(live, targets, p);
    FitsOutside(before, live, targets, p);
    if CreateDirAll(live, Parent(p)).Some? {
      var made := CreateDirAll(live, Parent(p)).value;
      assert p in made ==> p in Subtree(made, p);
      OutsideWithParents(before, live, made, targets, installed);
      hide SameOutside, Separate, CreateDirAll, Fits, Subtree, InstalledOutside;
    }
  }

  lemma OutsideWithParents(before: Tree, live: Tree, made: Tree, targets: seq<Path>, installed: seq<Path>)
    requires Separate(targets) && SameOutside(live, made, targets) && [] in made && made[[]] == Directory
    requires InstalledOutside(before, live, targets, installed)
    ensures InstalledOutside(before, made, targets, installed)
  {
    SameOutsideTransitive(before, live, made, targets);
    ParentsKept(live, made, targets);
    hide SameOutside, Separate, Fits, HasParent;
  }

  lemma ParentsKept(live: Tree, after: Tree, targets: seq<Path>)
    requires Separate(targets)
    requires forall q :: q in live && !Targeted(targets, q) ==> q in after && after[q] == live[q]
    ensures forall t :: t in targets && HasParent(live, t) ==> HasParent(after, t)
  {
    forall t | t in targets && HasParent(live, t) ensures HasParent(after, t) {
      AboveNotTargeted(targets, t, Parent(t));
    }
  }

  lemma OwnParentKept(from: Tree, live: Tree, targets: seq<Path>, p: Path)
    requires Separate(targets) && p in targets
    ensures forall t :: t in targets && HasParent(live, t) ==> HasParent(Arrived(from, live, p), t)
  {
    ArrivedTarget(from, live, targets, p);
    ParentsKept(live, Arrived(from, live, p), targets);
  }

  lemma InstalledOneMore(before: Tree, live: Tree, staged: Tree, incoming: Tree, targets: seq<Path>, done: seq<Path>,
                         installed: seq<Path>, p: Path)
    requires Separate(targets) && p in targets && p !in done && p in incoming && Fits(before, p) && HasParent(live, p)
    requires Installed(before, live, staged, incoming, targets, done, installed)
    ensures Installed(before, Arrived(staged, live, p), Without(staged, p), incoming, targets, done + [p],
                      installed + [p])
  {
    OneMoreInside(live, staged, incoming, targets, done, installed, p);
    OneMoreOutside(before, live, staged, targets, installed, p);
    hide InstalledInside, InstalledOutside;
  }

  lemma OneMoreInside(live: Tree, staged: Tree, incoming: Tree, targets: seq<Path>, done: seq<Path>,
                      installed: seq<Path>, p: Path)
    requires Separate(targets) && p in targets && p !in done && p in incoming
    requires InstalledInside(live, staged, incoming, targets, done, installed)
    ensures InstalledInside(Arrived(staged, live, p), Without(staged, p), incoming, targets, done + [p],
                            installed + [p])
  {
    ArrivedTarget(staged, live, targets, p);
    WithoutTarget(staged, targets, p);
    hide Separate, Targeted, Without, Arrived, Subtree;
  }

  lemma OneMoreOutside(before: Tree, live: Tree, staged: Tree, targets: seq<Path>, installed: seq<Path>, p: Path)
    requires Separate(targets) && p in targets && Fits(before, p) && HasParent(live, p)
    requires InstalledOutside(before, live, targets, installed)
    ensures InstalledOutside(before, Arrived(staged, live, p), targets, installed + [p])
  {
    OutsideArrived(before, staged, live, targets, p);
    OwnParentKept(staged, live, targets, p);
    hide Separate, SameOutside, Targeted, Arrived, Fits, HasParent;
  }

  lemma InstalledSkips(before: Tree, live: Tree, staged: Tree, incoming: Tree, targets: seq<Path>, done: seq<Path>,
                       installed: seq<Path>, p: Path)
    requires p in targets && p !in done && p !in incoming
    requires Installed(before, live, staged, incoming, targets, done, installed)
    ensures Installed(before, live, staged, incoming, targets, done + [p], installed)
  {
    hide Subtree, SameOutside, Fits;
  }
}
