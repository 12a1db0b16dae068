/**
 Creating, archiving, restoring and deleting profiles: directories move between the browser's
 data directory and the archive, and a database row remembers where an archived one belongs.
 */
module ProfileLifecycle {
  import opened Wrappers

  const MAX_PROFILE_NUMBER := 0xFFFF_FFFF

  /** The row's own key is also the name of the archive's directory. */
  datatype Row = Row(directoryName: string)

  /**
   Directories hold the profile that was created as the n-th; `archived` is keyed by archive id.
   A directory can be there without a row, or the other way round.
   */
  datatype Library = Library(
    live: map<string, nat>, archived: map<string, nat>, rows: map<string, Row>, born: nat, deleted: set<nat>)

  /** What the outside world makes of one command: each flag fails that call. */
  datatype Faults = Faults(files: bool, database: bool, rollback: bool)

  datatype Command =
    | Create(faults: Faults)
    | Archive(directory: string, id: string, faults: Faults)
    | Restore(id: string, faults: Faults)
    | Delete(id: string, faults: Faults)

  datatype LifecycleError =
    | NoSuchProfile | NoSuchArchive | ArchiveMissing | DestinationExists | NoNameLeft
    | FilesFailed | DatabaseFailed | RollbackFailed

  datatype Done = Done(library: Library, error: Option<LifecycleError>)

  // ----- commands as functions -----

  function Decimal(n: nat): string
  {
    (if n < 10 then "" else Decimal(n / 10)) + ["0123456789"[n % 10]]
  }

  function ProfileName(number: nat): string
  {
    "Profile " + Decimal(number)
  }

  predicate Reserved(s: Library, name: string)
  {
    exists id :: id in s.rows && s.rows[id].directoryName == name
  }

  /** The number of the first profile name that is neither taken nor reserved. */
  function FirstFree(s: Library, number: nat): Option<nat>
    decreases MAX_PROFILE_NUMBER + 1 - number
  {
    if number > MAX_PROFILE_NUMBER then None
    else if Reserved(s, ProfileName(number)) || ProfileName(number) in s.live then FirstFree(s, number + 1)
    else Some(number)
  }

  function CreateProfile(s: Library, faults: Faults): Done
  {
    match FirstFree(s, 1)
    case None => Done(s, Some(NoNameLeft))
    case Some(number) =>
      if faults.files then Done(s, Some(FilesFailed))
      else
        Done(s.(live := s.live[ProfileName(number) := s.born], born := s.born + 1),
             if faults.database then Some(DatabaseFailed) else None)
  }

  function ArchiveProfile(s: Library, directory: string, id: string, faults: Faults): Done
  {
    if directory !in s.live then Done(s, Some(NoSuchProfile))
    else if faults.files || id in s.archived then Done(s, Some(FilesFailed))
    else
      var moved := s.(live := s.live - {directory}, archived := s.archived[id := s.live[directory]]);
      if faults.database || id in s.rows || Reserved(s, directory) then
        if faults.rollback then Done(moved, Some(RollbackFailed)) else Done(s, Some(DatabaseFailed))
      else Done(moved.(rows := s.rows[id := Row(directory)]), None)
  }

  function RestoreProfile(s: Library, id: string, faults: Faults): Done
  {
    if id !in s.rows then Done(s, Some(NoSuchArchive))
    else if id !in s.archived then Done(s, Some(ArchiveMissing))
    else if s.rows[id].directoryName in s.live then Done(s, Some(DestinationExists))
    else if faults.files then Done(s, Some(FilesFailed))
    else
      var moved := s.(live := s.live[s.rows[id].directoryName := s.archived[id]], archived := s.archived - {id});
      if faults.database then
        if faults.rollback then Done(moved, Some(RollbackFailed)) else Done(s, Some(DatabaseFailed))
      else Done(moved.(rows := s.rows - {id}), None)
  }

  /** A row whose directory is gone already is simply removed. */
  function DeleteProfile(s: Library, id: string, faults: Faults): Done
  {
    if id !in s.rows then Done(s, Some(NoSuchArchive))
    else if id in s.archived && faults.files then Done(s, Some(FilesFailed))
    else
      var removed := if id in s.archived
                     then s.(archived := s.archived - {id}, deleted := s.deleted + {s.archived[id]})
                     else s;
      if faults.database then Done(removed, Some(DatabaseFailed))
      else Done(removed.(rows := s.rows - {id}), None)
  }

  function Step(s: Library, c: Command): Done
  {
    match c
    case Create(faults) => CreateProfile(s, faults)
    case Archive(directory, id, faults) => ArchiveProfile(s, directory, id, faults)
    case Restore(id, faults) => RestoreProfile(s, id, faults)
    case Delete(id, faults) => DeleteProfile(s, id, faults)
  }

  function RunAll(s: Library, commands: seq<Command>): Library
  {
    if commands == [] then s else Step(RunAll(s, commands[..|commands| - 1]), commands[|commands| - 1]).library
  }

  // ----- where profiles are -----

  predicate Injective(m: map<string, nat>)
  {
    forall a, b :: a in m && b in m && m[a] == m[b] ==> a == b
  }

  function Numbers(n: nat): (r: set<nat>)
    ensures forall k :: k in r ==> k < n
  {
    if n == 0 then {} else Numbers(n - 1) + {n - 1}
  }

  /** Every profile ever created is live, archived or deleted: one of the three, in one place. */
  ghost predicate Conserved(s: Library)
  {
    && Injective(s.live) && Injective(s.archived)
    && s.live.Values !! s.archived.Values
    && s.live.Values !! s.deleted && s.archived.Values !! s.deleted
    && s.live.Values + s.archived.Values + s.deleted == Numbers(s.born)
  }

  /** Names are kept apart and every archived directory can be found through its row. */
  predicate Consistent(s: Library)
  {
    && (forall id :: id in s.rows ==> s.rows[id].directoryName !in s.live)
    && (forall a, b :: a in s.rows && b in s.rows && s.rows[a].directoryName == s.rows[b].directoryName ==> a == b)
    && s.archived.Keys <= s.rows.Keys
  }

  const Empty := Library(map[], map[], map[], 0, {})

  lemma {:induction false} FirstFreeIsFree(s: Library, number: nat)
    requires FirstFree(s, number).Some?
    ensures var n := FirstFree(s, number).value;
            && number <= n <= MAX_PROFILE_NUMBER
            && !Reserved(s, ProfileName(n)) && ProfileName(n) !in s.live
            && forall k :: number <= k < n ==> Reserved(s, ProfileName(k)) || ProfileName(k) in s.live
    decreases MAX_PROFILE_NUMBER + 1 - number
  {
    hide Reserved, ProfileName;
    if Reserved(s, ProfileName(number)) || ProfileName(number) in s.live {
      FirstFreeIsFree(s, number + 1);
    }
  }

  // ----- conservation -----

  lemma Taken(m: map<string, nat>, k: string)
    requires Injective(m) && k in m
    ensures Injective(m - {k}) && (m - {k}).Values == m.Values - {m[k]}
  {
    var rest := m - {k};
    forall v | v in m.Values - {m[k]} ensures v in rest.Values {
      var a :| a in m && m[a] == v;
      assert a in rest && rest[a] == v;
    }
  }

  lemma Given(m: map<string, nat>, k: string, v: nat)
    requires Injective(m) && k !in m && v !in m.Values
    ensures Injective(m[k := v]) && m[k := v].Values == m.Values + {v}
  {
    var more := m[k := v];
    forall w | w in m.Values ensures w in more.Values {
      var a :| a in m && m[a] == w;
      assert a in more && more[a] == w;
    }
    assert more[k] == v;
  }

  lemma StepConserves(s: Library, c: Command)
    requires Conserved(s)
    ensures Conserved(Step(s, c).library)
  {
    hide Injective, Reserved, FirstFree;
    match c
    case Create(faults) =>
      if FirstFree(s, 1).Some? {
        FirstFreeIsFree(s, 1);
        Given(s.live, ProfileName(FirstFree(s, 1).value), s.born);
      }
    case Archive(directory, id, faults) =>
      if directory in s.live && id !in s.archived {
        Taken(s.live, directory);
        Given(s.archived, id, s.live[directory]);
      }
    case Restore(id, faults) =>
      if id in s.rows && id in s.archived && s.rows[id].directoryName !in s.live {
        Taken(s.archived, id);
        Given(s.live, s.rows[id].directoryName, s.archived[id]);
      }
    case Delete(id, faults) =>
      if id in s.archived { Taken(s.archived, id); }
  }

  /** Over every run, whatever fails, rollbacks included: no profile is lost, doubled or revived. */
  lemma {:induction false} EveryRunConserves(s: Library, commands: seq<Command>)
    requires Conserved(s)
    ensures Conserved(RunAll(s, commands))
  {
    hide Conserved, Step;
    if commands != [] {
      EveryRunConserves(s, commands[..|commands| - 1]);
      StepConserves(RunAll(s, commands[..|commands| - 1]), commands[|commands| - 1]);
    }
  }

  // ----- consistency -----

  /** The command moved the directory, could not record it, and could not move it back. */
  predicate LeavesHalfDone(s: Library, c: Command)
  {
    match c
    case Archive(directory, id, faults) =>
      directory in s.live && !faults.files && id !in s.archived && faults.rollback
      && (faults.database || id in s.rows || Reserved(s, directory))
    case Restore(id, faults) =>
      id in s.rows && id in s.archived && s.rows[id].directoryName !in s.live
      && !faults.files && faults.database && faults.rollback
    case _ => false
  }

  /** Archive ids are drawn fresh. */
  predicate FreshId(s: Library, c: Command)
  {
    c.Archive? ==> c.id !in s.rows
  }

  /** A command keeps names and rows consistent exactly when it does not end half done. */
  lemma StaysConsistentExactly(s: Library, c: Command)
    requires Consistent(s) && FreshId(s, c)
    ensures Consistent(Step(s, c).library) <==> !LeavesHalfDone(s, c)
  {
    match c
    case Create(faults) =>
      if FirstFree(s, 1).Some? { FirstFreeIsFree(s, 1); }
    case Archive(directory, id, faults) =>
    case Restore(id, faults) =>
    case Delete(id, faults) =>
  }

  ghost predicate NoneHalfDone(s: Library, commands: seq<Command>)
  {
    commands == [] ||
    (var before := RunAll(s, commands[..|commands| - 1]);
     var last := commands[|commands| - 1];
     NoneHalfDone(s, commands[..|commands| - 1]) && FreshId(before, last) && !LeavesHalfDone(before, last))
  }

  lemma {:induction false} EveryRunConsistent(s: Library, commands: seq<Command>)
    requires Consistent(s) && NoneHalfDone(s, commands)
    ensures Consistent(RunAll(s, commands))
  {
    hide Consistent, Step, LeavesHalfDone, FreshId;
    if commands != [] {
      EveryRunConsistent(s, commands[..|commands| - 1]);
      StaysConsistentExactly(RunAll(s, commands[..|commands| - 1]), commands[|commands| - 1]);
    }
  }

  /** In a consistent library a restore never finds its destination taken. */
  lemma RestoreHasRoom(s: Library, commands: seq<Command>, id: string, faults: Faults)
    requires Consistent(s) && NoneHalfDone(s, commands)
    ensures RestoreProfile(RunAll(s, commands), id, faults).error != Some(DestinationExists)
  {
    hide Step;
    EveryRunConsistent(s, commands);
  }

  /**
   Archiving a profile, doing anything but restoring or deleting it without ending half done, and
   then restoring it puts the same profile back under its old name.
   */
  lemma ArchivedComesBack(s: Library, directory: string, id: string, commands: seq<Command>)
    requires Consistent(s) && directory in s.live && id !in s.rows
    requires var archived := ArchiveProfile(s, directory, id, NoFaults);
             && NoneHalfDone(archived.library, commands)
             && forall c :: c in commands ==> !((c.Restore? || c.Delete?) && c.id == id)
    ensures var before := RunAll(ArchiveProfile(s, directory, id, NoFaults).library, commands);
            var done := RestoreProfile(before, id, NoFaults);
            && done.error.None?
            && done.library.live == before.live[directory := s.live[directory]]
  {
    var archived := ArchiveProfile(s, directory, id, NoFaults).library;
    assert Consistent(archived) by {
      StaysConsistentExactly(s, Archive(directory, id, NoFaults));
    }
    UntouchedArchiveStays(archived, id, commands);
    RestoreHasRoom(archived, commands, id, NoFaults);
  }

  lemma StepKeepsDeleted(s: Library, c: Command)
    ensures s.deleted <= Step(s, c).library.deleted
  {
  }

  lemma {:induction false} RunKeepsDeleted(s: Library, commands: seq<Command>)
    ensures s.deleted <= RunAll(s, commands).deleted
  {
    hide Step;
    if commands != [] {
      RunKeepsDeleted(s, commands[..|commands| - 1]);
      StepKeepsDeleted(RunAll(s, commands[..|commands| - 1]), commands[|commands| - 1]);
    }
  }

  /**
   A deletion that reports success unregisters the archive and removes its profile for good: no
   later command brings it back, under any name. Every other profile stays where it is.
   */
  lemma DeletedStaysGone(s: Library, id: string, faults: Faults, commands: seq<Command>)
    requires Conserved(s) && id in s.rows && id in s.archived
    requires DeleteProfile(s, id, faults).error.None?
    ensures var t := DeleteProfile(s, id, faults).library;
            && id !in t.rows && t.live == s.live && t.archived == s.archived - {id} && t.rows == s.rows - {id}
            && s.archived[id] !in RunAll(t, commands).live.Values
            && s.archived[id] !in RunAll(t, commands).archived.Values
  {
    var t := DeleteProfile(s, id, faults).library;
    assert Step(s, Delete(id, faults)).library == t;
    StepConserves(s, Delete(id, faults));
    EveryRunConserves(t, commands);
    RunKeepsDeleted(t, commands);
    assert s.archived[id] in t.deleted;
    hide Injective, RunAll;
  }

  const NoFaults := Faults(false, false, false)

  lemma {:induction false} UntouchedArchiveStays(s: Library, id: string, commands: seq<Command>)
    requires id in s.rows && id in s.archived
    requires forall c :: c in commands ==> !((c.Restore? || c.Delete?) && c.id == id)
    ensures var t := RunAll(s, commands);
            && id in t.rows && t.rows[id] == s.rows[id]
            && id in t.archived && t.archived[id] == s.archived[id]
  {
    hide FirstFree, Reserved;
    if commands != [] {
      UntouchedArchiveStays(s, id, commands[..|commands| - 1]);
      assert commands[|commands| - 1] in commands;
    }
  }

  // ----- the commands themselves -----

  class ProfileManager {
    var live: map<string, nat>
    var archived: map<string, nat>
    var rows: map<string, Row>
    ghost var born: nat
    ghost var deleted: set<nat>

    ghost function State(): Library
      reads this
    {
      Library(live, archived, rows, born, deleted)
    }

    constructor ()
      ensures State() == Empty && Conserved(State()) && Consistent(State())
    {
      live, archived, rows, born, deleted := map[], map[], map[], 0, {};
    }

    /** The names rows hold on to, so that an archived profile can come back. */
    method ReservedNames() returns (names: set<string>)
      ensures forall name :: name in names <==> Reserved(State(), name)
    {
      names := set id | id in rows :: rows[id].directoryName;
    }

    method Create(faults: Faults, data: nat) returns (error: Option<LifecycleError>)
      requires data == born
      modifies this
      ensures Done(State(), error) == Step(old(State()), Command.Create(faults))
    {
      var reserved := ReservedNames();
      var number := 1;
      while number <= MAX_PROFILE_NUMBER
        invariant 1 <= number <= MAX_PROFILE_NUMBER + 1 && State() == old(State())
        invariant FirstFree(State(), 1) == FirstFree(State(), number)
      {
        var name := ProfileName(number);
        if name in reserved || name in live {
          number := number + 1;
          continue;
        }
        if faults.files {
          return Some(FilesFailed);
        }
        live := live[name := data];
        born := born + 1;
        return if faults.database then Some(DatabaseFailed) else None;
      }
      return Some(NoNameLeft);
    }

    method Archive(directory: string, id: string, faults: Faults) returns (error: Option<LifecycleError>)
      modifies this
      ensures Done(State(), error) == Step(old(State()), Command.Archive(directory, id, faults))
    {
      if directory !in live {
        return Some(NoSuchProfile);
      }
      if faults.files || id in archived {
        return Some(FilesFailed);
      }
      live, archived := live - {directory}, archived[id := live[directory]];
      var reserved := ReservedNames();
      if faults.database || id in rows || directory in reserved {
        if faults.rollback {
          return Some(RollbackFailed);
        }
        live, archived := live[directory := archived[id]], archived - {id};
        PutBack(old(live), directory);
        TakenBack(old(archived), id, live[directory]);
        return Some(DatabaseFailed);
      }
      rows := rows[id := Row(directory)];
      return None;
    }

    method Restore(id: string, faults: Faults) returns (error: Option<LifecycleError>)
      modifies this
      ensures Done(State(), error) == Step(old(State()), Command.Restore(id, faults))
    {
      if id !in rows {
        return Some(NoSuchArchive);
      }
      if id !in archived {
        return Some(ArchiveMissing);
      }
      var directory := rows[id].directoryName;
      if directory in live {
        return Some(DestinationExists);
      }
      if faults.files {
        return Some(FilesFailed);
      }
      live, archived := live[directory := archived[id]], archived - {id};
      if faults.database {
        if faults.rollback {
          return Some(RollbackFailed);
        }
        live, archived := live - {directory}, archived[id := live[directory]];
        PutBack(old(archived), id);
        TakenBack(old(live), directory, archived[id]);
        return Some(DatabaseFailed);
      }
      rows := rows - {id};
      return None;
    }

    method Delete(id: string, faults: Faults) returns (error: Option<LifecycleError>)
      modifies this
      ensures Done(State(), error) == Step(old(State()), Command.Delete(id, faults))
    {
      if id !in rows {
        return Some(NoSuchArchive);
      }
      if id in archived {
        if faults.files {
          return Some(FilesFailed);
        }
        deleted := deleted + {archived[id]};
        archived := archived - {id};
      }
      if faults.database {
        return Some(DatabaseFailed);
      }
      rows := rows - {id};
      return None;
    }
  }

  lemma PutBack(m: map<string, nat>, k: string)
    requires k in m
    ensures (m - {k})[k := m[k]] == m
  {
  }

  lemma TakenBack(m: map<string, nat>, k: string, v: nat)
    requires k !in m
    ensures m[k := v] - {k} == m
  {
  }
}
