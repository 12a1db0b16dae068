/** When each profile command succeeds, what it then changes, and what each of its errors means. */
module ProfileOutcomes {
  import opened Wrappers
  import opened ProfileLifecycle

  // ----- profile names -----

  function ValueOf(digits: string): nat
    requires forall i :: 0 <= i < |digits| ==> '0' <= digits[i] <= '9'
  {
    if digits == [] then 0
    else 10 * ValueOf(digits[..|digits| - 1]) + (digits[|digits| - 1] as int - '0' as int)
  }

  lemma LastDigit(n: nat)
    ensures var digit := "0123456789"[n % 10];
            '0' <= digit <= '9' && digit as int - '0' as int == n % 10 && (n % 10 > 0 ==> digit != '0')
  {
    assert n % 10 in {0, 1, 2, 3, 4, 5, 6, 7, 8, 9};
  }

  /** The digits are the number's, without a leading zero. */
  lemma {:induction false} DecimalIsValue(n: nat)
    ensures forall i :: 0 <= i < |Decimal(n)| ==> '0' <= Decimal(n)[i] <= '9'
    ensures ValueOf(Decimal(n)) == n
    ensures Decimal(n) != "" && (n > 0 ==> Decimal(n)[0] != '0')
  {
    LastDigit(n);
    var digit := "0123456789"[n % 10];
    var front := if n < 10 then "" else Decimal(n / 10);
    if n >= 10 { DecimalIsValue(n / 10); }
    assert Decimal(n) == front + [digit];
    assert (front + [digit])[..|front|] == front;
    assert n == 10 * (n / 10) + n % 10;
  }

  /** No two numbers share a profile name, so the search looks at as many names as it counts. */
  lemma NamesApart(a: nat, b: nat)
    requires ProfileName(a) == ProfileName(b)
    ensures a == b
  {
    DecimalIsValue(a);
    DecimalIsValue(b);
    assert Decimal(a) == ProfileName(a)[|"Profile "|..] == ProfileName(b)[|"Profile "|..] == Decimal(b);
  }

  predicate IsTaken(s: Library, number: nat)
  {
    Reserved(s, ProfileName(number)) || ProfileName(number) in s.live
  }

  ghost predicate AllTaken(s: Library)
  {
    forall number :: 1 <= number <= MAX_PROFILE_NUMBER ==> IsTaken(s, number)
  }

  lemma {:induction false} NoneFreeExactly(s: Library, number: nat)
    ensures FirstFree(s, number).None? <==> forall k :: number <= k <= MAX_PROFILE_NUMBER ==> IsTaken(s, k)
    decreases MAX_PROFILE_NUMBER + 1 - number
  {
    hide Reserved, ProfileName;
    if number <= MAX_PROFILE_NUMBER {
      NoneFreeExactly(s, number + 1);
      assert FirstFree(s, number).Some? ==> FirstFree(s, number) == Some(number) || IsTaken(s, number);
      if !IsTaken(s, number) { assert FirstFree(s, number) == Some(number); }
    }
  }

  // ----- when a command succeeds -----

  /** What must hold for the command, apart from the calls it makes. */
  ghost predicate InPlace(s: Library, c: Command)
  {
    match c
    case Create(_) => !AllTaken(s)
    case Archive(directory, id, _) => directory in s.live && id !in s.archived && id !in s.rows
    case Restore(id, _) => id in s.rows && id in s.archived
    case Delete(id, _) => id in s.rows
  }

  /** A command succeeds exactly when its profile is in its place and none of its calls fails. */
  lemma SucceedsExactly(s: Library, c: Command)
    requires Consistent(s)
    ensures Step(s, c).error.None? <==>
              && InPlace(s, c) && !c.faults.database
              && (c.faults.files ==> c.Delete? && c.id !in s.archived)
  {
    NoneFreeExactly(s, 1);
    hide FirstFree, AllTaken, IsTaken;
    assert AllTaken(s) <==> FirstFree(s, 1).None? by { Taking(s); }
  }

  lemma Taking(s: Library)
    ensures AllTaken(s) <==> FirstFree(s, 1).None?
  {
    NoneFreeExactly(s, 1);
    hide FirstFree, IsTaken;
  }

  // ----- what it changes -----

  datatype Place = Live(directory: string) | Archived(id: string) | Deleted | Unborn

  ghost predicate At(s: Library, profile: nat, place: Place)
  {
    match place
    case Live(directory) => directory in s.live && s.live[directory] == profile
    case Archived(id) => id in s.archived && s.archived[id] == profile
    case Deleted => profile in s.deleted
    case Unborn => profile >= s.born
  }

  /** One profile goes from one place to another, and every other one stays. */
  ghost predicate OnlyMoves(s: Library, t: Library, profile: nat, from: Place, to: Place)
  {
    && At(s, profile, from) && At(t, profile, to)
    && forall k, place :: k != profile ==> (At(s, k, place) <==> At(t, k, place))
  }

  ghost predicate NothingMoves(s: Library, t: Library)
  {
    s.live == t.live && s.archived == t.archived && s.deleted == t.deleted && s.born == t.born
  }

  /**
   What success means: a new profile under the lowest free name; the profile in its archive,
   with a row naming its directory; the profile back under the row's name; or no profile and no
   row any more. No other profile moves and no other row changes.
   */
  ghost predicate Succeeded(s: Library, c: Command, t: Library)
  {
    match c
    case Create(_) =>
      && t.rows == s.rows
      && exists number: nat ::
           LowestFree(s, number) && OnlyMoves(s, t, s.born, Unborn, Live(ProfileName(number)))
    case Archive(directory, id, _) =>
      && t.rows == s.rows[id := Row(directory)]
      && directory in s.live && OnlyMoves(s, t, s.live[directory], Live(directory), Archived(id))
    case Restore(id, _) =>
      && t.rows == s.rows - {id} && id in s.rows
      && id in s.archived && OnlyMoves(s, t, s.archived[id], Archived(id), Live(s.rows[id].directoryName))
    case Delete(id, _) =>
      && t.rows == s.rows - {id}
      && (if id in s.archived then OnlyMoves(s, t, s.archived[id], Archived(id), Deleted) else NothingMoves(s, t))
  }

  predicate LowestFree(s: Library, number: nat)
  {
    1 <= number <= MAX_PROFILE_NUMBER && !IsTaken(s, number) && forall k :: 1 <= k < number ==> IsTaken(s, k)
  }

  lemma SuccessDoes(s: Library, c: Command)
    requires Conserved(s) && Step(s, c).error.None?
    ensures Succeeded(s, c, Step(s, c).library)
  {
    var t := Step(s, c).library;
    match c
    case Create(faults) => Creates(s, faults);
    case Archive(directory, id, faults) =>
    case Restore(id, faults) =>
    case Delete(id, faults) =>
  }

  lemma Creates(s: Library, faults: Faults)
    requires Conserved(s) && FirstFree(s, 1).Some? && !faults.files
    ensures var t := CreateProfile(s, faults).library;
            exists number: nat :: LowestFree(s, number) && OnlyMoves(s, t, s.born, Unborn, Live(ProfileName(number)))
  {
    FirstFreeIsFree(s, 1);
    var number := FirstFree(s, 1).value;
    assert LowestFree(s, number);
    var t := CreateProfile(s, faults).library;
    assert OnlyMoves(s, t, s.born, Unborn, Live(ProfileName(number)));
  }

  // ----- what an error means -----

  /** The cause of an error. */
  ghost predicate Means(s: Library, c: Command, error: LifecycleError)
  {
    match error
    case NoSuchProfile => c.Archive? && c.directory !in s.live
    case NoSuchArchive => (c.Restore? || c.Delete?) && c.id !in s.rows
    case ArchiveMissing => c.Restore? && c.id in s.rows && c.id !in s.archived
    case DestinationExists => c.Restore? && c.id in s.rows && s.rows[c.id].directoryName in s.live
    case NoNameLeft => c.Create? && AllTaken(s)
    case FilesFailed => c.faults.files || (c.Archive? && c.id in s.archived)
    case DatabaseFailed => c.faults.database || (c.Archive? && (c.id in s.rows || Reserved(s, c.directory)))
    case RollbackFailed => LeavesHalfDone(s, c)
  }

  /**
   What an error leaves behind: nothing, but for three cases. A failed rollback leaves the
   profile where the command had moved it, without its row written or removed; a creation that
   could not be recorded leaves the new directory; and a deletion that could not be recorded has
   deleted the profile but not its row, so that a retry finds the row and removes it.
   */
  ghost predicate LeftBy(s: Library, c: Command, error: LifecycleError, t: Library)
  {
    if error == RollbackFailed then
      && t.rows == s.rows
      && ((c.Archive? && c.directory in s.live
           && OnlyMoves(s, t, s.live[c.directory], Live(c.directory), Archived(c.id)))
          || (c.Restore? && c.id in s.rows && c.id in s.archived
              && OnlyMoves(s, t, s.archived[c.id], Archived(c.id), Live(s.rows[c.id].directoryName))))
    else if error == DatabaseFailed && c.Create? then
      && t.rows == s.rows
      && exists number: nat ::
           LowestFree(s, number) && OnlyMoves(s, t, s.born, Unborn, Live(ProfileName(number)))
    else if error == DatabaseFailed && c.Delete? && c.id in s.archived then
      t.rows == s.rows && OnlyMoves(s, t, s.archived[c.id], Archived(c.id), Deleted)
    else t == s
  }

  lemma FailureMeans(s: Library, c: Command)
    requires Step(s, c).error.Some?
    ensures Means(s, c, Step(s, c).error.value)
  {
    Taking(s);
    hide FirstFree, AllTaken, Reserved;
  }

  lemma FailureLeaves(s: Library, c: Command)
    requires Conserved(s) && Step(s, c).error.Some?
    ensures LeftBy(s, c, Step(s, c).error.value, Step(s, c).library)
  {
    match c
    case Create(faults) => if FirstFree(s, 1).Some? && !faults.files { Creates(s, faults); }
    case Archive(directory, id, faults) =>
    case Restore(id, faults) =>
    case Delete(id, faults) =>
  }

  /** A deletion that could not be recorded is finished by the next one. */
  lemma DeletionResumes(s: Library, id: string, faults: Faults)
    requires Conserved(s) && id in s.rows && DeleteProfile(s, id, faults).error == Some(DatabaseFailed)
    ensures var again := DeleteProfile(DeleteProfile(s, id, faults).library, id, NoFaults);
            again.error.None? && again.library == DeleteProfile(s, id, NoFaults).library
  {
  }
}
