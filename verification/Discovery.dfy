/**
 Finding a profile's object without knowing its id: the client pages through the change log while
 others keep writing, then loads the live candidates, newest first.
 */
module Discovery {
  import opened Wrappers
  import opened Bytes
  import opened Crypto
  import opened ObjectStore

  const PAGE_LIMIT := 100

  datatype Candidate = Candidate(cursor: nat, deleted: bool)

  datatype DiscoveryError<E> = CursorDidNotAdvance | PageRefused | LoadFailed(error: E)

  // ----- the log under writers -----

  predicate Bounded(changes: seq<Change>)
  {
    forall i :: 0 <= i < |changes| ==> changes[i].cursor <= I64_MAX
  }

  /** The log as each page request finds it: it only grows, and from some request on it rests. */
  ghost predicate Growing(logAt: nat -> seq<Change>, settled: nat)
  {
    && (forall k :: CursorsGrow(logAt(k)) && Bounded(logAt(k)))
    && (forall k, m :: k <= m ==> logAt(k) <= logAt(m))
    && forall k :: settled <= k ==> logAt(k) == logAt(settled)
  }

  lemma {:induction false} EveryRunBounded<T>(t: Tables<T>, requests: seq<Request<T>>)
    requires Bounded(t.changes)
    ensures Bounded(Run(t, requests).changes)
  {
    hide Apply;
    if requests != [] {
      EveryRunBounded(t, requests[..|requests| - 1]);
      var before := Run(t, requests[..|requests| - 1]);
      match requests[|requests| - 1]
      case Single(op) => if Apply(before, op).Ok? { ApplyBounded(before, op); }
      case Several(ops) => if Batch(before, ops).Ok? { ApplyAllBounded(before, ops); }
      case _ =>
    }
  }

  lemma ApplyBounded<T>(t: Tables<T>, op: Operation<T>)
    requires Bounded(t.changes) && Apply(t, op).Ok?
    ensures Bounded(Apply(t, op).value.tables.changes)
  {
  }

  lemma {:induction false} ApplyAllBounded<T>(t: Tables<T>, ops: seq<Operation<T>>)
    requires Bounded(t.changes) && ApplyAll(t, ops).Ok?
    ensures Bounded(ApplyAll(t, ops).value.tables.changes)
  {
    hide Apply, Bounded;
    if ops != [] {
      ApplyAllBounded(t, ops[..|ops| - 1]);
      ApplyBounded(ApplyAll(t, ops[..|ops| - 1]).value.tables, ops[|ops| - 1]);
    }
  }

  lemma {:induction false} RunSplits<T>(t: Tables<T>, requests: seq<Request<T>>, n: nat)
    requires n <= |requests|
    ensures Run(t, requests) == Run(Run(t, requests[..n]), requests[n..])
  {
    hide Handle;
    if n < |requests| {
      var rest := requests[..|requests| - 1];
      RunSplits(t, rest, n);
      assert rest[..n] == requests[..n];
      assert rest[n..] == requests[n..][..|requests| - n - 1];
    } else {
      assert requests[..n] == requests;
      assert requests[n..] == [];
    }
  }

  /** The log after the requests that had been served by the client's k-th. */
  function LogAt<T>(t: Tables<T>, requests: seq<Request<T>>, served: nat -> nat): nat -> seq<Change>
  {
    (k: nat) => if served(k) <= |requests| then Run(t, requests[..served(k)]).changes else []
  }

  ghost predicate Serves(served: nat -> nat, total: nat, settled: nat)
  {
    && (forall k :: served(k) <= total)
    && (forall k, m :: k <= m ==> served(k) <= served(m))
    && forall k :: settled <= k ==> served(k) == total
  }

  /** Any run of requests, looked at whenever the client happens to ask, is such a log. */
  lemma RunsGrow<T>(t: Tables<T>, requests: seq<Request<T>>, served: nat -> nat, settled: nat)
    requires Agrees(t) && Bounded(t.changes)
    requires Serves(served, |requests|, settled)
    ensures Growing(LogAt(t, requests, served), settled)
  {
    hide Agrees, LogAt, CursorsGrow, Bounded;
    var logAt := LogAt(t, requests, served);
    forall k: nat ensures CursorsGrow(logAt(k)) && Bounded(logAt(k)) {
      LogAtOrdered(t, requests, served, k);
    }
    forall k: nat, m: nat | k <= m ensures logAt(k) <= logAt(m) {
      LogAtExtends(t, requests, served, k, m);
    }
    forall k: nat | settled <= k ensures logAt(k) == logAt(settled) {
      LogAtSame(t, requests, served, k, settled);
    }
  }

  lemma LogAtOrdered<T>(t: Tables<T>, requests: seq<Request<T>>, served: nat -> nat, k: nat)
    requires Agrees(t) && Bounded(t.changes) && served(k) <= |requests|
    ensures var log := LogAt(t, requests, served)(k); CursorsGrow(log) && Bounded(log)
  {
    hide Agrees, Run, CursorsGrow, Bounded;
    RunOrdered(t, requests[..served(k)]);
  }

  lemma LogAtExtends<T>(t: Tables<T>, requests: seq<Request<T>>, served: nat -> nat, k: nat, m: nat)
    requires Agrees(t) && served(k) <= served(m) <= |requests|
    ensures LogAt(t, requests, served)(k) <= LogAt(t, requests, served)(m)
  {
    hide Agrees, Run;
    assert requests[..served(m)][..served(k)] == requests[..served(k)];
    RunExtends(t, requests[..served(m)], served(k));
  }

  lemma LogAtSame<T>(t: Tables<T>, requests: seq<Request<T>>, served: nat -> nat, k: nat, m: nat)
    requires served(k) == served(m)
    ensures LogAt(t, requests, served)(k) == LogAt(t, requests, served)(m)
  {
    hide Run;
  }

  lemma RunOrdered<T>(t: Tables<T>, requests: seq<Request<T>>)
    requires Agrees(t) && Bounded(t.changes)
    ensures CursorsGrow(Run(t, requests).changes) && Bounded(Run(t, requests).changes)
  {
    hide Agrees, Run;
    EveryRunAgrees(t, requests);
    EveryRunBounded(t, requests);
    AgreesMeansGrow(Run(t, requests));
  }

  lemma RunExtends<T>(t: Tables<T>, requests: seq<Request<T>>, n: nat)
    requires Agrees(t) && n <= |requests|
    ensures Run(t, requests[..n]).changes <= Run(t, requests).changes
  {
    hide Agrees, Run;
    RunSplits(t, requests, n);
    EveryRunAgrees(t, requests[..n]);
    EveryRunAgrees(Run(t, requests[..n]), requests[n..]);
  }

  lemma AgreesMeansGrow<T>(t: Tables<T>)
    requires Agrees(t)
    ensures CursorsGrow(t.changes)
  {
  }

  // ----- what the client has to end up with -----

  /** The last change of each object in the namespace. */
  function Candidates(log: seq<Change>, namespace: Text): map<Uuid, Candidate>
  {
    if log == [] then map[]
    else
      var rest := Candidates(log[..|log| - 1], namespace);
      var last := log[|log| - 1];
      if last.namespace == namespace then rest[last.objectId := Candidate(last.cursor, last.deleted)] else rest
  }

  lemma CandidatesAppend(log: seq<Change>, change: Change, namespace: Text)
    ensures Candidates(log + [change], namespace)
         == if change.namespace == namespace
            then Candidates(log, namespace)[change.objectId := Candidate(change.cursor, change.deleted)]
            else Candidates(log, namespace)
  {
    assert (log + [change])[..|log|] == log;
  }

  /** The log up to a cursor. */
  predicate SplitAt(log: seq<Change>, n: nat, after: nat)
  {
    && n <= |log|
    && (forall i :: 0 <= i < n ==> log[i].cursor <= after)
    && forall i :: n <= i < |log| ==> log[i].cursor > after
  }

  lemma {:induction false} AfterSplit(log: seq<Change>, n: nat, after: nat)
    requires SplitAt(log, n, after)
    ensures After(log, after) == log[n..]
  {
    if log != [] {
      var rest := log[..|log| - 1];
      if n == |log| {
        AfterSplit(rest, n - 1, after);
      } else {
        AfterSplit(rest, n, after);
        assert log[n..] == rest[n..] + [log[|log| - 1]];
      }
    }
  }

  /** After a page that is not the last, the next request resumes exactly behind it. */
  lemma NextSplit(log: seq<Change>, later: seq<Change>, n: nat, page: nat)
    requires CursorsGrow(log) && CursorsGrow(later) && log <= later
    requires 0 < page && n + page <= |log|
    ensures SplitAt(later, n + page, log[n + page - 1].cursor)
  {
    assert later[n + page - 1] == log[n + page - 1];
  }

  /** A page starts where the last one ended, and says whether anything is behind it. */
  lemma PageIs(log: seq<Change>, n: nat, after: nat)
    requires CursorsGrow(log) && Bounded(log) && SplitAt(log, n, after) && after <= I64_MAX
    ensures var page := ChangesPage(log, after, PAGE_LIMIT);
            && page.Ok?
            && page.value.hasMore == (n + PAGE_LIMIT < |log|)
            && page.value.changes == log[n..if n + PAGE_LIMIT < |log| then n + PAGE_LIMIT else |log|]
            && (page.value.hasMore ==>
                page.value.nextCursor == log[n + PAGE_LIMIT - 1].cursor && after < page.value.nextCursor <= I64_MAX)
  {
    AfterSplit(log, n, after);
  }

  lemma GrowingFrom(logAt: nat -> seq<Change>, settled: nat, k: nat)
    requires Growing(logAt, settled)
    ensures CursorsGrow(logAt(k)) && Bounded(logAt(k))
    ensures logAt(k) <= logAt(k + 1) && logAt(k) <= logAt(settled)
  {
  }

  /**
   The paging loop over a log that grows between its requests. It ends, the guard against a
   standing cursor never fires, and what it has gathered is the last change per object in the
   whole log as the final request found it.
   */
  method GatherCandidates<E>(logAt: nat -> seq<Change>, ghost settled: nat, namespace: Text)
    returns (r: Result<map<Uuid, Candidate>, DiscoveryError<E>>, requests: nat)
    requires Growing(logAt, settled)
    ensures requests > 0
    ensures r == Ok(Candidates(logAt(requests - 1), namespace))
  {
    hide Growing, CursorsGrow, Bounded, ChangesPage, Candidates;
    var after: nat := 0;
    var candidates: map<Uuid, Candidate> := map[];
    ghost var n: nat := 0;
    requests := 0;
    FirstSplit(logAt, settled, namespace);
    while true
      invariant n <= |logAt(settled)|
      invariant SplitAt(logAt(requests), n, after) && after <= I64_MAX
      invariant candidates == Candidates(logAt(requests)[..n], namespace)
      decreases |logAt(settled)| - n
    {
      ghost var log := logAt(requests);
      GrowingFrom(logAt, settled, requests);
      GrowingFrom(logAt, settled, requests + 1);
      PageIs(log, n, after);
      var reply := ChangesPage(logAt(requests), after, PAGE_LIMIT);
      requests := requests + 1;
      if reply.Err? {
        return Err(PageRefused), requests;
      }
      var page := reply.value;
      candidates := RecordPage(log[..n], page.changes, namespace, candidates);
      assert log[..n] + page.changes == log[..n + |page.changes|];
      if !page.hasMore {
        assert log[..n + |page.changes|] == log;
        return Ok(candidates), requests;
      }
      if page.nextCursor <= after {
        return Err(CursorDidNotAdvance), requests;
      }
      after := page.nextCursor;
      NextSplit(log, logAt(requests), n, PAGE_LIMIT);
      n := n + PAGE_LIMIT;
      assert logAt(requests)[..n] == log[..n];
    }
  }

  lemma FirstSplit(logAt: nat -> seq<Change>, settled: nat, namespace: Text)
    requires Growing(logAt, settled)
    ensures SplitAt(logAt(0), 0, 0)
    ensures Candidates(logAt(0)[..0], namespace) == map[]
  {
  }

  /** The inner loop: one page's changes, in order, over what earlier pages left. */
  method RecordPage(ghost seen: seq<Change>, page: seq<Change>, namespace: Text, before: map<Uuid, Candidate>)
    returns (candidates: map<Uuid, Candidate>)
    requires before == Candidates(seen, namespace)
    ensures candidates == Candidates(seen + page, namespace)
  {
    hide Candidates;
    candidates := before;
    assert seen + page[..0] == seen;
    for i := 0 to |page|
      invariant candidates == Candidates(seen + page[..i], namespace)
    {
      var change := page[i];
      assert seen + page[..i + 1] == seen + page[..i] + [change];
      CandidatesAppend(seen + page[..i], change, namespace);
      if change.namespace == namespace {
        candidates := candidates[change.objectId := Candidate(change.cursor, change.deleted)];
      }
    }
    assert page[..|page|] == page;
  }

  // ----- candidates and rows -----

  /** Clients write each object under one namespace; the server does not insist on it. */
  predicate KeepsNamespaces(changes: seq<Change>)
  {
    forall i, j :: 0 <= i < |changes| && 0 <= j < |changes| && changes[i].objectId == changes[j].objectId ==>
      changes[i].namespace == changes[j].namespace
  }

  lemma {:induction false} CandidatesAreLast(log: seq<Change>, namespace: Text, id: Uuid)
    requires KeepsNamespaces(log)
    ensures LogOf(log, id) == [] || LogOf(log, id)[|LogOf(log, id)| - 1] in log
    ensures LogOf(log, id) != [] ==> LogOf(log, id)[|LogOf(log, id)| - 1].objectId == id
    ensures id in Candidates(log, namespace) <==>
              LogOf(log, id) != [] && LogOf(log, id)[|LogOf(log, id)| - 1].namespace == namespace
    ensures id in Candidates(log, namespace) ==>
              var last := LogOf(log, id)[|LogOf(log, id)| - 1];
              Candidates(log, namespace)[id] == Candidate(last.cursor, last.deleted)
  {
    if log != [] {
      CandidatesAreLast(log[..|log| - 1], namespace, id);
    }
  }

  /** With that, the gathered candidates are the rows of the namespace as the log left them. */
  lemma CandidatesAreRows<T>(t: Tables<T>, namespace: Text, id: Uuid)
    requires Agrees(t) && KeepsNamespaces(t.changes)
    ensures id in Candidates(t.changes, namespace) <==> id in t.objects && t.objects[id].namespace == namespace
    ensures id in Candidates(t.changes, namespace) ==>
              Candidates(t.changes, namespace)[id] == Candidate(t.objects[id].cursor, t.objects[id].deleted)
  {
    assert ObjectAgrees(t, id);
    CandidatesAreLast(t.changes, namespace, id);
    hide Agrees, KeepsNamespaces, LogOf, Candidates;
  }

  lemma CandidateCursors(log: seq<Change>, namespace: Text)
    requires CursorsGrow(log)
    ensures DistinctCursors(Candidates(log, namespace))
  {
    forall id, other | id in Candidates(log, namespace) && other in Candidates(log, namespace) && id != other
      ensures Candidates(log, namespace)[id].cursor != Candidates(log, namespace)[other].cursor {
      var i := CandidateEntry(log, namespace, id);
      var j := CandidateEntry(log, namespace, other);
      assert i != j;
    }
  }

  lemma {:induction false} CandidateEntry(log: seq<Change>, namespace: Text, id: Uuid) returns (i: nat)
    requires id in Candidates(log, namespace)
    ensures i < |log| && log[i].objectId == id && log[i].cursor == Candidates(log, namespace)[id].cursor
  {
    var last := log[|log| - 1];
    if last.objectId == id && last.namespace == namespace {
      i := |log| - 1;
    } else {
      i := CandidateEntry(log[..|log| - 1], namespace, id);
    }
  }

  ghost predicate DistinctCursors(candidates: map<Uuid, Candidate>)
  {
    forall id, other :: id in candidates && other in candidates && id != other ==>
      candidates[id].cursor != candidates[other].cursor
  }

  // ----- newest first -----

  predicate Descending(candidates: map<Uuid, Candidate>, ids: seq<Uuid>)
  {
    && (forall i :: 0 <= i < |ids| ==> ids[i] in candidates)
    && forall i, j :: 0 <= i < j < |ids| ==> candidates[ids[i]].cursor > candidates[ids[j]].cursor
  }

  /** The live candidates in descending order of their last change. */
  method NewestFirst(candidates: map<Uuid, Candidate>) returns (ids: seq<Uuid>)
    requires DistinctCursors(candidates)
    ensures Descending(candidates, ids)
    ensures forall id :: id in ids <==> id in candidates && !candidates[id].deleted
  {
    ids := [];
    var remaining := candidates.Keys;
    while remaining != {}
      invariant remaining <= candidates.Keys
      invariant Descending(candidates, ids)
      invariant forall id :: id in ids <==> id in candidates && !candidates[id].deleted && id !in remaining
      decreases remaining
    {
      var id :| id in remaining;
      remaining := remaining - {id};
      if !candidates[id].deleted {
        ids := Insert(candidates, ids, id);
      }
    }
  }

  method Insert(candidates: map<Uuid, Candidate>, ids: seq<Uuid>, id: Uuid) returns (r: seq<Uuid>)
    requires DistinctCursors(candidates) && Descending(candidates, ids) && id in candidates && id !in ids
    ensures Descending(candidates, r)
    ensures forall other :: other in r <==> other in ids || other == id
  {
    var k := 0;
    while k < |ids| && candidates[ids[k]].cursor > candidates[id].cursor
      invariant k <= |ids|
      invariant forall i :: 0 <= i < k ==> candidates[ids[i]].cursor > candidates[id].cursor
    {
      k := k + 1;
    }
    InsertedDescending(candidates, ids, id, k);
    r := ids[..k] + [id] + ids[k..];
  }

  lemma InsertedDescending(candidates: map<Uuid, Candidate>, ids: seq<Uuid>, id: Uuid, k: nat)
    requires DistinctCursors(candidates) && Descending(candidates, ids) && id in candidates && id !in ids
    requires k <= |ids| && (forall i :: 0 <= i < k ==> candidates[ids[i]].cursor > candidates[id].cursor)
    requires k < |ids| ==> candidates[ids[k]].cursor <= candidates[id].cursor
    ensures Descending(candidates, ids[..k] + [id] + ids[k..])
    ensures forall other :: other in ids[..k] + [id] + ids[k..] <==> other in ids || other == id
  {
    var r := ids[..k] + [id] + ids[k..];
    if k < |ids| {
      assert ids[k] in ids && candidates[ids[k]].cursor < candidates[id].cursor;
    }
    hide DistinctCursors;
    forall i, j | 0 <= i < j < |r| ensures candidates[r[i]].cursor > candidates[r[j]].cursor {
      assert r[i] == if i < k then ids[i] else if i == k then id else ids[i - 1];
      assert r[j] == if j < k then ids[j] else if j == k then id else ids[j - 1];
    }
    assert ids == ids[..k] + ids[k..];
  }

  // ----- loading -----

  /** What downloading and opening a candidate comes to. */
  datatype Load<+V, +E> = Loaded(profile: string, value: V) | Undecryptable | Failed(error: E)

  /** The candidate has to be passed over: another key's, or another profile's. */
  predicate PassedOver<V, E>(load: Load<V, E>, profile: string)
  {
    load.Undecryptable? || (load.Loaded? && load.profile != profile)
  }

  predicate Newer(candidates: map<Uuid, Candidate>, id: Uuid, other: Uuid)
  {
    id in candidates && other in candidates && !candidates[id].deleted
      && candidates[id].cursor > candidates[other].cursor
  }

  /** Loads the candidates in turn until one is the profile's. Each is asked for at most once. */
  method LoadNewest<V, E>(candidates: map<Uuid, Candidate>, load: Uuid -> Load<V, E>, profile: string)
    returns (r: Result<Option<(Uuid, V)>, DiscoveryError<E>>)
    requires DistinctCursors(candidates)
    ensures r.Ok? && r.value.Some? ==>
              var (id, value) := r.value.value;
              && id in candidates && !candidates[id].deleted && load(id) == Loaded(profile, value)
              && forall other :: Newer(candidates, other, id) ==> PassedOver(load(other), profile)
    ensures r.Ok? && r.value.None? ==>
              forall id :: id in candidates && !candidates[id].deleted ==> PassedOver(load(id), profile)
    ensures r.Err? ==>
              exists id :: id in candidates && !candidates[id].deleted
                        && load(id).Failed? && r.error == LoadFailed(load(id).error)
                        && forall other :: Newer(candidates, other, id) ==> PassedOver(load(other), profile)
  {
    var ids := NewestFirst(candidates);
    for i := 0 to |ids|
      invariant forall j :: 0 <= j < i ==> PassedOver(load(ids[j]), profile)
    {
      var id := ids[i];
      assert id in ids;
      assert forall other :: Newer(candidates, other, id) ==> other in ids && other in ids[..i] by {
        forall other | Newer(candidates, other, id) ensures other in ids && other in ids[..i] {
          assert other in ids;
          var j :| 0 <= j < |ids| && ids[j] == other;
          assert j < i;
        }
      }
      match load(id) {
        case Undecryptable =>
        case Failed(error) => return Err(LoadFailed(error));
        case Loaded(loadedProfile, value) =>
          if loadedProfile == profile {
            return Ok(Some((id, value)));
          }
      }
    }
    return Ok(None);
  }

  // ----- the whole discovery -----

  predicate LiveIn<T>(t: Tables<T>, namespace: Text, id: Uuid)
  {
    id in t.objects && t.objects[id].namespace == namespace && !t.objects[id].deleted
  }

  /** No newer live object of the namespace has anything for this profile. */
  ghost predicate NewestOf<T, V, E>(t: Tables<T>, namespace: Text, load: Uuid -> Load<V, E>, profile: string, id: Uuid)
  {
    && LiveIn(t, namespace, id)
    && forall other :: LiveIn(t, namespace, other) && t.objects[other].cursor > t.objects[id].cursor ==>
         PassedOver(load(other), profile)
  }

  lemma NewestAmongRows<T, V, E>(t: Tables<T>, namespace: Text, load: Uuid -> Load<V, E>, profile: string, id: Uuid)
    requires Agrees(t) && KeepsNamespaces(t.changes)
    requires var c := Candidates(t.changes, namespace);
             id in c && !c[id].deleted && forall other :: Newer(c, other, id) ==> PassedOver(load(other), profile)
    ensures NewestOf(t, namespace, load, profile, id)
  {
    hide Agrees, KeepsNamespaces, Candidates;
    var c := Candidates(t.changes, namespace);
    CandidatesAreRows(t, namespace, id);
    forall other | LiveIn(t, namespace, other) && t.objects[other].cursor > t.objects[id].cursor
      ensures PassedOver(load(other), profile) {
      CandidatesAreRows(t, namespace, other);
      assert Newer(c, other, id);
    }
  }

  /**
   Discovery while others write: the answer is the newest live object of the namespace that opens
   for this profile, in the tables as the final page request found them; or none when no live
   object does; or the first failure met on the way down.
   */
  method Discover<T, V, E>(tablesAt: nat -> Tables<T>, ghost settled: nat, namespace: Text,
                           load: Uuid -> Load<V, E>, profile: string)
    returns (r: Result<Option<(Uuid, V)>, DiscoveryError<E>>, last: nat)
    requires forall k :: Agrees(tablesAt(k)) && KeepsNamespaces(tablesAt(k).changes)
    requires Growing((k: nat) => tablesAt(k).changes, settled)
    ensures r.Ok? && r.value.Some? ==>
              && load(r.value.value.0) == Loaded(profile, r.value.value.1)
              && NewestOf(tablesAt(last), namespace, load, profile, r.value.value.0)
    ensures r.Ok? && r.value.None? ==>
              forall id :: LiveIn(tablesAt(last), namespace, id) ==> PassedOver(load(id), profile)
    ensures r.Err? ==>
              exists id :: NewestOf(tablesAt(last), namespace, load, profile, id) && load(id).Failed?
                && r.error == LoadFailed(load(id).error)
  {
    hide Growing, Agrees, KeepsNamespaces, Candidates, NewestOf, CursorsGrow;
    var gathered, requests := GatherCandidates<E>((k: nat) => tablesAt(k).changes, settled, namespace);
    last := requests - 1;
    ghost var t := tablesAt(last);
    var candidates := gathered.value;
    AgreesMeansGrow(t);
    CandidateCursors(t.changes, namespace);
    r := LoadNewest(candidates, load, profile);
    if r.Err? {
      ghost var id :| id in candidates && !candidates[id].deleted
              && load(id).Failed? && r.error == LoadFailed(load(id).error)
              && forall other :: Newer(candidates, other, id) ==> PassedOver(load(other), profile);
      NewestAmongRows(t, namespace, load, profile, id);
    } else if r.value.Some? {
      NewestAmongRows(t, namespace, load, profile, r.value.value.0);
    } else {
      forall id | LiveIn(t, namespace, id)
        ensures PassedOver(load(id), profile) {
        CandidatesAreRows(t, namespace, id);
      }
    }
  }
}
