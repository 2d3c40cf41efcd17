/** The synchronisation service of lib/syncService.ts: it gathers the
    records not yet synced, posts them with the sync checkpoint, writes the
    server's records into the local database and moves the checkpoint
    forward only after all of that succeeded. The browser's online flag,
    the clock and the HTTP exchange are parameters. */
module Sync {
  import opened Optional
  import opened Seqs
  import opened Tables
  import opened Records
  import opened LocalDatabase
  import opened Storage
  import opened Auth

  /** `new Date(0).toISOString()`: the checkpoint before any sync. */
  const Epoch: string := "1970-01-01T00:00:00.000Z"

  /** Minutes between automatic syncs when the caller names none. */
  const DefaultIntervalMinutes: int := 5

  /** The posted body: the client's unsynced records and the checkpoint.
      The arrears and settings lists of the body are always empty and are
      not represented. */
  datatype SyncRequest = SyncRequest(
    deceased: seq<Deceased>,
    contributors: seq<Contributor>,
    contributions: seq<Contribution>,
    expenses: seq<Expense>,
    lastSyncTimestamp: string)

  /** The server's records, in the order the reply lists them. */
  datatype ServerChanges = ServerChanges(
    deceased: seq<Deceased>,
    contributors: seq<Contributor>,
    contributions: seq<Contribution>,
    expenses: seq<Expense>)

  /** The `data` member of a reply: the server's records, how many
      conflicts it reported, and the new checkpoint. */
  datatype SyncData = SyncData(serverChanges: ServerChanges, conflicts: nat, syncTimestamp: string)

  /** How the POST ended: `fetch` itself rejected, or a response with its
      status code and the `data` member of its JSON body when it has one. */
  datatype HttpReply = NetworkError | Reply(status: int, data: Option<SyncData>)

  /** `response.ok`. */
  predicate IsOk(status: int) {
    200 <= status <= 299
  }

  // ---------------------------------------------------------------- checkpoint

  /** `getLastSyncTimestamp()`: the cached checkpoint when it is truthy,
      otherwise the stored one when that is truthy, otherwise the epoch. */
  function Checkpoint(cached: Option<string>, stored: Option<string>): (r: string)
    ensures r != ""
    ensures Truthy(cached) ==> r == cached.value
  {
    if Truthy(cached) then cached.value
    else if Truthy(stored) then stored.value
    else Epoch
  }

  /** Once loaded, the checkpoint is cached: reading it again never consults
      storage, whatever storage holds by then. */
  lemma CheckpointCached(cached: Option<string>, stored: Option<string>, later: Option<string>)
    ensures Checkpoint(Some(Checkpoint(cached, stored)), later) == Checkpoint(cached, stored)
  {
  }

  // --------------------------------------------------------- unsynced changes

  function DeceasedPending(d: Deceased): bool { !d.isSynced }
  function ContributorPending(c: Contributor): bool { !c.isSynced }
  function ContributionPending(c: Contribution): bool { !c.isSynced }
  function ExpensePending(e: Expense): bool { !e.isSynced }

  /** `getUnsyncedChanges()`: the four lists filtered to the records whose
      `isSynced` is not set, in the order the `getAll` helpers list them,
      with the checkpoint. */
  function UnsyncedChanges(st: DbState, checkpoint: string): SyncRequest {
    SyncRequest(Filter(AllDeceased(st.deceased), DeceasedPending),
                Filter(st.contributors.rows, ContributorPending),
                Filter(AllContributions(st.contributions), ContributionPending),
                Filter(AllExpenses(st.expenses), ExpensePending),
                checkpoint)
  }

  /** The request holds exactly the stored records not marked synced. */
  lemma UnsyncedMembers(st: DbState, checkpoint: string)
    ensures var r := UnsyncedChanges(st, checkpoint);
            (forall d :: d in r.deceased <==> d in st.deceased.rows && !d.isSynced) &&
            (forall c :: c in r.contributors <==> c in st.contributors.rows && !c.isSynced) &&
            (forall c :: c in r.contributions <==> c in st.contributions.rows && !c.isSynced) &&
            (forall e :: e in r.expenses <==> e in st.expenses.rows && !e.isSynced)
  {
    AllDeceasedSpec(st.deceased);
    AllContributionsSpec(st.contributions);
    AllExpensesSpec(st.expenses);
    FilterOfPermutation(AllDeceased(st.deceased), st.deceased.rows, DeceasedPending);
    FilterMembers(st.contributors.rows, ContributorPending);
    FilterOfPermutation(AllContributions(st.contributions), st.contributions.rows, ContributionPending);
    FilterOfPermutation(AllExpenses(st.expenses), st.expenses.rows, ExpensePending);
  }

  /** Each list of the request keeps the order its `getAll` helper lists
      the records in. */
  lemma PendingKeepsOrder(st: DbState, checkpoint: string)
    ensures var r := UnsyncedChanges(st, checkpoint);
            IsSubsequence(r.deceased, AllDeceased(st.deceased)) &&
            IsSubsequence(r.contributors, st.contributors.rows) &&
            IsSubsequence(r.contributions, AllContributions(st.contributions)) &&
            IsSubsequence(r.expenses, AllExpenses(st.expenses))
  {
    FilterIsSubsequence(AllDeceased(st.deceased), DeceasedPending);
    FilterIsSubsequence(st.contributors.rows, ContributorPending);
    FilterIsSubsequence(AllContributions(st.contributions), ContributionPending);
    FilterIsSubsequence(AllExpenses(st.expenses), ExpensePending);
  }

  /** Some list of the request is non-empty. */
  predicate HasChanges(req: SyncRequest) {
    req.deceased != [] || req.contributors != [] || req.contributions != [] || req.expenses != []
  }

  /** A sync posts nothing exactly when every stored record is marked synced. */
  lemma NothingToSendIffAllSynced(st: DbState, checkpoint: string)
    ensures !HasChanges(UnsyncedChanges(st, checkpoint)) <==>
              (forall d :: d in st.deceased.rows ==> d.isSynced) &&
              (forall c :: c in st.contributors.rows ==> c.isSynced) &&
              (forall c :: c in st.contributions.rows ==> c.isSynced) &&
              (forall e :: e in st.expenses.rows ==> e.isSynced)
  {
    var r := UnsyncedChanges(st, checkpoint);
    UnsyncedMembers(st, checkpoint);
    if r.deceased != [] { assert r.deceased[0] in r.deceased; }
    if r.contributors != [] { assert r.contributors[0] in r.contributors; }
    if r.contributions != [] { assert r.contributions[0] in r.contributions; }
    if r.expenses != [] { assert r.expenses[0] in r.expenses; }
  }

  // ------------------------------------------------------------ the reply

  /** What `pushChanges` makes of a reply: whether it goes on to read the
      body, and what it sets `backendAvailable` to (None leaves it). */
  datatype Verdict = Verdict(accepted: bool, availability: Option<bool>)

  function Classify(reply: HttpReply): (v: Verdict)
    ensures v.accepted <==> reply.Reply? && IsOk(reply.status)
    ensures v.availability == Some(false) <==> reply.Reply? && (reply.status == 404 || reply.status == 0)
    ensures v.availability == Some(true) <==> reply.Reply? && (reply.status == 401 || IsOk(reply.status))
    ensures v.availability.None? <==>
              reply.NetworkError? ||
              (reply.status != 401 && reply.status != 404 && reply.status != 0 && !IsOk(reply.status))
  {
    match reply
    case NetworkError => Verdict(false, None)
    case Reply(status, _) =>
      if status == 401 then Verdict(false, Some(true))
      else if status == 404 || status == 0 then Verdict(false, Some(false))
      else if !IsOk(status) then Verdict(false, None)
      else Verdict(true, Some(true))
  }

  // ------------------------------------------------------ applying changes

  /** One server record of a store that is updated in place: the stored row
      under k gets the changes, or `created` is added when there is none. */
  function Upsert<T(!new)>(t: Table<T>, key: T -> int, k: int, changes: T -> T, created: T): (r: Table<T>)
    requires WellFormed(t, key)
    requires forall x :: key(changes(x)) == key(x)
    requires key(created) == k
    ensures WellFormed(r, key)
  {
    if Get(t.rows, key, k).Some? then Update(t, key, k, changes)
    else AddTo(t, key, created).0
  }

  /** After an upsert the row under k is the changed stored row, or the
      created one when there was none; every other row is as it was. */
  lemma UpsertGet<T(!new)>(t: Table<T>, key: T -> int, k: int, changes: T -> T, created: T, j: int)
    requires WellFormed(t, key)
    requires forall x :: key(changes(x)) == key(x)
    requires key(created) == k
    ensures Get(Upsert(t, key, k, changes, created).rows, key, j) ==
              if j != k then Get(t.rows, key, j)
              else if Get(t.rows, key, k).Some? then Some(changes(Get(t.rows, key, k).value))
              else Some(created)
  {
    if Get(t.rows, key, k).None? {
      AddToGet(t, key, created);
    }
  }

  /** The deceased loop of `applyServerChanges`, over a prefix of the list. */
  function ApplyDeceased(t: Table<Deceased>, rs: seq<Deceased>, now: int): (r: Table<Deceased>)
    requires WellFormed(t, DeceasedKey)
    ensures WellFormed(r, DeceasedKey)
    decreases |rs|
  {
    if rs == [] then t
    else
      var s := rs[|rs| - 1];
      Upsert(ApplyDeceased(t, rs[..|rs| - 1], now), DeceasedKey, s.id,
             DeceasedChanges(DeceasedAsPatch(s), now), NewDeceased(s, s.id, now))
  }

  /** The contributor loop of `applyServerChanges`. */
  function ApplyContributors(t: Table<Contributor>, rs: seq<Contributor>, now: int): (r: Table<Contributor>)
    requires WellFormed(t, ContributorKey)
    ensures WellFormed(r, ContributorKey)
    decreases |rs|
  {
    if rs == [] then t
    else
      var s := rs[|rs| - 1];
      Upsert(ApplyContributors(t, rs[..|rs| - 1], now), ContributorKey, s.id,
             ContributorChanges(ContributorAsPatch(s), now), NewContributor(s, s.id, now))
  }

  /** The folds over a prefix one record longer. */
  lemma ApplyDeceasedPrefix(t: Table<Deceased>, rs: seq<Deceased>, i: int, now: int)
    requires WellFormed(t, DeceasedKey) && 0 <= i < |rs|
    ensures ApplyDeceased(t, rs[..i + 1], now) ==
            Upsert(ApplyDeceased(t, rs[..i], now), DeceasedKey, rs[i].id,
                   DeceasedChanges(DeceasedAsPatch(rs[i]), now), NewDeceased(rs[i], rs[i].id, now))
  {
    assert rs[..i + 1][..i] == rs[..i];
  }

  lemma ApplyContributorsPrefix(t: Table<Contributor>, rs: seq<Contributor>, i: int, now: int)
    requires WellFormed(t, ContributorKey) && 0 <= i < |rs|
    ensures ApplyContributors(t, rs[..i + 1], now) ==
            Upsert(ApplyContributors(t, rs[..i], now), ContributorKey, rs[i].id,
                   ContributorChanges(ContributorAsPatch(rs[i]), now), NewContributor(rs[i], rs[i].id, now))
  {
    assert rs[..i + 1][..i] == rs[..i];
  }

  /** One step of the deceased loop, as an upsert lookup. */
  lemma ApplyDeceasedStep(t: Table<Deceased>, rs: seq<Deceased>, now: int, j: int)
    requires WellFormed(t, DeceasedKey) && rs != []
    ensures var pre := ApplyDeceased(t, rs[..|rs| - 1], now);
            var s := rs[|rs| - 1];
            Get(ApplyDeceased(t, rs, now).rows, DeceasedKey, j) ==
              if j != s.id then Get(pre.rows, DeceasedKey, j)
              else if Get(pre.rows, DeceasedKey, j).Some? then
                Some(PatchDeceased(Get(pre.rows, DeceasedKey, j).value, DeceasedAsPatch(s), now))
              else Some(NewDeceased(s, s.id, now))
  {
    var s := rs[|rs| - 1];
    UpsertGet(ApplyDeceased(t, rs[..|rs| - 1], now), DeceasedKey, s.id,
              DeceasedChanges(DeceasedAsPatch(s), now), NewDeceased(s, s.id, now), j);
  }

  lemma ApplyContributorsStep(t: Table<Contributor>, rs: seq<Contributor>, now: int, j: int)
    requires WellFormed(t, ContributorKey) && rs != []
    ensures var pre := ApplyContributors(t, rs[..|rs| - 1], now);
            var s := rs[|rs| - 1];
            Get(ApplyContributors(t, rs, now).rows, ContributorKey, j) ==
              if j != s.id then Get(pre.rows, ContributorKey, j)
              else if Get(pre.rows, ContributorKey, j).Some? then
                Some(PatchContributor(Get(pre.rows, ContributorKey, j).value, ContributorAsPatch(s), now))
              else Some(NewContributor(s, s.id, now))
  {
    var s := rs[|rs| - 1];
    UpsertGet(ApplyContributors(t, rs[..|rs| - 1], now), ContributorKey, s.id,
              ContributorChanges(ContributorAsPatch(s), now), NewContributor(s, s.id, now), j);
  }

  /** After the deceased loop every record the server sent is stored. */
  lemma {:induction false} ApplyDeceasedStoresAll(t: Table<Deceased>, rs: seq<Deceased>, now: int, i: int)
    requires WellFormed(t, DeceasedKey) && 0 <= i < |rs|
    ensures Get(ApplyDeceased(t, rs, now).rows, DeceasedKey, rs[i].id).Some?
    decreases |rs|
  {
    ApplyDeceasedStep(t, rs, now, rs[i].id);
    if i < |rs| - 1 {
      assert rs[..|rs| - 1][i] == rs[i];
      ApplyDeceasedStoresAll(t, rs[..|rs| - 1], now, i);
    }
  }

  /** A deceased record the server did not send is left exactly as it was,
      unsynced ones included. */
  lemma {:induction false} ApplyDeceasedKeepsOthers(t: Table<Deceased>, rs: seq<Deceased>, now: int, k: int)
    requires WellFormed(t, DeceasedKey)
    requires forall i :: 0 <= i < |rs| ==> rs[i].id != k
    ensures Get(ApplyDeceased(t, rs, now).rows, DeceasedKey, k) == Get(t.rows, DeceasedKey, k)
    decreases |rs|
  {
    if rs != [] {
      ApplyDeceasedStep(t, rs, now, k);
      assert rs[|rs| - 1].id != k;
      ApplyDeceasedKeepsOthers(t, rs[..|rs| - 1], now, k);
    }
  }

  /** A server deceased record new to this device is stored as unsynced,
      stamped with the time of the sync; one already stored takes the
      server's fields. */
  lemma ApplyDeceasedLast(t: Table<Deceased>, rs: seq<Deceased>, now: int)
    requires WellFormed(t, DeceasedKey) && rs != []
    ensures var s := rs[|rs| - 1];
            var before := Get(ApplyDeceased(t, rs[..|rs| - 1], now).rows, DeceasedKey, s.id);
            Get(ApplyDeceased(t, rs, now).rows, DeceasedKey, s.id) ==
              if before.None? then Some(s.(isSynced := false, createdAt := now, updatedAt := now))
              else Some(s.(updatedAt := now, photo := if s.photo.Some? then s.photo else before.value.photo))
  {
    var s := rs[|rs| - 1];
    ApplyDeceasedStep(t, rs, now, s.id);
    var before := Get(ApplyDeceased(t, rs[..|rs| - 1], now).rows, DeceasedKey, s.id);
    if before.Some? {
      DeceasedFullPatch(before.value, s, now);
    }
  }

  lemma {:induction false} ApplyContributorsStoresAll(t: Table<Contributor>, rs: seq<Contributor>, now: int, i: int)
    requires WellFormed(t, ContributorKey) && 0 <= i < |rs|
    ensures Get(ApplyContributors(t, rs, now).rows, ContributorKey, rs[i].id).Some?
    decreases |rs|
  {
    ApplyContributorsStep(t, rs, now, rs[i].id);
    if i < |rs| - 1 {
      assert rs[..|rs| - 1][i] == rs[i];
      ApplyContributorsStoresAll(t, rs[..|rs| - 1], now, i);
    }
  }

  lemma {:induction false} ApplyContributorsKeepsOthers(t: Table<Contributor>, rs: seq<Contributor>, now: int, k: int)
    requires WellFormed(t, ContributorKey)
    requires forall i :: 0 <= i < |rs| ==> rs[i].id != k
    ensures Get(ApplyContributors(t, rs, now).rows, ContributorKey, k) == Get(t.rows, ContributorKey, k)
    decreases |rs|
  {
    if rs != [] {
      ApplyContributorsStep(t, rs, now, k);
      assert rs[|rs| - 1].id != k;
      ApplyContributorsKeepsOthers(t, rs[..|rs| - 1], now, k);
    }
  }

  /** The contribution and expense loops: every server record is added under
      its own key, and the first key already taken aborts the rest. The
      flag says whether every add went through. */
  function AppendAll<T>(t: Table<T>, key: T -> int, rs: seq<T>): (r: (Table<T>, bool))
    requires WellFormed(t, key)
    ensures WellFormed(r.0, key)
    decreases |rs|
  {
    if rs == [] then (t, true)
    else
      var p := AppendAll(t, key, rs[..|rs| - 1]);
      if !p.1 then p
      else
        var a := AddTo(p.0, key, rs[|rs| - 1]);
        (a.0, a.1.Added?)
  }

  /** One more record: appended when every earlier add went through. */
  lemma AppendAllStep<T>(t: Table<T>, key: T -> int, rs: seq<T>, x: T)
    requires WellFormed(t, key) && AppendAll(t, key, rs).1
    ensures AppendAll(t, key, rs + [x]) ==
            (AddTo(AppendAll(t, key, rs).0, key, x).0, AddTo(AppendAll(t, key, rs).0, key, x).1.Added?)
  {
    assert (rs + [x])[..|rs|] == rs;
  }

  /** Appending never alters a stored row. */
  lemma {:induction false} AppendAllKeepsStored<T>(t: Table<T>, key: T -> int, rs: seq<T>, k: int)
    requires WellFormed(t, key) && Get(t.rows, key, k).Some?
    ensures Get(AppendAll(t, key, rs).0.rows, key, k) == Get(t.rows, key, k)
    decreases |rs|
  {
    if rs != [] {
      AppendAllKeepsStored(t, key, rs[..|rs| - 1], k);
      AddToGet(AppendAll(t, key, rs[..|rs| - 1]).0, key, rs[|rs| - 1]);
    }
  }

  /** When every add went through, every record is stored as it was given. */
  lemma {:induction false} AppendAllStoresAll<T>(t: Table<T>, key: T -> int, rs: seq<T>, i: int)
    requires WellFormed(t, key) && 0 <= i < |rs| && AppendAll(t, key, rs).1
    ensures Get(AppendAll(t, key, rs).0.rows, key, key(rs[i])) == Some(rs[i])
    decreases |rs|
  {
    var p := AppendAll(t, key, rs[..|rs| - 1]);
    assert p.1;
    AddToGet(p.0, key, rs[|rs| - 1]);
    if i < |rs| - 1 {
      assert rs[..|rs| - 1][i] == rs[i];
      AppendAllStoresAll(t, key, rs[..|rs| - 1], i);
    }
  }

  /** Once an add has failed, the later records are not looked at. */
  lemma {:induction false} AppendAllStops<T>(t: Table<T>, key: T -> int, rs: seq<T>, j: int)
    requires WellFormed(t, key) && 0 <= j <= |rs|
    requires !AppendAll(t, key, rs[..j]).1
    ensures AppendAll(t, key, rs) == AppendAll(t, key, rs[..j])
    decreases |rs|
  {
    if j < |rs| {
      assert rs[..|rs| - 1][..j] == rs[..j];
      AppendAllStops(t, key, rs[..|rs| - 1], j);
    } else {
      assert rs[..j] == rs;
    }
  }

  /** A server record whose key is already stored is never merged: the
      sync aborts, and the stored record stays as it was. */
  lemma {:induction false} AppendAllRefusesStored<T>(t: Table<T>, key: T -> int, rs: seq<T>, i: int)
    requires WellFormed(t, key) && 0 <= i < |rs|
    requires Get(t.rows, key, key(rs[i])).Some?
    ensures !AppendAll(t, key, rs).1
    ensures Get(AppendAll(t, key, rs).0.rows, key, key(rs[i])) == Get(t.rows, key, key(rs[i]))
  {
    var pre := rs[..i + 1];
    assert pre[..|pre| - 1] == rs[..i] && pre[|pre| - 1] == rs[i];
    AppendAllKeepsStored(t, key, rs[..i], key(rs[i]));
    assert !AppendAll(t, key, pre).1;
    AppendAllStops(t, key, rs, i + 1);
    AppendAllKeepsStored(t, key, rs, key(rs[i]));
  }

  /** Server contributions as `addContribution` stores them: each keeps the
      server's id and every field the server sent, except that it is marked
      not synced and created now. */
  function StampContributions(rs: seq<Contribution>, now: int): (r: seq<Contribution>)
    ensures |r| == |rs|
    ensures forall i :: 0 <= i < |rs| ==> r[i].id == rs[i].id && !r[i].isSynced && r[i].createdAt == now
    ensures forall i :: 0 <= i < |rs| ==> r[i].(isSynced := rs[i].isSynced, createdAt := rs[i].createdAt) == rs[i]
  {
    seq(|rs|, i requires 0 <= i < |rs| => NewContribution(rs[i], rs[i].id, now))
  }

  /** Server expenses as `addExpense` stores them, likewise. */
  function StampExpenses(rs: seq<Expense>, now: int): (r: seq<Expense>)
    ensures |r| == |rs|
    ensures forall i :: 0 <= i < |rs| ==> r[i].id == rs[i].id && !r[i].isSynced && r[i].createdAt == now
    ensures forall i :: 0 <= i < |rs| ==> r[i].(isSynced := rs[i].isSynced, createdAt := rs[i].createdAt) == rs[i]
  {
    seq(|rs|, i requires 0 <= i < |rs| => NewExpense(rs[i], rs[i].id, now))
  }

  /** `applyServerChanges`: the four loops in order; a refused contribution
      or expense stops everything after it and the writes before it stay. */
  function ApplyChanges(st: DbState, ch: ServerChanges, now: int): (r: (DbState, bool))
    requires Consistent(st)
    ensures Consistent(r.0)
    ensures r.0.users == st.users && r.0.settings == st.settings
  {
    var d := ApplyDeceased(st.deceased, ch.deceased, now);
    var c := ApplyContributors(st.contributors, ch.contributors, now);
    var cn := AppendAll(st.contributions, ContributionKey, StampContributions(ch.contributions, now));
    if !cn.1 then (st.(deceased := d, contributors := c, contributions := cn.0), false)
    else
      var e := AppendAll(st.expenses, ExpenseKey, StampExpenses(ch.expenses, now));
      (st.(deceased := d, contributors := c, contributions := cn.0, expenses := e.0), e.1)
  }

  /** Applying the server's changes never alters a stored contribution or
      expense, merged or not, and leaves every deceased and contributor
      record the server did not send as it was. */
  lemma ApplyKeepsLocalRecords(st: DbState, ch: ServerChanges, now: int, k: int)
    requires Consistent(st)
    ensures var r := ApplyChanges(st, ch, now).0;
            (Get(st.contributions.rows, ContributionKey, k).Some? ==>
               Get(r.contributions.rows, ContributionKey, k) == Get(st.contributions.rows, ContributionKey, k)) &&
            (Get(st.expenses.rows, ExpenseKey, k).Some? ==>
               Get(r.expenses.rows, ExpenseKey, k) == Get(st.expenses.rows, ExpenseKey, k)) &&
            ((forall i :: 0 <= i < |ch.deceased| ==> ch.deceased[i].id != k) ==>
               Get(r.deceased.rows, DeceasedKey, k) == Get(st.deceased.rows, DeceasedKey, k)) &&
            ((forall i :: 0 <= i < |ch.contributors| ==> ch.contributors[i].id != k) ==>
               Get(r.contributors.rows, ContributorKey, k) == Get(st.contributors.rows, ContributorKey, k))
  {
    if Get(st.contributions.rows, ContributionKey, k).Some? {
      AppendAllKeepsStored(st.contributions, ContributionKey, StampContributions(ch.contributions, now), k);
    }
    var cn := AppendAll(st.contributions, ContributionKey, StampContributions(ch.contributions, now));
    if cn.1 && Get(st.expenses.rows, ExpenseKey, k).Some? {
      AppendAllKeepsStored(st.expenses, ExpenseKey, StampExpenses(ch.expenses, now), k);
    }
    if forall i :: 0 <= i < |ch.deceased| ==> ch.deceased[i].id != k {
      ApplyDeceasedKeepsOthers(st.deceased, ch.deceased, now, k);
    }
    if forall i :: 0 <= i < |ch.contributors| ==> ch.contributors[i].id != k {
      ApplyContributorsKeepsOthers(st.contributors, ch.contributors, now, k);
    }
  }

  /** A reply without records leaves the database as it was. */
  lemma ApplyNothing(st: DbState, now: int)
    requires Consistent(st)
    ensures ApplyChanges(st, ServerChanges([], [], [], []), now) == (st, true)
  {
    assert StampContributions([], now) == [];
    assert StampExpenses([], now) == [];
  }

  /** After a fully applied reply, every contribution and expense the
      server sent is stored under its own id with the server's fields, but
      marked not synced and created now: pulled records count as local
      changes to post on the next sync. */
  lemma ApplyStoresPulledUnsynced(st: DbState, ch: ServerChanges, now: int)
    requires Consistent(st) && ApplyChanges(st, ch, now).1
    ensures var r := ApplyChanges(st, ch, now).0;
            forall i :: 0 <= i < |ch.contributions| ==>
              Get(r.contributions.rows, ContributionKey, ch.contributions[i].id) ==
                Some(ch.contributions[i].(isSynced := false, createdAt := now))
    ensures var r := ApplyChanges(st, ch, now).0;
            forall i :: 0 <= i < |ch.expenses| ==>
              Get(r.expenses.rows, ExpenseKey, ch.expenses[i].id) ==
                Some(ch.expenses[i].(isSynced := false, createdAt := now))
  {
    var cs := StampContributions(ch.contributions, now);
    var cn := AppendAll(st.contributions, ContributionKey, cs);
    assert cn.1;
    forall i | 0 <= i < |ch.contributions|
      ensures Get(cn.0.rows, ContributionKey, ch.contributions[i].id) ==
                Some(ch.contributions[i].(isSynced := false, createdAt := now))
    {
      AppendAllStoresAll(st.contributions, ContributionKey, cs, i);
      assert cs[i] == ch.contributions[i].(isSynced := false, createdAt := now);
    }
    var es := StampExpenses(ch.expenses, now);
    forall i | 0 <= i < |ch.expenses|
      ensures Get(AppendAll(st.expenses, ExpenseKey, es).0.rows, ExpenseKey, ch.expenses[i].id) ==
                Some(ch.expenses[i].(isSynced := false, createdAt := now))
    {
      AppendAllStoresAll(st.expenses, ExpenseKey, es, i);
      assert es[i] == ch.expenses[i].(isSynced := false, createdAt := now);
    }
  }

  /** A server contribution whose id is already stored makes the apply fail. */
  lemma ApplyRefusesKnownContribution(st: DbState, ch: ServerChanges, now: int, i: int)
    requires Consistent(st) && 0 <= i < |ch.contributions|
    requires Get(st.contributions.rows, ContributionKey, ch.contributions[i].id).Some?
    ensures !ApplyChanges(st, ch, now).1
  {
    var rs := StampContributions(ch.contributions, now);
    assert ContributionKey(rs[i]) == ch.contributions[i].id;
    AppendAllRefusesStored(st.contributions, ContributionKey, rs, i);
  }

  // ------------------------------------------------------------ one sync

  /** Everything `sync()` leaves behind, as a value. */
  datatype Outcome = Outcome(
    ok: bool,
    sent: Option<SyncRequest>,
    st: DbState,
    checkpoint: Option<string>,
    stored: Option<string>,
    backendAvailable: bool)

  /** The database after `applyServerChanges` on the reply's records, and
      whether every write went through; a reply without records leaves the
      database alone. */
  function Merged(st: DbState, reply: HttpReply, now: int): (r: (DbState, bool))
    requires Consistent(st)
    ensures Consistent(r.0)
  {
    if reply.Reply? && reply.data.Some? then ApplyChanges(st, reply.data.value.serverChanges, now)
    else (st, false)
  }

  /** `sync()` once its busy and online guards have passed, as a function of
      what it reads: the database, the cached and stored checkpoints, the
      availability flag, the token `getToken()` yields and the reply the
      POST would get; `pending` is what `getUnsyncedChanges()` builds and
      `merged` what writing the reply's records yields. */
  function SyncOutcome(st: DbState, cached: Option<string>, stored: Option<string>, available: bool,
                       token: Option<Token>, reply: HttpReply, pending: SyncRequest, merged: (DbState, bool)): Outcome
  {
    var cp := Some(pending.lastSyncTimestamp);
    if !HasChanges(pending) then Outcome(true, None, st, cp, stored, available)
    else if token.None? then Outcome(false, None, st, cp, stored, available)
    else
      var v := Classify(reply);
      var avail := v.availability.GetOr(available);
      if !v.accepted || reply.data.None? then Outcome(false, Some(pending), st, cp, stored, avail)
      else if !merged.1 then Outcome(false, Some(pending), merged.0, cp, stored, avail)
      else
        var ts := Some(reply.data.value.syncTimestamp);
        Outcome(true, Some(pending), merged.0, ts, ts, avail)
  }

  /** One whole `sync()` call: a sync that is already running, or an offline
      browser, turns the call away with nothing read or written. */
  function SyncRun(st: DbState, cached: Option<string>, stored: Option<string>, available: bool,
                   busy: bool, online: bool, token: Option<Token>, reply: HttpReply, now: int): (r: Outcome)
    requires Consistent(st)
    ensures Consistent(r.st)
    ensures busy || !online ==> r == Outcome(false, None, st, cached, stored, available)
  {
    if busy || !online then Outcome(false, None, st, cached, stored, available)
    else
      var pending := UnsyncedChanges(st, Checkpoint(cached, stored));
      var merged := Merged(st, reply, now);
      SyncWritesOnlyAfterReply(st, cached, stored, available, token, reply, pending, merged);
      SyncOutcome(st, cached, stored, available, token, reply, pending, merged)
  }

  /** The checkpoint in storage moves only on a fully successful round trip,
      and then to the server's timestamp; on a failure the cached
      checkpoint is the one the request carried. */
  lemma CheckpointOnlyOnSuccess(st: DbState, cached: Option<string>, stored: Option<string>, available: bool,
                                token: Option<Token>, reply: HttpReply, pending: SyncRequest, merged: (DbState, bool))
    ensures var r := SyncOutcome(st, cached, stored, available, token, reply, pending, merged);
            (r.stored != stored ==>
               r.ok && r.sent.Some? && reply.Reply? && IsOk(reply.status) && reply.data.Some? && merged.1 &&
               r.stored == r.checkpoint == Some(reply.data.value.syncTimestamp)) &&
            (!r.ok ==> r.stored == stored && r.checkpoint == Some(pending.lastSyncTimestamp))
  {
  }

  /** A request is posted only when there is something to send and a token
      to send it with, and what is posted is the request
      `getUnsyncedChanges()` built. */
  lemma PostedOnlyWithChanges(st: DbState, cached: Option<string>, stored: Option<string>, available: bool,
                              token: Option<Token>, reply: HttpReply, pending: SyncRequest, merged: (DbState, bool))
    ensures var r := SyncOutcome(st, cached, stored, available, token, reply, pending, merged);
            (r.sent.Some? <==> token.Some? && HasChanges(pending)) &&
            (r.sent.Some? ==> r.sent.value == pending)
  {
  }

  /** The local database changes only after an accepted reply with a body,
      and `backendAvailable` changes only when the POST was made, to what
      the reply's status says. */
  lemma SyncWritesOnlyAfterReply(st: DbState, cached: Option<string>, stored: Option<string>, available: bool,
                                 token: Option<Token>, reply: HttpReply, pending: SyncRequest, merged: (DbState, bool))
    ensures var r := SyncOutcome(st, cached, stored, available, token, reply, pending, merged);
            (r.st != st ==> r.sent.Some? && reply.Reply? && IsOk(reply.status) && reply.data.Some? && r.st == merged.0) &&
            (r.sent.None? ==> r.backendAvailable == available) &&
            (r.sent.Some? ==> r.backendAvailable == Classify(reply).availability.GetOr(available))
  {
  }

  /** What a whole sync posts is exactly the stored records not marked
      synced, with the checkpoint loaded from the cache or storage. */
  lemma SentIsUnsynced(st: DbState, cached: Option<string>, stored: Option<string>, available: bool,
                       busy: bool, online: bool, token: Option<Token>, reply: HttpReply, now: int)
    requires Consistent(st)
    ensures var r := SyncRun(st, cached, stored, available, busy, online, token, reply, now);
            (r.sent.Some? <==>
               !busy && online && token.Some? && HasChanges(UnsyncedChanges(st, Checkpoint(cached, stored)))) &&
            (r.sent.Some? ==>
              r.sent.value.lastSyncTimestamp == Checkpoint(cached, stored) &&
              (forall d :: d in r.sent.value.deceased <==> d in st.deceased.rows && !d.isSynced) &&
              (forall c :: c in r.sent.value.contributors <==> c in st.contributors.rows && !c.isSynced) &&
              (forall c :: c in r.sent.value.contributions <==> c in st.contributions.rows && !c.isSynced) &&
              (forall e :: e in r.sent.value.expenses <==> e in st.expenses.rows && !e.isSynced))
  {
    if !busy && online {
      var pending := UnsyncedChanges(st, Checkpoint(cached, stored));
      PostedOnlyWithChanges(st, cached, stored, available, token, reply, pending, Merged(st, reply, now));
      UnsyncedMembers(st, Checkpoint(cached, stored));
    }
  }

  /** Records are never marked synced: after a successful sync in which the
      server sent nothing back, the database is as before and the next sync
      posts the same records again. */
  lemma SyncedRecordsAreSentAgain(st: DbState, cached: Option<string>, stored: Option<string>, available: bool,
                                  token: Option<Token>, reply: HttpReply, now: int, cp: string)
    requires Consistent(st)
    requires reply.Reply? && reply.data.Some? &&
             reply.data.value.serverChanges == ServerChanges([], [], [], [])
    ensures var r := SyncRun(st, cached, stored, available, false, true, token, reply, now);
            r.st == st &&
            (r.sent.Some? ==> UnsyncedChanges(r.st, cp) == r.sent.value.(lastSyncTimestamp := cp))
  {
    ApplyNothing(st, now);
    var pending := UnsyncedChanges(st, Checkpoint(cached, stored));
    PostedOnlyWithChanges(st, cached, stored, available, token, reply, pending, (st, true));
    SyncWritesOnlyAfterReply(st, cached, stored, available, token, reply, pending, (st, true));
  }

  /** The records a reply carries; a reply without a body carries none. */
  function Pulled(reply: HttpReply): (ch: ServerChanges)
    ensures !(reply.Reply? && reply.data.Some?) ==> ch == ServerChanges([], [], [], [])
  {
    if reply.Reply? && reply.data.Some? then reply.data.value.serverChanges else ServerChanges([], [], [], [])
  }

  /** Whether the reply sends back a deceased or contributor record with id k. */
  predicate DeceasedSentBack(reply: HttpReply, k: int) {
    exists i :: 0 <= i < |Pulled(reply).deceased| && Pulled(reply).deceased[i].id == k
  }

  predicate ContributorSentBack(reply: HttpReply, k: int) {
    exists i :: 0 <= i < |Pulled(reply).contributors| && Pulled(reply).contributors[i].id == k
  }

  /** The merge a sync performs, whatever its outcome, keeps every stored
      contribution and expense, and every deceased and contributor record
      the reply did not send back. */
  lemma SyncKeepsLocalRecords(st: DbState, cached: Option<string>, stored: Option<string>, available: bool,
                              busy: bool, online: bool, token: Option<Token>, reply: HttpReply, now: int, k: int)
    requires Consistent(st)
    ensures var r := SyncRun(st, cached, stored, available, busy, online, token, reply, now).st;
            (Get(st.contributions.rows, ContributionKey, k).Some? ==>
               Get(r.contributions.rows, ContributionKey, k) == Get(st.contributions.rows, ContributionKey, k)) &&
            (Get(st.expenses.rows, ExpenseKey, k).Some? ==>
               Get(r.expenses.rows, ExpenseKey, k) == Get(st.expenses.rows, ExpenseKey, k)) &&
            (!DeceasedSentBack(reply, k) ==>
               Get(r.deceased.rows, DeceasedKey, k) == Get(st.deceased.rows, DeceasedKey, k)) &&
            (!ContributorSentBack(reply, k) ==>
               Get(r.contributors.rows, ContributorKey, k) == Get(st.contributors.rows, ContributorKey, k))
  {
    if !busy && online {
      var pending := UnsyncedChanges(st, Checkpoint(cached, stored));
      SyncWritesOnlyAfterReply(st, cached, stored, available, token, reply, pending, Merged(st, reply, now));
      ApplyKeepsLocalRecords(st, Pulled(reply), now, k);
    }
  }

  /** Records are never marked synced: every record a sync found not
      synced is, after it, whatever the outcome, still stored and not
      synced, and so posted again by the next sync. The one exception is a
      deceased or contributor record the reply sent back under the same
      id, which the merge overwrites with the server's copy. */
  lemma {:induction false} PendingRecordsStayPending(st: DbState, cached: Option<string>, stored: Option<string>,
                                                     available: bool, busy: bool, online: bool, token: Option<Token>,
                                                     reply: HttpReply, now: int, cp: string)
    requires Consistent(st)
    ensures var next := UnsyncedChanges(SyncRun(st, cached, stored, available, busy, online, token, reply, now).st, cp);
            (forall c :: c in st.contributions.rows && !c.isSynced ==> c in next.contributions) &&
            (forall e :: e in st.expenses.rows && !e.isSynced ==> e in next.expenses) &&
            (forall d :: d in st.deceased.rows && !d.isSynced && !DeceasedSentBack(reply, d.id) ==>
                           d in next.deceased) &&
            (forall c :: c in st.contributors.rows && !c.isSynced && !ContributorSentBack(reply, c.id) ==>
                           c in next.contributors)
  {
    var r := SyncRun(st, cached, stored, available, busy, online, token, reply, now).st;
    UnsyncedMembers(r, cp);
    forall c | c in st.contributions.rows
      ensures c in r.contributions.rows
    {
      var i :| 0 <= i < |st.contributions.rows| && st.contributions.rows[i] == c;
      GetRow(st.contributions.rows, ContributionKey, i);
      SyncKeepsLocalRecords(st, cached, stored, available, busy, online, token, reply, now, c.id);
    }
    forall e | e in st.expenses.rows
      ensures e in r.expenses.rows
    {
      var i :| 0 <= i < |st.expenses.rows| && st.expenses.rows[i] == e;
      GetRow(st.expenses.rows, ExpenseKey, i);
      SyncKeepsLocalRecords(st, cached, stored, available, busy, online, token, reply, now, e.id);
    }
    forall d | d in st.deceased.rows && !DeceasedSentBack(reply, d.id)
      ensures d in r.deceased.rows
    {
      var i :| 0 <= i < |st.deceased.rows| && st.deceased.rows[i] == d;
      GetRow(st.deceased.rows, DeceasedKey, i);
      SyncKeepsLocalRecords(st, cached, stored, available, busy, online, token, reply, now, d.id);
    }
    forall c | c in st.contributors.rows && !ContributorSentBack(reply, c.id)
      ensures c in r.contributors.rows
    {
      var i :| 0 <= i < |st.contributors.rows| && st.contributors.rows[i] == c;
      GetRow(st.contributors.rows, ContributorKey, i);
      SyncKeepsLocalRecords(st, cached, stored, available, busy, online, token, reply, now, c.id);
    }
  }

  // --------------------------------------------------------- the service

  class SyncService {
    var lastSyncTimestamp: Option<string>
    var isSyncing: bool
    var syncInterval: Option<nat>
    var backendAvailable: bool
    /** The interval timers this service has started and not cleared, by
        handle, with their period in milliseconds. */
    var timers: map<nat, int>

    /** At most one timer runs, and it is the one `syncInterval` holds. */
    ghost predicate Valid()
      reads this
    {
      timers.Keys == if syncInterval.Some? then {syncInterval.value} else {}
    }

    constructor()
      ensures Valid()
      ensures lastSyncTimestamp.None? && !isSyncing && syncInterval.None? && backendAvailable
    {
      lastSyncTimestamp := None;
      isSyncing := false;
      syncInterval := None;
      backendAvailable := true;
      timers := map[];
    }

    /** `getLastSyncTimestamp()`: loads the checkpoint into the cache. */
    method LoadLastSyncTimestamp(storage: BrowserStorage) returns (cp: string)
      modifies this`lastSyncTimestamp
      ensures cp == Checkpoint(old(lastSyncTimestamp), storage.lastSyncTimestamp)
      ensures lastSyncTimestamp == Some(cp)
    {
      if !Truthy(lastSyncTimestamp) {
        var loaded := if Truthy(storage.lastSyncTimestamp) then storage.lastSyncTimestamp.value else Epoch;
        lastSyncTimestamp := Some(loaded);
      }
      cp := lastSyncTimestamp.value;
    }

    /** `setLastSyncTimestamp(timestamp)`: the cache and storage together. */
    method SetLastSyncTimestamp(storage: BrowserStorage, timestamp: string)
      modifies this`lastSyncTimestamp, storage`lastSyncTimestamp
      ensures lastSyncTimestamp == Some(timestamp) && storage.lastSyncTimestamp == Some(timestamp)
    {
      lastSyncTimestamp := Some(timestamp);
      storage.lastSyncTimestamp := Some(timestamp);
    }

    /** `getUnsyncedChanges()`. */
    method GetUnsyncedChanges(db: Database, storage: BrowserStorage) returns (req: SyncRequest)
      modifies this`lastSyncTimestamp
      ensures req == UnsyncedChanges(db.State(), Checkpoint(old(lastSyncTimestamp), storage.lastSyncTimestamp))
      ensures lastSyncTimestamp == Some(req.lastSyncTimestamp)
    {
      var cp := LoadLastSyncTimestamp(storage);
      req := UnsyncedChanges(db.State(), cp);
    }

    /** `pushChanges(request)`: no token means no request at all; otherwise
        the request is posted and the reply classified. */
    method PushChanges(req: SyncRequest, token: Option<Token>, reply: HttpReply)
      returns (accepted: bool, posted: Option<SyncRequest>)
      modifies this`backendAvailable
      ensures token.None? ==> !accepted && posted.None? && backendAvailable == old(backendAvailable)
      ensures token.Some? ==> posted == Some(req) && accepted == Classify(reply).accepted &&
                              backendAvailable == Classify(reply).availability.GetOr(old(backendAvailable))
    {
      if token.None? {
        return false, None;
      }
      posted := Some(req);
      match reply
      case NetworkError =>
        accepted := false;
      case Reply(status, _) =>
        if status == 401 {
          backendAvailable := true;
          accepted := false;
        } else if status == 404 || status == 0 {
          backendAvailable := false;
          accepted := false;
        } else if !IsOk(status) {
          accepted := false;
        } else {
          backendAvailable := true;
          accepted := true;
        }
    }

    /** The deceased loop of `applyServerChanges`: each server record
        updates the stored one with its id, or is added under that id. */
    method ApplyDeceasedChanges(db: Database, rs: seq<Deceased>, now: int)
      requires db.Valid()
      modifies db`deceased
      ensures db.Valid()
      ensures db.deceased == ApplyDeceased(old(db.deceased), rs, now)
    {
      var i := 0;
      while i < |rs|
        invariant 0 <= i <= |rs| && db.Valid()
        invariant db.deceased == ApplyDeceased(old(db.deceased), rs[..i], now)
      {
        var record := rs[i];
        ApplyDeceasedPrefix(old(db.deceased), rs, i, now);
        if Get(db.deceased.rows, DeceasedKey, record.id).Some? {
          db.UpdateDeceased(record.id, DeceasedAsPatch(record), now);
        } else {
          var _ := db.AddDeceased(record, Some(record.id), now);
        }
        i := i + 1;
      }
      assert rs[..i] == rs;
    }

    /** The contributor loop of `applyServerChanges`. */
    method ApplyContributorChanges(db: Database, rs: seq<Contributor>, now: int)
      requires db.Valid()
      modifies db`contributors
      ensures db.Valid()
      ensures db.contributors == ApplyContributors(old(db.contributors), rs, now)
    {
      var i := 0;
      while i < |rs|
        invariant 0 <= i <= |rs| && db.Valid()
        invariant db.contributors == ApplyContributors(old(db.contributors), rs[..i], now)
      {
        var record := rs[i];
        ApplyContributorsPrefix(old(db.contributors), rs, i, now);
        if Get(db.contributors.rows, ContributorKey, record.id).Some? {
          db.UpdateContributor(record.id, ContributorAsPatch(record), now);
        } else {
          var _ := db.AddContributor(record, Some(record.id), now);
        }
        i := i + 1;
      }
      assert rs[..i] == rs;
    }

    /** The contribution loop of `applyServerChanges`: the first refused add
        throws, which ends the loop. */
    method AddServerContributions(db: Database, rs: seq<Contribution>, now: int) returns (ok: bool)
      requires db.Valid()
      modifies db`contributions
      ensures db.Valid()
      ensures (db.contributions, ok) == AppendAll(old(db.contributions), ContributionKey, StampContributions(rs, now))
    {
      var stamped := StampContributions(rs, now);
      ok := true;
      var i := 0;
      while i < |rs| && ok
        invariant 0 <= i <= |rs| && db.Valid()
        invariant (db.contributions, ok) == AppendAll(old(db.contributions), ContributionKey, stamped[..i])
      {
        assert stamped[..i + 1] == stamped[..i] + [stamped[i]];
        AppendAllStep(old(db.contributions), ContributionKey, stamped[..i], stamped[i]);
        assert stamped[i] == NewContribution(rs[i], rs[i].id, now);
        var added := db.AddContribution(rs[i], Some(rs[i].id), now);
        ok := added.Added?;
        i := i + 1;
      }
      if ok {
        assert stamped[..i] == stamped;
      } else {
        AppendAllStops(old(db.contributions), ContributionKey, stamped, i);
      }
    }

    /** The expense loop of `applyServerChanges`. */
    method AddServerExpenses(db: Database, rs: seq<Expense>, now: int) returns (ok: bool)
      requires db.Valid()
      modifies db`expenses
      ensures db.Valid()
      ensures (db.expenses, ok) == AppendAll(old(db.expenses), ExpenseKey, StampExpenses(rs, now))
    {
      var stamped := StampExpenses(rs, now);
      ok := true;
      var i := 0;
      while i < |rs| && ok
        invariant 0 <= i <= |rs| && db.Valid()
        invariant (db.expenses, ok) == AppendAll(old(db.expenses), ExpenseKey, stamped[..i])
      {
        assert stamped[..i + 1] == stamped[..i] + [stamped[i]];
        AppendAllStep(old(db.expenses), ExpenseKey, stamped[..i], stamped[i]);
        assert stamped[i] == NewExpense(rs[i], rs[i].id, now);
        var added := db.AddExpense(rs[i], Some(rs[i].id), now);
        ok := added.Added?;
        i := i + 1;
      }
      if ok {
        assert stamped[..i] == stamped;
      } else {
        AppendAllStops(old(db.expenses), ExpenseKey, stamped, i);
      }
    }

    /** `applyServerChanges(changes)`: the four loops in order. */
    method ApplyServerChanges(db: Database, ch: ServerChanges, now: int) returns (ok: bool)
      requires db.Valid()
      modifies db
      ensures db.Valid()
      ensures (db.State(), ok) == ApplyChanges(old(db.State()), ch, now)
    {
      ApplyDeceasedChanges(db, ch.deceased, now);
      ApplyContributorChanges(db, ch.contributors, now);
      ok := AddServerContributions(db, ch.contributions, now);
      if ok {
        ok := AddServerExpenses(db, ch.expenses, now);
      }
    }

    /** The body of `sync()` once the busy and online guards have passed:
        build the request, post it, write the reply's records and move the
        checkpoint. */
    method SyncOnce(db: Database, storage: BrowserStorage, token: Option<Token>, reply: HttpReply, now: int)
      returns (ok: bool, sent: Option<SyncRequest>)
      requires db.Valid()
      modifies this`lastSyncTimestamp, this`backendAvailable, db, storage`lastSyncTimestamp
      ensures db.Valid()
      ensures Outcome(ok, sent, db.State(), lastSyncTimestamp, storage.lastSyncTimestamp, backendAvailable) ==
              SyncOutcome(old(db.State()), old(lastSyncTimestamp), old(storage.lastSyncTimestamp),
                          old(backendAvailable), token, reply,
                          UnsyncedChanges(old(db.State()), Checkpoint(old(lastSyncTimestamp), old(storage.lastSyncTimestamp))),
                          Merged(old(db.State()), reply, now))
    {
      ghost var st := db.State();
      var req := GetUnsyncedChanges(db, storage);
      if !HasChanges(req) {
        return true, None;
      }
      var accepted;
      accepted, sent := PushChanges(req, token, reply);
      if !accepted || reply.data.None? {
        return false, sent;
      }
      var data := reply.data.value;
      assert Merged(st, reply, now) == ApplyChanges(st, data.serverChanges, now);
      var applied := ApplyServerChanges(db, data.serverChanges, now);
      if !applied {
        return false, sent;
      }
      // Conflicts are only logged.
      SetLastSyncTimestamp(storage, data.syncTimestamp);
      ok := true;
    }

    /** `sync()`. `isSyncing` is back to what it was when the call returns
        (the `finally` clause), so a sync that was not turned away leaves it
        false. */
    method Sync(db: Database, auth: AuthService, storage: BrowserStorage, online: bool, reply: HttpReply, now: int)
      returns (ok: bool, sent: Option<SyncRequest>)
      requires db.Valid()
      modifies this`isSyncing, this`lastSyncTimestamp, this`backendAvailable, db, storage`lastSyncTimestamp
      ensures db.Valid()
      ensures Outcome(ok, sent, db.State(), lastSyncTimestamp, storage.lastSyncTimestamp, backendAvailable) ==
              SyncRun(old(db.State()), old(lastSyncTimestamp), old(storage.lastSyncTimestamp),
                      old(backendAvailable), old(isSyncing), online, auth.GetToken(now), reply, now)
      ensures isSyncing == old(isSyncing)
    {
      if isSyncing || !online {
        return false, None;
      }
      isSyncing := true;
      ok, sent := SyncOnce(db, storage, auth.GetToken(now), reply, now);
      isSyncing := false;
    }

    /** `manualSync()`. */
    method ManualSync(db: Database, auth: AuthService, storage: BrowserStorage, online: bool, reply: HttpReply, now: int)
      returns (ok: bool, sent: Option<SyncRequest>)
      requires db.Valid()
      modifies this`isSyncing, this`lastSyncTimestamp, this`backendAvailable, db, storage`lastSyncTimestamp
      ensures db.Valid()
      ensures Outcome(ok, sent, db.State(), lastSyncTimestamp, storage.lastSyncTimestamp, backendAvailable) ==
              SyncRun(old(db.State()), old(lastSyncTimestamp), old(storage.lastSyncTimestamp),
                      old(backendAvailable), old(isSyncing), online, auth.GetToken(now), reply, now)
      ensures isSyncing == old(isSyncing)
    {
      ok, sent := Sync(db, auth, storage, online, reply, now);
    }

    /** `stopAutoSync()`: clears the running timer, if any. */
    method StopAutoSync()
      requires Valid()
      modifies this`syncInterval, this`timers
      ensures Valid() && syncInterval.None? && timers == map[]
    {
      if syncInterval.Some? {
        timers := timers - {syncInterval.value};
        syncInterval := None;
      }
    }

    /** `startAutoSync(intervalMinutes)`: any running timer is cleared first,
        so exactly one timer runs afterwards, the new one, every five minutes
        when the argument is omitted (None). `handle` is the identifier
        `setInterval` returns. */
    method StartAutoSync(intervalMinutes: Option<int>, handle: nat)
      requires Valid()
      modifies this`syncInterval, this`timers
      ensures Valid() && syncInterval == Some(handle)
      ensures intervalMinutes.Some? ==> timers == map[handle := intervalMinutes.value * 60 * 1000]
      ensures intervalMinutes.None? ==> timers == map[handle := 300000]
    {
      if syncInterval.Some? {
        StopAutoSync();
      }
      var minutes := intervalMinutes.GetOr(DefaultIntervalMinutes);
      timers := timers[handle := minutes * 60 * 1000];
      syncInterval := Some(handle);
    }

    /** `getSyncStatus()`: note that `lastSync` is the cached checkpoint,
        absent until a sync has loaded it. */
    function SyncStatus(online: bool): (r: (bool, bool, Option<string>, bool))
      reads this
      ensures r.0 == online && r.1 == isSyncing && r.2 == lastSyncTimestamp && r.3 == backendAvailable
    {
      (online, isSyncing, lastSyncTimestamp, backendAvailable)
    }
  }
}
