/** The `process_tasks` management command: for every organization except
    the shared `public` schema, select the scheduled tasks that are pending
    (`processing_status = 0`) and due (`scheduled_time <= now`), in the
    scheduled tasks' Meta ordering, process each once, and count successes
    and failures. `now` is read once, before any tenant is visited.

    A tenant is its own store; tenants are visited in the order given. The
    world's behaviour during item `id` of tenant `k` is `env(k, id)`. */
module ProcessTasks {
  import opened Common
  import opened TaskModels
  import opened Services

  const PUBLIC_SCHEMA: string := "public"

  datatype Organization = Organization(schemaName: string, store: Store)

  /* ---------------------------------------------------------- selection */

  /** The filter of the due-task query. */
  predicate IsDue(s: ScheduledTask, now: Instant) {
    ProcessingCode(s.processing) == 0 && s.scheduledTime <= now
  }

  predicate InRange(rows: seq<ScheduledTask>, ids: seq<ScheduledId>) {
    forall a :: 0 <= a < |ids| ==> ids[a] < |rows|
  }

  predicate Distinct(ids: seq<ScheduledId>) {
    forall a, b :: 0 <= a < b < |ids| ==> ids[a] != ids[b]
  }

  /** The ids in the order `ScheduledTask.Meta.ordering` lists their rows:
      each row precedes the next one. */
  predicate SortedByMeta(rows: seq<ScheduledTask>, ids: seq<ScheduledId>)
    requires InRange(rows, ids)
  {
    forall a :: 0 < a < |ids| ==> Precedes(rows[ids[a - 1]], rows[ids[a]])
  }

  /** Since the ordering chains, in an ordered list every row precedes
      every later row. */
  lemma {:induction false} SortedChain(rows: seq<ScheduledTask>, ids: seq<ScheduledId>, a: nat, b: nat)
    requires InRange(rows, ids) && SortedByMeta(rows, ids) && a <= b < |ids|
    ensures Precedes(rows[ids[a]], rows[ids[b]])
    decreases b - a
  {
    if a == b {
      PrecedesTotalPreorder(rows[ids[a]], rows[ids[a]], rows[ids[a]]);
    } else {
      SortedChain(rows, ids, a, b - 1);
      PrecedesTotalPreorder(rows[ids[a]], rows[ids[b - 1]], rows[ids[b]]);
    }
  }

  /** Inserts `x` before the first id it precedes. */
  function InsertByMeta(rows: seq<ScheduledTask>, x: ScheduledId, xs: seq<ScheduledId>): (r: seq<ScheduledId>)
    requires x < |rows| && InRange(rows, xs)
    ensures |r| == |xs| + 1
    ensures forall i :: i in r <==> i in xs || i == x
    ensures InRange(rows, r)
    ensures xs == [] ==> r == [x]
    ensures xs != [] ==> r[0] == x || r[0] == xs[0]
  {
    if xs == [] then [x]
    else if Precedes(rows[x], rows[xs[0]]) then [x] + xs
    else
      assert xs == [xs[0]] + xs[1..];
      [xs[0]] + InsertByMeta(rows, x, xs[1..])
  }

  /** Inserting into an ordered list keeps it ordered. */
  lemma {:induction false} InsertKeepsSorted(rows: seq<ScheduledTask>, x: ScheduledId, xs: seq<ScheduledId>)
    requires x < |rows| && InRange(rows, xs) && SortedByMeta(rows, xs)
    ensures SortedByMeta(rows, InsertByMeta(rows, x, xs))
  {
    var r := InsertByMeta(rows, x, xs);
    if xs == [] {
    } else if Precedes(rows[x], rows[xs[0]]) {
      assert r == [x] + xs;
      forall a | 1 < a < |r| ensures Precedes(rows[r[a - 1]], rows[r[a]]) {
        assert r[a - 1] == xs[a - 2] && r[a] == xs[a - 1];
      }
    } else {
      var tail := xs[1..];
      assert InRange(rows, tail) && SortedByMeta(rows, tail);
      InsertKeepsSorted(rows, x, tail);
      var rest := InsertByMeta(rows, x, tail);
      assert r == [xs[0]] + rest;
      PrecedesTotalPreorder(rows[x], rows[xs[0]], rows[x]);
      assert tail != [] ==> tail[0] == xs[1];
      assert Precedes(rows[r[0]], rows[r[1]]);
      forall a | 1 < a < |r| ensures Precedes(rows[r[a - 1]], rows[r[a]]) {
        assert r[a - 1] == rest[a - 2] && r[a] == rest[a - 1];
      }
    }
  }

  /** Inserting an id not yet present keeps the ids distinct. */
  lemma {:induction false} InsertKeepsDistinct(rows: seq<ScheduledTask>, x: ScheduledId, xs: seq<ScheduledId>)
    requires x < |rows| && InRange(rows, xs) && Distinct(xs) && x !in xs
    ensures Distinct(InsertByMeta(rows, x, xs))
  {
    if xs == [] {
    } else if Precedes(rows[x], rows[xs[0]]) {
      ConsKeepsDistinct(x, xs);
    } else {
      var tail := xs[1..];
      assert InRange(rows, tail) && Distinct(tail);
      assert x !in tail;
      InsertKeepsDistinct(rows, x, tail);
      var rest := InsertByMeta(rows, x, tail);
      assert xs[0] !in tail;
      ConsKeepsDistinct(xs[0], rest);
    }
  }

  /** An id not in a list of distinct ids can go in front. */
  lemma ConsKeepsDistinct(y: ScheduledId, ys: seq<ScheduledId>)
    requires Distinct(ys) && y !in ys
    ensures Distinct([y] + ys)
  {
    var r := [y] + ys;
    forall a, b | 0 <= a < b < |r| ensures r[a] != r[b] {
      assert r[b] == ys[b - 1];
      if a > 0 {
        assert r[a] == ys[a - 1];
      }
    }
  }

  /** How many of the first `n` rows are pending and due. */
  function CountDue(rows: seq<ScheduledTask>, now: Instant, n: nat): nat
    requires n <= |rows|
  {
    if n == 0 then 0 else CountDue(rows, now, n - 1) + (if IsDue(rows[n - 1], now) then 1 else 0)
  }

  /** The due-task query over the first `n` rows: exactly the pending, due
      rows, each once, in Meta ordering. Each due row is inserted into the
      ordered result as the filter meets it. */
  function SelectPrefix(rows: seq<ScheduledTask>, now: Instant, n: nat): (r: seq<ScheduledId>)
    requires n <= |rows|
    ensures |r| == CountDue(rows, now, n)
    ensures forall j :: 0 <= j < |r| ==> r[j] < n
    ensures InRange(rows, r)
  {
    if n == 0 then []
    else
      var prev := SelectPrefix(rows, now, n - 1);
      if IsDue(rows[n - 1], now) then
        var r := InsertByMeta(rows, n - 1, prev);
        assert forall j :: 0 <= j < |r| ==> r[j] < n by {
          forall j | 0 <= j < |r| ensures r[j] < n {
            assert r[j] in r;
            if r[j] != n - 1 {
              var c :| 0 <= c < |prev| && prev[c] == r[j];
            }
          }
        }
        r
      else prev
  }

  /** The query's result lists each row once, in Meta ordering. */
  lemma {:induction false} SelectPrefixOrdered(rows: seq<ScheduledTask>, now: Instant, n: nat)
    requires n <= |rows|
    ensures Distinct(SelectPrefix(rows, now, n))
    ensures SortedByMeta(rows, SelectPrefix(rows, now, n))
  {
    if n > 0 {
      SelectPrefixOrdered(rows, now, n - 1);
      var prev := SelectPrefix(rows, now, n - 1);
      if IsDue(rows[n - 1], now) {
        assert (n - 1) !in prev;
        InsertKeepsSorted(rows, n - 1, prev);
        InsertKeepsDistinct(rows, n - 1, prev);
      }
    }
  }

  /** The query selects exactly the pending rows that are due. */
  lemma {:induction false} SelectPrefixMembers(rows: seq<ScheduledTask>, now: Instant, n: nat)
    requires n <= |rows|
    ensures forall i :: i in SelectPrefix(rows, now, n) <==> 0 <= i < n && IsDue(rows[i], now)
  {
    if n > 0 {
      SelectPrefixMembers(rows, now, n - 1);
    }
  }

  /** The due-task query of the command. */
  function SelectDue(st: Store, now: Instant): seq<ScheduledId> {
    SelectPrefix(st.scheduled, now, |st.scheduled|)
  }

  /* ---------------------------------------------------- the item function */

  /** The per-item call the loop makes, `process_scheduled_task`, seen as a
      value: the loop is stated for any item function that keeps the
      contract below, and `ProcessScheduledTaskContract` shows that the
      service's function keeps it. */
  type ItemFn = (Store, ScheduledId, ScheduledTask, ItemEnv) --> Outcome

  /** What the caller of `process_scheduled_task` provides. */
  predicate CanProcess(st: Store, id: ScheduledId, s: ScheduledTask) {
    Valid(st) && id < |st.scheduled| && BoardRefOk(st, s)
  }

  /** Where a selected row ends: processed, failed, or, when both the unit
      and the save of its FAILED status raised, untouched; a row whose item
      raised nothing ends processed. */
  predicate Settled(row: ScheduledTask, orig: ScheduledTask, e: ItemEnv) {
    && (row.processing == Processed || row.processing == Failed
        || (row == orig && e.fault.FailAt? && e.failureSaveFails))
    && (e.fault == NoFault ==> row.processing == Processed)
  }

  /** What one item does to the tables, as far as the loop is concerned:
      the tables stay consistent and only grow, other rows keep their value,
      the item's own row is settled, an item that raises nothing succeeds,
      and any row it adds is a pending successor at least a day after the
      recurrence clock. */
  predicate ItemSpec(st: Store, id: ScheduledId, s: ScheduledTask, e: ItemEnv, o: Outcome)
    requires id < |st.scheduled|
  {
    && Valid(o.store) && Grows(st, o.store)
    && (forall i :: 0 <= i < |st.scheduled| && i != id ==> o.store.scheduled[i] == st.scheduled[i])
    && (st.scheduled[id] == s ==> Settled(o.store.scheduled[id], s, e))
    && (e.fault == NoFault ==> o.success)
    && (forall i :: |st.scheduled| <= i < |o.store.scheduled| ==>
          o.store.scheduled[i].scheduledTime >= e.recurrenceNow + DAY
          && o.store.scheduled[i].processing == Unprocessed)
  }

  ghost predicate ItemContract(item: ItemFn) {
    forall st, id, s, e :: CanProcess(st, id, s) ==>
      item.requires(st, id, s, e) && ItemSpec(st, id, s, e, item(st, id, s, e))
  }

  lemma ItemFacts(st: Store, id: ScheduledId, s: ScheduledTask, e: ItemEnv)
    requires CanProcess(st, id, s)
    ensures ItemSpec(st, id, s, e, ProcessScheduledTask(st, id, s, e))
  {
    var o := ProcessScheduledTask(st, id, s, e);
    if o.success {
      assert o.store.scheduled[id].processing == Processed;
      if s.recurrence != Once {
        assert o.store.scheduled[|st.scheduled|].scheduledTime >= e.recurrenceNow + DAY;
      }
    } else {
      assert e.fault.FailAt?;
    }
  }

  /** `process_scheduled_task` keeps the item contract: whatever one item
      does, it cannot disturb another row, it always settles its own row
      unless the FAILED save raises too, and its successor is never due
      before a day after the recurrence clock. */
  lemma ProcessScheduledTaskContract()
    ensures ItemContract(ProcessScheduledTask)
  {
    forall st, id, s, e | CanProcess(st, id, s)
      ensures ItemSpec(st, id, s, e, ProcessScheduledTask(st, id, s, e))
    {
      ItemFacts(st, id, s, e);
    }
  }

  /* ------------------------------------------------------ the item loop */

  /** The two counters with the tables they were accumulated over. */
  datatype Tally = Tally(store: Store, processed: nat, failed: nat)

  lemma GrowsTrans(a: Store, b: Store, c: Store)
    requires Grows(a, b) && Grows(b, c)
    ensures Grows(a, c)
  {
    assert c.boards[..|a.boards|] == c.boards[..|b.boards|][..|a.boards|];
  }

  /** Processing the selected ids of tenant `k` in order, each from its
      in-memory copy taken when the query ran (`snap`). */
  function RunItems(item: ItemFn, snap: Store, ids: seq<ScheduledId>, k: nat,
                    env: (nat, ScheduledId) -> ItemEnv): (r: Tally)
    requires ItemContract(item) && Valid(snap) && InRange(snap.scheduled, ids)
    ensures Valid(r.store) && Grows(snap, r.store)
    ensures r.processed + r.failed == |ids|
    decreases |ids|
  {
    if ids == [] then Tally(snap, 0, 0)
    else
      var prev := RunItems(item, snap, ids[..|ids| - 1], k, env);
      var id := ids[|ids| - 1];
      assert CanProcess(prev.store, id, snap.scheduled[id]);
      var o := item(prev.store, id, snap.scheduled[id], env(k, id));
      GrowsTrans(snap, prev.store, o.store);
      if o.success then Tally(o.store, prev.processed + 1, prev.failed)
      else Tally(o.store, prev.processed, prev.failed + 1)
  }

  /** One more id of the loop: the tally grows by that id's item. */
  lemma RunItemsStep(item: ItemFn, snap: Store, ids: seq<ScheduledId>, i: nat, k: nat,
                     env: (nat, ScheduledId) -> ItemEnv)
    requires ItemContract(item) && Valid(snap) && InRange(snap.scheduled, ids) && i < |ids|
    ensures InRange(snap.scheduled, ids[..i]) && InRange(snap.scheduled, ids[..i + 1])
    ensures var t := RunItems(item, snap, ids[..i], k, env);
      && CanProcess(t.store, ids[i], snap.scheduled[ids[i]])
      && var o := item(t.store, ids[i], snap.scheduled[ids[i]], env(k, ids[i]));
         RunItems(item, snap, ids[..i + 1], k, env)
           == if o.success then Tally(o.store, t.processed + 1, t.failed)
              else Tally(o.store, t.processed, t.failed + 1)
  {
    assert ids[..i + 1][..i] == ids[..i];
    assert BoardRefOk(snap, snap.scheduled[ids[i]]);
  }

  /** Rows the loop leaves alone: a row that was not selected keeps its
      value, and every row added during the loop is a pending successor
      scheduled after `now`. */
  lemma {:induction false} RunItemsUntouched(item: ItemFn, snap: Store, ids: seq<ScheduledId>, k: nat,
                                             env: (nat, ScheduledId) -> ItemEnv, now: Instant)
    requires ItemContract(item) && Valid(snap) && InRange(snap.scheduled, ids)
    requires forall id :: env(k, id).recurrenceNow >= now
    ensures var st := RunItems(item, snap, ids, k, env).store;
      && (forall i :: 0 <= i < |snap.scheduled| && i !in ids ==> st.scheduled[i] == snap.scheduled[i])
      && (forall i :: |snap.scheduled| <= i < |st.scheduled| ==>
            st.scheduled[i].scheduledTime > now && st.scheduled[i].processing == Unprocessed)
    decreases |ids|
  {
    if ids != [] {
      var n := |ids| - 1;
      var init := ids[..n];
      var id := ids[n];
      RunItemsStep(item, snap, ids, n, k, env);
      assert ids[..n + 1] == ids;
      RunItemsUntouched(item, snap, init, k, env, now);
      var prev := RunItems(item, snap, init, k, env).store;
      var s := snap.scheduled[id];
      var st := item(prev, id, s, env(k, id)).store;
      assert ItemSpec(prev, id, s, env(k, id), item(prev, id, s, env(k, id)));
      forall i | 0 <= i < |snap.scheduled| && i !in ids ensures st.scheduled[i] == snap.scheduled[i] {
        assert i !in init;
      }
    }
  }

  /** Each selected row is settled by its own item, whatever happened to the
      other items of the loop. */
  lemma {:induction false} RunItemsSettled(item: ItemFn, snap: Store, ids: seq<ScheduledId>, k: nat,
                                           env: (nat, ScheduledId) -> ItemEnv)
    requires ItemContract(item) && Valid(snap) && InRange(snap.scheduled, ids) && Distinct(ids)
    ensures var st := RunItems(item, snap, ids, k, env).store;
      forall i :: i in ids ==> Settled(st.scheduled[i], snap.scheduled[i], env(k, i))
    decreases |ids|
  {
    if ids != [] {
      var n := |ids| - 1;
      var init := ids[..n];
      var id := ids[n];
      assert Distinct(init);
      RunItemsStep(item, snap, ids, n, k, env);
      assert ids[..n + 1] == ids;
      RunItemsSettled(item, snap, init, k, env);
      var prev := RunItems(item, snap, init, k, env).store;
      var s := snap.scheduled[id];
      assert id !in init;
      assert prev.scheduled[id] == s by {
        RunItemsKeeps(item, snap, init, k, env, id);
      }
      var st := item(prev, id, s, env(k, id)).store;
      assert ItemSpec(prev, id, s, env(k, id), item(prev, id, s, env(k, id)));
      forall i | i in ids ensures Settled(st.scheduled[i], snap.scheduled[i], env(k, i)) {
        if i != id {
          assert i in init;
        }
      }
    }
  }

  /** A row the loop has not reached yet still holds its snapshot value. */
  lemma {:induction false} RunItemsKeeps(item: ItemFn, snap: Store, ids: seq<ScheduledId>, k: nat,
                                         env: (nat, ScheduledId) -> ItemEnv, id: ScheduledId)
    requires ItemContract(item) && Valid(snap) && InRange(snap.scheduled, ids)
    requires id < |snap.scheduled| && id !in ids
    ensures RunItems(item, snap, ids, k, env).store.scheduled[id] == snap.scheduled[id]
    decreases |ids|
  {
    if ids != [] {
      var n := |ids| - 1;
      RunItemsStep(item, snap, ids, n, k, env);
      assert ids[..n + 1] == ids;
      assert id !in ids[..n];
      RunItemsKeeps(item, snap, ids[..n], k, env, id);
      var prev := RunItems(item, snap, ids[..n], k, env).store;
      var s := snap.scheduled[ids[n]];
      assert ItemSpec(prev, ids[n], s, env(k, ids[n]), item(prev, ids[n], s, env(k, ids[n])));
    }
  }

  /** When no item raises, every selected row counts as processed and none
      as failed. */
  lemma {:induction false} RunItemsAllSucceed(item: ItemFn, snap: Store, ids: seq<ScheduledId>, k: nat,
                                              env: (nat, ScheduledId) -> ItemEnv)
    requires ItemContract(item) && Valid(snap) && InRange(snap.scheduled, ids)
    requires forall id :: env(k, id).fault == NoFault
    ensures RunItems(item, snap, ids, k, env).processed == |ids|
    ensures RunItems(item, snap, ids, k, env).failed == 0
    decreases |ids|
  {
    if ids != [] {
      var n := |ids| - 1;
      RunItemsStep(item, snap, ids, n, k, env);
      assert ids[..n + 1] == ids;
      RunItemsAllSucceed(item, snap, ids[..n], k, env);
    }
  }

  /* -------------------------------------------------------- the tenants */

  /** How many rows the organization's query selects. */
  function DueCount(org: Organization, now: Instant): nat {
    if org.schemaName == PUBLIC_SCHEMA then 0 else CountDue(org.store.scheduled, now, |org.store.scheduled|)
  }

  /** One organization's part of the command: the public schema is skipped,
      a tenant with nothing due is left alone, otherwise its due rows are
      processed in order. */
  function RunOrganization(item: ItemFn, org: Organization, k: nat, now: Instant,
                           env: (nat, ScheduledId) -> ItemEnv): (r: Tally)
    requires ItemContract(item) && Valid(org.store)
    ensures Valid(r.store) && Grows(org.store, r.store)
    ensures DueCount(org, now) == 0 ==> r == Tally(org.store, 0, 0)
    ensures r.processed + r.failed == DueCount(org, now)
  {
    if org.schemaName == PUBLIC_SCHEMA then Tally(org.store, 0, 0)
    else
      var due := SelectDue(org.store, now);
      if |due| == 0 then Tally(org.store, 0, 0)
      else RunItems(item, org.store, due, k, env)
  }

  /** The run of one organization, seen as a value: the batch over the
      tenants is stated for any tenant function that keeps the contract
      below, and `Tenant` supplies the command's own. */
  type TenantFn = (Organization, nat) --> Tally

  /** What one organization's run guarantees the batch: consistent tables
      that only grow, one count per selected row, and `public` untouched. */
  predicate TenantSpec(org: Organization, now: Instant, r: Tally) {
    && Valid(r.store) && Grows(org.store, r.store)
    && r.processed + r.failed == DueCount(org, now)
    && (org.schemaName == PUBLIC_SCHEMA ==> r == Tally(org.store, 0, 0))
  }

  ghost predicate TenantContract(run: TenantFn, now: Instant) {
    forall org: Organization, k: nat :: Valid(org.store) ==> run.requires(org, k) && TenantSpec(org, now, run(org, k))
  }

  /** `RunOrganization` with the item function, the clock and the
      environment fixed. */
  function Tenant(item: ItemFn, now: Instant, env: (nat, ScheduledId) -> ItemEnv): (run: TenantFn)
    requires ItemContract(item)
    ensures TenantContract(run, now)
    ensures forall org: Organization, k: nat :: Valid(org.store) ==> run.requires(org, k) && run(org, k) == RunOrganization(item, org, k, now, env)
  {
    (org: Organization, k: nat) requires Valid(org.store) => RunOrganization(item, org, k, now, env)
  }

  /** The number of rows selected over the first `n` organizations. */
  function TotalDue(orgs: seq<Organization>, n: nat, now: Instant): nat
    requires n <= |orgs|
  {
    if n == 0 then 0 else TotalDue(orgs, n - 1, now) + DueCount(orgs[n - 1], now)
  }

  predicate AllValid(orgs: seq<Organization>) {
    forall k :: 0 <= k < |orgs| ==> Valid(orgs[k].store)
  }

  /** The organizations afterwards and the two totals. */
  datatype Batch = Batch(orgs: seq<Organization>, processed: nat, failed: nat)

  /** The command over the first `n` organizations, tenant after tenant. */
  function RunPrefix(run: TenantFn, orgs: seq<Organization>, n: nat, now: Instant): (b: Batch)
    requires TenantContract(run, now) && n <= |orgs| && AllValid(orgs)
    ensures |b.orgs| == n
    ensures b.processed + b.failed == TotalDue(orgs, n, now)
  {
    if n == 0 then Batch([], 0, 0)
    else
      var b := RunPrefix(run, orgs, n - 1, now);
      assert Valid(orgs[n - 1].store);
      var t := run(orgs[n - 1], n - 1);
      Batch(b.orgs + [orgs[n - 1].(store := t.store)], b.processed + t.processed, b.failed + t.failed)
  }

  /** One more tenant: the batch grows by that tenant's run. */
  lemma RunPrefixStep(run: TenantFn, orgs: seq<Organization>, n: nat, now: Instant)
    requires TenantContract(run, now) && n < |orgs| && AllValid(orgs)
    ensures Valid(orgs[n].store)
    ensures var b := RunPrefix(run, orgs, n, now);
            var t := run(orgs[n], n);
      RunPrefix(run, orgs, n + 1, now)
        == Batch(b.orgs + [orgs[n].(store := t.store)], b.processed + t.processed, b.failed + t.failed)
  {
  }

  /** Every organization is run in full, by itself, whatever happened in
      the others: its entry afterwards is its own run's result. */
  lemma {:induction false} RunPrefixTenant(run: TenantFn, orgs: seq<Organization>, n: nat, k: nat, now: Instant)
    requires TenantContract(run, now) && n <= |orgs| && AllValid(orgs) && k < n
    ensures Valid(orgs[k].store)
    ensures RunPrefix(run, orgs, n, now).orgs[k] == orgs[k].(store := run(orgs[k], k).store)
    decreases n
  {
    if n == k + 1 {
      RunPrefixStep(run, orgs, k, now);
      assert |RunPrefix(run, orgs, k, now).orgs| == k;
    } else {
      RunPrefixStep(run, orgs, n - 1, now);
      RunPrefixTenant(run, orgs, n - 1, k, now);
      var b := RunPrefix(run, orgs, n - 1, now);
      var all := RunPrefix(run, orgs, n, now).orgs;
      assert all[..n - 1] == b.orgs;
      assert all[k] == b.orgs[k];
    }
  }

  /** No tenant is renamed, and the public schema is left as it was. */
  lemma RunPrefixNames(run: TenantFn, orgs: seq<Organization>, n: nat, k: nat, now: Instant)
    requires TenantContract(run, now) && n <= |orgs| && AllValid(orgs) && k < n
    ensures RunPrefix(run, orgs, n, now).orgs[k].schemaName == orgs[k].schemaName
    ensures orgs[k].schemaName == PUBLIC_SCHEMA ==> RunPrefix(run, orgs, n, now).orgs[k] == orgs[k]
  {
    RunPrefixTenant(run, orgs, n, k, now);
  }

  /* ------------------------------------------------------------ methods */

  /** One iteration of the item loop: process `ids[i]` and bump the counter
      its outcome selects. */
  method Advance(item: ItemFn, snap: Store, ids: seq<ScheduledId>, i: nat, k: nat,
                 env: (nat, ScheduledId) -> ItemEnv, st: Store, processed: nat, failed: nat)
    returns (st': Store, processed': nat, failed': nat)
    requires ItemContract(item) && Valid(snap) && InRange(snap.scheduled, ids) && i < |ids|
    requires Tally(st, processed, failed) == RunItems(item, snap, ids[..i], k, env)
    ensures Tally(st', processed', failed') == RunItems(item, snap, ids[..i + 1], k, env)
  {
    var id := ids[i];
    RunItemsStep(item, snap, ids, i, k, env);
    var o := item(st, id, snap.scheduled[id], env(k, id));
    st', processed', failed' := o.store, processed, failed;
    if o.success {
      processed' := processed + 1;
    } else {
      failed' := failed + 1;
    }
  }

  /** The item loop over the selected ids, counting outcomes. */
  method RunLoop(item: ItemFn, snap: Store, due: seq<ScheduledId>, k: nat, env: (nat, ScheduledId) -> ItemEnv)
    returns (st: Store, processed: nat, failed: nat)
    requires ItemContract(item) && Valid(snap) && InRange(snap.scheduled, due)
    ensures Tally(st, processed, failed) == RunItems(item, snap, due, k, env)
  {
    st, processed, failed := snap, 0, 0;
    var i := 0;
    while i < |due|
      invariant i <= |due|
      invariant Tally(st, processed, failed) == RunItems(item, snap, due[..i], k, env)
    {
      st, processed, failed := Advance(item, snap, due, i, k, env, st, processed, failed);
      i := i + 1;
    }
    assert due[..i] == due;
  }

  /** The body of the tenant loop for organization `k`. */
  method RunTenant(item: ItemFn, org: Organization, k: nat, now: Instant, env: (nat, ScheduledId) -> ItemEnv)
    returns (st: Store, processed: nat, failed: nat)
    requires ItemContract(item) && Valid(org.store)
    ensures Tally(st, processed, failed) == RunOrganization(item, org, k, now, env)
  {
    if org.schemaName == PUBLIC_SCHEMA {
      return org.store, 0, 0;
    }
    var due := SelectDue(org.store, now);
    if |due| == 0 {
      return org.store, 0, 0;
    }
    st, processed, failed := RunLoop(item, org.store, due, k, env);
  }

  /** The tenants in order, with running totals. */
  method HandleWith(item: ItemFn, orgs: seq<Organization>, now: Instant, env: (nat, ScheduledId) -> ItemEnv)
    returns (result: seq<Organization>, processed: nat, failed: nat)
    requires ItemContract(item) && AllValid(orgs)
    ensures Batch(result, processed, failed) == RunPrefix(Tenant(item, now, env), orgs, |orgs|, now)
  {
    var run := Tenant(item, now, env);
    result, processed, failed := [], 0, 0;
    var k := 0;
    while k < |orgs|
      invariant k <= |orgs|
      invariant Batch(result, processed, failed) == RunPrefix(run, orgs, k, now)
    {
      RunPrefixStep(run, orgs, k, now);
      var st, p, f := RunTenant(item, orgs[k], k, now, env);
      result := result + [orgs[k].(store := st)];
      processed := processed + p;
      failed := failed + f;
      k := k + 1;
    }
  }

  /** `Command.handle`: every tenant but `public` is run with
      `process_scheduled_task`; the totals count every selected row exactly
      once, no tenant is renamed, and `public` is untouched. */
  method Handle(orgs: seq<Organization>, now: Instant, env: (nat, ScheduledId) -> ItemEnv)
    returns (result: seq<Organization>, processed: nat, failed: nat)
    requires AllValid(orgs)
    ensures ItemContract(ProcessScheduledTask)
    ensures Batch(result, processed, failed) == RunPrefix(Tenant(ProcessScheduledTask, now, env), orgs, |orgs|, now)
    ensures processed + failed == TotalDue(orgs, |orgs|, now)
    ensures |result| == |orgs|
    ensures forall k :: 0 <= k < |orgs| ==> result[k].schemaName == orgs[k].schemaName
    ensures forall k :: 0 <= k < |orgs| && orgs[k].schemaName == PUBLIC_SCHEMA ==> result[k] == orgs[k]
  {
    ProcessScheduledTaskContract();
    result, processed, failed := HandleWith(ProcessScheduledTask, orgs, now, env);
    var run := Tenant(ProcessScheduledTask, now, env);
    forall k | 0 <= k < |orgs|
      ensures result[k].schemaName == orgs[k].schemaName
      ensures orgs[k].schemaName == PUBLIC_SCHEMA ==> result[k] == orgs[k]
    {
      RunPrefixNames(run, orgs, |orgs|, k, now);
    }
  }

  /* ---------------------------------------------------- run properties */

  /** Within one tenant, after the run: rows that were not selected are
      untouched, each selected row is settled by its own item, successors
      created during the run are not due at the run's `now`, and a second
      query at the same `now` selects only rows whose item and whose FAILED
      save both raised. */
  lemma TenantRunProperties(item: ItemFn, org: Organization, k: nat, now: Instant,
                            env: (nat, ScheduledId) -> ItemEnv)
    requires ItemContract(item) && Valid(org.store) && org.schemaName != PUBLIC_SCHEMA
    requires forall id :: env(k, id).recurrenceNow >= now
    ensures var due := SelectDue(org.store, now);
            var st := RunOrganization(item, org, k, now, env).store;
      && (forall i :: 0 <= i < |org.store.scheduled| && i !in due ==> st.scheduled[i] == org.store.scheduled[i])
      && (forall i :: i in due ==> Settled(st.scheduled[i], org.store.scheduled[i], env(k, i)))
      && (forall i :: |org.store.scheduled| <= i < |st.scheduled| ==> !IsDue(st.scheduled[i], now))
      && (forall i :: i in SelectDue(st, now) ==>
            i in due && env(k, i).fault.FailAt? && env(k, i).failureSaveFails)
  {
    var due := SelectDue(org.store, now);
    var snap := org.store;
    SelectPrefixMembers(snap.scheduled, now, |snap.scheduled|);
    if |due| > 0 {
      SelectPrefixOrdered(snap.scheduled, now, |snap.scheduled|);
      RunItemsUntouched(item, snap, due, k, env, now);
      RunItemsSettled(item, snap, due, k, env);
    }
    var st := RunOrganization(item, org, k, now, env).store;
    SelectPrefixMembers(st.scheduled, now, |st.scheduled|);
    forall i | i in SelectDue(st, now)
      ensures i in due && env(k, i).fault.FailAt? && env(k, i).failureSaveFails
    {
      if i >= |snap.scheduled| || i !in due {
        assert false;
      } else {
        assert Settled(st.scheduled[i], snap.scheduled[i], env(k, i));
      }
    }
  }

  /** When no item raises anywhere, nothing is counted as failed and every
      selected row is counted as processed. */
  lemma {:induction false} NoFaultsAllProcessed(item: ItemFn, orgs: seq<Organization>, n: nat, now: Instant,
                                                env: (nat, ScheduledId) -> ItemEnv)
    requires ItemContract(item) && n <= |orgs| && AllValid(orgs)
    requires forall k, id :: env(k, id).fault == NoFault
    ensures RunPrefix(Tenant(item, now, env), orgs, n, now).failed == 0
    ensures RunPrefix(Tenant(item, now, env), orgs, n, now).processed == TotalDue(orgs, n, now)
  {
    if n > 0 {
      NoFaultsAllProcessed(item, orgs, n - 1, now, env);
      RunOrganizationNoFault(item, orgs[n - 1], n - 1, now, env);
    }
  }

  /** One tenant without faults: all of its selected rows count as
      processed. */
  lemma RunOrganizationNoFault(item: ItemFn, org: Organization, k: nat, now: Instant,
                               env: (nat, ScheduledId) -> ItemEnv)
    requires ItemContract(item) && Valid(org.store)
    requires forall id :: env(k, id).fault == NoFault
    ensures RunOrganization(item, org, k, now, env).failed == 0
    ensures RunOrganization(item, org, k, now, env).processed == DueCount(org, now)
  {
    var due := SelectDue(org.store, now);
    if org.schemaName != PUBLIC_SCHEMA && |due| > 0 {
      RunItemsAllSucceed(item, org.store, due, k, env);
    }
  }
}
