/** The SLA policy table behind `/sla-config` (backend/routes/slaConfigRoutes.js):
    a normalised lookup or a listing of every row for GET, and an admin-only
    upsert loop for PUT. */
module SlaConfigRoutes {
  import opened JsValues
  import opened Models

  /** The row key `(plan, priority)` that normalised query text names, if the
      text names enumerators at all. */
  function NormalizedKey(plan: string, priority: string): (r: Option<PolicyKey>)
    ensures r.Some? ==> PlanName(r.value.0) == Normalize(plan) && PriorityName(r.value.1) == Normalize(priority)
  {
    match (ParsePlan(Normalize(plan)), ParsePriority(Normalize(priority)))
    case (Some(p), Some(q)) => Some((p, q))
    case _ => None
  }

  /** `SLAConfig.findOne({ where: { plan, priority } })` after normalisation. */
  function Lookup(table: PolicyTable, plan: string, priority: string): (r: Option<Hours>)
    ensures r.Some? <==> NormalizedKey(plan, priority).Some? && NormalizedKey(plan, priority).value in table
    ensures r.Some? ==> r.value == table[NormalizedKey(plan, priority).value]
  {
    var key := NormalizedKey(plan, priority);
    if key.Some? && key.value in table then Some(table[key.value]) else None
  }

  /** The rows the server seeds into an empty table at start-up. */
  const DefaultPolicies: PolicyTable := map[
    (Basic, Low) := Hours(24, 72), (Basic, Medium) := Hours(8, 24), (Basic, High) := Hours(2, 8),
    (Premium, Low) := Hours(12, 36), (Premium, Medium) := Hours(4, 12), (Premium, High) := Hours(1, 4)]

  /** The seeded table covers every key, and each of its rows allows at
      least as long to solve as to start. */
  lemma DefaultPoliciesComplete(k: PolicyKey)
    ensures k in DefaultPolicies
    ensures DefaultPolicies[k].startHours < DefaultPolicies[k].solveHours
  {
    AllPolicyKeysComplete(k);
  }

  /** The three answers of GET /sla-config. */
  datatype GetResponse =
    | Config(hours: Hours)          // 200 with only { startHours, solveHours }
    | ConfigNotFound                // 404
    | AllConfigs(rows: PolicyTable) // 200 with every row

  /** GET /sla-config: needs no authentication (no actor parameter). */
  function Get(table: PolicyTable, plan: Option<string>, priority: Option<string>): (r: GetResponse)
  {
    if Given(plan) && Given(priority) then
      match Lookup(table, plan.value, priority.value)
      case Some(h) => Config(h)
      case None => ConfigNotFound
    else AllConfigs(table)
  }

  /** Any spelling of a configured key that normalises to its names finds
      that row's hours; a spelling of an unconfigured key gets 404. */
  lemma GetIsNormalized(table: PolicyTable, key: PolicyKey, plan: string, priority: string)
    requires Normalize(plan) == PlanName(key.0) && Normalize(priority) == PriorityName(key.1)
    ensures key in table ==> Get(table, Some(plan), Some(priority)) == Config(table[key])
    ensures key !in table ==> Get(table, Some(plan), Some(priority)) == ConfigNotFound
  {
    EnumRoundTrips(Open, key.1, Suporte, key.0, Admin);
    assert NormalizedKey(plan, priority) == Some(key);
  }

  /** Without both parameters every row is returned, and a found
      configuration always comes from some row of the table. */
  lemma GetCases(table: PolicyTable, plan: Option<string>, priority: Option<string>)
    ensures !(Given(plan) && Given(priority)) <==> Get(table, plan, priority) == AllConfigs(table)
    ensures Get(table, plan, priority).Config? ==> Get(table, plan, priority).hours in table.Values
  {
    if Given(plan) && Given(priority) {
      match Lookup(table, plan.value, priority.value)
      case Some(h) =>
        var k := NormalizedKey(plan.value, priority.value).value;
        assert table[k] == h;
      case None =>
    }
  }

  // ---------------------------------------------------------------------------
  // PUT /sla-config

  /** One element of the PUT body, as JSON sent it. */
  datatype UpsertItem = UpsertItem(plan: JsValue, priority: JsValue, startHours: JsValue, solveHours: JsValue)

  /** `SLAConfig.upsert(item)`: every attribute is NOT NULL; plan and priority
      must spell enumerators exactly, the hours must be integers. */
  function UpsertRow(item: UpsertItem): (r: Cell<(PolicyKey, Hours)>)
    ensures r.Accepted? ==> item.plan == Str(PlanName(r.value.0.0)) && item.priority == Str(PriorityName(r.value.0.1))
    ensures item.startHours.Num? && item.solveHours.Num? && r.Accepted? ==>
              r.value.1 == Hours(item.startHours.n, item.solveHours.n)
    ensures r.Accepted? ==> IntCell(item.startHours) == Accepted(Some(r.value.1.startHours))
                            && IntCell(item.solveHours) == Accepted(Some(r.value.1.solveHours))
  {
    match (EnumCell(item.plan, ParsePlan, DefaultPlan), EnumCell(item.priority, ParsePriority, DefaultPriority),
           IntCell(item.startHours), IntCell(item.solveHours))
    case (Accepted(Some(p)), Accepted(Some(q)), Accepted(Some(s)), Accepted(Some(v))) =>
      if item.plan.Str? && item.priority.Str? then Accepted(((p, q), Hours(s, v))) else Refused
    case _ => Refused
  }

  /** The state left by the upsert loop: the table and, when some upsert
      threw, the index of that item (the loop stops there). */
  datatype UpsertRun = UpsertRun(table: PolicyTable, failedAt: Option<nat>)

  /** Upserting `items[i..]` in order into `t`. */
  function UpsertFrom(t: PolicyTable, items: seq<UpsertItem>, i: nat): (r: UpsertRun)
    requires i <= |items|
    ensures r.failedAt.Some? ==> i <= r.failedAt.value < |items| && UpsertRow(items[r.failedAt.value]).Refused?
    decreases |items| - i
  {
    if i == |items| then UpsertRun(t, None)
    else
      match UpsertRow(items[i])
      case Accepted((k, h)) => UpsertFrom(t[k := h], items, i + 1)
      case Refused => UpsertRun(t, Some(i))
  }

  /** The hours of the last item of `items[i..]` with key `k`. */
  function LastFor(items: seq<UpsertItem>, i: nat, k: PolicyKey): Option<Hours>
    requires i <= |items|
    requires forall j :: i <= j < |items| ==> UpsertRow(items[j]).Accepted?
    decreases |items| - i
  {
    if i == |items| then None
    else
      var later := LastFor(items, i + 1, k);
      if later.Some? then later
      else if UpsertRow(items[i]).value.0 == k then Some(UpsertRow(items[i]).value.1)
      else None
  }

  /** When every item is well formed, each key in the body ends with its
      last-supplied hours and every other key keeps its row (or its absence). */
  lemma {:induction false} UpsertLastWins(t: PolicyTable, items: seq<UpsertItem>, i: nat, k: PolicyKey)
    requires i <= |items|
    requires forall j :: i <= j < |items| ==> UpsertRow(items[j]).Accepted?
    ensures UpsertFrom(t, items, i).failedAt == None
    ensures LastFor(items, i, k).Some? ==>
              k in UpsertFrom(t, items, i).table && UpsertFrom(t, items, i).table[k] == LastFor(items, i, k).value
    ensures LastFor(items, i, k).None? ==>
              (k in UpsertFrom(t, items, i).table <==> k in t) &&
              (k in t ==> UpsertFrom(t, items, i).table[k] == t[k])
    decreases |items| - i
  {
    if i < |items| {
      var row := UpsertRow(items[i]).value;
      UpsertLastWins(t[row.0 := row.1], items, i + 1, k);
    }
  }

  /** A refused item stops the loop: the items before it stay written, and
      nothing after it is. */
  lemma {:induction false} UpsertStopsAtFirstFailure(t: PolicyTable, items: seq<UpsertItem>, i: nat, f: nat)
    requires i <= f < |items|
    requires forall j :: i <= j < f ==> UpsertRow(items[j]).Accepted?
    requires UpsertRow(items[f]).Refused?
    ensures UpsertFrom(t, items, i).failedAt == Some(f)
    ensures UpsertFrom(t, items, i) == UpsertFrom(t, items[..f], i).(failedAt := Some(f))
    decreases f - i
  {
    if i < f {
      var row := UpsertRow(items[i]).value;
      assert items[..f][i] == items[i];
      UpsertStopsAtFirstFailure(t[row.0 := row.1], items, i + 1, f);
    }
  }

  /** The answers of PUT /sla-config. When an upsert throws, the handler
      neither catches the error nor responds. */
  datatype PutResponse = PutForbidden | PutSaved | PutAborted(at: nat)

  /** The loop of `items[i..]` runs to the end exactly when the store
      accepts every one of them. */
  lemma {:induction false} UpsertCompletes(t: PolicyTable, items: seq<UpsertItem>, i: nat)
    requires i <= |items|
    ensures UpsertFrom(t, items, i).failedAt.None? <==> forall j :: i <= j < |items| ==> UpsertRow(items[j]).Accepted?
    decreases |items| - i
  {
    if i < |items| {
      match UpsertRow(items[i])
      case Accepted((k, h)) => UpsertCompletes(t[k := h], items, i + 1);
      case Refused =>
    }
  }

  /** The answer to an administrator's PUT: saved when the loop ran to the
      end, otherwise aborted at the first item the store refused. */
  function AdminAnswer(t: PolicyTable, items: seq<UpsertItem>): (r: PutResponse)
    ensures r != PutForbidden
    ensures r == PutSaved <==> forall j :: 0 <= j < |items| ==> UpsertRow(items[j]).Accepted?
    ensures r.PutAborted? ==> r.at < |items| && UpsertRow(items[r.at]).Refused?
                              && forall j :: 0 <= j < r.at ==> UpsertRow(items[j]).Accepted?
  {
    UpsertCompletes(t, items, 0);
    var run := UpsertFrom(t, items, 0);
    if run.failedAt.Some? then
      UpsertPrefixAccepted(t, items, 0);
      PutAborted(run.failedAt.value)
    else PutSaved
  }

  /** The loop only stops at a refused item after accepting every earlier one. */
  lemma {:induction false} UpsertPrefixAccepted(t: PolicyTable, items: seq<UpsertItem>, i: nat)
    requires i <= |items|
    ensures UpsertFrom(t, items, i).failedAt.Some? ==>
              forall j :: i <= j < UpsertFrom(t, items, i).failedAt.value ==> UpsertRow(items[j]).Accepted?
    decreases |items| - i
  {
    if i < |items| {
      match UpsertRow(items[i])
      case Accepted((k, h)) => UpsertPrefixAccepted(t[k := h], items, i + 1);
      case Refused =>
    }
  }

  /** The SLAConfig table as PUT changes it in place. */
  class SlaConfigStore {
    var table: PolicyTable

    constructor (initial: PolicyTable)
      ensures table == initial
    {
      table := initial;
    }

    /** PUT /sla-config with body `items`. */
    method Put(actor: Actor, items: seq<UpsertItem>) returns (r: PutResponse)
      modifies this
      ensures !IsAdmin(actor) ==> r == PutForbidden && table == old(table)
      ensures IsAdmin(actor) ==> table == UpsertFrom(old(table), items, 0).table
      ensures IsAdmin(actor) ==> r == AdminAnswer(old(table), items)
    {
      if !IsAdmin(actor) {
        return PutForbidden;
      }
      var i := 0;
      while i < |items|
        invariant 0 <= i <= |items|
        invariant UpsertFrom(old(table), items, 0) == UpsertFrom(table, items, i)
      {
        var row := UpsertRow(items[i]);
        if row.Refused? {
          return PutAborted(i);
        }
        table := table[row.value.0 := row.value.1];
        i := i + 1;
      }
      r := PutSaved;
    }
  }
}
