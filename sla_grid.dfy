/** The admin page frontend/src/pages/SLAConfig.js: a grid of the three
    priorities by the two plans, each cell editing the start and solve hours
    of the matching policy row; saving sends the whole edited list to PUT
    /sla-config. The rows are kept as the JSON the page holds, so an edited
    value is the input's text. */
module SlaGrid {
  import opened JsValues
  import opened Models
  import opened SlaConfigRoutes

  /** Which of the two hour fields an input edits. */
  datatype HourField = StartHours | SolveHours

  /** `{ ...sla, [field]: value }`. */
  function SetField(row: UpsertItem, field: HourField, value: string): UpsertItem
  {
    match field
    case StartHours => row.(startHours := Str(value))
    case SolveHours => row.(solveHours := Str(value))
  }

  predicate RowFor(row: UpsertItem, plan: string, priority: string)
  {
    row.plan == Str(plan) && row.priority == Str(priority)
  }

  /** `handleChange(plan, priority, field, value)`: the list keeps its length,
      every row of that plan and priority gets the value in that field, and
      every other row and field is left as it was. */
  function HandleChange(rows: seq<UpsertItem>, plan: string, priority: string, field: HourField, value: string)
    : (r: seq<UpsertItem>)
    ensures |r| == |rows|
    ensures forall i :: 0 <= i < |rows| && RowFor(rows[i], plan, priority) ==> r[i] == SetField(rows[i], field, value)
    ensures forall i :: 0 <= i < |rows| && !RowFor(rows[i], plan, priority) ==> r[i] == rows[i]
  {
    seq(|rows|, i requires 0 <= i < |rows| =>
      if RowFor(rows[i], plan, priority) then SetField(rows[i], field, value) else rows[i])
  }

  /** `slas.find(s => s.plan === plan && s.priority === priority)`: the index
      of the first matching row. */
  function FindRow(rows: seq<UpsertItem>, plan: string, priority: string): (r: Option<nat>)
    ensures r.Some? ==> r.value < |rows| && RowFor(rows[r.value], plan, priority)
    ensures r.Some? ==> forall j :: 0 <= j < r.value ==> !RowFor(rows[j], plan, priority)
    ensures r.None? ==> forall j :: 0 <= j < |rows| ==> !RowFor(rows[j], plan, priority)
  {
    if rows == [] then None
    else if RowFor(rows[0], plan, priority) then Some(0)
    else
      match FindRow(rows[1..], plan, priority)
      case None => None
      case Some(k) => Some(k + 1)
  }

  /** An input's value: `field || ''`. */
  function InputValue(v: JsValue): JsValue
  {
    if Truthy(v) then v else Str("")
  }

  /** The two inputs of a grid cell: the first matching row's hours, or
      blanks (`{}`) when there is none. */
  function GridCell(rows: seq<UpsertItem>, plan: string, priority: string): (JsValue, JsValue)
  {
    match FindRow(rows, plan, priority)
    case None => (Str(""), Str(""))
    case Some(k) => (InputValue(rows[k].startHours), InputValue(rows[k].solveHours))
  }

  /** Typing into a cell that has a row shows the typed text there; a cell
      without a row stays blank. */
  lemma EditShowsInCell(rows: seq<UpsertItem>, plan: string, priority: string, value: string)
    ensures FindRow(rows, plan, priority).Some? ==>
              GridCell(HandleChange(rows, plan, priority, StartHours, value), plan, priority).0 == Str(value)
    ensures FindRow(rows, plan, priority).None? ==>
              GridCell(HandleChange(rows, plan, priority, StartHours, value), plan, priority) == (Str(""), Str(""))
  {
    var edited := HandleChange(rows, plan, priority, StartHours, value);
    var k := FindRow(rows, plan, priority);
    if k.Some? {
      assert RowFor(edited[k.value], plan, priority);
    }
  }

  /** The plan and priority keys of the grid's columns and rows. */
  const GridPlans: seq<string> := ["basic", "premium"]
  const GridPriorities: seq<string> := ["low", "medium", "high"]

  /** The grid has one cell for each key the policy table can hold. */
  lemma GridCoversPolicyKeys(k: PolicyKey)
    ensures PlanName(k.0) in GridPlans && PriorityName(k.1) in GridPriorities
    ensures |GridPlans| * |GridPriorities| == |AllPolicyKeys|
  {
    assert GridPlans[0] == PlanName(Basic) && GridPlans[1] == PlanName(Premium);
    assert GridPriorities[0] == PriorityName(Low) && GridPriorities[1] == PriorityName(Medium);
    assert GridPriorities[2] == PriorityName(High);
    PolicyTableAtMostSix(map k: PolicyKey | k in AllPolicyKeys :: Hours(0, 0));
  }

  /** What the page shows. */
  datatype PageView = Restricted | Loading | Grid

  /** Only an administrator's page loads the rows (GET /sla-config); anyone
      else sees the access-restricted notice. */
  function LoadsRows(user: Option<Actor>): bool
  {
    user.Some? && IsAdmin(user.value)
  }

  function View(user: Option<Actor>, loading: bool): (v: PageView)
    ensures v == Restricted <==> !LoadsRows(user)
  {
    if !LoadsRows(user) then Restricted else if loading then Loading else Grid
  }

  const SavedText := "SLA atualizado com sucesso!"
  const SaveErrorPrefix := "Erro ao salvar: "

  /** `handleSave`: the message is cleared, the whole list goes in one PUT,
      and the page shows a text for the server's answer. An aborted upsert
      gets no answer at all, so the message stays cleared. */
  function SaveMessage(r: PutResponse): (m: string)
    ensures m == "" <==> r.PutAborted?
    ensures m == SavedText <==> r == PutSaved
    ensures IsPrefix(SaveErrorPrefix, m) <==> r == PutForbidden
  {
    match r
    case PutSaved =>
      assert SavedText[0] != SaveErrorPrefix[0];
      SavedText
    case PutForbidden =>
      assert (SaveErrorPrefix + "Acesso restrito")[..|SaveErrorPrefix|] == SaveErrorPrefix;
      SaveErrorPrefix + "Acesso restrito"
    case PutAborted(_) => ""
  }

  /** After an administrator saves, the page reports success exactly when
      the store accepted every row of the grid, and shows nothing otherwise;
      anyone else is told the save failed. */
  lemma SaveReportsOutcome(actor: Actor, t: PolicyTable, items: seq<UpsertItem>)
    ensures IsAdmin(actor) ==>
              (SaveMessage(AdminAnswer(t, items)) == SavedText <==> forall j :: 0 <= j < |items| ==> UpsertRow(items[j]).Accepted?)
    ensures IsAdmin(actor) ==>
              (SaveMessage(AdminAnswer(t, items)) == "" <==> exists j :: 0 <= j < |items| && UpsertRow(items[j]).Refused?)
  {
  }

  /** The hours of the last row for `k` among `items[i..]` when each of them
      carries `n` as its start hours. */
  lemma {:induction false} LastForStart(items: seq<UpsertItem>, i: nat, k: PolicyKey, n: int)
    requires i <= |items|
    requires forall j :: i <= j < |items| ==> UpsertRow(items[j]).Accepted?
    requires forall j :: i <= j < |items| && UpsertRow(items[j]).value.0 == k ==> UpsertRow(items[j]).value.1.startHours == n
    requires exists j :: i <= j < |items| && UpsertRow(items[j]).value.0 == k
    ensures LastFor(items, i, k).Some? && LastFor(items, i, k).value.startHours == n
    decreases |items| - i
  {
    if exists j :: i + 1 <= j < |items| && UpsertRow(items[j]).value.0 == k {
      LastForStart(items, i + 1, k, n);
    } else {
      assert UpsertRow(items[i]).value.0 == k;
      assert LastFor(items, i + 1, k).None? by { LastForNone(items, i + 1, k); }
    }
  }

  lemma {:induction false} LastForNone(items: seq<UpsertItem>, i: nat, k: PolicyKey)
    requires i <= |items|
    requires forall j :: i <= j < |items| ==> UpsertRow(items[j]).Accepted?
    requires forall j :: i <= j < |items| ==> UpsertRow(items[j]).value.0 != k
    ensures LastFor(items, i, k).None?
    decreases |items| - i
  {
    if i < |items| {
      LastForNone(items, i + 1, k);
    }
  }

  /** A well-formed row edited to the text of a whole number is stored with
      that number. */
  lemma EditedRowStores(row: UpsertItem, n: nat)
    requires UpsertRow(row).Accepted?
    ensures UpsertRow(SetField(row, StartHours, NatToString(n))).Accepted?
    ensures UpsertRow(SetField(row, StartHours, NatToString(n))).value.0 == UpsertRow(row).value.0
    ensures UpsertRow(SetField(row, StartHours, NatToString(n))).value.1.startHours == n
  {
    DecimalRoundTrip(n);
    assert IsDecimal(NatToString(n));
  }

  /** Editing the start hours of a policy row to a whole number and saving as
      an administrator stores that number for the row's key, provided every
      row the page holds is one the store accepts. */
  lemma EditThenSave(rows: seq<UpsertItem>, k: PolicyKey, n: nat, table: PolicyTable)
    requires forall j :: 0 <= j < |rows| ==> UpsertRow(rows[j]).Accepted?
    requires FindRow(rows, PlanName(k.0), PriorityName(k.1)).Some?
    ensures var saved := UpsertFrom(table, HandleChange(rows, PlanName(k.0), PriorityName(k.1), StartHours, NatToString(n)), 0);
            saved.failedAt == None && k in saved.table && saved.table[k].startHours == n
  {
    var edited := HandleChange(rows, PlanName(k.0), PriorityName(k.1), StartHours, NatToString(n));
    forall j | 0 <= j < |edited|
      ensures UpsertRow(edited[j]).Accepted?
      ensures UpsertRow(edited[j]).value.0 == k <==> RowFor(rows[j], PlanName(k.0), PriorityName(k.1))
      ensures UpsertRow(edited[j]).value.0 == k ==> UpsertRow(edited[j]).value.1.startHours == n
    {
      if RowFor(rows[j], PlanName(k.0), PriorityName(k.1)) {
        EditedRowStores(rows[j], n);
      }
      RowKeyIsNamed(rows[j], k);
    }
    var f := FindRow(rows, PlanName(k.0), PriorityName(k.1)).value;
    assert UpsertRow(edited[f]).value.0 == k;
    LastForStart(edited, 0, k, n);
    UpsertLastWins(table, edited, 0, k);
  }

  /** An accepted row belongs to key `k` exactly when it names `k`'s plan and
      priority. */
  lemma RowKeyIsNamed(row: UpsertItem, k: PolicyKey)
    requires UpsertRow(row).Accepted?
    ensures UpsertRow(row).value.0 == k <==> RowFor(row, PlanName(k.0), PriorityName(k.1))
  {
    var key := UpsertRow(row).value.0;
    EnumRoundTrips(Open, key.1, Suporte, key.0, Admin);
    EnumRoundTrips(Open, k.1, Suporte, k.0, Admin);
  }
}
