/** The three list pages of the frontend: frontend/src/pages/TicketList.js,
    ClientList.js and InventoryList.js. Each fetches its rows, then keeps the
    rows one of whose fields contains the search text (ignoring case) and
    sorts them on the column last clicked. The ticket list also sends the
    filters the user applied to GET /tickets. */
module ListViews {
  import opened JsValues
  import opened Models
  import opened Seqs
  import opened TicketRoutes

  // ---------------------------------------------------------------------------
  // Sort state: `handleSort` and `sortArrow` (the same code on all three pages)

  /** `{ key, direction }`, with `desc` for `direction === 'desc'`. */
  datatype SortConfig<K> = SortConfig(key: K, desc: bool)

  /** `handleSort(key)`: a click on the column sorted ascending turns it
      descending; any other click sorts ascending on the clicked column. */
  function HandleSort<K(==)>(c: SortConfig<K>, key: K): (r: SortConfig<K>)
    ensures r.key == key
    ensures r.desc <==> c.key == key && !c.desc
  {
    SortConfig(key, c.key == key && !c.desc)
  }

  /** Clicking one column repeatedly alternates its direction, so two clicks
      on the sorted column restore the sort. */
  lemma HandleSortAlternates<K>(c: SortConfig<K>, key: K)
    ensures HandleSort(HandleSort(c, key), key).desc == !HandleSort(c, key).desc
    ensures c.key == key ==> HandleSort(HandleSort(c, key), key) == c
  {
  }

  /** `sortArrow(col)`: an up arrow on the column sorted ascending, a down
      arrow on the column sorted descending, nothing elsewhere. */
  function SortArrow<K(==)>(c: SortConfig<K>, col: K): string
  {
    if c.key == col then (if !c.desc then " \U{25B2}" else " \U{25BC}") else ""
  }

  /** After a click, only the clicked column carries an arrow, and it points
      down exactly when the column was sorted ascending before. */
  lemma ArrowFollowsClick<K>(c: SortConfig<K>, key: K, col: K)
    ensures SortArrow(HandleSort(c, key), col) != "" <==> col == key
    ensures SortArrow(HandleSort(c, key), key) == " \U{25BC}" <==> c.key == key && !c.desc
  {
  }

  // ---------------------------------------------------------------------------
  // Search

  /** `field?.toLowerCase() || ''`. */
  function FieldText(f: Option<string>): string
  {
    if f.None? then "" else ToLower(f.value)
  }

  /** `(field?.toLowerCase() || '').includes(search.toLowerCase())`. */
  predicate Hit(f: Option<string>, search: string)
  {
    Includes(FieldText(f), ToLower(search))
  }

  /** The search ignores the case of the query, and the empty query matches
      every field, absent ones included. */
  lemma HitIgnoresCase(f: Option<string>, search: string)
    ensures Hit(f, ToUpper(search)) == Hit(f, search)
    ensures Hit(f, ToLower(search)) == Hit(f, search)
    ensures Hit(f, "")
  {
    assert ToLower(ToUpper(search)) == ToLower(search);
    ToLowerIdempotent(search);
    IncludesEmpty(FieldText(f));
  }

  /** `value || ''` as a sort key. */
  function TextKey(f: Option<string>): SortValue
  {
    Text(if f.None? then "" else f.value)
  }

  // ---------------------------------------------------------------------------
  // TicketList

  /** A ticket as GET /tickets returns it, with the names of its technician
      and client. */
  datatype TicketRow = TicketRow(
    id: int, title: Option<string>, status: Option<string>, priority: Option<string>,
    category: Option<string>, technician: Option<string>, client: Option<string>, createdAt: int,
    slaStart: Option<int>, slaSolve: Option<int>)

  /** The sortable columns of the ticket table. */
  datatype TicketColumn = ById | ByTitle | ByClient | ByStatus | ByPriority | ByCategory | ByTechnician | ByCreatedAt

  /** The ticket search: title, category, technician name or client name. */
  predicate TicketHit(t: TicketRow, search: string)
  {
    Hit(t.title, search) || Hit(t.category, search) || Hit(t.technician, search) || Hit(t.client, search)
  }

  /** The value the comparator compares: technician and client by name (or
      `''`), the creation date as a date, anything else as the field. */
  function TicketSortValue(col: TicketColumn): TicketRow -> SortValue
  {
    (t: TicketRow) =>
      match col
      case ById => Number(t.id)
      case ByTitle => TextKey(t.title)
      case ByClient => TextKey(t.client)
      case ByStatus => TextKey(t.status)
      case ByPriority => TextKey(t.priority)
      case ByCategory => TextKey(t.category)
      case ByTechnician => TextKey(t.technician)
      case ByCreatedAt => Number(t.createdAt)
  }

  /** `filteredAndSortedTickets`: exactly the rows the search keeps, as many
      times as fetched, ordered on the selected column. */
  function VisibleTickets(ts: seq<TicketRow>, search: string, c: SortConfig<TicketColumn>): (r: seq<TicketRow>)
    ensures forall t :: t in r <==> t in ts && TicketHit(t, search)
    ensures SortedBy(r, TicketSortValue(c.key), c.desc)
    ensures multiset(r) == multiset(Filter(ts, t => TicketHit(t, search)))
  {
    SearchAndSort(ts, t => TicketHit(t, search), TicketSortValue(c.key), c.desc)
  }

  /** An empty search shows every fetched ticket. */
  lemma EmptySearchShowsAllTickets(ts: seq<TicketRow>, c: SortConfig<TicketColumn>)
    ensures multiset(VisibleTickets(ts, "", c)) == multiset(ts)
  {
    forall t | t in ts ensures TicketHit(t, "") {
      HitIgnoresCase(t.title, "");
    }
    SearchAllAndSort(ts, t => TicketHit(t, ""), TicketSortValue(c.key), c.desc);
  }

  /** The four filter selects; `''` is "all". */
  datatype Filters = Filters(status: string, priority: string, category: string, assignedTo: string)

  const NoFilters := Filters("", "", "", "")

  /** The filters being edited and the ones last applied. */
  datatype FilterState = FilterState(edited: Filters, applied: Filters)

  /** `applyFilters`: the edited filters become the applied ones. */
  function ApplyFilters(s: FilterState): FilterState
  {
    s.(applied := s.edited)
  }

  /** `resetFilters`: both sets of filters back to all-empty. */
  function ResetFilters(s: FilterState): FilterState
  {
    FilterState(NoFilters, NoFilters)
  }

  /** The query string of GET /tickets: `filter || undefined`, so an empty
      filter is left out. */
  function RequestParams(f: Filters): (q: ListQuery)
    ensures q.status.None? <==> f.status == ""
    ensures q.priority.None? <==> f.priority == ""
    ensures q.category.None? <==> f.category == ""
    ensures q.assignedTo.None? <==> f.assignedTo == ""
    ensures Given(q.status) == (f.status != "") && Given(q.priority) == (f.priority != "")
    ensures Given(q.category) == (f.category != "") && Given(q.assignedTo) == (f.assignedTo != "")
  {
    ListQuery(if f.status == "" then None else Some(f.status),
              if f.priority == "" then None else Some(f.priority),
              if f.category == "" then None else Some(f.category),
              if f.assignedTo == "" then None else Some(f.assignedTo))
  }

  /** After a reset the request carries no filter and the server lists every
      ticket; emptying the selects and applying them has the same effect. */
  lemma ResetListsEverything(s: FilterState, tickets: seq<Ticket>)
    ensures RequestParams(ResetFilters(s).applied) == ListQuery(None, None, None, None)
    ensures ListTickets(tickets, RequestParams(ResetFilters(s).applied)) == tickets
    ensures ApplyFilters(s.(edited := NoFilters)) == ResetFilters(s)
  {
    ListFilters(tickets, RequestParams(NoFilters));
  }

  /** A ticket is listed under the applied filters exactly when it matches
      each non-empty one. */
  lemma FiltersReachServer(f: Filters, t: Ticket)
    ensures ListMatches(t, RequestParams(f)) <==>
      && (f.status != "" ==> t.status.Some? && StatusName(t.status.value) == f.status)
      && (f.priority != "" ==> t.priority.Some? && PriorityName(t.priority.value) == f.priority)
      && (f.category != "" ==> t.category.Some? && CategoryName(t.category.value) == f.category)
      && (f.assignedTo != "" ==> t.assignedTo.Some? && IsDecimal(f.assignedTo) && DigitsValue(f.assignedTo) == t.assignedTo.value)
  {
  }

  // ---------------------------------------------------------------------------
  // ClientList

  datatype ClientRow = ClientRow(
    id: int, name: Option<string>, cnpj: Option<string>, email: Option<string>, phone: Option<string>,
    notes: Option<string>, plan: Option<string>)

  datatype ClientColumn = ByName | ByCnpj | ByEmail | ByPhone

  /** The client search: name, CNPJ, e-mail or phone. */
  predicate ClientHit(c: ClientRow, search: string)
  {
    Hit(c.name, search) || Hit(c.cnpj, search) || Hit(c.email, search) || Hit(c.phone, search)
  }

  /** `a[key] || ''`. */
  function ClientSortValue(col: ClientColumn): ClientRow -> SortValue
  {
    (c: ClientRow) =>
      match col
      case ByName => TextKey(c.name)
      case ByCnpj => TextKey(c.cnpj)
      case ByEmail => TextKey(c.email)
      case ByPhone => TextKey(c.phone)
  }

  /** `filteredAndSortedClients`. */
  function VisibleClients(cs: seq<ClientRow>, search: string, c: SortConfig<ClientColumn>): (r: seq<ClientRow>)
    ensures forall x :: x in r <==> x in cs && ClientHit(x, search)
    ensures SortedBy(r, ClientSortValue(c.key), c.desc)
    ensures multiset(r) == multiset(Filter(cs, x => ClientHit(x, search)))
  {
    SearchAndSort(cs, x => ClientHit(x, search), ClientSortValue(c.key), c.desc)
  }

  /** An empty search shows every fetched client. */
  lemma EmptySearchShowsAllClients(cs: seq<ClientRow>, c: SortConfig<ClientColumn>)
    ensures multiset(VisibleClients(cs, "", c)) == multiset(cs)
  {
    forall x | x in cs ensures ClientHit(x, "") {
      HitIgnoresCase(x.name, "");
    }
    SearchAllAndSort(cs, x => ClientHit(x, ""), ClientSortValue(c.key), c.desc);
  }

  /** The plan column: "Premium" for `premium`, "Básico" for anything else. */
  function PlanLabel(plan: Option<string>): string
  {
    if plan == Some("premium") then "Premium" else "B\U{E1}sico"
  }

  /** Each stored plan gets its own label; a missing plan reads as basic. */
  lemma PlanLabels(p: Plan)
    ensures PlanLabel(Some(PlanName(p))) == (if p == Premium then "Premium" else "B\U{E1}sico")
    ensures PlanLabel(None) == PlanLabel(Some(PlanName(DefaultPlan)))
  {
  }

  /** The new-client form. */
  datatype ClientForm = ClientForm(name: string, cnpj: string, email: string, phone: string, notes: string, plan: string)

  /** The empty form, shown at first and restored after a successful create. */
  const EmptyClientForm := ClientForm("", "", "", "", "", "basic")

  /** The plan the edit form selects: `editClient.plan || 'basic'`. */
  function EditFormPlan(plan: Option<string>): (r: string)
  {
    if plan.None? || plan.value == "" then "basic" else plan.value
  }

  /** The form's default plan is the store's default, and the edit form
      shows a stored plan as it is and the default for a missing one. */
  lemma FormPlanDefaults(p: Plan)
    ensures ParsePlan(EmptyClientForm.plan) == Some(DefaultPlan)
    ensures EditFormPlan(Some(PlanName(p))) == PlanName(p)
    ensures EditFormPlan(None) == EmptyClientForm.plan
  {
  }

  // ---------------------------------------------------------------------------
  // InventoryList

  datatype ItemRow = ItemRow(
    id: int, name: Option<string>, kind: Option<string>, serialNumber: Option<string>,
    acquisitionDate: Option<string>, status: Option<string>, notes: Option<string>)

  datatype ItemColumn = ByItemName | ByKind | BySerialNumber | ByAcquisitionDate | ByItemStatus

  /** The inventory search: name, type, serial number, status or notes. */
  predicate ItemHit(i: ItemRow, search: string)
  {
    Hit(i.name, search) || Hit(i.kind, search) || Hit(i.serialNumber, search)
    || Hit(i.status, search) || Hit(i.notes, search)
  }

  /** `a[key] || ''`; the acquisition date is a `YYYY-MM-DD` text, and the
      extra `aValue || ''` of its branch has nothing left to replace. */
  function ItemSortValue(col: ItemColumn): ItemRow -> SortValue
  {
    (i: ItemRow) =>
      match col
      case ByItemName => TextKey(i.name)
      case ByKind => TextKey(i.kind)
      case BySerialNumber => TextKey(i.serialNumber)
      case ByAcquisitionDate => TextKey(i.acquisitionDate)
      case ByItemStatus => TextKey(i.status)
  }

  /** `filteredAndSortedItems`. */
  function VisibleItems(items: seq<ItemRow>, search: string, c: SortConfig<ItemColumn>): (r: seq<ItemRow>)
    ensures forall x :: x in r <==> x in items && ItemHit(x, search)
    ensures SortedBy(r, ItemSortValue(c.key), c.desc)
    ensures multiset(r) == multiset(Filter(items, x => ItemHit(x, search)))
  {
    SearchAndSort(items, x => ItemHit(x, search), ItemSortValue(c.key), c.desc)
  }

  /** An empty search shows every fetched item. */
  lemma EmptySearchShowsAllItems(items: seq<ItemRow>, c: SortConfig<ItemColumn>)
    ensures multiset(VisibleItems(items, "", c)) == multiset(items)
  {
    forall x | x in items ensures ItemHit(x, "") {
      HitIgnoresCase(x.name, "");
    }
    SearchAllAndSort(items, x => ItemHit(x, ""), ItemSortValue(c.key), c.desc);
  }

  /** The new-item form. */
  datatype ItemForm = ItemForm(name: string, kind: string, serialNumber: string, acquisitionDate: string,
                               status: string, notes: string)

  /** The form state of the inventory page: the new-item form, the message
      and whether the form is open. */
  datatype ItemPage = ItemPage(form: ItemForm, message: string, showForm: bool)

  /** The page as first shown: `useState` of the empty form, no message, the
      form closed. */
  const InitialItemPage := ItemPage(ItemForm("", "", "", "", "", ""), "", false)

  /** The form `handleSubmit` sets after a created item. */
  const SubmittedItemForm := ItemForm("", "", "", "", "", "")

  const ItemCreatedText := "Item cadastrado com sucesso!"
  const ItemErrorText := "Erro ao cadastrar item"

  /** `handleSubmit` with the POST's outcome: a created item empties and
      closes the form, a failure keeps what was typed. */
  function AfterItemSubmit(page: ItemPage, succeeded: bool): (r: ItemPage)
  {
    if succeeded then ItemPage(SubmittedItemForm, ItemCreatedText, false)
    else page.(message := ItemErrorText)
  }

  /** After a created item the page is back as first shown except for the
      message, whatever was typed; after a failure only the message changes,
      so a second try sends the same form. */
  lemma ItemSubmitResets(page: ItemPage)
    ensures AfterItemSubmit(page, true) == InitialItemPage.(message := ItemCreatedText)
    ensures AfterItemSubmit(page, false).form == page.form && AfterItemSubmit(page, false).showForm == page.showForm
    ensures AfterItemSubmit(page, true).message != AfterItemSubmit(page, false).message
  {
  }

  /** The form `handleSubmit` sets after a created client. */
  const SubmittedClientForm := ClientForm("", "", "", "", "", "basic")

  /** After a created client the form is the one first shown. */
  lemma ClientSubmitResets()
    ensures SubmittedClientForm == EmptyClientForm
  {
  }
}
