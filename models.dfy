/** The persisted entities (backend/models): Ticket, SLAConfig, Client, User
    and Log, with their enumerations, defaults and nullability, and the way
    the store turns the JavaScript values a handler passes it into a row.

    A column without `allowNull: false` accepts null. A missing (undefined)
    attribute takes the column's default on insert. A value outside a column's
    domain is refused: a null in a NOT NULL column by the validation step
    (`SequelizeValidationError`), anything else by the database. */
module Models {
  import opened JsValues

  // ---------------------------------------------------------------------------
  // Enumerations

  datatype Status = Open | InProgress | Closed
  datatype Priority = Low | Medium | High
  datatype Category =
    | Financeiro | Suporte | Atendimento | Infraestrutura | Logistica
    | Administrativo | Comercial | Seguranca | Rh
  datatype Plan = Basic | Premium
  datatype Role = Admin | RegularUser | Technician

  function StatusName(s: Status): string
  {
    match s
    case Open => "open"
    case InProgress => "in_progress"
    case Closed => "closed"
  }

  function PriorityName(p: Priority): string
  {
    match p
    case Low => "low"
    case Medium => "medium"
    case High => "high"
  }

  function CategoryName(c: Category): string
  {
    match c
    case Financeiro => "financeiro"
    case Suporte => "suporte"
    case Atendimento => "atendimento"
    case Infraestrutura => "infraestrutura"
    case Logistica => "logistica"
    case Administrativo => "administrativo"
    case Comercial => "comercial"
    case Seguranca => "seguranca"
    case Rh => "rh"
  }

  function PlanName(p: Plan): string
  {
    match p
    case Basic => "basic"
    case Premium => "premium"
  }

  function RoleName(r: Role): string
  {
    match r
    case Admin => "admin"
    case RegularUser => "user"
    case Technician => "technician"
  }

  /** The enumerator spelled `s`, if any: the ENUM column's domain. */
  function ParseStatus(s: string): (r: Option<Status>)
    ensures r.Some? ==> StatusName(r.value) == s
  {
    if s == "open" then Some(Open)
    else if s == "in_progress" then Some(InProgress)
    else if s == "closed" then Some(Closed)
    else None
  }

  function ParsePriority(s: string): (r: Option<Priority>)
    ensures r.Some? ==> PriorityName(r.value) == s
  {
    if s == "low" then Some(Low)
    else if s == "medium" then Some(Medium)
    else if s == "high" then Some(High)
    else None
  }

  function ParseCategory(s: string): (r: Option<Category>)
    ensures r.Some? ==> CategoryName(r.value) == s
  {
    if s == "financeiro" then Some(Financeiro)
    else if s == "suporte" then Some(Suporte)
    else if s == "atendimento" then Some(Atendimento)
    else if s == "infraestrutura" then Some(Infraestrutura)
    else if s == "logistica" then Some(Logistica)
    else if s == "administrativo" then Some(Administrativo)
    else if s == "comercial" then Some(Comercial)
    else if s == "seguranca" then Some(Seguranca)
    else if s == "rh" then Some(Rh)
    else None
  }

  function ParsePlan(s: string): (r: Option<Plan>)
    ensures r.Some? ==> PlanName(r.value) == s
  {
    if s == "basic" then Some(Basic) else if s == "premium" then Some(Premium) else None
  }

  function ParseRole(s: string): (r: Option<Role>)
    ensures r.Some? ==> RoleName(r.value) == s
  {
    if s == "admin" then Some(Admin)
    else if s == "user" then Some(RegularUser)
    else if s == "technician" then Some(Technician)
    else None
  }

  /** Each enumeration's names are read back to the enumerator they name. */
  lemma EnumRoundTrips(s: Status, p: Priority, c: Category, pl: Plan, r: Role)
    ensures ParseStatus(StatusName(s)) == Some(s)
    ensures ParsePriority(PriorityName(p)) == Some(p)
    ensures ParseCategory(CategoryName(c)) == Some(c)
    ensures ParsePlan(PlanName(pl)) == Some(pl)
    ensures ParseRole(RoleName(r)) == Some(r)
  {
  }

  /** Enumerator names are already in the form `trim().toLowerCase()` gives. */
  lemma NamesAreNormal(p: Plan, q: Priority)
    ensures Normalize(PlanName(p)) == PlanName(p)
    ensures Normalize(PriorityName(q)) == PriorityName(q)
  {
    WordIsNormal(PlanName(p));
    WordIsNormal(PriorityName(q));
  }

  predicate IsWordChar(c: char)
  {
    'a' <= c <= 'z' || c == '_'
  }

  lemma WordIsNormal(s: string)
    requires forall i :: 0 <= i < |s| ==> IsWordChar(s[i])
    ensures Normalize(s) == s
  {
    if s != [] {
      assert !IsWhitespace(s[0]) by { assert IsWordChar(s[0]); }
      assert !IsWhitespace(s[|s| - 1]) by { assert IsWordChar(s[|s| - 1]); }
    }
    NormalizeFixes(s);
  }

  const DefaultStatus: Status := Open
  const DefaultPriority: Priority := Medium
  const DefaultCategory: Category := Suporte
  const DefaultPlan: Plan := Basic
  const DefaultRole: Role := RegularUser

  // ---------------------------------------------------------------------------
  // Rows

  /** A ticket row. Timestamps are milliseconds since the epoch;
      `totalTimeSpent` is in minutes. */
  datatype Ticket = Ticket(
    id: int,
    title: Option<string>,
    description: Option<string>,
    status: Option<Status>,
    priority: Option<Priority>,
    startedAt: Option<int>,
    totalTimeSpent: Option<int>,
    category: Option<Category>,
    slaStart: int,
    slaSolve: int,
    userId: Option<int>,
    assignedTo: Option<int>,
    clientId: int,
    createdAt: int)

  datatype Client = Client(
    id: int,
    name: string,
    cnpj: Option<string>,
    email: Option<string>,
    phone: Option<string>,
    notes: Option<string>,
    plan: Plan)

  datatype User = User(id: int, name: string, email: string, password: string, role: Option<Role>)

  /** The identity the authentication middleware attaches to a request. The
      signed token carries no name, so `name` is whatever the caller supplies
      (`undefined` for a token issued at login). */
  datatype Actor = Actor(id: int, role: Option<Role>, name: JsValue)

  predicate IsAdmin(a: Actor)
  {
    a.role == Some(Admin)
  }

  /** An audit entry; `userId` is absent for entries without an actor. */
  datatype LogEntry = LogEntry(message: string, ticketId: int, userId: Option<int>)

  /** The hours of one SLA policy row. No positivity or ordering constraint. */
  datatype Hours = Hours(startHours: int, solveHours: int)

  /** The SLAConfig table: `(plan, priority)` is a unique key, so the table is
      a partial map from keys to hours. */
  type PolicyKey = (Plan, Priority)
  type PolicyTable = map<PolicyKey, Hours>

  const AllPolicyKeys: set<PolicyKey> :=
    {(Basic, Low), (Basic, Medium), (Basic, High), (Premium, Low), (Premium, Medium), (Premium, High)}

  lemma AllPolicyKeysComplete(k: PolicyKey)
    ensures k in AllPolicyKeys
  {
    var (plan, priority) := k;
    if plan == Basic {
      if priority == Low { assert k == (Basic, Low); }
      else if priority == Medium { assert k == (Basic, Medium); }
      else { assert k == (Basic, High); }
    } else {
      if priority == Low { assert k == (Premium, Low); }
      else if priority == Medium { assert k == (Premium, Medium); }
      else { assert k == (Premium, High); }
    }
  }

  /** At most six policy rows can exist: two plans times three priorities. */
  lemma PolicyTableAtMostSix(t: PolicyTable)
    ensures |t| <= 6
  {
    forall k | k in t.Keys ensures k in AllPolicyKeys {
      AllPolicyKeysComplete(k);
    }
    SubsetCardinality(t.Keys, AllPolicyKeys);
    assert |AllPolicyKeys| == 6;
  }

  lemma SubsetCardinality<T>(a: set<T>, b: set<T>)
    requires a <= b
    ensures |a| <= |b|
  {
    if a != {} {
      var x :| x in a;
      SubsetCardinality(a - {x}, b - {x});
    }
  }

  // ---------------------------------------------------------------------------
  // Writing JavaScript values into columns

  /** What the store does with one value for one column. */
  datatype Cell<+T> = Refused | Accepted(value: T)

  /** A nullable STRING or TEXT column; numbers are stored as their digits. */
  function StringCell(v: JsValue): (r: Cell<Option<string>>)
    ensures v == Null || v == Undefined <==> r == Accepted(None)
    ensures v.Str? ==> r == Accepted(Some(v.s))
  {
    match v
    case Undefined => Accepted(None)
    case Null => Accepted(None)
    case Num(n) => Accepted(Some(IntToString(n)))
    case Str(s) => Accepted(Some(s))
  }

  /** A nullable INTEGER column: a number, or a string of decimal digits. */
  function IntCell(v: JsValue): (r: Cell<Option<int>>)
    ensures v == Null || v == Undefined <==> r == Accepted(None)
    ensures v.Num? ==> r == Accepted(Some(v.n))
    ensures v.Str? ==> (r.Accepted? <==> IsDecimal(v.s))
  {
    match v
    case Undefined => Accepted(None)
    case Null => Accepted(None)
    case Num(n) => Accepted(Some(n))
    case Str(s) => if IsDecimal(s) then Accepted(Some(DigitsValue(s) as int)) else Refused
  }

  /** A nullable DATE column. A date travels as its millisecond value. */
  function DateCell(v: JsValue): (r: Cell<Option<int>>)
    ensures v == Null || v == Undefined <==> r == Accepted(None)
    ensures v.Num? <==> r.Accepted? && r.value.Some?
  {
    match v
    case Undefined => Accepted(None)
    case Null => Accepted(None)
    case Num(n) => Accepted(Some(n))
    case Str(_) => Refused
  }

  /** A nullable ENUM column with a default for a missing value. */
  function EnumCell<T>(v: JsValue, parse: string -> Option<T>, default: T): (r: Cell<Option<T>>)
    ensures v == Undefined ==> r == Accepted(Some(default))
    ensures v == Null ==> r == Accepted(None)
    ensures v.Str? ==> (r.Accepted? <==> parse(v.s).Some?)
    ensures v.Num? ==> r == Refused
  {
    match v
    case Undefined => Accepted(Some(default))
    case Null => Accepted(None)
    case Num(_) => Refused
    case Str(s) => if parse(s).Some? then Accepted(parse(s)) else Refused
  }

  function StatusCell(v: JsValue): Cell<Option<Status>> { EnumCell(v, ParseStatus, DefaultStatus) }
  function PriorityCell(v: JsValue): Cell<Option<Priority>> { EnumCell(v, ParsePriority, DefaultPriority) }
  function CategoryCell(v: JsValue): Cell<Option<Category>> { EnumCell(v, ParseCategory, DefaultCategory) }

  /** One entry of a `SequelizeValidationError`. */
  datatype ValidationItem = ValidationItem(path: string, message: string, value: JsValue)

  /** The outcome of an insert. */
  datatype Insert<+T> = Inserted(row: T) | ValidationFailed(errors: seq<ValidationItem>) | DatabaseFailed

  predicate IsNullish(v: JsValue)
  {
    v == Null || v == Undefined
  }

  /** The `notNull Violation` items for the given NOT NULL attributes, in order. */
  function NotNullViolations(model: string, attrs: seq<(string, JsValue)>): (r: seq<ValidationItem>)
    ensures |r| <= |attrs|
    ensures r == [] <==> forall a :: a in attrs ==> !IsNullish(a.1)
    ensures forall j :: 0 <= j < |r| ==> IsNullish(r[j].value)
  {
    if attrs == [] then []
    else
      var rest := NotNullViolations(model, attrs[1..]);
      assert forall a :: a in attrs ==> a == attrs[0] || a in attrs[1..];
      if IsNullish(attrs[0].1)
      then [ValidationItem(attrs[0].0, model + "." + attrs[0].0 + " cannot be null", attrs[0].1)] + rest
      else rest
  }

  /** The attributes handed to `Ticket.create`. */
  datatype TicketData = TicketData(
    title: JsValue, description: JsValue, priority: JsValue, category: JsValue,
    slaStart: JsValue, slaSolve: JsValue, assignedTo: JsValue, clientId: JsValue,
    userId: JsValue, status: JsValue)

  /** `Ticket.create(data)`: the NOT NULL columns are validated first, then
      each value is written into its column. */
  function InsertTicket(id: int, now: int, d: TicketData): (r: Insert<Ticket>)
    ensures r.Inserted? ==>
      && r.row.id == id && r.row.createdAt == now
      && r.row.startedAt == None && r.row.totalTimeSpent == None
      && d.slaStart == Num(r.row.slaStart) && d.slaSolve == Num(r.row.slaSolve)
    ensures r.ValidationFailed? <==> IsNullish(d.slaStart) || IsNullish(d.slaSolve) || IsNullish(d.clientId)
  {
    var missing := NotNullViolations("Ticket",
      [("slaStart", d.slaStart), ("slaSolve", d.slaSolve), ("clientId", d.clientId)]);
    if missing != [] then ValidationFailed(missing)
    else
      match (StringCell(d.title), StringCell(d.description), StatusCell(d.status),
             PriorityCell(d.priority), CategoryCell(d.category))
      case (Accepted(title), Accepted(description), Accepted(status), Accepted(priority), Accepted(category)) =>
        (match (DateCell(d.slaStart), DateCell(d.slaSolve), IntCell(d.userId), IntCell(d.assignedTo), IntCell(d.clientId))
         case (Accepted(Some(slaStart)), Accepted(Some(slaSolve)), Accepted(userId), Accepted(assignedTo), Accepted(Some(clientId))) =>
           Inserted(Ticket(id, title, description, status, priority, None, None, category,
                           slaStart, slaSolve, userId, assignedTo, clientId, now))
         case _ => DatabaseFailed)
      case _ => DatabaseFailed
  }

  /** The attributes handed to `Client.create`. */
  datatype ClientData = ClientData(name: JsValue, cnpj: JsValue, email: JsValue, phone: JsValue, notes: JsValue, plan: JsValue)

  /** `Client.create(data)`: `name` and `plan` are NOT NULL, `plan` defaults
      to `basic`. */
  function InsertClient(id: int, d: ClientData): (r: Insert<Client>)
    ensures r.ValidationFailed? <==> IsNullish(d.name) || d.plan == Null
    ensures r.Inserted? && d.plan == Undefined ==> r.row.plan == DefaultPlan
    ensures r.Inserted? && d.plan.Str? ==> PlanName(r.row.plan) == d.plan.s
  {
    var missing := NotNullViolations("Client", [("name", d.name), ("plan", if d.plan == Undefined then Str(PlanName(DefaultPlan)) else d.plan)]);
    if missing != [] then ValidationFailed(missing)
    else
      match (StringCell(d.name), StringCell(d.cnpj), StringCell(d.email), StringCell(d.phone), StringCell(d.notes),
             EnumCell(d.plan, ParsePlan, DefaultPlan))
      case (Accepted(Some(name)), Accepted(cnpj), Accepted(email), Accepted(phone), Accepted(notes), Accepted(Some(plan))) =>
        Inserted(Client(id, name, cnpj, email, phone, notes, plan))
      case _ => DatabaseFailed
  }

  /** The attributes handed to `User.create`. */
  datatype UserData = UserData(name: JsValue, email: JsValue, password: JsValue, role: JsValue)

  /** `User.create(data)`: name, email and password are NOT NULL, the email is
      unique among `existingEmails`, and the role defaults to `user`. */
  function InsertUser(id: int, existingEmails: set<string>, d: UserData): (r: Insert<User>)
    ensures r.ValidationFailed? <==> IsNullish(d.name) || IsNullish(d.email) || IsNullish(d.password)
    ensures r.Inserted? ==> r.row.email !in existingEmails
    ensures r.Inserted? && d.role == Undefined ==> r.row.role == Some(DefaultRole)
  {
    var missing := NotNullViolations("User", [("name", d.name), ("email", d.email), ("password", d.password)]);
    if missing != [] then ValidationFailed(missing)
    else
      match (StringCell(d.name), StringCell(d.email), StringCell(d.password), EnumCell(d.role, ParseRole, DefaultRole))
      case (Accepted(Some(name)), Accepted(Some(email)), Accepted(Some(password)), Accepted(role)) =>
        if email in existingEmails then DatabaseFailed
        else Inserted(User(id, name, email, password, role))
      case _ => DatabaseFailed
  }

  /** The attributes handed to `Log.create`. */
  datatype LogData = LogData(message: JsValue, ticketId: JsValue, userId: JsValue)

  /** `Log.create(data)`: message and ticketId are NOT NULL, userId is optional. */
  function InsertLog(d: LogData): (r: Insert<LogEntry>)
    ensures r.ValidationFailed? <==> IsNullish(d.message) || IsNullish(d.ticketId)
    ensures r.Inserted? && d.userId == Undefined ==> r.row.userId == None
    ensures r.Inserted? ==> d.message == Str(r.row.message) || d.message.Num?
  {
    var missing := NotNullViolations("Log", [("message", d.message), ("ticketId", d.ticketId)]);
    if missing != [] then ValidationFailed(missing)
    else
      match (StringCell(d.message), IntCell(d.ticketId), IntCell(d.userId))
      case (Accepted(Some(message)), Accepted(Some(ticketId)), Accepted(userId)) =>
        Inserted(LogEntry(message, ticketId, userId))
      case _ => DatabaseFailed
  }
}
