/** The display helpers of the ticket pages: `formatStatus`, `formatPriority`
    and `capitalize`, which frontend/src/pages/TicketList.js and
    frontend/src/pages/TicketDetails.js each define in their own way. The
    value shown is a `JsValue` because unknown values pass through as they
    are. */
module Labels {
  import opened JsValues
  import opened Models

  // ---------------------------------------------------------------------------
  // TicketList: switch statements

  /** `formatStatus` of the list: a `switch` on the three names. */
  function StatusLabel(v: JsValue): JsValue
  {
    if v == Str("open") then Str("Aberto")
    else if v == Str("in_progress") then Str("Em andamento")
    else if v == Str("closed") then Str("Fechado")
    else v
  }

  /** `formatPriority` of the list. */
  function PriorityLabel(v: JsValue): JsValue
  {
    if v == Str("low") then Str("Baixa")
    else if v == Str("medium") then Str("M\U{E9}dia")
    else if v == Str("high") then Str("Alta")
    else v
  }

  /** Each status has its own label, different from its name; every other
      value is shown as it is. */
  lemma StatusLabelsDistinguish(a: Status, b: Status, v: JsValue)
    ensures StatusLabel(Str(StatusName(a))) == StatusLabel(Str(StatusName(b))) ==> a == b
    ensures StatusLabel(Str(StatusName(a))) != Str(StatusName(a))
    ensures (forall s: Status :: v != Str(StatusName(s))) ==> StatusLabel(v) == v
  {
    if forall s: Status :: v != Str(StatusName(s)) {
      assert v != Str(StatusName(Open)) && v != Str(StatusName(InProgress)) && v != Str(StatusName(Closed));
    }
  }

  /** Each priority has its own label, different from its name; every other
      value is shown as it is. */
  lemma PriorityLabelsDistinguish(p: Priority, q: Priority, v: JsValue)
    ensures PriorityLabel(Str(PriorityName(p))) == PriorityLabel(Str(PriorityName(q))) ==> p == q
    ensures PriorityLabel(Str(PriorityName(p))) != Str(PriorityName(p))
    ensures (forall r: Priority :: v != Str(PriorityName(r))) ==> PriorityLabel(v) == v
  {
    if forall r: Priority :: v != Str(PriorityName(r)) {
      assert v != Str(PriorityName(Low)) && v != Str(PriorityName(Medium)) && v != Str(PriorityName(High));
    }
  }

  // ---------------------------------------------------------------------------
  // TicketDetails: lookup tables

  /** The status badge of the details page: a label and an icon. */
  datatype Badge = Badge(caption: JsValue, icon: string)

  const StatusBadges: map<string, (string, string)> := map[
    "open" := ("Aberto", "\U{1F513}"),
    "in_progress" := ("Em andamento", "\U{23F3}"),
    "closed" := ("Fechado", "\U{1F512}")]

  const PriorityNames: map<string, string> := map["low" := "Baixa", "medium" := "M\U{E9}dia", "high" := "Alta"]

  /** `formatStatus` of the details page: `map[status] || { label: status,
      icon: '' }`. Only a string can name a key of the table. */
  function StatusBadge(v: JsValue): Badge
  {
    if v.Str? && v.s in StatusBadges then Badge(Str(StatusBadges[v.s].0), StatusBadges[v.s].1)
    else Badge(v, "")
  }

  /** `formatPriority` of the details page: `{ ... }[priority] || priority`. */
  function PriorityTableLabel(v: JsValue): JsValue
  {
    if v.Str? && v.s in PriorityNames then Str(PriorityNames[v.s]) else v
  }

  /** The two pages label every value alike, and only the three statuses get
      an icon. */
  lemma PagesAgreeOnLabels(v: JsValue)
    ensures StatusBadge(v).caption == StatusLabel(v)
    ensures PriorityTableLabel(v) == PriorityLabel(v)
    ensures StatusBadge(v).icon != "" <==> exists s: Status :: v == Str(StatusName(s))
  {
    if v.Str? && v.s in StatusBadges {
      assert v.s == "open" || v.s == "in_progress" || v.s == "closed";
      if v.s == "open" { assert v == Str(StatusName(Open)); }
      else if v.s == "in_progress" { assert v == Str(StatusName(InProgress)); }
      else { assert v == Str(StatusName(Closed)); }
    }
  }

  // ---------------------------------------------------------------------------
  // capitalize

  /** `capitalize` of the list: `''` when the text is absent, otherwise the
      first character upper-cased in front of the rest. */
  function Capitalize(text: Option<string>): (r: string)
    ensures text.None? ==> r == ""
    ensures text.Some? ==> |r| == |text.value|
    ensures text.Some? && text.value != "" ==> r[0] == UpperChar(text.value[0]) && r[1..] == text.value[1..]
  {
    match text
    case None => ""
    case Some(s) => if s == "" then "" else [UpperChar(s[0])] + s[1..]
  }

  /** Capitalising changes at most the first character, and doing it twice
      changes nothing more. */
  lemma CapitalizeFirstOnly(s: string)
    ensures s != "" ==> Capitalize(Some(s))[1..] == s[1..]
    ensures s != "" ==> LowerChar(Capitalize(Some(s))[0]) == LowerChar(s[0])
    ensures Capitalize(Some(Capitalize(Some(s)))) == Capitalize(Some(s))
  {
  }

  /** `capitalize` of the details page as written:
      `text?.charAt(0).toUpperCase() + text?.slice(1)`. For an absent text
      both operands are `undefined`, their sum is `NaN`, and that is what the
      page shows. */
  function CapitalizeAsWritten(text: Option<string>): string
  {
    match text
    case None => "NaN"
    case Some(s) => if s == "" then "" else [UpperChar(s[0])] + s[1..]
  }

  /** The details page shows "NaN" as the category of a ticket whose
      category is null (the column is nullable and PUT can set it), where
      the list shows nothing; on every present text the two agree. */
  lemma CapitalizeAsWrittenShowsNaN(s: string)
    ensures CapitalizeAsWritten(None) == "NaN" && Capitalize(None) == ""
    ensures CapitalizeAsWritten(Some(s)) == Capitalize(Some(s))
  {
  }

  /** The category shown on either page: the corrected helper on the
      category's name, nothing for a null category. */
  function CategoryText(c: Option<Category>): (r: string)
    ensures c.None? <==> r == ""
    ensures c.Some? ==> ToLower(r) == CategoryName(c.value)
  {
    match c
    case None => ""
    case Some(v) =>
      CapitalizedCategoryLowers(v);
      Capitalize(Some(CategoryName(v)))
  }

  /** Lower-casing a capitalised category name gives the name back. */
  lemma CapitalizedCategoryLowers(c: Category)
    ensures Capitalize(Some(CategoryName(c))) != ""
    ensures ToLower(Capitalize(Some(CategoryName(c)))) == CategoryName(c)
  {
    var name := CategoryName(c);
    CategoryNameIsWord(c);
    var r := Capitalize(Some(name));
    forall i | 0 <= i < |name| ensures ToLower(r)[i] == name[i] {
      assert IsWordChar(name[i]);
    }
  }

  lemma CategoryNameIsWord(c: Category)
    ensures CategoryName(c) != ""
    ensures forall i :: 0 <= i < |CategoryName(c)| ==> IsWordChar(CategoryName(c)[i])
  {
  }
}
