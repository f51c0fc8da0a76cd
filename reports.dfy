/** The report page frontend/src/pages/TicketReports.js: every record a report
    endpoint returns is flattened into dotted column names, the columns of the
    report are chosen, and the same table is shown on the page and written to
    the spreadsheet. */
module Reports {
  import opened JsValues

  /** A JSON value as a report endpoint sends it: a leaf (number, text or
      null), an array, or an object whose fields keep their order. */
  datatype Json = Leaf(v: JsValue) | List(items: seq<Json>) | Object(fields: seq<(string, Json)>)

  /** The fields of an object in the order `Object.keys` lists them. */
  type Fields = seq<(string, Json)>

  /** `obj[key]`: the value under `key`, if any. */
  function Get(fs: Fields, key: string): (r: Option<Json>)
    ensures r.Some? ==> (key, r.value) in fs
    ensures r.None? <==> NoKey(fs, key)
  {
    if fs == [] then None
    else if fs[0].0 == key then Some(fs[0].1)
    else Get(fs[1..], key)
  }

  predicate NoKey(fs: Fields, key: string)
  {
    forall e :: e in fs ==> e.0 != key
  }

  /** No two fields share a name, as in every JavaScript object. */
  predicate DistinctKeys(fs: Fields)
  {
    forall i, j :: 0 <= i < j < |fs| ==> fs[i].0 != fs[j].0
  }

  /** `acc[key] = v`: a field already there keeps its place and takes the
      new value; a new field goes last. */
  function Put(acc: Fields, key: string, v: Json): (r: Fields)
    ensures forall e :: e in r ==> e in acc || e == (key, v)
    ensures NoKey(acc, key) ==> r == acc + [(key, v)]
  {
    if acc == [] then [(key, v)]
    else if acc[0].0 == key then [(key, v)] + acc[1..]
    else [acc[0]] + Put(acc[1..], key, v)
  }

  /** After `acc[key] = v`, reading `key` gives `v` and reading any other
      name gives what it gave before. */
  lemma {:induction false} PutThenGet(acc: Fields, key: string, v: Json, other: string)
    ensures Get(Put(acc, key, v), key) == Some(v)
    ensures other != key ==> Get(Put(acc, key, v), other) == Get(acc, other)
  {
    if acc != [] && acc[0].0 != key {
      PutThenGet(acc[1..], key, v, other);
    }
  }

  /** `Object.assign(acc, src)`: every field of `src` put in turn. */
  function AssignAll(acc: Fields, src: Fields): (r: Fields)
    ensures forall e :: e in r ==> e in acc || e in src
    decreases |src|
  {
    if src == [] then acc
    else AssignAll(Put(acc, src[0].0, src[0].1), src[1..])
  }

  /** `prefix.length ? prefix + "." : ""`. */
  function Pre(prefix: string): string
  {
    if prefix == "" then "" else prefix + "."
  }

  /** The `reduce` of `flatten(obj, prefix)` from the field at index `i`
      on, into the accumulator `acc`: a nested object that is neither null
      nor an array is flattened under its own dotted name and assigned into
      the accumulator; every other value is stored under its dotted name. */
  function FlattenFrom(o: Json, i: nat, prefix: string, acc: Fields): (r: Fields)
    requires o.Object? && i <= |o.fields|
    ensures LeavesOnly(acc) ==> LeavesOnly(r)
    ensures Under(acc, Pre(prefix)) ==> Under(r, Pre(prefix))
    decreases o, |o.fields| - i
  {
    if i == |o.fields| then acc
    else
      var (k, v) := o.fields[i];
      var key := Pre(prefix) + k;
      assert o.fields[i] in o.fields;
      var next := if v.Object? then AssignAll(acc, NestedUnder(v, prefix, k)) else Put(acc, key, v);
      FlattenFrom(o, i + 1, prefix, next)
  }

  /** The flattened fields of the nested object `v` found under `k`: all of
      them leaves, all of them named below `Pre(prefix) + k + "."`, hence
      below `Pre(prefix)`. */
  function NestedUnder(v: Json, prefix: string, k: string): (r: Fields)
    requires v.Object?
    ensures LeavesOnly(r) && Under(r, Pre(prefix))
    decreases v, |v.fields| + 1
  {
    var r := FlattenFrom(v, 0, Pre(prefix) + k, []);
    forall e | e in r ensures IsPrefix(Pre(prefix), e.0) {
      PrefixOfPre(Pre(prefix), k, e.0);
    }
    r
  }

  lemma PrefixOfPre(p: string, k: string, s: string)
    requires IsPrefix(Pre(p + k), s)
    ensures IsPrefix(p, s)
  {
    if p + k != "" {
      assert s[..|p|] == (p + k + ".")[..|p|];
    }
  }

  /** No value in the fields is an object. */
  predicate LeavesOnly(fs: Fields)
  {
    forall e :: e in fs ==> !e.1.Object?
  }

  /** Every field name begins with `pre`. */
  predicate Under(fs: Fields, pre: string)
  {
    forall e :: e in fs ==> IsPrefix(pre, e.0)
  }

  /** `flatten(record)` as `data.map(flatten)` calls it: `map` passes the
      index as `prefix`, and a number has no `length`, so the top-level names
      get no prefix. */
  function Flatten(record: Json): (r: Fields)
    requires record.Object?
    ensures LeavesOnly(r)
  {
    FlattenFrom(record, 0, "", [])
  }

  /** The fields of `fs` with each name under `prefix`. */
  function Prefixed(fs: Fields, prefix: string): (r: Fields)
    ensures |r| == |fs|
    ensures forall j :: 0 <= j < |fs| ==> r[j] == (Pre(prefix) + fs[j].0, fs[j].1)
  {
    seq(|fs|, j requires 0 <= j < |fs| => (Pre(prefix) + fs[j].0, fs[j].1))
  }

  lemma PrefixedDistinct(fs: Fields, prefix: string)
    requires DistinctKeys(fs)
    ensures DistinctKeys(Prefixed(fs, prefix))
  {
    var r := Prefixed(fs, prefix);
    forall i, j | 0 <= i < j < |r| ensures r[i].0 != r[j].0 {
      PrefixCancel(Pre(prefix), fs[i].0, fs[j].0);
    }
  }

  /** Names under the same prefix are equal only when the names are. */
  lemma PrefixCancel(p: string, a: string, b: string)
    ensures p + a == p + b ==> a == b
  {
    if p + a == p + b {
      assert a == (p + a)[|p|..];
      assert b == (p + b)[|p|..];
    }
  }

  lemma NoKeyAppend(acc: Fields, x: (string, Json), k: string)
    requires NoKey(acc, k) && x.0 != k
    ensures NoKey(acc + [x], k)
  {
  }

  /** Flattening fields none of which is an object, with distinct names
      that are all new to the accumulator, appends them in order under the
      prefix. */
  lemma {:induction false} FlattenFromLeaves(o: Json, i: nat, prefix: string, acc: Fields)
    requires o.Object? && i <= |o.fields|
    requires forall j :: i <= j < |o.fields| ==> !o.fields[j].1.Object?
    requires DistinctKeys(o.fields[i..])
    requires forall j :: i <= j < |o.fields| ==> NoKey(acc, Pre(prefix) + o.fields[j].0)
    ensures FlattenFrom(o, i, prefix, acc) == acc + Prefixed(o.fields[i..], prefix)
    decreases |o.fields| - i
  {
    if i < |o.fields| {
      var (k, v) := o.fields[i];
      var key := Pre(prefix) + k;
      var next := acc + [(key, v)];
      FlattenStepLeaf(o, i, prefix, acc);
      forall j | i + 1 <= j < |o.fields| ensures NoKey(next, Pre(prefix) + o.fields[j].0) {
        assert o.fields[i..][0].0 != o.fields[i..][j - i].0;
        PrefixCancel(Pre(prefix), k, o.fields[j].0);
        NoKeyAppend(acc, (key, v), Pre(prefix) + o.fields[j].0);
      }
      var tail := o.fields[i + 1..];
      assert tail == o.fields[i..][1..];
      assert DistinctKeys(tail);
      FlattenFromLeaves(o, i + 1, prefix, next);
      PrefixedCons(o.fields[i..], prefix);
      calc {
        FlattenFrom(o, i, prefix, acc);
        FlattenFrom(o, i + 1, prefix, next);
        next + Prefixed(tail, prefix);
        { AppendAssoc(acc, [(key, v)], Prefixed(tail, prefix)); }
        acc + ([(key, v)] + Prefixed(tail, prefix));
        acc + Prefixed(o.fields[i..], prefix);
      }
    }
  }

  lemma AppendAssoc(a: Fields, b: Fields, c: Fields)
    ensures (a + b) + c == a + (b + c)
  {
  }

  lemma PrefixedCons(fs: Fields, prefix: string)
    requires fs != []
    ensures Prefixed(fs, prefix) == [(Pre(prefix) + fs[0].0, fs[0].1)] + Prefixed(fs[1..], prefix)
  {
  }

  /** One step of the `reduce` over a field that is not an object and whose
      name is new. */
  lemma FlattenStepLeaf(o: Json, i: nat, prefix: string, acc: Fields)
    requires o.Object? && i < |o.fields| && !o.fields[i].1.Object?
    requires NoKey(acc, Pre(prefix) + o.fields[i].0)
    ensures FlattenFrom(o, i, prefix, acc)
              == FlattenFrom(o, i + 1, prefix, acc + [(Pre(prefix) + o.fields[i].0, o.fields[i].1)])
  {
  }

  /** One step of the `reduce` over a field that holds an object. */
  lemma FlattenStepNested(o: Json, i: nat, prefix: string, acc: Fields)
    requires o.Object? && i < |o.fields| && o.fields[i].1.Object?
    ensures FlattenFrom(o, i, prefix, acc)
              == FlattenFrom(o, i + 1, prefix, AssignAll(acc, NestedUnder(o.fields[i].1, prefix, o.fields[i].0)))
  {
  }

  /** `Object.assign` of fields with distinct names, all new to the target,
      appends them in order. */
  lemma {:induction false} AssignFresh(acc: Fields, src: Fields)
    requires DistinctKeys(src)
    requires forall e :: e in src ==> NoKey(acc, e.0)
    ensures AssignAll(acc, src) == acc + src
    decreases |src|
  {
    if src != [] {
      var next := acc + [src[0]];
      assert Put(acc, src[0].0, src[0].1) == next;
      var tail := src[1..];
      forall e | e in tail ensures NoKey(next, e.0) {
        TailKeyDiffers(src, e);
        NoKeyAppend(acc, src[0], e.0);
      }
      assert DistinctKeys(tail);
      AssignFresh(next, tail);
      AppendAssoc(acc, [src[0]], tail);
      assert [src[0]] + tail == src;
    }
  }

  lemma TailKeyDiffers(src: Fields, e: (string, Json))
    requires DistinctKeys(src) && src != [] && e in src[1..]
    ensures src[0].0 != e.0
  {
    var j :| 0 <= j < |src[1..]| && src[1..][j] == e;
    assert src[j + 1] == e;
  }

  /** A record without nested objects is its own flattening: the same
      names, values and order. */
  lemma FlattenOfFlat(fs: Fields)
    requires forall e :: e in fs ==> !e.1.Object?
    requires DistinctKeys(fs)
    ensures Flatten(Object(fs)) == fs
  {
    var o := Object(fs);
    assert o.fields[0..] == fs;
    FlattenFromLeaves(o, 0, "", []);
    assert Prefixed(fs, "") == fs;
  }

  /** A record whose first field `k` holds a flat object, followed by flat
      fields whose names have no dot (as the report endpoints send
      `{ client: { ... }, totalTickets }`): the nested fields become
      `k + "." + name`, in order, ahead of the others. */
  lemma FlattenNested(k: string, inner: Fields, rest: Fields)
    requires k != ""
    requires forall e :: e in inner ==> !e.1.Object?
    requires forall e :: e in rest ==> !e.1.Object?
    requires DistinctKeys(inner) && DistinctKeys(rest)
    requires forall e :: e in rest ==> '.' !in e.0
    ensures Flatten(Object([(k, Object(inner))] + rest)) == Prefixed(inner, k) + rest
    ensures forall j :: 0 <= j < |inner| ==> Prefixed(inner, k)[j].0 == k + "." + inner[j].0
  {
    var o := Object([(k, Object(inner))] + rest);
    var acc := Prefixed(inner, k);
    NestedPart(k, inner);
    FlattenStepNested(o, 0, "", []);
    assert o.fields[0] == (k, Object(inner));
    forall e | e in rest ensures NoKey(acc, e.0) {
      DottedNamesDiffer(k, inner, e.0);
    }
    FlattenAfterFirst(o, acc, rest);
  }

  /** The rest of the `reduce` at the top level, over leaves whose names are
      new, appends them as they are. */
  lemma FlattenAfterFirst(o: Json, acc: Fields, rest: Fields)
    requires o.Object? && |o.fields| >= 1 && o.fields[1..] == rest
    requires forall e :: e in rest ==> !e.1.Object?
    requires DistinctKeys(rest)
    requires forall e :: e in rest ==> NoKey(acc, e.0)
    ensures FlattenFrom(o, 1, "", acc) == acc + rest
  {
    forall j | 1 <= j < |o.fields| ensures !o.fields[j].1.Object? && NoKey(acc, Pre("") + o.fields[j].0) {
      assert o.fields[j] == rest[j - 1];
    }
    FlattenFromLeaves(o, 1, "", acc);
    assert Prefixed(rest, "") == rest;
  }

  /** The nested object's fields, flattened on their own and assigned into
      an empty accumulator, are its fields under `k`. */
  lemma NestedPart(k: string, inner: Fields)
    requires k != ""
    requires forall e :: e in inner ==> !e.1.Object?
    requires DistinctKeys(inner)
    ensures AssignAll([], NestedUnder(Object(inner), "", k)) == Prefixed(inner, k)
  {
    var nested := Object(inner);
    assert nested.fields[0..] == inner;
    FlattenFromLeaves(nested, 0, k, []);
    assert Pre("") + k == k;
    assert [] + Prefixed(inner, k) == Prefixed(inner, k);
    PrefixedDistinct(inner, k);
    AssignFresh([], Prefixed(inner, k));
  }

  /** A name without a dot is none of the names under `k`. */
  lemma DottedNamesDiffer(k: string, inner: Fields, name: string)
    requires k != "" && '.' !in name
    ensures NoKey(Prefixed(inner, k), name)
  {
    var acc := Prefixed(inner, k);
    forall e | e in acc ensures e.0 != name {
      var m :| 0 <= m < |acc| && acc[m] == e;
      assert e.0[|k|] == '.';
    }
  }

  // ---------------------------------------------------------------------------
  // Columns, labels and the table

  /** The keys of the report buttons, in the order the page shows them. */
  const ReportKeys: seq<string> := ["by-client", "by-technician", "sla-expired",
    "average-resolution", "active-by-technician", "closed-by-month-technician"]

  /** `DISPLAY_COLUMNS`. */
  const DisplayColumns: map<string, seq<string>> := map[
    "by-client" := ["client.name", "client.cnpj", "client.email", "client.phone", "totalTickets"],
    "by-technician" := ["assignedTechnician.name", "assignedTechnician.email", "totalTickets"],
    "sla-expired" := ["id", "client.name", "sla", "title", "status"],
    "average-resolution" := ["assignedTechnician.name", "assignedTechnician.email", "avgTime"],
    "active-by-technician" := ["assignedTechnician.name", "assignedTechnician.email", "openTickets"],
    "closed-by-month-technician" := ["year", "month", "assignedTechnician.name",
                                     "assignedTechnician.email", "closedTickets"]]

  /** `COLUMN_LABELS`. */
  const ColumnLabels: map<string, string> := map[
    "client.id" := "ID do Cliente", "client.name" := "Cliente", "client.cnpj" := "CNPJ",
    "client.email" := "E-mail do Cliente", "client.phone" := "Telefone do Cliente",
    "clientId" := "ID do Cliente", "assignedTechnician.id" := "ID do T\U{E9}cnico",
    "assignedTechnician.name" := "T\U{E9}cnico", "assignedTechnician.email" := "E-mail do T\U{E9}cnico",
    "assignedTo" := "ID do T\U{E9}cnico", "totalTickets" := "Total de Tickets",
    "openTickets" := "Tickets Abertos", "closedTickets" := "Tickets Fechados no M\U{EA}s",
    "avgTime" := "Tempo M\U{E9}dio (min)", "sla" := "SLA", "status" := "Status",
    "category" := "Categoria", "priority" := "Prioridade", "title" := "T\U{ED}tulo",
    "name" := "Nome", "email" := "E-mail", "id" := "ID", "year" := "Ano", "month" := "M\U{EA}s"]

  function Names(fs: Fields): (r: seq<string>)
    ensures |r| == |fs|
    ensures forall j :: 0 <= j < |fs| ==> r[j] == fs[j].0
  {
    seq(|fs|, j requires 0 <= j < |fs| => fs[j].0)
  }

  /** `DISPLAY_COLUMNS[key] || Object.keys(flatData[0] || {})`. */
  function Columns(key: string, flat: seq<Fields>): (r: seq<string>)
  {
    if key in DisplayColumns then DisplayColumns[key]
    else if flat == [] then []
    else Names(flat[0])
  }

  /** Every report the page offers has its own column list, so the fallback
      to the first record's names is taken only for a key no button sets. */
  lemma ColumnsOfReports(key: string, flat: seq<Fields>)
    ensures key in ReportKeys ==> Columns(key, flat) == DisplayColumns[key]
    ensures key !in DisplayColumns && flat != [] ==> Columns(key, flat) == Names(flat[0])
    ensures key in ReportKeys ==> |Columns(key, flat)| >= 3
  {
  }

  /** `COLUMN_LABELS[col] || col`. */
  function Label(col: string): (r: string)
  {
    if col in ColumnLabels && ColumnLabels[col] != "" then ColumnLabels[col] else col
  }

  /** A column with a label is shown under that label, which always differs
      from the column's own name; any other column is shown by name. */
  lemma LabelFallback(col: string)
    ensures col in ColumnLabels ==> Label(col) == ColumnLabels[col]
    ensures col !in ColumnLabels ==> Label(col) == col
    ensures Label(col) == col <==> col !in ColumnLabels
  {
  }

  /** `row[col]`: the flattened value, `undefined` when the record has no
      such name. */
  function Cell(row: Fields, col: string): Json
  {
    match Get(row, col)
    case Some(v) => v
    case None => Leaf(Undefined)
  }

  predicate AllObjects(data: seq<Json>)
  {
    forall d :: d in data ==> d.Object?
  }

  /** `data.map(flatten)`. */
  function FlattenAll(data: seq<Json>): (r: seq<Fields>)
    requires AllObjects(data)
    ensures |r| == |data|
    ensures forall i :: 0 <= i < |data| ==> r[i] == Flatten(data[i])
  {
    seq(|data|, i requires 0 <= i < |data| => Flatten(data[i]))
  }

  /** What both the page and the spreadsheet show: the labels of the
      columns and one row per record. */
  datatype Table = Table(header: seq<string>, rows: seq<seq<Json>>)

  /** `renderTable()`: nothing without data; otherwise a header cell per
      column and, for every record, its flattened value in every column. */
  function ReportTable(data: seq<Json>, key: string): (t: Option<Table>)
    requires AllObjects(data)
    ensures t.None? <==> data == []
    ensures t.Some? ==> |t.value.rows| == |data|
    ensures t.Some? ==> var cols := Columns(key, FlattenAll(data));
              && |t.value.header| == |cols|
              && (forall j :: 0 <= j < |cols| ==> t.value.header[j] == Label(cols[j]))
              && (forall i :: 0 <= i < |data| ==> |t.value.rows[i]| == |cols|)
              && (forall i, j :: 0 <= i < |data| && 0 <= j < |cols| ==>
                    t.value.rows[i][j] == Cell(Flatten(data[i]), cols[j]))
  {
    if data == [] then None
    else
      var flat := FlattenAll(data);
      var cols := Columns(key, flat);
      var header := seq(|cols|, j requires 0 <= j < |cols| => Label(cols[j]));
      var rows := seq(|flat|, i requires 0 <= i < |flat| =>
        seq(|cols|, j requires 0 <= j < |cols| => Cell(flat[i], cols[j])));
      Some(Table(header, rows))
  }

  /** `exportToExcel`'s `sheetData`: the header row of labels followed by
      the rows; `None` is the early return when there is no data. */
  function ExportSheet(data: seq<Json>, key: string): (r: Option<seq<seq<Json>>>)
    requires AllObjects(data)
    ensures r.None? <==> data == []
    ensures r.Some? ==> |r.value| == |data| + 1
    ensures r.Some? ==> forall i :: 0 <= i < |r.value| ==> |r.value[i]| == |Columns(key, FlattenAll(data))|
  {
    match ReportTable(data, key)
    case None => None
    case Some(t) =>
      Some([seq(|t.header|, j requires 0 <= j < |t.header| => Leaf(Str(t.header[j])))] + t.rows)
  }

  /** The spreadsheet holds exactly the table the page shows: its first row
      is the header as text, and the rest are the page's rows. */
  lemma ExportMatchesPage(data: seq<Json>, key: string)
    requires AllObjects(data) && data != []
    ensures ExportSheet(data, key).Some? && ReportTable(data, key).Some?
    ensures var s := ExportSheet(data, key).value;
            var t := ReportTable(data, key).value;
            s[1..] == t.rows && |s[0]| == |t.header| &&
            forall j :: 0 <= j < |t.header| ==> s[0][j] == Leaf(Str(t.header[j]))
  {
  }

  /** A `by-client` record as the endpoint sends it, `{ client: {...},
      totalTickets }`, shows the client's name in the "Cliente" column
      whenever the nested client has a name, and its total in the last
      column. */
  lemma ByClientShowsClientName(inner: Fields, total: Json, name: Json)
    requires forall e :: e in inner ==> !e.1.Object?
    requires DistinctKeys(inner) && !total.Object?
    requires ("name", name) in inner
    ensures var data := [Object([("client", Object(inner)), ("totalTickets", total)])];
            var t := ReportTable(data, "by-client").value;
            t.header[0] == "Cliente" && t.rows[0][0] == name && t.rows[0][4] == total
  {
    var data := [Object([("client", Object(inner)), ("totalTickets", total)])];
    var rest := [("totalTickets", total)];
    ByClientFlat(inner, total);
    ByClientColumns(FlattenAll(data));
    NestedNameCell(inner, rest, name);
    TotalCell(inner, total);
    ClientNameLabel();
  }

  lemma ByClientFlat(inner: Fields, total: Json)
    requires forall e :: e in inner ==> !e.1.Object?
    requires DistinctKeys(inner) && !total.Object?
    ensures Flatten(Object([("client", Object(inner)), ("totalTickets", total)]))
              == Prefixed(inner, "client") + [("totalTickets", total)]
  {
    var rest := [("totalTickets", total)];
    assert '.' !in "totalTickets";
    FlattenNested("client", inner, rest);
    assert [("client", Object(inner))] + rest == [("client", Object(inner)), ("totalTickets", total)];
  }

  lemma ByClientColumns(flat: seq<Fields>)
    ensures var cols := Columns("by-client", flat);
            |cols| == 5 && cols[0] == "client.name" && cols[4] == "totalTickets"
  {
  }

  lemma ClientNameLabel()
    ensures Label("client.name") == "Cliente"
  {
  }

  lemma NestedNameCell(inner: Fields, rest: Fields, name: Json)
    requires DistinctKeys(inner) && ("name", name) in inner
    ensures Cell(Prefixed(inner, "client") + rest, "client.name") == name
  {
    var p := Prefixed(inner, "client");
    var m :| 0 <= m < |inner| && inner[m] == ("name", name);
    assert Pre("client") == "client." && "client." + "name" == "client.name";
    assert p[m] == ("client.name", name);
    forall j | 0 <= j < m ensures (p + rest)[j].0 != "client.name" {
      assert inner[j].0 != inner[m].0;
      assert (p + rest)[j] == p[j];
      PrefixCancel("client.", inner[j].0, "name");
    }
    GetDistinct(p + rest, m);
  }

  lemma TotalCell(inner: Fields, total: Json)
    ensures Cell(Prefixed(inner, "client") + [("totalTickets", total)], "totalTickets") == total
  {
    var p := Prefixed(inner, "client");
    var fs := p + [("totalTickets", total)];
    forall j | 0 <= j < |p| ensures fs[j].0 != "totalTickets" {
      assert fs[j].0[6] == '.';
    }
    GetDistinct(fs, |p|);
  }

  /** In fields with distinct names, the value under the name at index `m`
      is the one stored there. */
  lemma GetDistinct(fs: Fields, m: nat)
    requires m < |fs|
    requires forall j :: 0 <= j < m ==> fs[j].0 != fs[m].0
    ensures Get(fs, fs[m].0) == Some(fs[m].1)
  {
    if m > 0 {
      GetDistinct(fs[1..], m - 1);
    }
  }
}
