/**
 * Turning worksheet rows into header-keyed records, and the id lookups built
 * from those records (backend/app/data_loader.py).
 */
module DataLoader {
  import opened Wrappers
  import opened Text

  /** A cell value as the workbook reader hands it over. */
  datatype Value = Str(s: string) | Int(i: int) | Bool(b: bool) | Date(iso: string)

  /** An empty cell is `None`. */
  type Cell = Option<Value>

  /** One parsed row: header name to serialized cell value. */
  type Record = map<string, Value>

  /** Sheet name to parsed records, the `data` dictionary. */
  type Workbook = map<string, seq<Record>>

  /** Python truthiness of a non-`None` cell value. */
  predicate Truthy(v: Value) {
    match v
    case Str(s) => s != []
    case Int(i) => i != 0
    case Bool(b) => b
    case Date(_) => true
  }

  /** `str(v)`: a date-like value prints as its isoformat with a space instead of the `T`. */
  function Render(v: Value): string {
    match v
    case Str(s) => s
    case Int(i) => IntText(i)
    case Bool(b) => if b then "True" else "False"
    case Date(iso) => seq(|iso|, k requires 0 <= k < |iso| => if iso[k] == 'T' && 'T' !in iso[..k] then ' ' else iso[k])
  }

  /** The name given to column `i` whose header cell is `h`. */
  function HeaderName(i: nat, h: Cell): (name: string)
    ensures h.Some? && Truthy(h.value) ==> name == Strip(Render(h.value))
    ensures h.None? || !Truthy(h.value) ==> name == "col_" + NatText(i)
  {
    if h.Some? && Truthy(h.value) then Strip(Render(h.value)) else "col_" + NatText(i)
  }

  function Headers(first: seq<Cell>): (hs: seq<string>)
    ensures |hs| == |first|
    ensures forall i :: 0 <= i < |first| ==> hs[i] == HeaderName(i, first[i])
  {
    seq(|first|, i requires 0 <= i < |first| => HeaderName(i, first[i]))
  }

  /** `_serialize`: JSON-safe form of a cell. */
  function Serialize(c: Cell): (v: Value)
    ensures !v.Date?
    ensures c.None? ==> v == Str("")
    ensures c.Some? && c.value.Date? ==> v == Str(c.value.iso)
    ensures c.Some? && !c.value.Date? ==> v == c.value
  {
    match c
    case None => Str("")
    case Some(Date(iso)) => Str(iso)
    case Some(x) => x
  }

  /** Serializing is a fixed point: a serialized value serializes to itself. */
  lemma SerializeIdempotent(c: Cell)
    ensures Serialize(Some(Serialize(c))) == Serialize(c)
  {
  }

  /** Number of columns `zip(headers, row)` walks. */
  function Width(headers: seq<string>, row: seq<Cell>): nat {
    if |headers| <= |row| then |headers| else |row|
  }

  /** The record built from the first `n` zipped columns; a later header overwrites an earlier one. */
  function Zipped(headers: seq<string>, row: seq<Cell>, n: nat): (r: Record)
    requires n <= |headers| && n <= |row|
    ensures r.Keys == set i | 0 <= i < n :: headers[i]
  {
    if n == 0 then map[]
    else Zipped(headers, row, n - 1)[headers[n - 1] := Serialize(row[n - 1])]
  }

  function RowRecord(headers: seq<string>, row: seq<Cell>): Record {
    Zipped(headers, row, Width(headers, row))
  }

  /** A column index is the last one (below `n`) carrying its header name. */
  predicate LastWithName(headers: seq<string>, n: nat, j: nat)
    requires n <= |headers|
  {
    j < n && forall k :: j < k < n ==> headers[k] != headers[j]
  }

  /** Each key of a row record holds the cell of the LAST column with that header. */
  lemma {:induction false} ZippedLastWins(headers: seq<string>, row: seq<Cell>, n: nat, j: nat)
    requires n <= |headers| && n <= |row|
    requires LastWithName(headers, n, j)
    ensures Zipped(headers, row, n)[headers[j]] == Serialize(row[j])
  {
    if j < n - 1 {
      ZippedLastWins(headers, row, n - 1, j);
    }
  }

  /** `has_data`: some zipped cell is not `None` (cells past the shorter side are ignored). */
  predicate HasData(headers: seq<string>, row: seq<Cell>) {
    exists i :: 0 <= i < Width(headers, row) && row[i].Some?
  }

  /**
   * `_parse_sheet`: the first row names the columns; every later row that has
   * data becomes one record, in order. `kept` lists the data-row positions used.
   */
  method ParseSheet(rows: seq<seq<Cell>>) returns (records: seq<Record>, ghost kept: seq<nat>)
    ensures rows == [] ==> records == []
    ensures |records| == |kept|
    ensures rows != [] ==> |records| <= |rows| - 1
    ensures forall k :: 0 <= k < |kept| ==> 1 <= kept[k] < |rows|
    ensures forall k, l :: 0 <= k < l < |kept| ==> kept[k] < kept[l]
    ensures forall k :: 0 <= k < |kept| ==>
      HasData(Headers(rows[0]), rows[kept[k]]) && records[k] == RowRecord(Headers(rows[0]), rows[kept[k]])
    ensures forall j :: 1 <= j < |rows| && HasData(Headers(rows[0]), rows[j]) ==> j in kept
  {
    records, kept := [], [];
    if rows == [] {
      return;
    }
    var headers := Headers(rows[0]);
    var j := 1;
    while j < |rows|
      invariant 1 <= j <= |rows|
      invariant ParsedUpTo(rows, headers, j, records, kept)
    {
      var hasData := RowHasData(headers, rows[j]);
      ParsedStep(rows, headers, j, records, kept);
      if hasData {
        records := records + [RowRecord(headers, rows[j])];
        kept := kept + [j];
      }
      j := j + 1;
    }
  }

  /** The loop of `ParseSheet` after the rows before `j`: the records of the rows with data among them, in order. */
  predicate ParsedUpTo(rows: seq<seq<Cell>>, headers: seq<string>, j: nat, records: seq<Record>, kept: seq<nat>)
    requires j <= |rows|
  {
    && |records| == |kept| <= j - 1
    && (forall k :: 0 <= k < |kept| ==> 1 <= kept[k] < j)
    && (forall k, l :: 0 <= k < l < |kept| ==> kept[k] < kept[l])
    && (forall k :: 0 <= k < |kept| ==> HasData(headers, rows[kept[k]]) && records[k] == RowRecord(headers, rows[kept[k]]))
    && (forall i :: 1 <= i < j && HasData(headers, rows[i]) ==> i in kept)
  }

  /** One iteration of `ParseSheet` keeps `ParsedUpTo`. */
  lemma ParsedStep(rows: seq<seq<Cell>>, headers: seq<string>, j: nat, records: seq<Record>, kept: seq<nat>)
    requires 1 <= j < |rows| && ParsedUpTo(rows, headers, j, records, kept)
    ensures HasData(headers, rows[j]) ==>
      ParsedUpTo(rows, headers, j + 1, records + [RowRecord(headers, rows[j])], kept + [j])
    ensures !HasData(headers, rows[j]) ==> ParsedUpTo(rows, headers, j + 1, records, kept)
  {
    if HasData(headers, rows[j]) {
      ParsedKeep(rows, headers, j, records, kept);
    } else {
      forall i | 1 <= i < j + 1 && HasData(headers, rows[i]) ensures i in kept {
        assert i < j;
      }
    }
  }

  lemma ParsedKeep(rows: seq<seq<Cell>>, headers: seq<string>, j: nat, records: seq<Record>, kept: seq<nat>)
    requires 1 <= j < |rows| && ParsedUpTo(rows, headers, j, records, kept) && HasData(headers, rows[j])
    ensures ParsedUpTo(rows, headers, j + 1, records + [RowRecord(headers, rows[j])], kept + [j])
  {
    var records', kept' := records + [RowRecord(headers, rows[j])], kept + [j];
    forall k | 0 <= k < |kept'|
      ensures HasData(headers, rows[kept'[k]]) && records'[k] == RowRecord(headers, rows[kept'[k]])
    {
      if k < |kept| { assert records'[k] == records[k] && kept'[k] == kept[k]; }
    }
    forall k, l | 0 <= k < l < |kept'| ensures kept'[k] < kept'[l] {
      if l == |kept| { assert kept'[l] == j && kept'[k] == kept[k]; }
    }
    forall i | 1 <= i < j + 1 && HasData(headers, rows[i]) ensures i in kept' {
      if i < j { assert i in kept; } else { assert kept'[|kept|] == i; }
    }
  }

  /** The `has_data` scan of one row: is any zipped cell not `None`? */
  method RowHasData(headers: seq<string>, row: seq<Cell>) returns (hasData: bool)
    ensures hasData <==> HasData(headers, row)
  {
    hasData := false;
    var i := 0;
    var n := Width(headers, row);
    while i < n
      invariant 0 <= i <= n
      invariant hasData <==> exists c :: 0 <= c < i && row[c].Some?
    {
      if row[i].Some? {
        hasData := true;
      }
      i := i + 1;
    }
  }

  /** `data.get(name, [])`. */
  function Sheet(data: Workbook, name: string): seq<Record> {
    if name in data then data[name] else []
  }

  /** A record that can be filed under `key`: it has the field and the field is truthy. */
  predicate Keyed(r: Record, key: string) {
    key in r && Truthy(r[key])
  }

  /** `{r[key]: r for r in records if r.get(key)}`. */
  function BuildLookup(records: seq<Record>, key: string): (m: map<Value, Record>)
    ensures forall v :: v in m ==> Keyed(m[v], key) && m[v][key] == v
    ensures forall i :: 0 <= i < |records| && Keyed(records[i], key) ==> records[i][key] in m
    ensures forall v :: v in m ==> exists i :: 0 <= i < |records| && records[i] == m[v]
  {
    if records == [] then map[]
    else
      var m := BuildLookup(records[..|records| - 1], key);
      var last := records[|records| - 1];
      if Keyed(last, key) then m[last[key] := last] else m
  }

  /** The lookup keeps the LAST record carrying each key. */
  lemma {:induction false} BuildLookupLastWins(records: seq<Record>, key: string, i: nat)
    requires i < |records| && Keyed(records[i], key)
    requires forall j :: i < j < |records| && Keyed(records[j], key) ==> records[j][key] != records[i][key]
    ensures BuildLookup(records, key)[records[i][key]] == records[i]
  {
    if i < |records| - 1 {
      BuildLookupLastWins(records[..|records| - 1], key, i);
    }
  }

  /** `build_ticket_lookup`: tickets by `Ticket_Number`. */
  function TicketLookup(data: Workbook): map<Value, Record> {
    BuildLookup(Sheet(data, "Tickets"), "Ticket_Number")
  }

  /** `build_conversation_lookup`: conversations by the ticket they belong to. */
  function ConversationLookup(data: Workbook): map<Value, Record> {
    BuildLookup(Sheet(data, "Conversations"), "Ticket_Number")
  }

  /** `build_script_lookup`: scripts by `Script_ID`. */
  function ScriptLookup(data: Workbook): map<Value, Record> {
    BuildLookup(Sheet(data, "Scripts_Master"), "Script_ID")
  }

  /** `build_kb_lookup`: knowledge articles by `KB_Article_ID`. */
  function KbLookup(data: Workbook): map<Value, Record> {
    BuildLookup(Sheet(data, "Knowledge_Articles"), "KB_Article_ID")
  }
}
