/** The reader of a CSV dump of an LCM stream that both plotting tools use.
    A header row (empty channel cell) names the fields of a message type; a
    data row of a named type becomes one event mapping
    `channel.type.field` to its cell, plus an unqualified "timestamp" copied
    from the header's timestamp column.  Short rows and rows of unnamed
    types are skipped; a row that ends before its timestamp cell is dropped;
    more cells than field names, or a header without a timestamp field,
    raise out of the reader and end the stream. */
module CsvEvents {
  import opened Wrappers

  /** One row as the CSV reader splits it into cells. */
  type Row = seq<string>

  /** One event: qualified field name to cell text. */
  type Event = map<string, string>

  /** The unqualified key the reader adds to every event. */
  const Timestamp: string := "timestamp"

  /** The two exceptions that escape the reader: an index error from a data
      row with more value cells than its header has field names, and a value
      error from a header whose fields do not include "timestamp". */
  datatype ExtractError = MoreValuesThanFields | NoTimestampField

  /** What reading a stream gives: the events yielded, in order, and the
      exception that ended it early, if any. */
  datatype Extraction = Extraction(events: seq<Event>, error: Option<ExtractError>)

  /** The events `events` followed by whatever `rest` gives. */
  function Then(events: seq<Event>, rest: Extraction): Extraction
  {
    Extraction(events + rest.events, rest.error)
  }

  /** The position of the first `name` among `names` (Python's
      `list.index`), or None when it is not there. */
  function IndexOf(names: seq<string>, name: string): (r: Option<nat>)
    ensures r.Some? ==> r.value < |names| && names[r.value] == name
    ensures r.Some? ==> forall j :: 0 <= j < r.value ==> names[j] != name
    ensures r.None? <==> name !in names
  {
    if names == [] then None
    else if names[0] == name then Some(0)
    else match IndexOf(names[1..], name)
      case None => None
      case Some(j) => Some(j + 1)
  }

  /** The event a data row builds before its timestamp is added: the i-th
      value cell under `prefix` followed by the i-th field name, a later
      cell replacing an earlier one under the same name. */
  function Qualify(prefix: string, names: seq<string>, values: seq<string>): Event
    requires |values| <= |names|
    decreases |values|
  {
    if values == [] then map[]
    else Qualify(prefix, names, values[..|values| - 1])[prefix + names[|values| - 1] := values[|values| - 1]]
  }

  /** Two qualified names with the same prefix are the same only when the
      field names are. */
  lemma PrefixInjective(prefix: string, a: string, b: string)
    requires prefix + a == prefix + b
    ensures a == b
  {
    assert a == (prefix + a)[|prefix|..];
    assert b == (prefix + b)[|prefix|..];
  }

  /** The keys of a built event are exactly the qualified names of the
      fields that have a value cell. */
  lemma {:induction false} QualifyKeys(prefix: string, names: seq<string>, values: seq<string>, k: string)
    requires |values| <= |names|
    ensures k in Qualify(prefix, names, values) <==> exists i :: 0 <= i < |values| && k == prefix + names[i]
    decreases |values|
  {
    if values != [] {
      var n := |values| - 1;
      QualifyKeys(prefix, names, values[..n], k);
      if k in Qualify(prefix, names, values) && k != prefix + names[n] {
        var i :| 0 <= i < n && k == prefix + names[i];
        assert 0 <= i < |values| && k == prefix + names[i];
      }
      if exists i :: 0 <= i < |values| && k == prefix + names[i] {
        var i :| 0 <= i < |values| && k == prefix + names[i];
        if i < n {
          assert 0 <= i < |values[..n]| && k == prefix + names[i];
        }
      }
    }
  }

  /** A value cell whose field name does not come again later in the row
      is found under its qualified name. */
  lemma {:induction false} QualifyValue(prefix: string, names: seq<string>, values: seq<string>, i: nat)
    requires |values| <= |names| && i < |values|
    requires forall j :: i < j < |values| ==> names[j] != names[i]
    ensures prefix + names[i] in Qualify(prefix, names, values)
    ensures Qualify(prefix, names, values)[prefix + names[i]] == values[i]
    decreases |values|
  {
    var n := |values| - 1;
    if i < n {
      if prefix + names[n] == prefix + names[i] {
        PrefixInjective(prefix, names[n], names[i]);
      }
      QualifyValue(prefix, names, values[..n], i);
    }
  }

  /** What one row does to the reader. */
  datatype RowEffect =
    | Ignored
    | Header(messageType: string, fieldNames: seq<string>)
    | Yields(event: Event)
    | Dropped
    | Raises(error: ExtractError)

  /** The effect of `row` given the field names registered so far. */
  function RowEffectOf(messageFields: map<string, seq<string>>, row: Row): RowEffect
  {
    if |row| < 2 then Ignored
    else if row[0] == "" then Header(row[1], row[2..])
    else if row[1] !in messageFields then Ignored
    else
      var names := messageFields[row[1]];
      if |row| - 2 > |names| then Raises(MoreValuesThanFields)
      else match IndexOf(names, Timestamp)
        case None => Raises(NoTimestampField)
        case Some(t) =>
          if t + 2 < |row| then Yields(Qualify(row[0] + "." + row[1] + ".", names, row[2..])[Timestamp := row[t + 2]])
          else Dropped
  }

  /** Reading `rows` with the field names `messageFields` registered. */
  function ExtractFrom(messageFields: map<string, seq<string>>, rows: seq<Row>): Extraction
    decreases |rows|
  {
    if rows == [] then Extraction([], None)
    else match RowEffectOf(messageFields, rows[0])
      case Header(messageType, names) => ExtractFrom(messageFields[messageType := names], rows[1..])
      case Yields(e) => Then([e], ExtractFrom(messageFields, rows[1..]))
      case Raises(error) => Extraction([], Some(error))
      case _ => ExtractFrom(messageFields, rows[1..])
  }

  /** The field names registered once `rows` have been read. */
  function FieldsAfter(messageFields: map<string, seq<string>>, rows: seq<Row>): map<string, seq<string>>
    decreases |rows|
  {
    if rows == [] then messageFields
    else match RowEffectOf(messageFields, rows[0])
      case Header(messageType, names) => FieldsAfter(messageFields[messageType := names], rows[1..])
      case _ => FieldsAfter(messageFields, rows[1..])
  }

  /** Reading a whole file, with nothing registered at the start. */
  function Extract(rows: seq<Row>): Extraction
  {
    ExtractFrom(map[], rows)
  }

  /** The reader: every row in turn, keeping the field names each header
      registers for its message type. */
  method ExtractEvents(rows: seq<Row>) returns (events: seq<Event>, error: Option<ExtractError>)
    ensures Extraction(events, error) == Extract(rows)
  {
    var messageFields: map<string, seq<string>> := map[];
    events := [];
    var i := 0;
    while i < |rows|
      invariant 0 <= i <= |rows|
      invariant Extract(rows) == Then(events, ExtractFrom(messageFields, rows[i..]))
    {
      var row := rows[i];
      assert rows[i..][1..] == rows[i + 1..];
      i := i + 1;
      if |row| < 2 {
        continue;
      }
      var channel, messageType := row[0], row[1];
      if channel == "" {
        messageFields := messageFields[messageType := row[2..]];
      } else if messageType in messageFields {
        var fieldNames := messageFields[messageType];
        if |row| - 2 > |fieldNames| {
          assert events + [] == events;
          return events, Some(MoreValuesThanFields);
        }
        var event := Qualify(channel + "." + messageType + ".", fieldNames, row[2..]);
        var timestampIndex := IndexOf(fieldNames, Timestamp);
        if timestampIndex.None? {
          assert events + [] == events;
          return events, Some(NoTimestampField);
        }
        if timestampIndex.value + 2 < |row| {
          assert events + ([event[Timestamp := row[timestampIndex.value + 2]]] + ExtractFrom(messageFields, rows[i..]).events)
              == events + [event[Timestamp := row[timestampIndex.value + 2]]] + ExtractFrom(messageFields, rows[i..]).events;
          events := events + [event[Timestamp := row[timestampIndex.value + 2]]];
        }
      }
    }
    assert events + [] == events;
    error := None;
  }

  /** Reading two files one after the other is reading the first, then, if
      it raised nothing, the second with the first one's headers: events
      come out in row order, and an exception ends the stream. */
  lemma {:induction false} ExtractConcat(messageFields: map<string, seq<string>>, a: seq<Row>, b: seq<Row>)
    ensures ExtractFrom(messageFields, a + b)
         == if ExtractFrom(messageFields, a).error.Some? then ExtractFrom(messageFields, a)
            else Then(ExtractFrom(messageFields, a).events, ExtractFrom(FieldsAfter(messageFields, a), b))
    decreases |a|
  {
    if a == [] {
      assert a + b == b;
    } else {
      assert (a + b)[0] == a[0];
      assert (a + b)[1..] == a[1..] + b;
      match RowEffectOf(messageFields, a[0])
      case Header(messageType, names) =>
        ExtractConcat(messageFields[messageType := names], a[1..], b);
      case Yields(e) =>
        ExtractConcat(messageFields, a[1..], b);
        var rest := ExtractFrom(messageFields, a[1..]);
        if rest.error.None? {
          assert [e] + (rest.events + ExtractFrom(FieldsAfter(messageFields, a), b).events)
              == ([e] + rest.events) + ExtractFrom(FieldsAfter(messageFields, a), b).events;
        }
      case Raises(error) =>
      case Ignored =>
        ExtractConcat(messageFields, a[1..], b);
      case Dropped =>
        ExtractConcat(messageFields, a[1..], b);
    }
  }

  /** Whether a row has a channel, i.e. is not short and not a header. */
  predicate IsDataRow(row: Row)
  {
    |row| >= 2 && row[0] != ""
  }

  /** The number of data rows in `rows`. */
  function DataRows(rows: seq<Row>): nat
  {
    if rows == [] then 0 else (if IsDataRow(rows[0]) then 1 else 0) + DataRows(rows[1..])
  }

  /** Headers, short rows and unnamed types yield nothing: at most one event
      per data row. */
  lemma {:induction false} AtMostOneEventPerDataRow(messageFields: map<string, seq<string>>, rows: seq<Row>)
    ensures |ExtractFrom(messageFields, rows).events| <= DataRows(rows)
    decreases |rows|
  {
    if rows != [] {
      match RowEffectOf(messageFields, rows[0])
      case Header(messageType, names) =>
        AtMostOneEventPerDataRow(messageFields[messageType := names], rows[1..]);
      case Raises(error) =>
      case _ =>
        AtMostOneEventPerDataRow(messageFields, rows[1..]);
    }
  }

  /** Without a header row, nothing is read: every data row is of a type no
      header has named. */
  lemma {:induction false} NoHeaderNoEvents(rows: seq<Row>)
    requires forall i :: 0 <= i < |rows| && |rows[i]| >= 2 ==> rows[i][0] != ""
    ensures ExtractFrom(map[], rows) == Extraction([], None)
    decreases |rows|
  {
    if rows != [] {
      assert RowEffectOf(map[], rows[0]) == Ignored;
      NoHeaderNoEvents(rows[1..]);
    }
  }

  /** A later header for a type replaces the field names of an earlier
      one. */
  lemma LaterHeaderReplaces(messageFields: map<string, seq<string>>, messageType: string, first: seq<string>, second: seq<string>)
    ensures FieldsAfter(messageFields, [[""] + [messageType] + first, [""] + [messageType] + second])
         == messageFields[messageType := second]
  {
    var h1 := [""] + [messageType] + first;
    var h2 := [""] + [messageType] + second;
    assert h1[0] == "" && h1[1] == messageType && h1[2..] == first;
    assert h2[0] == "" && h2[1] == messageType && h2[2..] == second;
    assert RowEffectOf(messageFields, h1) == Header(messageType, first);
    assert RowEffectOf(messageFields[messageType := first], h2) == Header(messageType, second);
    assert [h1, h2][1..] == [h2];
    var none: seq<Row> := [];
    assert [h2][1..] == none;
    assert messageFields[messageType := first][messageType := second] == messageFields[messageType := second];
    assert FieldsAfter(messageFields[messageType := first][messageType := second], none) == messageFields[messageType := second];
    assert FieldsAfter(messageFields[messageType := first], [h2]) == messageFields[messageType := second];
  }

  /** The event a data row yields: "timestamp" holds the cell in the
      header's timestamp column, and every other key is the qualified name
      of a field that has a value cell. */
  lemma YieldedEventKeys(messageFields: map<string, seq<string>>, row: Row, k: string)
    requires RowEffectOf(messageFields, row).Yields?
    ensures var names := messageFields[row[1]];
            var e := RowEffectOf(messageFields, row).event;
            && IndexOf(names, Timestamp).Some?
            && Timestamp in e && e[Timestamp] == row[IndexOf(names, Timestamp).value + 2]
            && (k in e <==> k == Timestamp || exists i :: 0 <= i < |row| - 2 && k == row[0] + "." + row[1] + "." + names[i])
  {
    var names := messageFields[row[1]];
    QualifyKeys(row[0] + "." + row[1] + ".", names, row[2..], k);
  }

  /** A value cell whose field name does not come again later in its row is
      found under `channel.type.field`. */
  lemma YieldedEventValue(messageFields: map<string, seq<string>>, row: Row, i: nat)
    requires RowEffectOf(messageFields, row).Yields?
    requires i < |row| - 2
    requires forall j :: i < j < |row| - 2 ==> messageFields[row[1]][j] != messageFields[row[1]][i]
    ensures var key := row[0] + "." + row[1] + "." + messageFields[row[1]][i];
            key in RowEffectOf(messageFields, row).event && RowEffectOf(messageFields, row).event[key] == row[i + 2]
  {
    var names := messageFields[row[1]];
    var prefix := row[0] + "." + row[1] + ".";
    QualifyValue(prefix, names, row[2..], i);
    var key := prefix + names[i];
    assert key[|row[0]|] == '.';
  }
}
