/** Scanning and assigning fit together, and decoding is column-wise. */
module CodecLaws {
  import opened Collections
  import opened Codec

  /** Cells of the types that `scanValues` allocates, after a scan has filled them. */
  ghost predicate ScannedInto(columns: seq<Column>, values: seq<Cell>) {
    |values| >= |columns| && forall i :: 0 <= i < |columns| ==> CellKind(values[i]) == ScanKind(columns[i])
  }

  /** The JSON columns hold nothing or a document that decodes. */
  ghost predicate JsonOk(j: JsonCodec, columns: seq<Column>, values: seq<Cell>)
    requires |columns| <= |values|
  {
    forall i :: 0 <= i < |columns| && values[i].Bytes? && values[i].bytes != "" ==> j.decode(None, values[i].bytes).Some?
  }

  /** Every cell type that scanning allocates for a field is the one that assigning asserts. */
  lemma KindsAgree(f: Field)
    ensures ScanKind(Known(f)) == AssignKind(f) != KUnknown
  {}

  /** Zero values, and cells that hold none. */
  lemma ZeroExact(f: Field, k: Kind)
    ensures Nillable(f) ==> ZeroSlot(f) == Ptr(None)
    ensures !Nillable(f) ==> ZeroSlot(f).Plain? && ValueKind(ZeroSlot(f).value) == AssignKind(f)
    ensures !Nillable(f) ==> ZeroSlot(f).value in {Int(0), Str(""), Time(0), Bool(false), Float(0.0), Json(None)}
    ensures CellValue(EmptyCell(k)) == None && (k == KJson ==> EmptyCell(k) == Bytes(""))
  {
  }

  /** A scanned cell is refused only for malformed JSON. */
  lemma StoreTotal(j: JsonCodec, f: Field, slot: Slot, c: Cell)
    requires j.Lawful() && CellKind(c) == ScanKind(Known(f))
    ensures Store(j, f, slot, c).Err? <==> c.Bytes? && c.bytes != "" && j.decode(None, c.bytes).None?
    ensures Store(j, f, slot, c).Err? ==> Store(j, f, slot, c).error == BadJson(f)
  {
    KindsAgree(f);
    if CellKind(c) == KJson {
      var prior := if slot.Plain? && slot.value.Json? then slot.value.doc else None;
      assert j.decode(prior, c.bytes).Some? <==> j.decode(None, c.bytes).Some?;
    }
  }

  /** For every column list, unknown and repeated names included, decoding scanned cells fails
      exactly when a JSON column is malformed. */
  lemma {:induction false} DecodeTotal(j: JsonCodec, e: Entity, columns: seq<Column>, values: seq<Cell>)
    requires j.Lawful() && ScannedInto(columns, values)
    ensures StoreAll(j, e, columns, values).Ok? <==> JsonOk(j, columns, values)
    ensures StoreAll(j, e, columns, values).Err? ==> StoreAll(j, e, columns, values).error.BadJson?
  {
    if columns != [] {
      var n := |columns| - 1;
      DecodeTotal(j, e, columns[..n], values);
      var r := StoreAll(j, e, columns[..n], values);
      if r.Ok? && columns[n].Known? {
        var f := columns[n].field;
        StoreTotal(j, f, if f in r.value.slots then r.value.slots[f] else ZeroSlot(f), values[n]);
      }
      if JsonOk(j, columns[..n], values) && !(values[n].Bytes? && values[n].bytes != "" && j.decode(None, values[n].bytes).None?) {
        assert JsonOk(j, columns, values);
      }
      if JsonOk(j, columns, values) {
        assert JsonOk(j, columns[..n], values);
      }
    }
  }

  // Column-wise -------------------------------------------------------------

  ghost predicate Full(e: Entity) {
    forall f :: f in e.slots
  }

  ghost predicate ColumnStored(j: JsonCodec, e: Entity, column: Column, c: Cell, e': Entity)
    requires Full(e) && Full(e')
  {
    match column
    case Known(f) => Store(j, f, e.slots[f], c) == Ok(e'.slots[f])
    case Other(name) => name in e'.selected && e'.selected[name] == c
  }

  /** What the decoded entity holds for a column that occurs once: its own cell, stored over the initial field. */
  ghost predicate Columnwise(j: JsonCodec, e: Entity, columns: seq<Column>, values: seq<Cell>, e': Entity)
    requires |columns| <= |values|
  {
    && Full(e') && Full(e)
    && (forall i :: 0 <= i < |columns| ==> ColumnStored(j, e, columns[i], values[i], e'))
    && (forall f :: Known(f) !in columns ==> e'.slots[f] == e.slots[f])
    && (forall name :: Other(name) !in columns ==>
      (name in e'.selected <==> name in e.selected) && (name in e.selected ==> e'.selected[name] == e.selected[name]))
  }

  lemma {:induction false} DecodeColumnwise(j: JsonCodec, e: Entity, columns: seq<Column>, values: seq<Cell>)
    requires |columns| <= |values| && Distinct(columns) && Full(e)
    requires StoreAll(j, e, columns, values).Ok?
    ensures Columnwise(j, e, columns, values, StoreAll(j, e, columns, values).value)
  {
    if columns != [] {
      var n := |columns| - 1;
      hide Columnwise, StoreColumn;
      DecodeColumnwise(j, e, columns[..n], values);
      ColumnwiseNext(j, e, columns, values, StoreAll(j, e, columns[..n], values).value, StoreAll(j, e, columns, values).value);
    }
  }

  lemma ColumnwiseNext(j: JsonCodec, e: Entity, columns: seq<Column>, values: seq<Cell>, before: Entity, after: Entity)
    requires 0 < |columns| <= |values| && Distinct(columns)
    requires var n := |columns| - 1; Columnwise(j, e, columns[..n], values, before) && StoreColumn(j, before, columns[n], values[n]) == Ok(after)
    ensures Columnwise(j, e, columns, values, after)
  {
    hide Store;
    var n := |columns| - 1;
    LastColumn(columns);
    forall i | 0 <= i < |columns| ensures ColumnStored(j, e, columns[i], values[i], after) {
      if i < n {
        assert ColumnStored(j, e, columns[..n][i], values[i], before);
        StoredStays(j, e, columns[i], values[i], before, columns[n], values[n], after);
      } else {
        StoredNow(j, e, columns[n], values[n], before, after);
      }
    }
    hide ColumnStored;
  }

  /** Assigning another column leaves a stored one as it is. */
  lemma StoredStays(j: JsonCodec, e: Entity, column: Column, c: Cell, before: Entity, other: Column, d: Cell, after: Entity)
    requires Full(e) && Full(before) && ColumnStored(j, e, column, c, before) && column != other && StoreColumn(j, before, other, d) == Ok(after)
    ensures Full(after) && ColumnStored(j, e, column, c, after)
  {
    hide Store;
  }

  lemma StoredNow(j: JsonCodec, e: Entity, column: Column, c: Cell, before: Entity, after: Entity)
    requires Full(e) && Full(before) && StoreColumn(j, before, column, c) == Ok(after)
    requires column.Known? ==> before.slots[column.field] == e.slots[column.field]
    ensures Full(after) && ColumnStored(j, e, column, c, after)
  {
    hide Store;
  }

  lemma LastColumn(columns: seq<Column>)
    requires columns != [] && Distinct(columns)
    ensures var n := |columns| - 1;
      && (forall c :: c in columns <==> c in columns[..n] || c == columns[n])
      && columns[n] !in columns[..n]
      && forall i :: 0 <= i < n ==> columns[..n][i] == columns[i] && columns[i] != columns[n]
  {
    var n := |columns| - 1;
    assert columns == columns[..n] + [columns[n]];
  }

  /** A field that holds the value, in a pointer if it is one. */
  function Holding(f: Field, v: Value): (r: Slot) {
    if Nillable(f) then Ptr(Some(v)) else Plain(v)
  }

  /** What a decoded cell leaves in its field: its value; for NULL, or an empty document, what was there
      before, except that a NULL id is 0; and a document is decoded into the one that was there. */
  ghost predicate Assigns(j: JsonCodec, f: Field, before: Slot, c: Cell, after: Slot) {
    match c
    case NullInt64(Some(n)) => after == Holding(f, Int(n))
    case NullString(Some(s)) => after == Holding(f, Str(s))
    case NullTime(Some(t)) => after == Holding(f, Time(t))
    case NullBool(Some(b)) => after == Holding(f, Bool(b))
    case NullFloat64(Some(x)) => after == Holding(f, Float(x))
    case NullInt64(None) => after == if f == ID then Plain(Int(0)) else before
    case Bytes(s) =>
      var prior := if before.Plain? && before.value.Json? then before.value.doc else None;
      (s == "" ==> after == before) && (s != "" ==> exists d :: j.decode(prior, s) == Some(d) && after == Plain(Json(d)))
    case _ => after == before
  }

  lemma DecodeExact(j: JsonCodec, e: Entity, columns: seq<Column>, values: seq<Cell>, i: nat)
    requires i < |columns| <= |values| && Distinct(columns) && Full(e) && columns[i].Known?
    requires StoreAll(j, e, columns, values).Ok?
    ensures var f, e' := columns[i].field, StoreAll(j, e, columns, values).value;
      f in e'.slots && CellKind(values[i]) == AssignKind(f) && Assigns(j, f, e.slots[f], values[i], e'.slots[f])
  {
    DecodeColumnwise(j, e, columns, values);
    hide StoreAll;
    assert ColumnStored(j, e, columns[i], values[i], StoreAll(j, e, columns, values).value);
    StoredAssigns(j, columns[i].field, e.slots[columns[i].field], values[i]);
    hide Store, Assigns;
  }

  lemma StoredAssigns(j: JsonCodec, f: Field, before: Slot, c: Cell)
    ensures Store(j, f, before, c).Ok? ==> CellKind(c) == AssignKind(f) && Assigns(j, f, before, c, Store(j, f, before, c).value)
  {
  }

  /** The first column that cannot be assigned stops the decoding: one cell of another type, or a malformed document. */
  lemma DecodeStops(j: JsonCodec, e: Entity, columns: seq<Column>, values: seq<Cell>, i: nat)
    requires i < |columns| <= |values| && columns[i].Known? && StoreAll(j, e, columns[..i], values).Ok?
    ensures CellKind(values[i]) != AssignKind(columns[i].field) ==> Assigned(j, e, columns, values) == Err(BadType(columns[i].field))
    ensures j.Lawful() && columns[i].field in {Credentials, Extra} && values[i].Bytes? && values[i].bytes != "" && j.decode(None, values[i].bytes).None? ==>
      Assigned(j, e, columns, values) == Err(BadJson(columns[i].field))
  {
    StoreAllNext(j, e, columns, values, i);
    if StoreAll(j, e, columns[..i + 1], values).Err? { StoreAllFails(j, e, columns, values, i + 1); }
    hide StoreAll;
  }

  ghost function Cells(columns: seq<Column>, values: seq<Cell>): (r: set<(Column, Cell)>)
    requires |columns| <= |values|
  {
    set i | 0 <= i < |columns| :: (columns[i], values[i])
  }

  /** Where a pair of the one list sits in the other. */
  lemma FindCell(columns: seq<Column>, values: seq<Cell>, other: seq<Column>, others: seq<Cell>, i: nat) returns (k: nat)
    requires |columns| <= |values| && |other| <= |others| && Cells(columns, values) == Cells(other, others) && i < |columns|
    ensures k < |other| && other[k] == columns[i] && others[k] == values[i]
  {
    assert (columns[i], values[i]) in Cells(columns, values);
    k :| 0 <= k < |other| && (other[k], others[k]) == (columns[i], values[i]);
  }

  /** Reordering the columns together with their cells decodes to the same entity. */
  lemma DecodePermutation(j: JsonCodec, e: Entity, columns: seq<Column>, values: seq<Cell>, other: seq<Column>, others: seq<Cell>)
    requires j.Lawful() && Full(e) && ScannedInto(columns, values) && ScannedInto(other, others)
    requires Distinct(columns) && Distinct(other) && Cells(columns, values) == Cells(other, others)
    ensures StoreAll(j, e, columns, values).Ok? <==> StoreAll(j, e, other, others).Ok?
    ensures StoreAll(j, e, columns, values).Ok? ==> StoreAll(j, e, columns, values) == StoreAll(j, e, other, others)
  {
    DecodeTotal(j, e, columns, values);
    DecodeTotal(j, e, other, others);
    if JsonOk(j, other, others) {
      forall i | 0 <= i < |columns| && values[i].Bytes? && values[i].bytes != "" ensures j.decode(None, values[i].bytes).Some? {
        var k := FindCell(columns, values, other, others, i);
      }
    }
    if JsonOk(j, columns, values) {
      forall i | 0 <= i < |other| && others[i].Bytes? && others[i].bytes != "" ensures j.decode(None, others[i].bytes).Some? {
        var k := FindCell(other, others, columns, values, i);
      }
      SameDecoded(j, e, columns, values, other, others);
    }
  }

  lemma SameDecoded(j: JsonCodec, e: Entity, columns: seq<Column>, values: seq<Cell>, other: seq<Column>, others: seq<Cell>)
    requires |columns| <= |values| && |other| <= |others| && Full(e)
    requires Distinct(columns) && Distinct(other) && Cells(columns, values) == Cells(other, others)
    requires StoreAll(j, e, columns, values).Ok? && StoreAll(j, e, other, others).Ok?
    ensures StoreAll(j, e, columns, values) == StoreAll(j, e, other, others)
  {
    var a, b := StoreAll(j, e, columns, values).value, StoreAll(j, e, other, others).value;
    DecodeColumnwise(j, e, columns, values);
    DecodeColumnwise(j, e, other, others);
    SameColumns(columns, values, other, others);
    forall f: Field ensures a.slots[f] == b.slots[f] {
      if Known(f) in columns {
        var i :| 0 <= i < |columns| && columns[i] == Known(f);
        var k := FindCell(columns, values, other, others, i);
      }
    }
    forall name ensures (name in a.selected <==> name in b.selected) && (name in a.selected ==> a.selected[name] == b.selected[name]) {
      if Other(name) in columns {
        var i :| 0 <= i < |columns| && columns[i] == Other(name);
        var k := FindCell(columns, values, other, others, i);
      }
    }
    assert a.slots == b.slots && a.selected == b.selected;
  }

  lemma SameColumns(columns: seq<Column>, values: seq<Cell>, other: seq<Column>, others: seq<Cell>)
    requires |columns| <= |values| && |other| <= |others| && Cells(columns, values) == Cells(other, others)
    ensures forall c :: c in columns <==> c in other
  {
    forall c | c in columns ensures c in other {
      var i :| 0 <= i < |columns| && columns[i] == c;
      var k := FindCell(columns, values, other, others, i);
    }
    forall c | c in other ensures c in columns {
      var i :| 0 <= i < |other| && other[i] == c;
      var k := FindCell(other, others, columns, values, i);
    }
  }
}
