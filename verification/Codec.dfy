/**
 The Account row codec: the cells that `scanValues` allocates for a column list, and how
 `assignValues` stores filled cells into the entity.  The two case lists are kept apart, as
 they are in the source; that they agree is a theorem.
 */
module Codec {
  import opened Collections

  /** The fields of the Account struct that have a column, in column order. */
  datatype Field =
    | ID | CreatedAt | UpdatedAt | DeletedAt | Name | Notes | Platform | Type | Credentials | Extra
    | ProxyID | ProxyFallbackOriginID | Concurrency | LoadFactor | Priority | RateMultiplier | Status
    | ErrorMessage | LastUsedAt | ExpiresAt | AutoPauseOnExpired | Schedulable | RateLimitedAt
    | RateLimitResetAt | OverloadUntil | TempUnschedulableUntil | TempUnschedulableReason
    | SessionWindowStart | SessionWindowEnd | SessionWindowStatus | ParentAccountID | QuotaDimension

  datatype Column = Known(field: Field) | Other(name: string)

  /** A JSON object, by code; None is the nil map. */
  type Doc = Option<int>

  datatype Kind = KInt | KString | KTime | KBool | KFloat | KJson | KUnknown

  datatype Value = Int(n: int) | Str(s: string) | Time(t: int) | Bool(b: bool) | Float(x: real) | Json(doc: Doc)

  /** A scan destination; None stands for NULL, and so does an empty byte slice. */
  datatype Cell =
    | NullInt64(int64: Option<int>) | NullString(text: Option<string>) | NullTime(time: Option<int>)
    | NullBool(flag: Option<bool>) | NullFloat64(float: Option<real>) | Bytes(bytes: string) | UnknownType(raw: int)

  /** The JSON library.  Unmarshalling into a map that already has entries keeps them, hence the prior document. */
  datatype JsonCodec = JsonCodec(encode: Doc -> string, decode: (Doc, string) -> Option<Doc>) {
    /** Encoding is never empty, decoding into a nil map inverts it, and what is malformed is so for every prior. */
    ghost predicate Lawful() {
      && (forall d :: encode(d) != "" && decode(None, encode(d)) == Some(d))
      && forall d, s {:trigger decode(d, s)} :: decode(d, s).Some? <==> decode(None, s).Some?
    }
  }

  /** A field of the entity: a plain value, or a pointer that may be nil. */
  datatype Slot = Plain(value: Value) | Ptr(target: Option<Value>)

  datatype Entity = Entity(slots: map<Field, Slot>, selected: map<string, Cell>)

  datatype AssignError = TooFewValues | BadType(field: Field) | BadJson(field: Field)

  // Types -------------------------------------------------------------------

  /** The cell type that `scanValues` allocates. */
  function ScanKind(c: Column): (r: Kind) {
    match c
    case Other(_) => KUnknown
    case Known(f) =>
      if f in {Credentials, Extra} then KJson
      else if f in {AutoPauseOnExpired, Schedulable} then KBool
      else if f in {RateMultiplier} then KFloat
      else if f in {ID, ProxyID, ProxyFallbackOriginID, Concurrency, LoadFactor, Priority, ParentAccountID} then KInt
      else if f in {Name, Notes, Platform, Type, Status, ErrorMessage, TempUnschedulableReason, SessionWindowStatus, QuotaDimension} then KString
      else if f in {CreatedAt, UpdatedAt, DeletedAt, LastUsedAt, ExpiresAt, RateLimitedAt, RateLimitResetAt,
                    OverloadUntil, TempUnschedulableUntil, SessionWindowStart, SessionWindowEnd} then KTime
      else KUnknown
  }

  /** The cell type that `assignValues` asserts, field by field. */
  function AssignKind(f: Field): (r: Kind) {
    match f
    case ID => KInt
    case CreatedAt => KTime
    case UpdatedAt => KTime
    case DeletedAt => KTime
    case Name => KString
    case Notes => KString
    case Platform => KString
    case Type => KString
    case Credentials => KJson
    case Extra => KJson
    case ProxyID => KInt
    case ProxyFallbackOriginID => KInt
    case Concurrency => KInt
    case LoadFactor => KInt
    case Priority => KInt
    case RateMultiplier => KFloat
    case Status => KString
    case ErrorMessage => KString
    case LastUsedAt => KTime
    case ExpiresAt => KTime
    case AutoPauseOnExpired => KBool
    case Schedulable => KBool
    case RateLimitedAt => KTime
    case RateLimitResetAt => KTime
    case OverloadUntil => KTime
    case TempUnschedulableUntil => KTime
    case TempUnschedulableReason => KString
    case SessionWindowStart => KTime
    case SessionWindowEnd => KTime
    case SessionWindowStatus => KString
    case ParentAccountID => KInt
    case QuotaDimension => KString
  }

  /** Fields that are pointers in the struct. */
  predicate Nillable(f: Field) {
    f in {DeletedAt, Notes, ProxyID, ProxyFallbackOriginID, LoadFactor, ErrorMessage, LastUsedAt, ExpiresAt,
          RateLimitedAt, RateLimitResetAt, OverloadUntil, TempUnschedulableUntil, TempUnschedulableReason,
          SessionWindowStart, SessionWindowEnd, SessionWindowStatus, ParentAccountID}
  }

  function CellKind(c: Cell): (r: Kind) {
    match c
    case NullInt64(_) => KInt
    case NullString(_) => KString
    case NullTime(_) => KTime
    case NullBool(_) => KBool
    case NullFloat64(_) => KFloat
    case Bytes(_) => KJson
    case UnknownType(_) => KUnknown
  }

  function ValueKind(v: Value): (r: Kind) {
    match v
    case Int(_) => KInt
    case Str(_) => KString
    case Time(_) => KTime
    case Bool(_) => KBool
    case Float(_) => KFloat
    case Json(_) => KJson
  }

  function EmptyCell(k: Kind): (c: Cell)
    ensures CellKind(c) == k
  {
    match k
    case KInt => NullInt64(None)
    case KString => NullString(None)
    case KTime => NullTime(None)
    case KBool => NullBool(None)
    case KFloat => NullFloat64(None)
    case KJson => Bytes("")
    case KUnknown => UnknownType(0)
  }

  function ZeroValue(k: Kind): (r: Value) {
    match k
    case KInt => Int(0)
    case KString => Str("")
    case KTime => Time(0)
    case KBool => Bool(false)
    case KFloat => Float(0.0)
    case _ => Json(None)
  }

  function ZeroSlot(f: Field): (r: Slot) {
    if Nillable(f) then Ptr(None) else Plain(ZeroValue(AssignKind(f)))
  }

  function ZeroEntity(): (r: Entity) {
    Entity(map f: Field | true :: ZeroSlot(f), map[])
  }

  // Scanning ----------------------------------------------------------------

  function CellsFor(columns: seq<Column>): (r: seq<Cell>)
    ensures |r| == |columns| && forall i :: 0 <= i < |columns| ==> CellKind(r[i]) == ScanKind(columns[i])
  {
    seq(|columns|, i requires 0 <= i < |columns| => EmptyCell(ScanKind(columns[i])))
  }

  method ScanValues(columns: seq<Column>) returns (values: array<Cell>)
    ensures fresh(values) && values[..] == CellsFor(columns)
  {
    values := new Cell[|columns|](_ => UnknownType(0));
    for i := 0 to |columns|
      invariant forall j :: 0 <= j < i ==> values[j] == CellsFor(columns)[j]
    {
      values[i] := EmptyCell(ScanKind(columns[i]));
    }
  }

  // Assigning ---------------------------------------------------------------

  /** The Go value in a filled cell. */
  function CellValue(c: Cell): (r: Option<Value>) {
    match c
    case NullInt64(Some(n)) => Some(Int(n))
    case NullString(Some(s)) => Some(Str(s))
    case NullTime(Some(t)) => Some(Time(t))
    case NullBool(Some(b)) => Some(Bool(b))
    case NullFloat64(Some(x)) => Some(Float(x))
    case _ => None
  }

  /** One case of the assignment switch. */
  function Store(j: JsonCodec, f: Field, slot: Slot, c: Cell): (r: Result<Slot, AssignError>) {
    if CellKind(c) != AssignKind(f) then Err(BadType(f))
    else if f == ID then Ok(Plain(Int(if c.int64.Some? then c.int64.value else 0)))
    else if AssignKind(f) == KJson then
      if c.bytes == "" then Ok(slot)
      else
        var prior := if slot.Plain? && slot.value.Json? then slot.value.doc else None;
        match j.decode(prior, c.bytes)
        case None => Err(BadJson(f))
        case Some(d) => Ok(Plain(Json(d)))
    else
      match CellValue(c)
      case None => Ok(slot)
      case Some(v) => Ok(if Nillable(f) then Ptr(Some(v)) else Plain(v))
  }

  function StoreColumn(j: JsonCodec, e: Entity, column: Column, c: Cell): (r: Result<Entity, AssignError>) {
    match column
    case Other(name) => Ok(e.(selected := e.selected[name := c]))
    case Known(f) =>
      match Store(j, f, if f in e.slots then e.slots[f] else ZeroSlot(f), c)
      case Err(x) => Err(x)
      case Ok(s) => Ok(e.(slots := e.slots[f := s]))
  }

  /** The columns assigned one after another, from the left. */
  function StoreAll(j: JsonCodec, e: Entity, columns: seq<Column>, values: seq<Cell>): (r: Result<Entity, AssignError>)
    requires |columns| <= |values|
  {
    if columns == [] then Ok(e)
    else
      var n := |columns| - 1;
      match StoreAll(j, e, columns[..n], values)
      case Err(x) => Err(x)
      case Ok(e') => StoreColumn(j, e', columns[n], values[n])
  }

  function Assigned(j: JsonCodec, e: Entity, columns: seq<Column>, values: seq<Cell>): (r: Result<Entity, AssignError>) {
    if |values| < |columns| then Err(TooFewValues) else StoreAll(j, e, columns, values)
  }

  /** The entity object that a row is decoded into. */
  class Account {
    var slots: map<Field, Slot>
    var selected: map<string, Cell>

    constructor ()
      ensures Val() == ZeroEntity()
    {
      slots, selected := ZeroEntity().slots, map[];
    }

    constructor Of(e: Entity)
      ensures Val() == e
    {
      slots, selected := e.slots, e.selected;
    }

    ghost function Val(): (r: Entity)
      reads this
    {
      Entity(slots, selected)
    }

    method AssignValues(j: JsonCodec, columns: seq<Column>, values: seq<Cell>) returns (r: Option<AssignError>)
      modifies this
      ensures match Assigned(j, old(Val()), columns, values)
              case Err(x) => r == Some(x)
              case Ok(e) => r == None && Val() == e
    {
      if |values| < |columns| {
        return Some(TooFewValues);
      }
      for i := 0 to |columns|
        invariant StoreAll(j, old(Val()), columns[..i], values) == Ok(Val())
      {
        StoreAllNext(j, old(Val()), columns, values, i);
        match columns[i] {
          case Known(f) =>
            match Store(j, f, if f in slots then slots[f] else ZeroSlot(f), values[i]) {
              case Err(x) =>
                StoreAllFails(j, old(Val()), columns, values, i + 1);
                return Some(x);
              case Ok(s) =>
                slots := slots[f := s];
            }
          case Other(name) =>
            selected := selected[name := values[i]];
        }
      }
      assert columns[..|columns|] == columns;
      return None;
    }
  }

  lemma StoreAllNext(j: JsonCodec, e: Entity, columns: seq<Column>, values: seq<Cell>, i: nat)
    requires i < |columns| <= |values|
    ensures StoreAll(j, e, columns[..i + 1], values)
      == match StoreAll(j, e, columns[..i], values)
         case Err(x) => Err(x)
         case Ok(e') => StoreColumn(j, e', columns[i], values[i])
  {
    assert columns[..i + 1][..i] == columns[..i];
  }

  lemma {:induction false} StoreAllFails(j: JsonCodec, e: Entity, columns: seq<Column>, values: seq<Cell>, i: nat)
    requires i <= |columns| <= |values| && StoreAll(j, e, columns[..i], values).Err?
    ensures StoreAll(j, e, columns, values) == StoreAll(j, e, columns[..i], values)
    decreases |columns| - i
  {
    if i == |columns| {
      assert columns[..i] == columns;
    } else {
      StoreAllNext(j, e, columns, values, i);
      StoreAllFails(j, e, columns, values, i + 1);
    }
  }
}
