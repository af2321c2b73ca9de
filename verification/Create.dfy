/**
 Creating one Account: default values, checks, the insert spec, and the row it becomes.
 The straight-line blocks of `createSpec` are one fold over the list of fields they treat, in order.
 */
module Create {
  import opened Collections
  import opened Codec
  import opened CodecLaws

  /** The fields set in a mutation; `proxy` and `parent` are under their foreign keys. */
  type Fields = map<Field, Value>

  /** Package-level defaults and validators.  The function-valued defaults are nil until the runtime package is linked in. */
  datatype Env = Env(
    createdAt: Option<int>, updatedAt: Option<int>, credentials: Option<Doc>, extra: Option<Doc>,
    concurrency: int, priority: int, rateMultiplier: real, status: string, autoPauseOnExpired: bool, schedulable: bool,
    nameValid: string -> bool, platformValid: string -> bool, typeValid: string -> bool,
    statusValid: string -> bool, sessionWindowStatusValid: string -> bool)

  const QUOTA_GLOBAL := "global"
  const QUOTA_SPARK := "spark"

  datatype CheckError = Missing(field: Field) | Invalid(field: Field)

  /** What the Go types of the setters guarantee. */
  ghost predicate WellTyped(m: Fields) {
    forall f :: f in m ==> f != ID && ValueKind(m[f]) == AssignKind(f)
  }

  // Defaults ----------------------------------------------------------------

  /** Fields whose default is a function, and fields whose default is a constant, in the order of `defaults`. */
  const FUNCTION_ORDER: seq<Field> := [CreatedAt, UpdatedAt, Credentials, Extra]
  const CONSTANT_ORDER: seq<Field> := [Concurrency, Priority, RateMultiplier, Status, AutoPauseOnExpired, Schedulable, QuotaDimension]

  predicate FunctionDefaulted(f: Field) {
    f.CreatedAt? || f.UpdatedAt? || f.Credentials? || f.Extra?
  }

  predicate Defaulted(f: Field) {
    || FunctionDefaulted(f) || f.Concurrency? || f.Priority? || f.RateMultiplier? || f.Status?
    || f.AutoPauseOnExpired? || f.Schedulable? || f.QuotaDimension?
  }

  /** The default of a field; None when its function is uninitialised or the field has no default. */
  function DefaultOf(env: Env, f: Field): (r: Option<Value>) {
    match f
    case CreatedAt => if env.createdAt.Some? then Some(Time(env.createdAt.value)) else None
    case UpdatedAt => if env.updatedAt.Some? then Some(Time(env.updatedAt.value)) else None
    case Credentials => if env.credentials.Some? then Some(Json(env.credentials.value)) else None
    case Extra => if env.extra.Some? then Some(Json(env.extra.value)) else None
    case Concurrency => Some(Int(env.concurrency))
    case Priority => Some(Int(env.priority))
    case RateMultiplier => Some(Float(env.rateMultiplier))
    case Status => Some(Str(env.status))
    case AutoPauseOnExpired => Some(Bool(env.autoPauseOnExpired))
    case Schedulable => Some(Bool(env.schedulable))
    case QuotaDimension => Some(Str(QUOTA_GLOBAL))
    case _ => None
  }

  /** A create mutation: the fields set so far; after a save also the node whose id it points to. */
  class Mutation {
    var fields: Fields
    var id: Account?
    var done: bool

    constructor (fields: Fields)
      ensures this.fields == fields && id == null && !done
    {
      this.fields, id, done := fields, null, false;
    }

    /** Fills in defaults for unset fields; stops at the first uninitialised default function. */
    method Defaults(env: Env) returns (err: Option<Field>)
      modifies this`fields
      ensures DefaultsRan(env, old(fields), fields, err)
      ensures err.None? ==> FunctionsGiven(env, old(fields), fields) && ConstantsGiven(env, old(fields), fields) && OthersKept(old(fields), fields)
    {
      ghost var before := fields;
      err := FunctionDefaults(env);
      if err.None? {
        ghost var m := fields;
        ConstantDefaults(env);
        AllRan(env, before, m);
        DefaultsByField(env, before, fields);
      }
    }

    /** The blocks whose default is a function. */
    method FunctionDefaults(env: Env) returns (err: Option<Field>)
      modifies this`fields
      ensures err.None? ==> fields == WithDefaults(env, old(fields), FUNCTION_ORDER) && forall f :: FunctionDefaulted(f) ==> f in fields
      ensures err.Some? ==> DefaultsRan(env, old(fields), fields, err)
    {
      ghost var before := fields;
      FunctionBlock(env, before, 0);
      FunctionBlock(env, before, 1);
      FunctionBlock(env, before, 2);
      FunctionBlock(env, before, 3);
      hide DefaultOf, WithDefault, WithDefaults, DefaultsRan, FunctionDefaulted, NilFree;
      var ok := Default(env, CreatedAt);
      if !ok { return Some(CreatedAt); }
      ok := Default(env, UpdatedAt);
      if !ok { return Some(UpdatedAt); }
      ok := Default(env, Credentials);
      if !ok { return Some(Credentials); }
      ok := Default(env, Extra);
      if !ok { return Some(Extra); }
      FunctionsRan(env, before);
      return None;
    }

    /** The blocks whose default is a constant. */
    method ConstantDefaults(env: Env)
      modifies this`fields
      ensures fields == WithDefaults(env, old(fields), CONSTANT_ORDER)
    {
      ghost var m := fields;
      var ok := Default(env, Concurrency);
      ok := Default(env, Priority);
      ok := Default(env, RateMultiplier);
      ok := Default(env, Status);
      ok := Default(env, AutoPauseOnExpired);
      ok := Default(env, Schedulable);
      ok := Default(env, QuotaDimension);
      InOrder(env, m);
    }

    /** One block: an unset field takes its default; a nil default function is an error. */
    method Default(env: Env, f: Field) returns (ok: bool)
      modifies this`fields
      ensures ok <==> f in old(fields) || DefaultOf(env, f).Some?
      ensures fields == WithDefault(env, old(fields), f)
    {
      if f in fields {
        return true;
      }
      var d := DefaultOf(env, f);
      if d.None? {
        return false;
      }
      fields := fields[f := d.value];
      return true;
    }
  }

  function WithDefault(env: Env, m: Fields, f: Field): (r: Fields) {
    if f in m || DefaultOf(env, f).None? then m else m[f := DefaultOf(env, f).value]
  }

  function WithDefaults(env: Env, m: Fields, fs: seq<Field>): (r: Fields) {
    if fs == [] then m else WithDefault(env, WithDefaults(env, m, fs[..|fs| - 1]), fs[|fs| - 1])
  }

  lemma WithDefaultsSnoc(env: Env, m: Fields, fs: seq<Field>, f: Field)
    ensures WithDefaults(env, m, fs + [f]) == WithDefault(env, WithDefaults(env, m, fs), f)
  {
    assert (fs + [f])[..|fs|] == fs;
  }

  lemma InOrder(env: Env, m: Fields)
    ensures WithDefaults(env, m, CONSTANT_ORDER)
      == var a := WithDefault(env, WithDefault(env, WithDefault(env, m, Concurrency), Priority), RateMultiplier);
         WithDefault(env, WithDefault(env, WithDefault(env, WithDefault(env, a, Status), AutoPauseOnExpired), Schedulable), QuotaDimension)
  {
    hide WithDefault;
    WithDefaultsSnoc(env, m, [], Concurrency);
    WithDefaultsSnoc(env, m, [Concurrency], Priority);
    WithDefaultsSnoc(env, m, [Concurrency, Priority], RateMultiplier);
    WithDefaultsSnoc(env, m, [Concurrency, Priority, RateMultiplier], Status);
    WithDefaultsSnoc(env, m, [Concurrency, Priority, RateMultiplier, Status], AutoPauseOnExpired);
    WithDefaultsSnoc(env, m, [Concurrency, Priority, RateMultiplier, Status, AutoPauseOnExpired], Schedulable);
    WithDefaultsSnoc(env, m, [Concurrency, Priority, RateMultiplier, Status, AutoPauseOnExpired, Schedulable], QuotaDimension);
    assert [Concurrency] + [Priority] == [Concurrency, Priority];
    assert [] + [Concurrency] == [Concurrency];
    assert [Concurrency, Priority] + [RateMultiplier] == [Concurrency, Priority, RateMultiplier];
    assert [Concurrency, Priority, RateMultiplier] + [Status] == [Concurrency, Priority, RateMultiplier, Status];
    assert [Concurrency, Priority, RateMultiplier, Status] + [AutoPauseOnExpired] == [Concurrency, Priority, RateMultiplier, Status, AutoPauseOnExpired];
    assert [Concurrency, Priority, RateMultiplier, Status, AutoPauseOnExpired] + [Schedulable]
      == [Concurrency, Priority, RateMultiplier, Status, AutoPauseOnExpired, Schedulable];
    assert [Concurrency, Priority, RateMultiplier, Status, AutoPauseOnExpired, Schedulable] + [QuotaDimension] == CONSTANT_ORDER;
  }

  /** The first n function blocks each find a value. */
  ghost predicate NilFree(env: Env, m: Fields, n: nat)
    requires n <= 4
  {
    forall j :: 0 <= j < n ==> FUNCTION_ORDER[j] in m || DefaultOf(env, FUNCTION_ORDER[j]).Some?
  }

  /** Block n of the function-valued defaults: it finds its field as it was at first, and stops at a nil function. */
  lemma FunctionBlock(env: Env, before: Fields, n: nat)
    requires n < 4
    ensures var m, f := WithDefaults(env, before, FUNCTION_ORDER[..n]), FUNCTION_ORDER[n];
      && WithDefaults(env, before, FUNCTION_ORDER[..n + 1]) == WithDefault(env, m, f)
      && (n == 0 ==> m == before && NilFree(env, before, 0))
      && (f in m <==> f in before)
      && (NilFree(env, before, n + 1) <==> NilFree(env, before, n) && (f in before || DefaultOf(env, f).Some?))
      && (NilFree(env, before, n) && !NilFree(env, before, n + 1) ==> DefaultsRan(env, before, WithDefault(env, m, f), Some(f)))
  {
    var f := FUNCTION_ORDER[n];
    assert FUNCTION_ORDER[..n + 1] == FUNCTION_ORDER[..n] + [f];
    WithDefaultsSnoc(env, before, FUNCTION_ORDER[..n], f);
    WithDefaultsAt(env, before, FUNCTION_ORDER[..n], f);
    if NilFree(env, before, n) && !NilFree(env, before, n + 1) { BlockStops(env, before, n); }
    hide DefaultOf, WithDefault, WithDefaults, DefaultsRan;
  }

  lemma BlockStops(env: Env, before: Fields, n: nat)
    requires n < 4 && NilFree(env, before, n) && FUNCTION_ORDER[n] !in before && DefaultOf(env, FUNCTION_ORDER[n]).None?
    ensures DefaultsRan(env, before, WithDefault(env, WithDefaults(env, before, FUNCTION_ORDER[..n]), FUNCTION_ORDER[n]), Some(FUNCTION_ORDER[n]))
  {
    FirstNilAt(env, before, n);
    hide WithDefaults, FirstNil;
    var after := WithDefaults(env, before, FUNCTION_ORDER[..n]);
    forall g
      ensures g in before ==> g in after && after[g] == before[g]
      ensures g in after && g !in before ==> g in FUNCTION_ORDER && g != FUNCTION_ORDER[n] && DefaultOf(env, g) == Some(after[g])
    {
      WithDefaultsAt(env, before, FUNCTION_ORDER[..n], g);
    }
    forall g ensures g in FUNCTION_ORDER <==> FunctionDefaulted(g) { OrderComplete(g); }
    hide DefaultOf;
  }

  lemma FirstNilAt(env: Env, m: Fields, n: nat)
    requires n < 4 && NilFree(env, m, n) && FUNCTION_ORDER[n] !in m && DefaultOf(env, FUNCTION_ORDER[n]).None?
    ensures FirstNil(env, m) == Some(FUNCTION_ORDER[n])
  {
    if n > 0 { assert FUNCTION_ORDER[0] in m || DefaultOf(env, FUNCTION_ORDER[0]).Some?; }
    if n > 1 { assert FUNCTION_ORDER[1] in m || DefaultOf(env, FUNCTION_ORDER[1]).Some?; }
    if n > 2 { assert FUNCTION_ORDER[2] in m || DefaultOf(env, FUNCTION_ORDER[2]).Some?; }
  }

  lemma FunctionsRan(env: Env, before: Fields)
    requires NilFree(env, before, 4)
    ensures WithDefaults(env, before, FUNCTION_ORDER[..4]) == WithDefaults(env, before, FUNCTION_ORDER)
    ensures forall f :: FunctionDefaulted(f) ==> f in WithDefaults(env, before, FUNCTION_ORDER)
  {
    assert FUNCTION_ORDER[..4] == FUNCTION_ORDER;
    forall f | FunctionDefaulted(f) ensures f in WithDefaults(env, before, FUNCTION_ORDER) {
      WithDefaultsAt(env, before, FUNCTION_ORDER, f);
      OrderComplete(f);
    }
  }

  /** Setting defaults keeps what was set and adds the defaults that exist. */
  lemma {:induction false} WithDefaultsAt(env: Env, m: Fields, fs: seq<Field>, f: Field)
    ensures var r := WithDefaults(env, m, fs);
      && (f in m ==> f in r && r[f] == m[f])
      && (f !in m ==> (f in r <==> f in fs && DefaultOf(env, f).Some?))
      && (f !in m && f in r ==> DefaultOf(env, f) == Some(r[f]))
  {
    if fs != [] {
      var n := |fs| - 1;
      WithDefaultsAt(env, m, fs[..n], f);
      assert fs == fs[..n] + [fs[n]];
    }
  }

  /** The first unset field whose default function is nil. */
  function FirstNil(env: Env, m: Fields): (r: Option<Field>) {
    if CreatedAt !in m && env.createdAt.None? then Some(CreatedAt)
    else if UpdatedAt !in m && env.updatedAt.None? then Some(UpdatedAt)
    else if Credentials !in m && env.credentials.None? then Some(Credentials)
    else if Extra !in m && env.extra.None? then Some(Extra)
    else None
  }

  /** What is set stays, and what is not takes this value. */
  ghost predicate Given(before: Fields, after: Fields, f: Field, v: Value) {
    f in after && after[f] == if f in before then before[f] else v
  }

  /** The fields whose default comes from a function, one by one. */
  ghost predicate FunctionsGiven(env: Env, before: Fields, after: Fields) {
    && (CreatedAt !in before ==> env.createdAt.Some? && Given(before, after, CreatedAt, Time(env.createdAt.value)))
    && (UpdatedAt !in before ==> env.updatedAt.Some? && Given(before, after, UpdatedAt, Time(env.updatedAt.value)))
    && (Credentials !in before ==> env.credentials.Some? && Given(before, after, Credentials, Json(env.credentials.value)))
    && (Extra !in before ==> env.extra.Some? && Given(before, after, Extra, Json(env.extra.value)))
  }

  /** The fields whose default is a constant, one by one. */
  ghost predicate ConstantsGiven(env: Env, before: Fields, after: Fields) {
    && Given(before, after, Concurrency, Int(env.concurrency))
    && Given(before, after, Priority, Int(env.priority))
    && Given(before, after, RateMultiplier, Float(env.rateMultiplier))
    && Given(before, after, Status, Str(env.status))
    && Given(before, after, AutoPauseOnExpired, Bool(env.autoPauseOnExpired))
    && Given(before, after, Schedulable, Bool(env.schedulable))
    && Given(before, after, QuotaDimension, Str("global"))
  }

  /** What was set stays, and of the fields without a default none is added. */
  ghost predicate OthersKept(before: Fields, after: Fields) {
    forall f :: !Defaulted(f) || f in before ==>
      (f in after <==> f in before) && (f in before ==> after[f] == before[f])
  }

  /** Field by field: what a mutation holds after `defaults` has succeeded. */
  lemma DefaultsByField(env: Env, before: Fields, after: Fields)
    requires DefaultsRan(env, before, after, None)
    ensures FunctionsGiven(env, before, after) && ConstantsGiven(env, before, after) && OthersKept(before, after)
  {
    FunctionsByField(env, before, after);
    ConstantsByField(env, before, after);
  }

  /** One field that has a default. */
  lemma DefaultedField(env: Env, before: Fields, after: Fields, f: Field)
    requires DefaultsRan(env, before, after, None) && Defaulted(f)
    ensures f in after && if f in before then after[f] == before[f] else DefaultOf(env, f) == Some(after[f])
  {
    hide DefaultOf, FirstNil;
  }

  lemma FunctionsByField(env: Env, before: Fields, after: Fields)
    requires DefaultsRan(env, before, after, None)
    ensures FunctionsGiven(env, before, after)
  {
    DefaultedField(env, before, after, CreatedAt);
    DefaultedField(env, before, after, UpdatedAt);
    DefaultedField(env, before, after, Credentials);
    DefaultedField(env, before, after, Extra);
    hide DefaultsRan;
  }

  lemma ConstantsByField(env: Env, before: Fields, after: Fields)
    requires DefaultsRan(env, before, after, None)
    ensures ConstantsGiven(env, before, after)
  {
    DefaultedField(env, before, after, Concurrency);
    DefaultedField(env, before, after, Priority);
    DefaultedField(env, before, after, RateMultiplier);
    DefaultedField(env, before, after, Status);
    DefaultedField(env, before, after, AutoPauseOnExpired);
    DefaultedField(env, before, after, Schedulable);
    DefaultedField(env, before, after, QuotaDimension);
    hide DefaultsRan;
  }

  /** An error names the first unset field whose default function is nil: those before it are set or
      have had values. */
  lemma DefaultsError(env: Env, before: Fields, after: Fields, f: Field)
    requires DefaultsRan(env, before, after, Some(f))
    ensures f !in before && f !in after
    ensures f == CreatedAt || CreatedAt in before || env.createdAt.Some?
    ensures f in {CreatedAt, UpdatedAt} || UpdatedAt in before || env.updatedAt.Some?
    ensures f in {CreatedAt, UpdatedAt, Credentials} || Credentials in before || env.credentials.Some?
    ensures match f
            case CreatedAt => env.createdAt.None?
            case UpdatedAt => env.updatedAt.None?
            case Credentials => env.credentials.None?
            case Extra => env.extra.None?
            case _ => false
  {
  }

  /** The outcome of `defaults`: nothing set is changed, what is new is a default, and either all
      defaults are in or the reported field, whose default function is nil, is still unset. */
  ghost predicate DefaultsRan(env: Env, before: Fields, after: Fields, err: Option<Field>) {
    && (forall f :: f in before ==> f in after && after[f] == before[f])
    && (forall f :: f in after && f !in before ==> Defaulted(f) && DefaultOf(env, f) == Some(after[f]))
    && (err.None? ==> forall f :: Defaulted(f) ==> f in after)
    && (err.Some? ==> FunctionDefaulted(err.value) && err.value !in after && DefaultOf(env, err.value) == None)
    && err == FirstNil(env, before)
  }

  lemma OrderComplete(f: Field)
    ensures f in FUNCTION_ORDER <==> FunctionDefaulted(f)
    ensures f in CONSTANT_ORDER <==> Defaulted(f) && !FunctionDefaulted(f)
  {
    match f
    case CreatedAt => assert FUNCTION_ORDER[0] == f;
    case UpdatedAt => assert FUNCTION_ORDER[1] == f;
    case Credentials => assert FUNCTION_ORDER[2] == f;
    case Extra => assert FUNCTION_ORDER[3] == f;
    case Concurrency => assert CONSTANT_ORDER[0] == f;
    case Priority => assert CONSTANT_ORDER[1] == f;
    case RateMultiplier => assert CONSTANT_ORDER[2] == f;
    case Status => assert CONSTANT_ORDER[3] == f;
    case AutoPauseOnExpired => assert CONSTANT_ORDER[4] == f;
    case Schedulable => assert CONSTANT_ORDER[5] == f;
    case QuotaDimension => assert CONSTANT_ORDER[6] == f;
    case _ =>
  }

  lemma AllRan(env: Env, before: Fields, m: Fields)
    requires m == WithDefaults(env, before, FUNCTION_ORDER) && forall f :: FunctionDefaulted(f) ==> f in m
    ensures DefaultsRan(env, before, WithDefaults(env, m, CONSTANT_ORDER), None)
  {
    hide WithDefaults;
    var after := WithDefaults(env, m, CONSTANT_ORDER);
    forall f
      ensures f in before ==> f in after && after[f] == before[f]
      ensures f in after && f !in before ==> Defaulted(f) && DefaultOf(env, f) == Some(after[f])
      ensures Defaulted(f) ==> f in after
    {
      WithDefaultsAt(env, before, FUNCTION_ORDER, f);
      WithDefaultsAt(env, m, CONSTANT_ORDER, f);
      OrderComplete(f);
    }
  }

  // Check -------------------------------------------------------------------

  /** The fields without which the check fails. */
  predicate Required(f: Field) {
    Defaulted(f) || f.Name? || f.Platform? || f.Type?
  }

  function Text(v: Value): (r: string) {
    if v.Str? then v.s else ""
  }

  predicate QuotaDimensionValid(s: string) {
    s == QUOTA_GLOBAL || s == QUOTA_SPARK
  }

  /** The required-field checks and validators in the order of the source; the first failure is reported. */
  function Check(env: Env, m: Fields): (r: Option<CheckError>) {
    if CreatedAt !in m then Some(Missing(CreatedAt))
    else if UpdatedAt !in m then Some(Missing(UpdatedAt))
    else if Name !in m then Some(Missing(Name))
    else if !env.nameValid(Text(m[Name])) then Some(Invalid(Name))
    else if Platform !in m then Some(Missing(Platform))
    else if !env.platformValid(Text(m[Platform])) then Some(Invalid(Platform))
    else if Type !in m then Some(Missing(Type))
    else if !env.typeValid(Text(m[Type])) then Some(Invalid(Type))
    else if Credentials !in m then Some(Missing(Credentials))
    else if Extra !in m then Some(Missing(Extra))
    else if Concurrency !in m then Some(Missing(Concurrency))
    else if Priority !in m then Some(Missing(Priority))
    else if RateMultiplier !in m then Some(Missing(RateMultiplier))
    else if Status !in m then Some(Missing(Status))
    else if !env.statusValid(Text(m[Status])) then Some(Invalid(Status))
    else if AutoPauseOnExpired !in m then Some(Missing(AutoPauseOnExpired))
    else if Schedulable !in m then Some(Missing(Schedulable))
    else if SessionWindowStatus in m && !env.sessionWindowStatusValid(Text(m[SessionWindowStatus])) then Some(Invalid(SessionWindowStatus))
    else if QuotaDimension !in m then Some(Missing(QuotaDimension))
    else if !QuotaDimensionValid(Text(m[QuotaDimension])) then Some(Invalid(QuotaDimension))
    else None
  }

  ghost predicate Validates(env: Env, m: Fields, f: Field) {
    f in m ==>
      && (f == Name ==> env.nameValid(Text(m[f])))
      && (f == Platform ==> env.platformValid(Text(m[f])))
      && (f == Type ==> env.typeValid(Text(m[f])))
      && (f == Status ==> env.statusValid(Text(m[f])))
      && (f == SessionWindowStatus ==> env.sessionWindowStatusValid(Text(m[f])))
      && (f == QuotaDimension ==> Text(m[f]) in {"global", "spark"})
  }

  /** The check passes exactly when every required field is set and every set field validates;
      a reported failure is a true one. */
  lemma CheckExact(env: Env, m: Fields)
    ensures Check(env, m) == None <==> (forall f :: Required(f) ==> f in m) && forall f :: Validates(env, m, f)
    ensures match Check(env, m)
            case None => true
            case Some(Missing(f)) => Required(f) && f !in m
            case Some(Invalid(f)) => f in m && !Validates(env, m, f)
  {
    CheckPasses(env, m);
    CheckFails(env, m);
    hide Check, Required, Validates;
  }

  lemma CheckPasses(env: Env, m: Fields)
    ensures Check(env, m) == None <==> (forall f :: Required(f) ==> f in m) && forall f :: Validates(env, m, f)
  {
    if Check(env, m) == None {
      forall f ensures (Required(f) ==> f in m) && Validates(env, m, f) { Checked(env, m, f); }
    }
    CheckFails(env, m);
    hide Check, Required, Validates;
  }

  lemma Checked(env: Env, m: Fields, f: Field)
    requires Check(env, m) == None
    ensures (Required(f) ==> f in m) && Validates(env, m, f)
  {
  }

  lemma CheckFails(env: Env, m: Fields)
    ensures forall f :: Check(env, m) == Some(Missing(f)) ==> Required(f) && f !in m
    ensures forall f :: Check(env, m) == Some(Invalid(f)) ==> f in m && !Validates(env, m, f)
  {
  }

  /** The fields in the order in which they are checked. */
  const CHECK_ORDER: seq<Field> :=
    [CreatedAt, UpdatedAt, Name, Platform, Type, Credentials, Extra, Concurrency, Priority, RateMultiplier, Status,
     AutoPauseOnExpired, Schedulable, SessionWindowStatus, QuotaDimension]

  /** The first failure is reported. */
  lemma CheckFirst(env: Env, m: Fields, i: nat, j: nat)
    requires j < i < 15 && Check(env, m) in {Some(Missing(CHECK_ORDER[i])), Some(Invalid(CHECK_ORDER[i]))}
    ensures (Required(CHECK_ORDER[j]) ==> CHECK_ORDER[j] in m) && Validates(env, m, CHECK_ORDER[j])
  {
  }

  /** An error of `defaults` that bulk save drops is caught by `check`; and when there was none,
      only name, platform, type or a validator can fail. */
  lemma DefaultsThenCheck(env: Env, before: Fields, after: Fields, err: Option<Field>)
    requires DefaultsRan(env, before, after, err)
    ensures err.Some? ==> Check(env, after).Some?
    ensures err.None? ==> match Check(env, after)
                          case None => true
                          case Some(Missing(f)) => f in {Name, Platform, Type} && f !in before
                          case Some(Invalid(f)) => f in after
  {
    CheckExact(env, after);
  }

  // Spec --------------------------------------------------------------------

  /** The fields that `createSpec` copies, in its order. */
  const SPEC_FIELDS: seq<Field> :=
    [CreatedAt, UpdatedAt, DeletedAt, Name, Notes, Platform, Type, Credentials, Extra, ProxyFallbackOriginID,
     Concurrency, LoadFactor, Priority, RateMultiplier, Status, ErrorMessage, LastUsedAt, ExpiresAt,
     AutoPauseOnExpired, Schedulable, RateLimitedAt, RateLimitResetAt, OverloadUntil, TempUnschedulableUntil,
     TempUnschedulableReason, SessionWindowStart, SessionWindowEnd, SessionWindowStatus, QuotaDimension]

  /** The insert: column values, foreign-key edge columns, and the id once it is known. */
  datatype Spec = Spec(columns: seq<(Field, Value)>, edges: seq<(Field, int)>)

  /** What the block of a field puts into the node: a pointer to the value, or the value. */
  function Pointed(f: Field, v: Value): (r: Slot) {
    match f
    case DeletedAt => Ptr(Some(v))
    case Notes => Ptr(Some(v))
    case ProxyFallbackOriginID => Ptr(Some(v))
    case LoadFactor => Ptr(Some(v))
    case ErrorMessage => Ptr(Some(v))
    case LastUsedAt => Ptr(Some(v))
    case ExpiresAt => Ptr(Some(v))
    case RateLimitedAt => Ptr(Some(v))
    case RateLimitResetAt => Ptr(Some(v))
    case OverloadUntil => Ptr(Some(v))
    case TempUnschedulableUntil => Ptr(Some(v))
    case TempUnschedulableReason => Ptr(Some(v))
    case SessionWindowStart => Ptr(Some(v))
    case SessionWindowEnd => Ptr(Some(v))
    case SessionWindowStatus => Ptr(Some(v))
    case _ => Plain(v)
  }

  /** The blocks use a pointer exactly where the struct has one. */
  lemma PointersAgree(f: Field, v: Value)
    requires f != ProxyID && f != ParentAccountID
    ensures Pointed(f, v) == if Nillable(f) then Ptr(Some(v)) else Plain(v)
  {
  }

  /** One `if value, ok := …` block after another: the column goes into the spec and the value into the node. */
  function CopyFields(m: Fields, fs: seq<Field>, node: Entity, spec: Spec): (r: (Entity, Spec))
    ensures node.slots.Keys <= r.0.slots.Keys
  {
    if fs == [] then (node, spec)
    else
      var n := |fs| - 1;
      var (node', spec') := CopyFields(m, fs[..n], node, spec);
      var f := fs[n];
      if f in m then (node'.(slots := node'.slots[f := Pointed(f, m[f])]), spec'.(columns := spec'.columns + [(f, m[f])]))
      else (node', spec')
  }

  /** The M2O edge blocks: the id goes into the spec's edge and into the node's foreign key. */
  function CopyEdge(m: Fields, f: Field, node: Entity, spec: Spec): (r: (Entity, Spec))
    ensures node.slots.Keys <= r.0.slots.Keys
  {
    if f in m && m[f].Int? then
      (node.(slots := node.slots[f := Ptr(Some(m[f]))]), spec.(edges := spec.edges + [(f, m[f].n)]))
    else (node, spec)
  }

  function CreateSpec(m: Fields): (r: (Entity, Spec))
    ensures forall f :: f in r.0.slots
  {
    SpecOver(m, SPEC_FIELDS)
  }

  function SpecOver(m: Fields, fs: seq<Field>): (r: (Entity, Spec))
    ensures forall f :: f in r.0.slots
  {
    var (node, spec) := CopyFields(m, fs, ZeroEntity(), Spec([], []));
    var (node', spec') := CopyEdge(m, ProxyID, node, spec);
    CopyEdge(m, ParentAccountID, node', spec')
  }

  function ColumnOf(columns: seq<(Field, Value)>, f: Field): (r: Option<Value>) {
    if columns == [] then None
    else
      var n := |columns| - 1;
      if columns[n].0 == f then Some(columns[n].1) else ColumnOf(columns[..n], f)
  }

  function EdgeOf(edges: seq<(Field, int)>, f: Field): (r: Option<Value>) {
    if edges == [] then None
    else
      var n := |edges| - 1;
      if edges[n].0 == f then Some(Int(edges[n].1)) else EdgeOf(edges[..n], f)
  }

  /** What the row inserted for a spec holds: the id, its columns, its edge columns, and NULL elsewhere. */
  function Stored(spec: Spec, id: int, f: Field): (r: Option<Value>) {
    if f == ID then Some(Int(id))
    else if ColumnOf(spec.columns, f).Some? then ColumnOf(spec.columns, f)
    else EdgeOf(spec.edges, f)
  }

  /** A stored value as it arrives in a scan cell of the column's type. */
  function Fetched(j: JsonCodec, k: Kind, v: Option<Value>): (r: Cell) {
    match (k, v)
    case (KInt, Some(Int(n))) => NullInt64(Some(n))
    case (KString, Some(Str(s))) => NullString(Some(s))
    case (KTime, Some(Time(t))) => NullTime(Some(t))
    case (KBool, Some(Bool(b))) => NullBool(Some(b))
    case (KFloat, Some(Float(x))) => NullFloat64(Some(x))
    case (KJson, Some(Json(d))) => Bytes(j.encode(d))
    case _ => EmptyCell(k)
  }

  function FetchRow(j: JsonCodec, spec: Spec, id: int, fields: seq<Field>): (r: seq<Cell>)
    ensures |r| == |fields|
    ensures forall i :: 0 <= i < |fields| ==> r[i] == Fetched(j, ScanKind(Known(fields[i])), Stored(spec, id, fields[i]))
  {
    seq(|fields|, i requires 0 <= i < |fields| => Fetched(j, ScanKind(Known(fields[i])), Stored(spec, id, fields[i])))
  }

  function Columns(fields: seq<Field>): (r: seq<Column>)
    ensures |r| == |fields| && forall i :: 0 <= i < |fields| ==> r[i] == Known(fields[i])
  {
    seq(|fields|, i requires 0 <= i < |fields| => Known(fields[i]))
  }

  /** The node after the insert has filled in its id. */
  function Created(m: Fields, id: int): (r: Entity)
    ensures forall f :: f in r.slots
  {
    var node := CreateSpec(m).0;
    node.(slots := node.slots[ID := Plain(Int(id))])
  }

  // Round trip --------------------------------------------------------------

  /** The node's field for a mutation. */
  function NodeSlot(m: Fields, f: Field): (r: Slot) {
    if f !in m then ZeroSlot(f) else if Nillable(f) then Ptr(Some(m[f])) else Plain(m[f])
  }

  lemma {:induction false} CopiedNode(m: Fields, fs: seq<Field>)
    requires ProxyID !in fs && ParentAccountID !in fs
    ensures var node := CopyFields(m, fs, ZeroEntity(), Spec([], [])).0;
      && Full(node) && node.selected == map[]
      && forall f :: node.slots[f] == if f in fs then NodeSlot(m, f) else ZeroSlot(f)
  {
    if fs != [] {
      var n := |fs| - 1;
      assert fs == fs[..n] + [fs[n]];
      CopiedNode(m, fs[..n]);
      if fs[n] in m { PointersAgree(fs[n], m[fs[n]]); }
      hide Pointed, ZeroSlot, Nillable;
    }
  }

  lemma {:induction false} CopiedColumns(m: Fields, fs: seq<Field>)
    ensures var spec := CopyFields(m, fs, ZeroEntity(), Spec([], [])).1;
      && spec.edges == []
      && forall f :: ColumnOf(spec.columns, f) == if f in fs && f in m then Some(m[f]) else None
  {
    if fs != [] {
      var n := |fs| - 1;
      assert fs == fs[..n] + [fs[n]];
      CopiedColumns(m, fs[..n]);
      if fs[n] in m {
        forall f { ColumnOfSnoc(CopyFields(m, fs[..n], ZeroEntity(), Spec([], [])).1.columns, fs[n], m[fs[n]], f); }
      }
      hide Pointed, ColumnOf, ZeroEntity;
    }
  }

  lemma ColumnOfSnoc(columns: seq<(Field, Value)>, g: Field, v: Value, f: Field)
    ensures ColumnOf(columns + [(g, v)], f) == if f == g then Some(v) else ColumnOf(columns, f)
  {
    assert (columns + [(g, v)])[..|columns|] == columns;
  }

  /** The spec's blocks and edges treat every field but the id. */
  lemma SpecFieldsAll(f: Field)
    ensures f in SPEC_FIELDS <==> f !in {ID, ProxyID, ParentAccountID}
  {
    match f
    case ID => case ProxyID => case ParentAccountID =>
    case CreatedAt => assert SPEC_FIELDS[0] == f;
    case UpdatedAt => assert SPEC_FIELDS[1] == f;
    case DeletedAt => assert SPEC_FIELDS[2] == f;
    case Name => assert SPEC_FIELDS[3] == f;
    case Notes => assert SPEC_FIELDS[4] == f;
    case Platform => assert SPEC_FIELDS[5] == f;
    case Type => assert SPEC_FIELDS[6] == f;
    case Credentials => assert SPEC_FIELDS[7] == f;
    case Extra => assert SPEC_FIELDS[8] == f;
    case ProxyFallbackOriginID => assert SPEC_FIELDS[9] == f;
    case Concurrency => assert SPEC_FIELDS[10] == f;
    case LoadFactor => assert SPEC_FIELDS[11] == f;
    case Priority => assert SPEC_FIELDS[12] == f;
    case RateMultiplier => assert SPEC_FIELDS[13] == f;
    case Status => assert SPEC_FIELDS[14] == f;
    case ErrorMessage => assert SPEC_FIELDS[15] == f;
    case LastUsedAt => assert SPEC_FIELDS[16] == f;
    case ExpiresAt => assert SPEC_FIELDS[17] == f;
    case AutoPauseOnExpired => assert SPEC_FIELDS[18] == f;
    case Schedulable => assert SPEC_FIELDS[19] == f;
    case RateLimitedAt => assert SPEC_FIELDS[20] == f;
    case RateLimitResetAt => assert SPEC_FIELDS[21] == f;
    case OverloadUntil => assert SPEC_FIELDS[22] == f;
    case TempUnschedulableUntil => assert SPEC_FIELDS[23] == f;
    case TempUnschedulableReason => assert SPEC_FIELDS[24] == f;
    case SessionWindowStart => assert SPEC_FIELDS[25] == f;
    case SessionWindowEnd => assert SPEC_FIELDS[26] == f;
    case SessionWindowStatus => assert SPEC_FIELDS[27] == f;
    case QuotaDimension => assert SPEC_FIELDS[28] == f;
  }

  /** The node and the row hold the same fields: exactly those of the mutation. */
  lemma CreateSpecLaws(m: Fields, id: int)
    requires WellTyped(m)
    ensures var node := Created(m, id);
      && Full(node) && node.selected == map[]
      && forall f :: node.slots[f] == if f == ID then Plain(Int(id)) else NodeSlot(m, f)
    ensures forall f :: Stored(CreateSpec(m).1, id, f) == Sent(m, id, f)
  {
    forall f ensures f in SPEC_FIELDS <==> f !in {ID, ProxyID, ParentAccountID} { SpecFieldsAll(f); }
    SpecOverLaws(m, id, SPEC_FIELDS);
  }

  /** What the row should hold. */
  function Sent(m: Fields, id: int, f: Field): (r: Option<Value>) {
    if f == ID then Some(Int(id)) else if f in m then Some(m[f]) else None
  }

  lemma SpecOverLaws(m: Fields, id: int, fs: seq<Field>)
    requires WellTyped(m) && forall f :: f in fs <==> f !in {ID, ProxyID, ParentAccountID}
    ensures var node := SpecOver(m, fs).0;
      && Full(node) && node.selected == map[]
      && forall f :: f != ID ==> node.slots[f] == NodeSlot(m, f)
    ensures forall f :: Stored(SpecOver(m, fs).1, id, f) == Sent(m, id, f)
  {
    CopiedNode(m, fs);
    CopiedColumns(m, fs);
    var (node, spec) := CopyFields(m, fs, ZeroEntity(), Spec([], []));
    EdgeNodes(m, node, spec);
    EdgeLaws(m, node, spec);
    hide CopyFields, CopyEdge, ColumnOf, EdgeOf;
    var (node1, spec1) := CopyEdge(m, ProxyID, node, spec);
    var (node2, spec2) := CopyEdge(m, ParentAccountID, node1, spec1);
    assert SpecOver(m, fs) == (node2, spec2);
    forall f ensures Stored(spec2, id, f) == Sent(m, id, f) {}
  }

  lemma EdgeNodes(m: Fields, node: Entity, spec: Spec)
    requires WellTyped(m) && Full(node)
    ensures var (node1, spec1) := CopyEdge(m, ProxyID, node, spec);
      var node2 := CopyEdge(m, ParentAccountID, node1, spec1).0;
      && Full(node2) && node2.selected == node.selected
      && forall f :: node2.slots[f] == if f in {ProxyID, ParentAccountID} && f in m then NodeSlot(m, f) else node.slots[f]
  {
    assert ProxyID in m ==> m[ProxyID].Int?;
    assert ParentAccountID in m ==> m[ParentAccountID].Int?;
  }

  lemma EdgeLaws(m: Fields, node: Entity, spec: Spec)
    requires WellTyped(m) && spec.edges == []
    ensures var (node1, spec1) := CopyEdge(m, ProxyID, node, spec);
      var spec2 := CopyEdge(m, ParentAccountID, node1, spec1).1;
      && spec2.columns == spec.columns
      && forall f :: EdgeOf(spec2.edges, f) == if f in {ProxyID, ParentAccountID} && f in m then Some(m[f]) else None
  {
    var (node1, s1) := CopyEdge(m, ProxyID, node, spec);
    var s2 := CopyEdge(m, ParentAccountID, node1, s1).1;
    assert ProxyID in m ==> m[ProxyID].Int?;
    assert ParentAccountID in m ==> m[ParentAccountID].Int?;
    forall f ensures EdgeOf(s2.edges, f) == if f in {ProxyID, ParentAccountID} && f in m then Some(m[f]) else None {
      if ProxyID in m { EdgeOfSnoc(spec.edges, ProxyID, m[ProxyID].n, f); }
      if ParentAccountID in m { EdgeOfSnoc(s1.edges, ParentAccountID, m[ParentAccountID].n, f); }
    }
  }

  lemma EdgeOfSnoc(edges: seq<(Field, int)>, g: Field, id: int, f: Field)
    ensures EdgeOf(edges + [(g, id)], f) == if f == g then Some(Int(id)) else EdgeOf(edges, f)
  {
    assert (edges + [(g, id)])[..|edges|] == edges;
  }

  /** A stored field decodes to the node's field. */
  lemma StoredSlot(j: JsonCodec, m: Fields, id: int, f: Field)
    requires j.Lawful() && WellTyped(m)
    ensures Store(j, f, ZeroSlot(f), Fetched(j, ScanKind(Known(f)), Sent(m, id, f)))
      == Ok(if f == ID then Plain(Int(id)) else NodeSlot(m, f))
  {
    KindsAgree(f);
    if f != ID && f in m && AssignKind(f) == KJson {
      var d := m[f].doc;
      assert j.encode(d) != "" && j.decode(None, j.encode(d)) == Some(d);
    }
  }

  /** Reading a created row back through any duplicate-free column list gives the entity that
      creating returned, with zero values for the columns left out. */
  lemma CreateReadBack(j: JsonCodec, m: Fields, id: int, fields: seq<Field>)
    requires j.Lawful() && WellTyped(m) && Distinct(fields)
    ensures Assigned(j, ZeroEntity(), Columns(fields), FetchRow(j, CreateSpec(m).1, id, fields))
      == Ok(Entity(map f: Field | true :: if f in fields then Created(m, id).slots[f] else ZeroSlot(f), map[]))
  {
    var columns, values := Columns(fields), FetchRow(j, CreateSpec(m).1, id, fields);
    hide CreateSpec, Created, Store, Stored, Fetched, StoreAll;
    assert Distinct(columns);
    FetchedScans(j, m, id, fields);
    DecodeTotal(j, ZeroEntity(), columns, values);
    DecodeColumnwise(j, ZeroEntity(), columns, values);
    var e := StoreAll(j, ZeroEntity(), columns, values).value;
    forall f: Field ensures e.slots[f] == if f in fields then Created(m, id).slots[f] else ZeroSlot(f) {
      ReadSlot(j, m, id, fields, e, f);
    }
    hide Columnwise, ZeroEntity;
    SelectedEmpty(j, columns, values, e);
    var want := map f: Field | true :: if f in fields then Created(m, id).slots[f] else ZeroSlot(f);
    assert e.slots == want;
  }

  lemma SelectedEmpty(j: JsonCodec, columns: seq<Column>, values: seq<Cell>, e: Entity)
    requires |columns| <= |values| && Columnwise(j, ZeroEntity(), columns, values, e) && forall i :: 0 <= i < |columns| ==> columns[i].Known?
    ensures e.selected == map[] && Full(e)
  {
    hide Store;
    assert forall name :: Other(name) !in columns;
  }

  /** One field of a row that is read back. */
  lemma ReadSlot(j: JsonCodec, m: Fields, id: int, fields: seq<Field>, e: Entity, f: Field)
    requires j.Lawful() && WellTyped(m) && Columnwise(j, ZeroEntity(), Columns(fields), FetchRow(j, CreateSpec(m).1, id, fields), e)
    ensures f in e.slots && e.slots[f] == if f in fields then Created(m, id).slots[f] else ZeroSlot(f)
  {
    hide CreateSpec, Created, Store, Stored, Fetched;
    CreateSpecLaws(m, id);
    StoredSlot(j, m, id, f);
    var columns := Columns(fields);
    if f in fields {
      var i :| 0 <= i < |fields| && fields[i] == f;
      assert columns[i] == Known(f);
    } else {
      assert Known(f) !in columns;
    }
  }

  /** Read through all columns, in any order, the row is the entity that creating returned. */
  lemma CreateReadWhole(j: JsonCodec, m: Fields, id: int, fields: seq<Field>)
    requires j.Lawful() && WellTyped(m) && Distinct(fields) && forall f: Field :: f in fields
    ensures Assigned(j, ZeroEntity(), Columns(fields), FetchRow(j, CreateSpec(m).1, id, fields)) == Ok(Created(m, id))
  {
    hide *;
    CreateReadBack(j, m, id, fields);
    CreateSpecLaws(m, id);
    SelectedNothing(m, id);
    assert (map f: Field | true :: if f in fields then Created(m, id).slots[f] else ZeroSlot(f)) == Created(m, id).slots;
  }

  lemma SelectedNothing(m: Fields, id: int)
    requires WellTyped(m)
    ensures Created(m, id).selected == map[] && Full(Created(m, id))
  {
    hide CreateSpec, Created;
    CreateSpecLaws(m, id);
  }

  lemma FetchedScans(j: JsonCodec, m: Fields, id: int, fields: seq<Field>)
    requires j.Lawful() && WellTyped(m)
    ensures ScannedInto(Columns(fields), FetchRow(j, CreateSpec(m).1, id, fields))
    ensures JsonOk(j, Columns(fields), FetchRow(j, CreateSpec(m).1, id, fields))
  {
    hide CreateSpec, Created, Store, Stored;
    CreateSpecLaws(m, id);
    var values := FetchRow(j, CreateSpec(m).1, id, fields);
    forall i | 0 <= i < |fields|
      ensures CellKind(values[i]) == ScanKind(Known(fields[i]))
      ensures values[i].Bytes? && values[i].bytes != "" ==> j.decode(None, values[i].bytes).Some?
    {
      StoredSlot(j, m, id, fields[i]);
      KindsAgree(fields[i]);
      if fields[i] in m && m[fields[i]].Json? {
        var d := m[fields[i]].doc;
        assert j.decode(None, j.encode(d)) == Some(d);
      }
    }
  }
}
