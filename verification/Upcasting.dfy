/** Upcaster chains: the static check at Migrate makes every later decoding safe (upcast.go). */
module Upcasting {
  import opened EventTypes
  import opened Wrappers

  type Ty(==, !new)
  type Data(==, !new)

  /** A payload in memory, with its Go type. */
  datatype Value = Value(ty: Ty, data: Data)

  /** A registered step from one version to the next; fn may fail. */
  datatype Upcaster = Upcaster(inType: Ty, outType: Ty, fn: Data -> Option<Data>)

  datatype Decl = Decl(name: string, version: nat, goType: Ty)

  /** An event-sourced model: its type prefix and its declared events by name. */
  datatype Model = Model(prefix: string, byName: map<string, Decl>)

  type Upcasters = map<string, map<nat, Upcaster>>

  function Step(ups: Upcasters, name: string, v: nat): Option<Upcaster> {
    if name in ups && v in ups[name] then Some(ups[name][v]) else None
  }

  datatype Decoded =
    | Payload(value: Value, decl: Decl)
    | WrongPrefix | Undeclared | TooNew | BadJson | UpcastFailed
    | MissingUpcaster
    | TypePanic                 // an upcaster was handed a value of another type

  /** json.Unmarshal into a type. */
  type Json = (Ty, string) -> Option<Data>

  // ---------------------------------------------------------------- what the check demands

  /** A gapless chain for name from version v to the declared one, each step's input the type the step before
      produces, the last producing the declared payload type. */
  ghost predicate ChainOk(ups: Upcasters, decl: Decl, v: nat) {
    && v <= decl.version
    && (forall k | v <= k < decl.version :: Step(ups, decl.name, k).Some?)
    && (forall k | v <= k < decl.version - 1 ::
          Step(ups, decl.name, k).value.outType == Step(ups, decl.name, k + 1).value.inType)
    && (v < decl.version ==> Step(ups, decl.name, decl.version - 1).value.outType == decl.goType)
  }

  /** Full type t of the dictionary concerns model m. */
  predicate Concerns(m: Model, t: string) {
    ParseType(m.prefix, t).Some? && ParseType(m.prefix, t).value.0 in m.byName
  }

  ghost predicate TypeOk(ups: Upcasters, m: Model, t: string) {
    Concerns(m, t) ==> ChainOk(ups, m.byName[ParseType(m.prefix, t).value.0], ParseType(m.prefix, t).value.1)
  }

  /** Declarations are stored under their own names. */
  ghost predicate Declared(m: Model) {
    forall n <- m.byName :: m.byName[n].name == n
  }

  // ---------------------------------------------------------------- the check

  /** The chain loop of validateUpcasters. */
  method CheckChain(ups: Upcasters, decl: Decl, v: nat) returns (ok: bool)
    ensures ok <==> ChainOk(ups, decl, v)
  {
    if v > decl.version {
      return false;
    }
    var prevOut: Option<Ty> := None;
    var k := v;
    while k < decl.version
      invariant v <= k <= decl.version
      invariant forall j | v <= j < k :: Step(ups, decl.name, j).Some?
      invariant forall j | v <= j < k - 1 ::
          Step(ups, decl.name, j).value.outType == Step(ups, decl.name, j + 1).value.inType
      invariant prevOut == if k == v then None else Some(Step(ups, decl.name, k - 1).value.outType)
    {
      var uc := Step(ups, decl.name, k);
      if uc.None? {
        return false;
      }
      if prevOut.Some? && uc.value.inType != prevOut.value {
        assert Step(ups, decl.name, k - 1).value.outType != Step(ups, decl.name, (k - 1) + 1).value.inType;
        return false;
      }
      prevOut := Some(uc.value.outType);
      k := k + 1;
    }
    return prevOut.None? || prevOut.value == decl.goType;
  }

  /** validateUpcasters: succeeds exactly when every dictionary type of every model has its chain. */
  method ValidateUpcasters(ups: Upcasters, models: seq<Model>, known: seq<string>) returns (ok: bool)
    ensures ok <==> forall m, t | m in models && t in known :: TypeOk(ups, m, t)
  {
    var i := 0;
    while i < |models|
      invariant 0 <= i <= |models|
      invariant forall m, t | m in models[..i] && t in known :: TypeOk(ups, m, t)
    {
      var j := 0;
      while j < |known|
        invariant 0 <= j <= |known|
        invariant forall t | t in known[..j] :: TypeOk(ups, models[i], t)
      {
        if Concerns(models[i], known[j]) {
          var (name, v) := ParseType(models[i].prefix, known[j]).value;
          var fine := CheckChain(ups, models[i].byName[name], v);
          if !fine {
            assert !TypeOk(ups, models[i], known[j]);
            return false;
          }
        }
        assert known[..j + 1] == known[..j] + [known[j]];
        j := j + 1;
      }
      assert known[..j] == known && models[..i + 1] == models[..i] + [models[i]];
      i := i + 1;
    }
    assert models[..i] == models;
    return true;
  }

  // ---------------------------------------------------------------- decoding

  /** The upcast loop from version k on; the reference for decodePayload's loop. */
  function Lifted(ups: Upcasters, decl: Decl, k: nat, cur: Value): Decoded
    decreases decl.version - k
  {
    if k >= decl.version then Payload(cur, decl)
    else
      match Step(ups, decl.name, k)
      case None => MissingUpcaster
      case Some(uc) =>
        if cur.ty != uc.inType then TypePanic
        else
          match uc.fn(cur.data)
          case None => UpcastFailed
          case Some(d) => Lifted(ups, decl, k + 1, Value(uc.outType, d))
  }

  /** The fold of the registered functions over versions k..declared, where all succeed. */
  function Composed(ups: Upcasters, decl: Decl, k: nat, d: Data): Option<Data>
    decreases decl.version - k
  {
    if k >= decl.version then Some(d)
    else
      match Step(ups, decl.name, k)
      case None => None
      case Some(uc) =>
        match uc.fn(d)
        case None => None
        case Some(d') => Composed(ups, decl, k + 1, d')
  }

  method DecodePayload(ups: Upcasters, m: Model, full: string, text: string, json: Json) returns (r: Decoded)
    requires Declared(m)
    ensures r.WrongPrefix? <==> ParseType(m.prefix, full).None?
    ensures r.Undeclared? <==> ParseType(m.prefix, full).Some? && !Concerns(m, full)
    ensures r.TooNew? <==>
              && Concerns(m, full)
              && ParseType(m.prefix, full).value.1 > m.byName[ParseType(m.prefix, full).value.0].version
    ensures Concerns(m, full) && TypeOk(ups, m, full) ==>
              var (name, v) := ParseType(m.prefix, full).value;
              var decl := m.byName[name];
              && !r.MissingUpcaster? && !r.TypePanic? && !r.TooNew?
              && (r.Payload? ==> r.decl == decl && r.value.ty == decl.goType)
              && (v == decl.version ==> r == match json(decl.goType, text)
                                             case None => BadJson
                                             case Some(d) => Payload(Value(decl.goType, d), decl))
              && (v < decl.version ==> r == match json(Step(ups, name, v).value.inType, text)
                                            case None => BadJson
                                            case Some(d) =>
                                              match Composed(ups, decl, v, d)
                                              case None => UpcastFailed
                                              case Some(d') => Payload(Value(decl.goType, d'), decl))
  {
    var parsed := ParseType(m.prefix, full);
    if parsed.None? {
      return WrongPrefix;
    }
    var (name, v) := parsed.value;
    if name !in m.byName {
      return Undeclared;
    }
    var decl := m.byName[name];
    if v > decl.version {
      return TooNew;
    }
    if v == decl.version {
      var d := json(decl.goType, text);
      if d.None? {
        return BadJson;
      }
      return Payload(Value(decl.goType, d.value), decl);
    }
    var first := Step(ups, name, v);
    if first.None? {
      return MissingUpcaster;
    }
    var d := json(first.value.inType, text);
    if d.None? {
      return BadJson;
    }
    var cur := Value(first.value.inType, d.value);
    if ChainOk(ups, decl, v) {
      ChainLifts(ups, decl, v, cur);
    }
    var k := v;
    while k < decl.version
      invariant v <= k <= decl.version
      invariant Lifted(ups, decl, k, cur) == Lifted(ups, decl, v, Value(first.value.inType, d.value))
    {
      var uc := Step(ups, name, k);
      if uc.None? {
        return MissingUpcaster;
      }
      if cur.ty != uc.value.inType {
        return TypePanic;
      }
      var next := uc.value.fn(cur.data);
      if next.None? {
        return UpcastFailed;
      }
      cur := Value(uc.value.outType, next.value);
      k := k + 1;
    }
    return Payload(cur, decl);
  }

  /** Under a sound chain every step gets its declared input type, none is missing, and what comes out is the
      composition of all steps at the declared type. */
  lemma {:induction false} ChainLifts(ups: Upcasters, decl: Decl, k: nat, cur: Value)
    requires ChainOk(ups, decl, k)
    requires k < decl.version ==> cur.ty == Step(ups, decl.name, k).value.inType
    requires k == decl.version ==> cur.ty == decl.goType
    ensures Lifted(ups, decl, k, cur)
         == match Composed(ups, decl, k, cur.data)
            case None => UpcastFailed
            case Some(d) => Payload(Value(decl.goType, d), decl)
    decreases decl.version - k
  {
    if k < decl.version {
      var uc := Step(ups, decl.name, k).value;
      if uc.fn(cur.data).Some? {
        assert k + 1 < decl.version ==>
            Step(ups, decl.name, k).value.outType == Step(ups, decl.name, k + 1).value.inType;
        ChainLifts(ups, decl, k + 1, Value(uc.outType, uc.fn(cur.data).value));
      }
    }
  }
}
