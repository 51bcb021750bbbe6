/**
 * The legacy type descriptor of the backend (`VariableType` in
 * src/variable.rs): lowering of a source type kind to a descriptor, the
 * load / size / store opcodes chosen for each descriptor (`ldind.*`,
 * `sizeof`, `stind.*`, `ldobj`, `stobj` of ECMA-335 Partition III), and the
 * canonical CIL type names.
 */
module Variable {

  import Rustc
  import opened Wrappers

  /** `TypePrefix`: the only prefix is `valuetype`. */
  datatype TypePrefix = ValueType

  function PrefixIl(p: TypePrefix): string
  {
    match p
    case ValueType => "valuetype"
  }

  datatype VariableType =
    | Void
    | I8 | I16 | I32 | I64 | I128 | ISize
    | U8 | U16 | U32 | U64 | U128 | USize
    | F32 | F64
    | Bool
    | Ref(inner: VariableType)
    | RefMut(inner: VariableType)
    | Array(element: VariableType, length: nat)
    | Slice(element: VariableType)
    | Struct(name: string)
    | Tuple(elements: seq<VariableType>)
    | Generic(name: string)

  /** The subset of `BaseIR` the descriptor queries produce. */
  datatype BaseIR =
    | LDIndI
    | LDIndIn(width: nat)
    | LDIndR4
    | LDIndR8
    | LDObj(typeName: string)
    | LDConstI8(value: int)
    | SizeOf(typeName: string)
    | STIndI
    | STIndIn(width: nat)
    | STIndR4
    | STIndR8
    | STObj(typeName: string)

  // ---------------------------------------------------------------------
  // Independent reference definitions used to state the opcode contracts
  // ---------------------------------------------------------------------

  /** Byte size of a fixed-width scalar descriptor (`std::mem::size_of`). */
  function ScalarSize(t: VariableType): Option<nat>
  {
    match t
    case I8 => Some(1)
    case U8 => Some(1)
    case Bool => Some(1)
    case I16 => Some(2)
    case U16 => Some(2)
    case I32 => Some(4)
    case U32 => Some(4)
    case F32 => Some(4)
    case I64 => Some(8)
    case U64 => Some(8)
    case F64 => Some(8)
    case I128 => Some(16)
    case U128 => Some(16)
    case _ => None
  }

  /** How many bytes a fixed-width load or store moves, if it has a fixed width. */
  function AccessWidth(op: BaseIR): Option<nat>
  {
    match op
    case LDIndIn(w) => Some(w)
    case STIndIn(w) => Some(w)
    case LDIndR4 => Some(4)
    case STIndR4 => Some(4)
    case LDIndR8 => Some(8)
    case STIndR8 => Some(8)
    case _ => None
  }

  predicate IsFloatAccess(op: BaseIR)
  {
    op.LDIndR4? || op.LDIndR8? || op.STIndR4? || op.STIndR8?
  }

  predicate IsLoadOp(op: BaseIR)
  {
    op.LDIndI? || op.LDIndIn? || op.LDIndR4? || op.LDIndR8? || op.LDObj?
  }

  predicate IsSizeOp(op: BaseIR)
  {
    op.LDConstI8? || op.SizeOf?
  }

  /** The store that writes back what a given load reads. */
  function StoreFor(load: BaseIR): BaseIR
    requires IsLoadOp(load)
  {
    match load
    case LDIndI => STIndI
    case LDIndIn(w) => STIndIn(w)
    case LDIndR4 => STIndR4
    case LDIndR8 => STIndR8
    case LDObj(n) => STObj(n)
  }

  // ---------------------------------------------------------------------
  // Canonical names
  // ---------------------------------------------------------------------

  /** `il_name` asserts that every tuple it meets has fewer than 8 elements. */
  predicate Nameable(t: VariableType)
    decreases t
  {
    match t
    case Ref(inner) => Nameable(inner)
    case RefMut(inner) => Nameable(inner)
    case Array(e, _) => Nameable(e)
    case Slice(e) => Nameable(e)
    case Tuple(es) => |es| < 8 && forall i :: 0 <= i < |es| ==> Nameable(es[i])
    case _ => true
  }

  function Digit(d: nat): (c: char)
    requires d < 10
    ensures '0' <= c <= '9' && c as int - '0' as int == d
  {
    (48 + d) as char
  }

  predicate AllDigits(s: string)
  {
    forall i :: 0 <= i < |s| ==> '0' <= s[i] <= '9'
  }

  /** The number a string of decimal digits denotes, most significant digit first. */
  function DecimalValue(s: string): nat
    requires AllDigits(s)
    decreases |s|
  {
    if s == [] then 0 else 10 * DecimalValue(s[..|s| - 1]) + (s[|s| - 1] as int - '0' as int)
  }

  /** Decimal rendering of a number, as `format!("{}")` prints a `usize`. */
  function NatToString(n: nat): (r: string)
    ensures |r| >= 1 && AllDigits(r)
    ensures DecimalValue(r) == n
    ensures |r| > 1 ==> r[0] != '0'
    decreases n
  {
    if n < 10 then [Digit(n)]
    else
      var front := NatToString(n / 10);
      assert (front + [Digit(n % 10)])[..|front|] == front;
      front + [Digit(n % 10)]
  }

  /** `str::replace('\'', "")`: every quote removed, everything else kept in order. */
  function StripQuotes(s: string): (r: string)
    ensures '\'' !in r
    ensures multiset(r) == multiset(s)['\'' := 0]
    ensures |r| <= |s|
    decreases |s|
  {
    if s == [] then []
    else
      assert s == [s[0]] + s[1..];
      (if s[0] == '\'' then [] else [s[0]]) + StripQuotes(s[1..])
  }

  /** Stripping keeps the order of what it keeps: it distributes over concatenation. */
  lemma {:induction false} StripQuotesAppend(a: string, b: string)
    ensures StripQuotes(a + b) == StripQuotes(a) + StripQuotes(b)
    decreases |a|
  {
    if a != [] {
      assert (a + b)[1..] == a[1..] + b;
      StripQuotesAppend(a[1..], b);
    } else {
      assert a + b == b;
    }
  }

  /** A lone quote is dropped and any other lone character kept. */
  lemma StripQuotesOneChar(c: char)
    ensures StripQuotes([c]) == if c == '\'' then [] else [c]
  {
    assert [c][1..] == [];
  }

  /** Comma-separated concatenation, the string the tuple-name loop builds. */
  function CommaJoin(names: seq<string>): string
  {
    if |names| == 0 then ""
    else if |names| == 1 then names[0]
    else names[0] + "," + CommaJoin(names[1..])
  }

  /** The canonical CIL name; only a user-supplied name (a generic's or a struct's) can be empty. */
  function IlName(t: VariableType): (r: string)
    requires Nameable(t)
    ensures |r| == 0 ==> t.Generic? || t.Struct?
    decreases t
  {
    match t
    case Generic(typename) => typename
    case Void => "void"
    case I8 => "int8"
    case I16 => "int16"
    case I32 => "int32"
    case I64 => "int64"
    case I128 => "[System.Runtime]System.Int128"
    case ISize => "native int"
    case U8 => "uint8"
    case U16 => "uint16"
    case U32 => "uint32"
    case U64 => "uint64"
    case U128 => "[System.Runtime]System.UInt128"
    case USize => "native uint"
    case F32 => "float32"
    case F64 => "float64"
    case Bool => "bool"
    case Ref(inner) => IlName(inner) + "*"
    case RefMut(inner) => IlName(inner) + "*"
    case Struct(name) => name
    case Array(element, length) =>
      "'" + "RArray_" + StripQuotes(IlName(element)) + "_" + NatToString(length) + "'"
    case Slice(element) => "'" + "RSlice_" + StripQuotes(IlName(element)) + "'"
    case Tuple(elements) =>
      "[System.Runtime]System.ValueTuple`" + NatToString(|elements|) + "<"
      + CommaJoin(ElementNames(elements)) + ">"
  }

  /** The names of a tuple's elements, in order. */
  function ElementNames(elements: seq<VariableType>): (r: seq<string>)
    requires forall i :: 0 <= i < |elements| ==> Nameable(elements[i])
    ensures |r| == |elements|
    ensures forall i :: 0 <= i < |elements| ==> r[i] == IlName(elements[i])
    decreases elements
  {
    if elements == [] then [] else [IlName(elements[0])] + ElementNames(elements[1..])
  }

  /**
   * The loop that builds the inside of a tuple name: the first element's
   * name, then ',' and the next name for every further element.
   */
  method TupleInner(elements: seq<VariableType>) returns (inner: string)
    requires forall i :: 0 <= i < |elements| ==> Nameable(elements[i])
    ensures inner == CommaJoin(ElementNames(elements))
  {
    ghost var names := ElementNames(elements);
    inner := "";
    if |elements| == 0 {
      return;
    }
    inner := inner + IlName(elements[0]);
    var i := 1;
    while i < |elements|
      invariant 1 <= i <= |elements|
      invariant inner == CommaJoin(names[..i])
    {
      CommaJoinSnoc(names[..i], names[i]);
      assert names[..i + 1] == names[..i] + [names[i]];
      inner := inner + "," + IlName(elements[i]);
      i := i + 1;
    }
    assert names[..i] == names;
  }

  lemma {:induction false} CommaJoinSnoc(names: seq<string>, last: string)
    requires |names| >= 1
    ensures CommaJoin(names + [last]) == CommaJoin(names) + "," + last
    decreases |names|
  {
    if |names| == 1 {
      assert (names + [last])[1..] == [last];
    } else {
      assert (names + [last])[1..] == names[1..] + [last];
      CommaJoinSnoc(names[1..], last);
    }
  }

  function GetPrefix(t: VariableType): (r: Option<TypePrefix>)
    ensures r.Some? <==> t.Tuple?
  {
    match t
    case Tuple(_) => Some(ValueType)
    case _ => None
  }

  /** The name used for a type in a method signature. */
  function ArgName(t: VariableType): (r: string)
    requires Nameable(t)
    ensures t.Tuple? ==> r == "valuetype " + IlName(t)
    ensures !t.Tuple? ==> r == IlName(t)
  {
    match GetPrefix(t)
    case Some(prefix) => PrefixIl(prefix) + " " + IlName(t)
    case None => IlName(t)
  }

  // ---------------------------------------------------------------------
  // Opcode selection
  // ---------------------------------------------------------------------

  /** The descriptors `deref_op`, `sizeof_op` and `set_pointed_op` handle. */
  predicate HasPointedOps(t: VariableType)
  {
    t.Ref? || t.RefMut? || t.I32? || t.I64? || t.F32? || t.F64? || t.Struct? ||
    (t.Array? && Nameable(t))
  }

  /** The load that reads a `t` through a `t*`. */
  function DerefOp(t: VariableType): (r: BaseIR)
    requires HasPointedOps(t)
    ensures IsLoadOp(r)
    ensures ScalarSize(t).Some? ==> AccessWidth(r) == ScalarSize(t)
    ensures IsFloatAccess(r) <==> t.F32? || t.F64?
    ensures r.LDIndI? <==> t.Ref? || t.RefMut?
    ensures r.LDObj? <==> t.Struct? || t.Array?
    ensures r.LDObj? ==> r.typeName == IlName(t)
  {
    match t
    case Ref(_) => LDIndI
    case RefMut(_) => LDIndI
    case I32 => LDIndIn(4)
    case I64 => LDIndIn(8)
    case F64 => LDIndR8
    case F32 => LDIndR4
    case Struct(name) => LDObj(name)
    case Array(_, _) => LDObj(IlName(t))
  }

  /** The store that writes a `t` through a `t*`: the counterpart of `DerefOp`. */
  function SetPointedOp(t: VariableType): (r: BaseIR)
    requires HasPointedOps(t)
    ensures r == StoreFor(DerefOp(t))
  {
    match t
    case Ref(_) => STIndI
    case RefMut(_) => STIndI
    case I32 => STIndIn(4)
    case I64 => STIndIn(8)
    case F64 => STIndR8
    case F32 => STIndR4
    case Struct(name) => STObj(name)
    case Array(_, _) => STObj(IlName(t))
  }

  /**
   * `sizeof_op` as written: for a reference it yields `LDIndI`, a load,
   * where a size is expected.
   */
  function SizeofOpAsWritten(t: VariableType): (r: BaseIR)
    requires HasPointedOps(t)
    ensures (t.Ref? || t.RefMut?) ==> r == LDIndI
    ensures !(t.Ref? || t.RefMut?) ==> r == SizeofOp(t)
  {
    if t.Ref? || t.RefMut? then LDIndI else SizeofOp(t)
  }

  lemma SizeofOpAsWrittenLoadsForReferences()
    ensures !IsSizeOp(SizeofOpAsWritten(Ref(I32)))
    ensures IsLoadOp(SizeofOpAsWritten(RefMut(F64)))
  {
  }

  /** `sizeof_op` with the size of a pointer (`sizeof native int`) for references. */
  function SizeofOp(t: VariableType): (r: BaseIR)
    requires HasPointedOps(t)
    ensures IsSizeOp(r)
    ensures ScalarSize(t).Some? ==> r == LDConstI8(ScalarSize(t).value)
    ensures (t.Struct? || t.Array?) ==> r == SizeOf(DerefOp(t).typeName)
    ensures (t.Ref? || t.RefMut?) ==> r == SizeOf(IlName(ISize))
  {
    match t
    case Ref(_) => SizeOf("native int")
    case RefMut(_) => SizeOf("native int")
    case I32 => LDConstI8(4)
    case I64 => LDConstI8(8)
    case F64 => LDConstI8(8)
    case F32 => LDConstI8(4)
    case Struct(name) => SizeOf(name)
    case Array(_, _) => SizeOf(IlName(t))
  }

  lemma LoadStoreAndSizeAgree(t: VariableType)
    requires HasPointedOps(t) && ScalarSize(t).Some?
    ensures AccessWidth(DerefOp(t)) == AccessWidth(SetPointedOp(t)) == ScalarSize(t)
    ensures SizeofOp(t) == LDConstI8(AccessWidth(DerefOp(t)).value)
  {
  }

  // ---------------------------------------------------------------------
  // Queries
  // ---------------------------------------------------------------------

  predicate IsVoid(t: VariableType)
  {
    t.Void?
  }

  function GetPointedType(t: VariableType): (r: Option<VariableType>)
    ensures r.Some? <==> t.Ref? || t.RefMut?
    ensures r.Some? ==> r.value == t.inner
  {
    match t
    case Ref(inner) => Some(inner)
    case RefMut(inner) => Some(inner)
    case _ => None
  }

  // ---------------------------------------------------------------------
  // Lowering from the source type kind
  // ---------------------------------------------------------------------

  /**
   * The kinds `from_ty` lowers; every other kind (char, str, raw pointers,
   * unions, enums, closures, ...) stops at a `todo!`.
   */
  predicate Lowerable(t: Rustc.Ty)
    decreases t
  {
    match t
    case Int(_) => true
    case Uint(_) => true
    case Float(f) => f == Rustc.F32 || f == Rustc.F64
    case Bool => true
    case Array(e, _) => Lowerable(e)
    case Slice(e) => Lowerable(e)
    case Adt(_, k, _) => k == Rustc.Struct
    case Ref(p, _) => Lowerable(p)
    case Tuple(es) => forall i :: 0 <= i < |es| ==> Lowerable(es[i])
    case Param(_) => true
    case _ => false
  }

  /**
   * The name `from_ty` gives the descriptor of a generic parameter, as
   * written: the format string has no placeholder, so the parameter's own
   * name is not used.
   */
  function ParamNameAsWritten(paramName: string): string
  {
    "inner:?"
  }

  /** The evidently intended name: the parameter's own. */
  function ParamNameCorrected(paramName: string): string
  {
    paramName
  }

  /**
   * The traversal of `from_ty`; `paramName` names the descriptor of a generic
   * parameter, the one place where the code as written and its evident intent
   * differ.
   */
  function LowerWith(t: Rustc.Ty, paramName: string -> string): (r: VariableType)
    requires Lowerable(t)
    ensures r.Void? <==> t == Rustc.Tuple([])
    decreases t
  {
    match t
    case Int(it) => (
      match it
      case I8 => I8
      case I16 => I16
      case I32 => I32
      case I64 => I64
      case I128 => I128
      case Isize => ISize)
    case Uint(ut) => (
      match ut
      case U8 => U8
      case U16 => U16
      case U32 => U32
      case U64 => U64
      case U128 => U128
      case Usize => USize)
    case Float(ft) => if ft == Rustc.F32 then F32 else F64
    case Bool => Bool
    case Array(element, length) => Array(LowerWith(element, paramName), length)
    case Slice(element) => Slice(LowerWith(element, paramName))
    case Adt(name, _, _) => Struct(name)
    case Ref(pointee, mutability) =>
      if mutability == Rustc.Mut then RefMut(LowerWith(pointee, paramName)) else Ref(LowerWith(pointee, paramName))
    case Tuple(innerTypes) =>
      if |innerTypes| == 0 then Void
      else Tuple(seq(|innerTypes|, i requires 0 <= i < |innerTypes| => LowerWith(innerTypes[i], paramName)))
    case Param(name) => Generic(paramName(name))
  }

  /** `from_ty` as written: every generic parameter becomes `Generic("inner:?")`. */
  function FromTy(t: Rustc.Ty): (r: VariableType)
    requires Lowerable(t)
    ensures r.Void? <==> t == Rustc.Tuple([])
  {
    LowerWith(t, ParamNameAsWritten)
  }

  /** `from_ty` with the parameter's own name in its descriptor. */
  function FromTyCorrected(t: Rustc.Ty): (r: VariableType)
    requires Lowerable(t)
    ensures r.Void? <==> t == Rustc.Tuple([])
  {
    LowerWith(t, ParamNameCorrected)
  }

  /** As written, `T` and `U` get one descriptor and one name; corrected, they are told apart. */
  lemma FromTyParamsCollide()
    ensures FromTy(Rustc.Param("T")) == FromTy(Rustc.Param("U")) == Generic("inner:?")
    ensures IlName(FromTy(Rustc.Param("T"))) == IlName(FromTy(Rustc.Param("U")))
    ensures FromTyCorrected(Rustc.Param("T")) != FromTyCorrected(Rustc.Param("U"))
  {
  }

  // ---------------------------------------------------------------------
  // Properties
  // ---------------------------------------------------------------------

  /** Lowering yields `Void` exactly for the empty tuple. */
  lemma FromTyVoid(t: Rustc.Ty)
    requires Lowerable(t)
    ensures IsVoid(FromTy(t)) <==> t == Rustc.Tuple([])
  {
  }

  /** A non-empty tuple lowers element-wise, keeping length and order. */
  lemma FromTyTuple(ts: seq<Rustc.Ty>)
    requires |ts| > 0 && forall i :: 0 <= i < |ts| ==> Lowerable(ts[i])
    ensures Lowerable(Rustc.Tuple(ts))
    ensures FromTy(Rustc.Tuple(ts)).Tuple?
    ensures |FromTy(Rustc.Tuple(ts)).elements| == |ts|
    ensures forall i :: 0 <= i < |ts| ==> FromTy(Rustc.Tuple(ts)).elements[i] == FromTy(ts[i])
  {
  }

  /** Lowering a reference and then taking the pointee is lowering the pointee. */
  lemma FromTyRefPointee(p: Rustc.Ty, m: Rustc.Mutability)
    requires Lowerable(p)
    ensures Lowerable(Rustc.Ref(p, m))
    ensures GetPointedType(FromTy(Rustc.Ref(p, m))) == Some(FromTy(p))
    ensures FromTy(Rustc.Ref(p, m)).RefMut? <==> m == Rustc.Mut
  {
  }

  /**
   * The source type with the generic arguments of every ADT dropped and every
   * generic parameter renamed by `paramName`.
   */
  function EraseAdtArgs(t: Rustc.Ty, paramName: string -> string): Rustc.Ty
    decreases t
  {
    match t
    case Array(e, n) => Rustc.Array(EraseAdtArgs(e, paramName), n)
    case Slice(e) => Rustc.Slice(EraseAdtArgs(e, paramName))
    case Adt(name, k, _) => Rustc.Adt(name, k, [])
    case RawPtr(p, m) => Rustc.RawPtr(EraseAdtArgs(p, paramName), m)
    case Ref(p, m) => Rustc.Ref(EraseAdtArgs(p, paramName), m)
    case Tuple(es) => Rustc.Tuple(seq(|es|, i requires 0 <= i < |es| => EraseAdtArgs(es[i], paramName)))
    case Param(name) => Rustc.Param(paramName(name))
    case _ => t
  }

  /** Reads a descriptor back as the source type it stands for. */
  function ToTy(v: VariableType): Rustc.Ty
    decreases v
  {
    match v
    case Void => Rustc.Tuple([])
    case I8 => Rustc.Int(Rustc.I8)
    case I16 => Rustc.Int(Rustc.I16)
    case I32 => Rustc.Int(Rustc.I32)
    case I64 => Rustc.Int(Rustc.I64)
    case I128 => Rustc.Int(Rustc.I128)
    case ISize => Rustc.Int(Rustc.Isize)
    case U8 => Rustc.Uint(Rustc.U8)
    case U16 => Rustc.Uint(Rustc.U16)
    case U32 => Rustc.Uint(Rustc.U32)
    case U64 => Rustc.Uint(Rustc.U64)
    case U128 => Rustc.Uint(Rustc.U128)
    case USize => Rustc.Uint(Rustc.Usize)
    case F32 => Rustc.Float(Rustc.F32)
    case F64 => Rustc.Float(Rustc.F64)
    case Bool => Rustc.Bool
    case Ref(inner) => Rustc.Ref(ToTy(inner), Rustc.Not)
    case RefMut(inner) => Rustc.Ref(ToTy(inner), Rustc.Mut)
    case Array(e, n) => Rustc.Array(ToTy(e), n)
    case Slice(e) => Rustc.Slice(ToTy(e))
    case Struct(name) => Rustc.Adt(name, Rustc.Struct, [])
    case Tuple(es) => Rustc.Tuple(seq(|es|, i requires 0 <= i < |es| => ToTy(es[i])))
    case Generic(name) => Rustc.Param(name)
  }

  /**
   * The traversal loses nothing but the generic arguments of ADTs (and
   * lifetimes, which `Rustc.Ty` does not carry) and the parameter names
   * `paramName` does not keep.
   */
  lemma {:induction false} LowerRoundTrip(t: Rustc.Ty, paramName: string -> string)
    requires Lowerable(t)
    ensures ToTy(LowerWith(t, paramName)) == EraseAdtArgs(t, paramName)
    decreases t
  {
    match t
    case Array(e, _) =>
      LowerRoundTrip(e, paramName);
      WrapperRoundTrip(t, paramName);
    case Slice(e) =>
      LowerRoundTrip(e, paramName);
      WrapperRoundTrip(t, paramName);
    case Ref(p, _) =>
      LowerRoundTrip(p, paramName);
      WrapperRoundTrip(t, paramName);
    case Tuple(es) =>
      forall i | 0 <= i < |es|
        ensures ToTy(LowerWith(es[i], paramName)) == EraseAdtArgs(es[i], paramName)
      {
        LowerRoundTrip(es[i], paramName);
      }
      TupleRoundTrip(es, paramName);
    case _ => LeafRoundTrip(t, paramName);
  }

  /** The round trip for arrays, slices and references, given it for the component type. */
  lemma WrapperRoundTrip(t: Rustc.Ty, paramName: string -> string)
    requires Lowerable(t) && (t.Array? || t.Slice? || t.Ref?)
    requires t.Array? ==> ToTy(LowerWith(t.element, paramName)) == EraseAdtArgs(t.element, paramName)
    requires t.Slice? ==> ToTy(LowerWith(t.element, paramName)) == EraseAdtArgs(t.element, paramName)
    requires t.Ref? ==> ToTy(LowerWith(t.pointee, paramName)) == EraseAdtArgs(t.pointee, paramName)
    ensures ToTy(LowerWith(t, paramName)) == EraseAdtArgs(t, paramName)
  {
  }

  /** The round trip for the kinds without component types. */
  lemma LeafRoundTrip(t: Rustc.Ty, paramName: string -> string)
    requires Lowerable(t)
    requires !(t.Array? || t.Slice? || t.Ref? || t.Tuple?)
    ensures ToTy(LowerWith(t, paramName)) == EraseAdtArgs(t, paramName)
  {
    if t.Int? {
      match t.intTy
      case I8 =>
      case I16 =>
      case I32 =>
      case I64 =>
      case I128 =>
      case Isize =>
    } else if t.Uint? {
      match t.uintTy
      case U8 =>
      case U16 =>
      case U32 =>
      case U64 =>
      case U128 =>
      case Usize =>
    }
  }

  /** The tuple case of `LowerRoundTrip`, given the property for every element. */
  lemma TupleRoundTrip(es: seq<Rustc.Ty>, paramName: string -> string)
    requires Lowerable(Rustc.Tuple(es))
    requires forall i :: 0 <= i < |es| ==> ToTy(LowerWith(es[i], paramName)) == EraseAdtArgs(es[i], paramName)
    ensures ToTy(LowerWith(Rustc.Tuple(es), paramName)) == EraseAdtArgs(Rustc.Tuple(es), paramName)
  {
    if |es| > 0 {
      var v := LowerWith(Rustc.Tuple(es), paramName);
      assert v == Tuple(seq(|es|, i requires 0 <= i < |es| => LowerWith(es[i], paramName)));
      assert ToTy(v) == Rustc.Tuple(seq(|es|, i requires 0 <= i < |es| => ToTy(v.elements[i])));
    }
  }

  /** No generic parameter occurs in the type outside the generic arguments of its ADTs. */
  predicate ParamFree(t: Rustc.Ty)
    decreases t
  {
    match t
    case Param(_) => false
    case Array(e, _) => ParamFree(e)
    case Slice(e) => ParamFree(e)
    case RawPtr(p, _) => ParamFree(p)
    case Ref(p, _) => ParamFree(p)
    case Tuple(es) => forall i :: 0 <= i < |es| ==> ParamFree(es[i])
    case _ => true
  }

  /** Without generic parameters the naming slip does not matter: both lowerings agree. */
  lemma {:induction false} FromTyAgreesWithoutParams(t: Rustc.Ty)
    requires Lowerable(t) && ParamFree(t)
    ensures FromTy(t) == FromTyCorrected(t)
    decreases t
  {
    match t
    case Array(e, _) => FromTyAgreesWithoutParams(e);
    case Slice(e) => FromTyAgreesWithoutParams(e);
    case Ref(p, _) => FromTyAgreesWithoutParams(p);
    case Tuple(es) =>
      forall i | 0 <= i < |es|
        ensures FromTy(es[i]) == FromTyCorrected(es[i])
      {
        FromTyAgreesWithoutParams(es[i]);
      }
      if |es| > 0 {
        assert FromTy(t).elements == FromTyCorrected(t).elements;
      }
    case _ =>
  }

  /**
   * As written, reading the descriptor back gives the source type with ADT
   * generic arguments dropped and every parameter renamed `inner:?`; for a
   * type without parameters, that is the source type with only the ADT
   * arguments dropped.
   */
  lemma FromTyRoundTrip(t: Rustc.Ty)
    requires Lowerable(t)
    ensures ToTy(FromTy(t)) == EraseAdtArgs(t, ParamNameAsWritten)
    ensures ParamFree(t) ==> ToTy(FromTy(t)) == EraseAdtArgs(t, ParamNameCorrected)
  {
    LowerRoundTrip(t, ParamNameAsWritten);
    if ParamFree(t) {
      FromTyAgreesWithoutParams(t);
      LowerRoundTrip(t, ParamNameCorrected);
    }
  }

  /**
   * As written, two lowerable types with the same descriptor differ at most
   * in the generic arguments of their ADTs and in the names of their
   * parameters; without parameters, at most in the ADT arguments, so every
   * integer width, float width, bool and reference mutability maps to its
   * own descriptor.
   */
  lemma FromTyInjective(a: Rustc.Ty, b: Rustc.Ty)
    requires Lowerable(a) && Lowerable(b)
    requires FromTy(a) == FromTy(b)
    ensures EraseAdtArgs(a, ParamNameAsWritten) == EraseAdtArgs(b, ParamNameAsWritten)
    ensures ParamFree(a) && ParamFree(b) ==>
      EraseAdtArgs(a, ParamNameCorrected) == EraseAdtArgs(b, ParamNameCorrected)
  {
    FromTyRoundTrip(a);
    FromTyRoundTrip(b);
  }

  /** The corrected lowering loses nothing but the generic arguments of ADTs. */
  lemma FromTyCorrectedRoundTrip(t: Rustc.Ty)
    requires Lowerable(t)
    ensures ToTy(FromTyCorrected(t)) == EraseAdtArgs(t, ParamNameCorrected)
  {
    LowerRoundTrip(t, ParamNameCorrected);
  }

  /** Corrected, types with equal descriptors differ at most in the generic arguments of their ADTs. */
  lemma FromTyCorrectedInjective(a: Rustc.Ty, b: Rustc.Ty)
    requires Lowerable(a) && Lowerable(b)
    requires FromTyCorrected(a) == FromTyCorrected(b)
    ensures EraseAdtArgs(a, ParamNameCorrected) == EraseAdtArgs(b, ParamNameCorrected)
  {
    FromTyCorrectedRoundTrip(a);
    FromTyCorrectedRoundTrip(b);
  }

  /** Mutability is not visible in a reference's name: both are the pointee's name and `*`. */
  lemma RefNamesIgnoreMutability(t: VariableType)
    requires Nameable(t)
    ensures Nameable(Ref(t)) && Nameable(RefMut(t))
    ensures IlName(Ref(t)) == IlName(RefMut(t)) == IlName(t) + "*"
  {
  }

  lemma DigitsHoldNoQuote(n: nat)
    ensures '\'' !in NatToString(n)
  {
    var digits := NatToString(n);
    forall i | 0 <= i < |digits| ensures digits[i] != '\'' { }
  }

  lemma QuotedHoldsNoInnerQuote(a: string, s: string)
    requires '\'' !in a && s == "'" + a + "'"
    ensures |s| >= 2 && s[0] == '\'' && s[|s| - 1] == '\'' && '\'' !in s[1..|s| - 1]
  {
    assert s[1..|s| - 1] == a;
  }

  /** The shape of an array name, for any quote-free element name and length digits. */
  lemma ArrayShapeQuotesOnlyAtEnds(inner: string, d: string, s: string)
    requires '\'' !in inner && '\'' !in d
    requires s == "'" + "RArray_" + inner + "_" + d + "'"
    ensures |s| >= 2 && s[0] == '\'' && s[|s| - 1] == '\'' && '\'' !in s[1..|s| - 1]
  {
    var a := "RArray_" + inner + "_" + d;
    assert s == "'" + a + "'";
    QuotedHoldsNoInnerQuote(a, s);
  }

  /** An array name is quoted, and the element name embedded in it holds no quote. */
  lemma ArrayNameQuotesOnlyAtEnds(e: VariableType, n: nat)
    requires Nameable(Array(e, n))
    ensures var s := IlName(Array(e, n));
      |s| >= 2 && s[0] == '\'' && s[|s| - 1] == '\'' && '\'' !in s[1..|s| - 1]
  {
    DigitsHoldNoQuote(n);
    ArrayShapeQuotesOnlyAtEnds(StripQuotes(IlName(e)), NatToString(n), IlName(Array(e, n)));
  }

  /** The shape of a slice name, for any quote-free element name. */
  lemma SliceShapeQuotesOnlyAtEnds(inner: string, s: string)
    requires '\'' !in inner
    requires s == "'" + "RSlice_" + inner + "'"
    ensures |s| >= 2 && s[0] == '\'' && s[|s| - 1] == '\'' && '\'' !in s[1..|s| - 1]
  {
    var a := "RSlice_" + inner;
    QuotedHoldsNoInnerQuote(a, s);
  }

  /** A slice name is quoted, and the element name embedded in it holds no quote. */
  lemma SliceNameQuotesOnlyAtEnds(e: VariableType)
    requires Nameable(Slice(e))
    ensures var s := IlName(Slice(e));
      |s| >= 2 && s[0] == '\'' && s[|s| - 1] == '\'' && '\'' !in s[1..|s| - 1]
  {
    SliceShapeQuotesOnlyAtEnds(StripQuotes(IlName(e)), IlName(Slice(e)));
  }

  /** Stripping is idempotent: a stripped name is left alone by a second strip. */
  lemma {:induction false} StripQuotesIdempotent(s: string)
    ensures StripQuotes(StripQuotes(s)) == StripQuotes(s)
  {
    StripQuotesOfQuoteFree(StripQuotes(s));
  }

  lemma {:induction false} StripQuotesOfQuoteFree(s: string)
    requires '\'' !in s
    ensures StripQuotes(s) == s
  {
    if s != [] {
      assert s == [s[0]] + s[1..];
      StripQuotesOfQuoteFree(s[1..]);
    }
  }

  /** The index of the first `c` in `s`, or `|s|` when there is none. */
  function FirstIndex(s: string, c: char): nat
    decreases |s|
  {
    if s == [] then 0 else if s[0] == c then 0 else 1 + FirstIndex(s[1..], c)
  }

  lemma {:induction false} FirstIndexAfter(a: string, c: char, x: string)
    requires c !in a
    ensures FirstIndex(a + [c] + x, c) == |a|
    decreases |a|
  {
    if a != [] {
      assert (a + [c] + x)[1..] == a[1..] + [c] + x;
      FirstIndexAfter(a[1..], c, x);
    }
  }

  /** Text before the first separator and text after it are fixed by the whole. */
  lemma SplitAtFirst(a: string, x: string, b: string, y: string, c: char)
    requires c !in a && c !in b
    requires a + [c] + x == b + [c] + y
    ensures a == b && x == y
  {
    var s := a + [c] + x;
    FirstIndexAfter(a, c, x);
    FirstIndexAfter(b, c, y);
    assert a == s[..|a|];
    assert x == s[|a| + 1..];
  }

  lemma BetweenPrefixAndLast(prefix: string, d: string, j: string, s: string)
    requires s == prefix + d + "<" + j + ">"
    ensures |s| >= |prefix| + 1 && s[|prefix|..|s| - 1] == d + "<" + j
  {
    assert s[..|s| - 1] == prefix + (d + "<" + j);
  }

  /** The part of a tuple's name between the fixed prefix and the closing `>`. */
  lemma TupleNameMiddle(es: seq<VariableType>, n: string)
    requires Nameable(Tuple(es)) && n == IlName(Tuple(es))
    ensures |n| >= 35
    ensures n[34..|n| - 1] == NatToString(|es|) + "<" + CommaJoin(ElementNames(es))
  {
    var prefix := "[System.Runtime]System.ValueTuple`";
    assert n == prefix + NatToString(|es|) + "<" + CommaJoin(ElementNames(es)) + ">";
    assert |prefix| == 34;
    BetweenPrefixAndLast(prefix, NatToString(|es|), CommaJoin(ElementNames(es)), n);
  }

  lemma DigitsHoldNoBracket(n: nat)
    ensures '<' !in NatToString(n)
  {
    var digits := NatToString(n);
    forall i | 0 <= i < |digits| ensures digits[i] != '<' { }
  }

  /** Two tuples with one name have the same arity digits and the same joined element names. */
  lemma TupleMiddlesAgree(es1: seq<VariableType>, es2: seq<VariableType>, n: string)
    requires Nameable(Tuple(es1)) && Nameable(Tuple(es2))
    requires n == IlName(Tuple(es1)) && n == IlName(Tuple(es2))
    ensures NatToString(|es1|) + "<" + CommaJoin(ElementNames(es1)) ==
            NatToString(|es2|) + "<" + CommaJoin(ElementNames(es2))
  {
    TupleNameMiddle(es1, n);
    TupleNameMiddle(es2, n);
  }

  /** The arity and the comma-free names are read back from the middle of a tuple name. */
  lemma ReadBackTupleMiddle(k1: nat, names1: seq<string>, k2: nat, names2: seq<string>)
    requires |names1| == k1 && |names2| == k2
    requires forall i :: 0 <= i < |names1| ==> ',' !in names1[i]
    requires forall i :: 0 <= i < |names2| ==> ',' !in names2[i]
    requires NatToString(k1) + "<" + CommaJoin(names1) == NatToString(k2) + "<" + CommaJoin(names2)
    ensures names1 == names2
  {
    DigitsHoldNoBracket(|names1|);
    DigitsHoldNoBracket(|names2|);
    SplitAtFirst(NatToString(|names1|), CommaJoin(names1), NatToString(|names2|), CommaJoin(names2), '<');
    assert DecimalValue(NatToString(|names1|)) == DecimalValue(NatToString(|names2|));
    if |names1| > 0 {
      CommaJoinSplits(names1);
      CommaJoinSplits(names2);
    }
  }

  lemma ElementNamesFromMiddle(es1: seq<VariableType>, es2: seq<VariableType>)
    requires Nameable(Tuple(es1)) && Nameable(Tuple(es2))
    requires forall i :: 0 <= i < |es1| ==> ',' !in ElementNames(es1)[i]
    requires forall i :: 0 <= i < |es2| ==> ',' !in ElementNames(es2)[i]
    requires NatToString(|es1|) + "<" + CommaJoin(ElementNames(es1)) ==
             NatToString(|es2|) + "<" + CommaJoin(ElementNames(es2))
    ensures |es1| == |es2| && ElementNames(es1) == ElementNames(es2)
  {
    ReadBackTupleMiddle(|es1|, ElementNames(es1), |es2|, ElementNames(es2));
  }

  /**
   * A tuple's name gives back its arity and, when no element name holds a
   * comma, the names of its elements in order: two such tuples with the same
   * name have element-wise the same names.
   */
  lemma TupleNameDeterminesElements(es1: seq<VariableType>, es2: seq<VariableType>)
    requires Nameable(Tuple(es1)) && Nameable(Tuple(es2))
    requires forall i :: 0 <= i < |es1| ==> ',' !in ElementNames(es1)[i]
    requires forall i :: 0 <= i < |es2| ==> ',' !in ElementNames(es2)[i]
    requires IlName(Tuple(es1)) == IlName(Tuple(es2))
    ensures |es1| == |es2|
    ensures ElementNames(es1) == ElementNames(es2)
  {
    TupleMiddlesAgree(es1, es2, IlName(Tuple(es1)));
    ElementNamesFromMiddle(es1, es2);
  }

  /** Seven elements is the largest tuple that has a name; eight or more is refused. */
  lemma TupleArityBoundary(es: seq<VariableType>)
    requires forall i :: 0 <= i < |es| ==> Nameable(es[i])
    ensures Nameable(Tuple(es)) <==> |es| <= 7
    ensures Nameable(Tuple(es)) && |es| == 7 ==>
      IlName(Tuple(es)) == "[System.Runtime]System.ValueTuple`" + "7" + "<" + CommaJoin(ElementNames(es)) + ">"
  {
    if Nameable(Tuple(es)) && |es| == 7 {
      assert NatToString(7) == "7";
    }
  }

  // ---------------------------------------------------------------------
  // Comma-join is undone by splitting at commas
  // ---------------------------------------------------------------------

  /** Splits a string at every comma. */
  function SplitAtCommas(s: string): (r: seq<string>)
    ensures |r| >= 1
  {
    if s == [] then [""]
    else
      var rest := SplitAtCommas(s[1..]);
      if s[0] == ',' then [""] + rest else [[s[0]] + rest[0]] + rest[1..]
  }

  lemma {:induction false} SplitAfterCommaFree(x: string, s: string)
    requires ',' !in x
    ensures SplitAtCommas(x + s) == [x + SplitAtCommas(s)[0]] + SplitAtCommas(s)[1..]
  {
    if x != [] {
      assert (x + s)[1..] == x[1..] + s;
      SplitAfterCommaFree(x[1..], s);
      assert [x[0]] + (x[1..] + SplitAtCommas(s)[0]) == x + SplitAtCommas(s)[0];
    } else {
      var r := SplitAtCommas(s);
      assert x + s == s;
      assert x + r[0] == r[0];
      assert [r[0]] + r[1..] == r;
    }
  }

  /**
   * When no name contains a comma, the element names can be read back from
   * the joined string: nothing is lost, merged or reordered.
   */
  lemma {:induction false} CommaJoinSplits(names: seq<string>)
    requires |names| >= 1
    requires forall i :: 0 <= i < |names| ==> ',' !in names[i]
    ensures SplitAtCommas(CommaJoin(names)) == names
    decreases |names|
  {
    if |names| == 1 {
      SplitAfterCommaFree(names[0], "");
      assert names[0] + "" == names[0];
      assert SplitAtCommas("") == [""];
      assert SplitAtCommas(names[0]) == [names[0] + ""] + [""][1..];
      assert [""][1..] == [];
      assert names == [names[0]];
    } else {
      var rest := CommaJoin(names[1..]);
      CommaJoinSplits(names[1..]);
      assert names[0] + "," + rest == names[0] + ("," + rest);
      SplitAfterCommaFree(names[0], "," + rest);
      assert ("," + rest)[1..] == rest;
      assert SplitAtCommas("," + rest) == [""] + names[1..];
      assert CommaJoin(names) == names[0] + ("," + rest);
      assert names[0] + "" == names[0];
      assert names == [names[0]] + names[1..];
    }
  }
}
