/**
 * Place lowering (src/place/mod.rs): the classifiers that decide how a value
 * behind a pointer is loaded and whether a type is handled by address, the
 * two-case `PlaceTy`, and the three entry points `place_adress`,
 * `place_address_raw` and `place_set`, which fold the per-projection step over
 * every projection but the last and finish with a terminal step.
 *
 * The compiler queries and the per-projection helpers of the `adress`,
 * `body` and `set` submodules are not part of this model: they are the
 * fields of `Ctx`, total functions the lowering is parameterised by.
 */
module Place {

  import Rustc
  import Variable
  import opened Cil
  import opened Wrappers

  datatype PlaceElem =
    | Deref
    | Field(index: nat)
    | Index(indexLocal: nat)
    | ConstantIndex(offset: nat, minLength: nat, fromEnd: bool)
    | Subslice(from: nat, to: nat, fromEnd: bool)
    | Downcast(variantIndex: nat)
    | OpaqueCast
    | Subtype

  /** A local and the projections applied to it, left to right. */
  datatype Place = Place(local: nat, projection: seq<PlaceElem>)

  /** The type at a projection point: an ordinary type, or one variant of an enum after a downcast. */
  datatype PlaceTy = Ty(ty: Rustc.Ty) | EnumVariant(enm: Rustc.Ty, variant: nat)

  /** What the backend reads from a type's layout. */
  datatype Layout = Layout(isZst: bool, prefAlign: nat)

  /** The compiler queries and per-projection helpers the lowering calls. */
  datatype Ctx = Ctx(
    placeTy: Place -> Rustc.Ty,
    monomorphize: Rustc.Ty -> Rustc.Ty,
    layoutOf: Rustc.Ty -> Layout,
    typeFromCache: Rustc.Ty -> Type,
    pointerToIsFat: Rustc.Ty -> bool,
    localAdress: nat -> CILNode,
    localBody: nat -> (CILNode, Rustc.Ty),
    placeElemBody: (PlaceElem, PlaceTy, CILNode) -> (PlaceTy, CILNode),
    placeElemAdress: (PlaceElem, PlaceTy, Rustc.Ty, CILNode) -> CILNode)

  // ---------------------------------------------------------------------
  // PlaceTy
  // ---------------------------------------------------------------------

  /** `From<Ty> for PlaceTy`. */
  function From(ty: Rustc.Ty): (r: PlaceTy)
    ensures r.Ty? && Kind(r) == ty
  {
    Ty(ty)
  }

  /** The underlying type: the type itself, or the enum of an enum variant. */
  function Kind(pt: PlaceTy): Rustc.Ty
  {
    match pt
    case Ty(ty) => ty
    case EnumVariant(enm, _) => enm
  }

  function Monomorphize(pt: PlaceTy, mono: Rustc.Ty -> Rustc.Ty): (r: PlaceTy)
    ensures r.Ty? <==> pt.Ty?
    ensures r.EnumVariant? ==> r.variant == pt.variant
    ensures Kind(r) == mono(Kind(pt))
  {
    match pt
    case Ty(inner) => Ty(mono(inner))
    case EnumVariant(enm, variant) => EnumVariant(mono(enm), variant)
  }

  function AsTy(pt: PlaceTy): (r: Option<Rustc.Ty>)
    ensures r.Some? <==> pt.Ty?
    ensures r.Some? ==> r.value == Kind(pt)
  {
    match pt
    case Ty(inner) => Some(inner)
    case EnumVariant(_, _) => None
  }

  /**
   * `From` and `AsTy` are inverse: `AsTy` gives a type back exactly from the
   * `PlaceTy` built from it. Monomorphizing commutes with `AsTy`.
   */
  lemma PlaceTyRoundTrip(ty: Rustc.Ty, pt: PlaceTy, mono: Rustc.Ty -> Rustc.Ty)
    ensures AsTy(pt) == Some(ty) <==> pt == From(ty)
    ensures AsTy(Monomorphize(pt, mono)) ==
      (if pt.Ty? then Some(mono(pt.ty)) else None)
  {
  }

  // ---------------------------------------------------------------------
  // Small helpers
  // ---------------------------------------------------------------------

  /** Splits off the last element: `(last, everything before it)`. */
  function SliceHead<T>(s: seq<T>): (r: (T, seq<T>))
    requires |s| > 0
    ensures r.1 + [r.0] == s
  {
    (s[|s| - 1], s[..|s| - 1])
  }

  predicate IsPointer(pt: PlaceTy)
  {
    pt.Ty? && (pt.ty.Ref? || pt.ty.RawPtr?)
  }

  /** The pointee of a reference or raw pointer; anything else panics. */
  function PointedType(pt: PlaceTy): (r: Rustc.Ty)
    requires IsPointer(pt)
    ensures r == pt.ty.pointee
  {
    match pt.ty
    case Ref(inner, _) => inner
    case RawPtr(inner, _) => inner
  }

  /** The kinds `body_ty_is_by_adress` classifies; any other kind is a `todo!`. */
  predicate ByAdressDefined(t: Rustc.Ty)
  {
    t.Tuple? || t.Adt? || t.Closure? || t.Array? || t.Slice? || t.Str? ||
    t.Int? || t.Float? || t.Uint? || t.Ref? || t.RawPtr? || t.Bool? || t.Char?
  }

  function BodyTyIsByAdress(t: Rustc.Ty): (r: bool)
    requires ByAdressDefined(t)
    ensures r <==> (t.Tuple? && |t.elements| > 0) || t.Adt? || t.Closure? || t.Array? || t.Slice? || t.Str?
    ensures !r <==> t == Rustc.Tuple([]) || t.Int? || t.Uint? || t.Float? || t.Ref? || t.RawPtr? || t.Bool? || t.Char?
  {
    match t
    case Tuple(elements) => |elements| > 0
    case Adt(_, _, _) => true
    case Closure => true
    case Array(_, _) => true
    case Slice(_) => true
    case Str => true
    case _ => false
  }

  // ---------------------------------------------------------------------
  // Loading a value through a pointer
  // ---------------------------------------------------------------------

  /** The pointee kinds `deref_op` has a load for (f16, f128 and enum variants are `todo!`). */
  predicate DerefDefined(pt: PlaceTy)
  {
    pt.Ty? &&
    match pt.ty
    case Int(_) => true
    case Uint(_) => true
    case Float(f) => f == Rustc.F32 || f == Rustc.F64
    case Bool => true
    case Char => true
    case Adt(_, _, _) => true
    case Tuple(_) => true
    case Array(_, _) => true
    case FnPtr => true
    case Closure => true
    case Ref(_, _) => true
    case RawPtr(_, _) => true
    case _ => false
  }

  /**
   * The target type a primitive pointee is read as: its own width and
   * signedness; `char` as a 32-bit unsigned integer; 128-bit integers as the
   * runtime's Int128 / UInt128 value types.
   */
  function PrimitiveType(t: Rustc.Ty): Option<Type>
  {
    match t
    case Int(it) => Some(
      match it
      case I8 => Int(I8)
      case I16 => Int(I16)
      case I32 => Int(I32)
      case I64 => Int(I64)
      case Isize => Int(ISize)
      case I128 => ClassRefType(Int128Class))
    case Uint(ut) => Some(
      match ut
      case U8 => Int(U8)
      case U16 => Int(U16)
      case U32 => Int(U32)
      case U64 => Int(U64)
      case Usize => Int(USize)
      case U128 => ClassRefType(UInt128Class))
    case Float(f) =>
      if f == Rustc.F32 then Some(Float32) else if f == Rustc.F64 then Some(Float64) else None
    case Bool => Some(BoolType)
    case Char => Some(Int(U32))
    case _ => None
  }

  /** The target type a load node produces. */
  function LoadedType(n: CILNode): Option<Type>
  {
    match n
    case LDIndI8(_) => Some(Int(I8))
    case LDIndI16(_) => Some(Int(I16))
    case LDIndI32(_) => Some(Int(I32))
    case LDIndI64(_) => Some(Int(I64))
    case LDIndISize(_) => Some(Int(ISize))
    case LDIndU8(_) => Some(Int(U8))
    case LDIndU16(_) => Some(Int(U16))
    case LDIndU32(_) => Some(Int(U32))
    case LDIndU64(_) => Some(Int(U64))
    case LDIndUSize(_) => Some(Int(USize))
    case LDIndF32(_) => Some(Float32)
    case LDIndF64(_) => Some(Float64)
    case LDIndBool(_) => Some(BoolType)
    case LDIndPtr(_, t) => Some(t)
    case LdObj(_, t) => Some(t)
    case _ => None
  }

  predicate IsCompound(t: Rustc.Ty)
  {
    t.Adt? || t.Tuple? || t.Array? || t.FnPtr? || t.Closure?
  }

  /** The instructions that read a `derefedType` through the pointer `ptr`. */
  function DerefOp(derefedType: PlaceTy, ctx: Ctx, ptr: CILNode): (r: CILNode)
    requires DerefDefined(derefedType)
    ensures IsLoad(r) && r.ptr == ptr
    // primitives: a load of matching width and signedness
    ensures PrimitiveType(derefedType.ty).Some? ==> LoadedType(r) == PrimitiveType(derefedType.ty)
    ensures PrimitiveType(derefedType.ty).Some? && !derefedType.ty.Int? && !derefedType.ty.Uint? ==> !r.LdObj?
    // compound values: a whole-object load of the lowered type
    ensures IsCompound(derefedType.ty) ==> r == LdObj(ptr, ctx.typeFromCache(derefedType.ty))
    // pointers: an object load exactly when the pointer is fat
    ensures IsPointer(derefedType) ==>
      (r.LdObj? <==> ctx.pointerToIsFat(PointedType(derefedType))) &&
      LoadedType(r) == Some(ctx.typeFromCache(derefedType.ty))
    // which kind of load: a pointer-sized load for thin pointers only, an
    // object load for compound values, 128-bit integers and fat pointers only
    ensures r.LDIndPtr? <==> IsPointer(derefedType) && !ctx.pointerToIsFat(PointedType(derefedType))
    ensures r.LdObj? <==>
      IsCompound(derefedType.ty) || Rustc.Is128(derefedType.ty) ||
      (IsPointer(derefedType) && ctx.pointerToIsFat(PointedType(derefedType)))
  {
    var t := derefedType.ty;
    match t
    case Int(it) => (
      match it
      case I8 => LDIndI8(ptr)
      case I16 => LDIndI16(ptr)
      case I32 => LDIndI32(ptr)
      case I64 => LDIndI64(ptr)
      case Isize => LDIndISize(ptr)
      case I128 => LdObj(ptr, ClassRefType(Int128Class)))
    case Uint(ut) => (
      match ut
      case U8 => LDIndU8(ptr)
      case U16 => LDIndU16(ptr)
      case U32 => LDIndU32(ptr)
      case U64 => LDIndU64(ptr)
      case Usize => LDIndUSize(ptr)
      case U128 => LdObj(ptr, ClassRefType(UInt128Class)))
    case Float(f) => if f == Rustc.F32 then LDIndF32(ptr) else LDIndF64(ptr)
    case Bool => LDIndBool(ptr)
    case Char => LDIndU32(ptr)
    case Adt(_, _, _) => LdObj(ptr, ctx.typeFromCache(t))
    case Tuple(_) => LdObj(ptr, ctx.typeFromCache(t))
    case Array(_, _) => LdObj(ptr, ctx.typeFromCache(t))
    case FnPtr => LdObj(ptr, ctx.typeFromCache(t))
    case Closure => LdObj(ptr, ctx.typeFromCache(t))
    case Ref(inner, _) =>
      if ctx.pointerToIsFat(inner) then LdObj(ptr, ctx.typeFromCache(t))
      else LDIndPtr(ptr, ctx.typeFromCache(t))
    case RawPtr(inner, _) =>
      if ctx.pointerToIsFat(inner) then LdObj(ptr, ctx.typeFromCache(t))
      else LDIndPtr(ptr, ctx.typeFromCache(t))
  }

  /** Every by-address type `deref_op` accepts (all but slices and `str`) is loaded as a whole object of its own type. */
  lemma ByAdressLoadsAsObject(t: Rustc.Ty, ctx: Ctx, ptr: CILNode)
    requires ByAdressDefined(t) && DerefDefined(Ty(t))
    requires BodyTyIsByAdress(t)
    ensures DerefOp(Ty(t), ctx, ptr) == LdObj(ptr, ctx.typeFromCache(t))
  {
  }

  /**
   * On the kinds both lowerings know, a type is handled by address exactly
   * when its legacy descriptor is an aggregate (tuple, struct, array, slice).
   */
  lemma ByAdressIffAggregateDescriptor(t: Rustc.Ty)
    requires ByAdressDefined(t) && Variable.Lowerable(t)
    ensures BodyTyIsByAdress(t) <==>
      var v := Variable.FromTy(t); v.Tuple? || v.Struct? || v.Array? || v.Slice?
  {
  }

  /** Taking the pointee of a reference agrees with the descriptor's pointee. */
  lemma PointedTypeAgreesWithDescriptor(t: Rustc.Ty)
    requires t.Ref? && Variable.Lowerable(t)
    ensures Variable.Lowerable(PointedType(Ty(t)))
    ensures Variable.GetPointedType(Variable.FromTy(t)) == Some(Variable.FromTy(PointedType(Ty(t))))
  {
  }

  // ---------------------------------------------------------------------
  // The projection fold
  // ---------------------------------------------------------------------

  /** The address computed so far and the type at that point. */
  datatype AddrState = AddrState(addr: CILNode, ty: PlaceTy)

  /** Before any projection: the local's body address and its monomorphized type. */
  function StartState(ctx: Ctx, local: nat): AddrState
  {
    var (addr, ty) := ctx.localBody(local);
    AddrState(addr, Ty(ctx.monomorphize(ty)))
  }

  /** One projection: the helper's new address and its type, monomorphized. */
  function BodyStep(ctx: Ctx, st: AddrState, elem: PlaceElem): AddrState
  {
    var (currTy, currOps) := ctx.placeElemBody(elem, st.ty, st.addr);
    AddrState(currOps, Monomorphize(currTy, ctx.monomorphize))
  }

  /** The projections applied left to right, each step consuming the previous address. */
  function FoldBody(ctx: Ctx, st: AddrState, body: seq<PlaceElem>): AddrState
    decreases |body|
  {
    if body == [] then st else FoldBody(ctx, BodyStep(ctx, st, body[0]), body[1..])
  }

  lemma {:induction false} FoldBodySnoc(ctx: Ctx, st: AddrState, body: seq<PlaceElem>, elem: PlaceElem)
    ensures FoldBody(ctx, st, body + [elem]) == BodyStep(ctx, FoldBody(ctx, st, body), elem)
    decreases |body|
  {
    if body == [] {
      assert ([] + [elem])[1..] == [];
    } else {
      assert (body + [elem])[1..] == body[1..] + [elem];
      FoldBodySnoc(ctx, BodyStep(ctx, st, body[0]), body[1..], elem);
    }
  }

  /** Folding over two runs of projections is folding over the first, then the second. */
  lemma {:induction false} FoldBodyAppend(ctx: Ctx, st: AddrState, a: seq<PlaceElem>, b: seq<PlaceElem>)
    ensures FoldBody(ctx, st, a + b) == FoldBody(ctx, FoldBody(ctx, st, a), b)
    decreases |a|
  {
    if a == [] {
      assert a + b == b;
    } else {
      assert (a + b)[1..] == a[1..] + b;
      FoldBodyAppend(ctx, BodyStep(ctx, st, a[0]), a[1..], b);
    }
  }

  /** The `for elem in body` loop shared by the three entry points. */
  method WalkBody(ctx: Ctx, start: AddrState, body: seq<PlaceElem>) returns (st: AddrState)
    ensures st == FoldBody(ctx, start, body)
  {
    st := start;
    var i := 0;
    while i < |body|
      invariant 0 <= i <= |body|
      invariant st == FoldBody(ctx, start, body[..i])
    {
      FoldBodySnoc(ctx, start, body[..i], body[i]);
      assert body[..i + 1] == body[..i] + [body[i]];
      var (currTy, currOps) := ctx.placeElemBody(body[i], st.ty, st.addr);
      st := AddrState(currOps, Monomorphize(currTy, ctx.monomorphize));
      i := i + 1;
    }
    assert body[..i] == body;
  }

  /** The state handed to the terminal step: the fold over all projections but the last. */
  function TerminalState(ctx: Ctx, place: Place): AddrState
    requires |place.projection| > 0
  {
    FoldBody(ctx, StartState(ctx, place.local), SliceHead(place.projection).1)
  }

  // ---------------------------------------------------------------------
  // Entry points
  // ---------------------------------------------------------------------

  /** The monomorphized type of the whole place. */
  function MonoPlaceTy(ctx: Ctx, place: Place): Rustc.Ty
  {
    ctx.monomorphize(ctx.placeTy(place))
  }

  /** The address of a zero-sized value: its preferred alignment, as a number. */
  function AlignConst(layout: Layout): CILNode
  {
    ConvUSize(LdcU64(layout.prefAlign))
  }

  function PlaceAdressSpec(ctx: Ctx, place: Place): CILNode
  {
    var placeTy := MonoPlaceTy(ctx, place);
    var layout := ctx.layoutOf(placeTy);
    if layout.isZst then
      TransmutePtr(AlignConst(layout), Ptr(ctx.typeFromCache(placeTy)))
    else if place.projection == [] then
      ctx.localAdress(place.local)
    else
      var st := TerminalState(ctx, place);
      ctx.placeElemAdress(SliceHead(place.projection).0, st.ty, placeTy, st.addr)
  }

  function PlaceAddressRawSpec(ctx: Ctx, place: Place): CILNode
  {
    var placeTy := MonoPlaceTy(ctx, place);
    var layout := ctx.layoutOf(placeTy);
    if layout.isZst then
      AlignConst(layout)
    else if place.projection == [] then
      ctx.localAdress(place.local)
    else if |place.projection| == 1 && SliceHead(place.projection).0 == Deref then
      ctx.localAdress(place.local)
    else
      var st := TerminalState(ctx, place);
      ctx.placeElemAdress(SliceHead(place.projection).0, st.ty, placeTy, st.addr)
  }

  function PlaceSetSpec<Root>(
    ctx: Ctx, place: Place, valueCalc: CILNode,
    localSet: (nat, CILNode) -> Root,
    placeElemSet: (PlaceElem, PlaceTy, CILNode, CILNode) -> Root): Root
  {
    if place.projection == [] then
      localSet(place.local, valueCalc)
    else
      var st := TerminalState(ctx, place);
      placeElemSet(SliceHead(place.projection).0, Monomorphize(st.ty, ctx.monomorphize), st.addr, valueCalc)
  }

  /** The address of a place. */
  method PlaceAdress(place: Place, ctx: Ctx) returns (addr: CILNode)
    ensures addr == PlaceAdressSpec(ctx, place)
  {
    var placeTy := ctx.monomorphize(ctx.placeTy(place));
    var layout := ctx.layoutOf(placeTy);
    if layout.isZst {
      var placeType := ctx.typeFromCache(placeTy);
      return TransmutePtr(ConvUSize(LdcU64(layout.prefAlign)), Ptr(placeType));
    }
    if place.projection == [] {
      addr := ctx.localAdress(place.local);
    } else {
      var (head, body) := SliceHead(place.projection);
      var st := WalkBody(ctx, StartState(ctx, place.local), body);
      addr := ctx.placeElemAdress(head, st.ty, placeTy, st.addr);
    }
  }

  /** The address of a place, without following a lone dereference and without the pointer cast for zero-sized values. */
  method PlaceAddressRaw(place: Place, ctx: Ctx) returns (addr: CILNode)
    ensures addr == PlaceAddressRawSpec(ctx, place)
  {
    var placeTy := ctx.monomorphize(ctx.placeTy(place));
    var layout := ctx.layoutOf(placeTy);
    if layout.isZst {
      return ConvUSize(LdcU64(layout.prefAlign));
    }
    if place.projection == [] {
      addr := ctx.localAdress(place.local);
    } else if |place.projection| == 1 && SliceHead(place.projection).0 == Deref {
      return ctx.localAdress(place.local);
    } else {
      var (head, body) := SliceHead(place.projection);
      var st := WalkBody(ctx, StartState(ctx, place.local), body);
      addr := ctx.placeElemAdress(head, st.ty, placeTy, st.addr);
    }
  }

  /** The statement that stores `valueCalc` into a place. */
  method PlaceSet<Root>(
    place: Place, valueCalc: CILNode, ctx: Ctx,
    localSet: (nat, CILNode) -> Root,
    placeElemSet: (PlaceElem, PlaceTy, CILNode, CILNode) -> Root)
    returns (root: Root)
    ensures root == PlaceSetSpec(ctx, place, valueCalc, localSet, placeElemSet)
  {
    if place.projection == [] {
      root := localSet(place.local, valueCalc);
    } else {
      var (addrCalc, ty) := ctx.localBody(place.local);
      var placeTy := Monomorphize(From(ty), ctx.monomorphize);
      var (head, body) := SliceHead(place.projection);
      var st := WalkBody(ctx, AddrState(addrCalc, placeTy), body);
      var finalTy := Monomorphize(st.ty, ctx.monomorphize);
      root := placeElemSet(head, finalTy, st.addr, valueCalc);
    }
  }

  // ---------------------------------------------------------------------
  // Properties of the entry points
  // ---------------------------------------------------------------------

  /**
   * A zero-sized place's address is its type's preferred alignment cast to a
   * pointer: it depends only on the place's type, not on the local or the
   * projections.
   */
  lemma ZstAdressIsAlignment(ctx: Ctx, p1: Place, p2: Place)
    requires MonoPlaceTy(ctx, p1) == MonoPlaceTy(ctx, p2)
    requires ctx.layoutOf(MonoPlaceTy(ctx, p1)).isZst
    ensures PlaceAdressSpec(ctx, p1) == PlaceAdressSpec(ctx, p2)
    ensures PlaceAdressSpec(ctx, p1) ==
      TransmutePtr(ConvUSize(LdcU64(ctx.layoutOf(MonoPlaceTy(ctx, p1)).prefAlign)),
                   Ptr(ctx.typeFromCache(MonoPlaceTy(ctx, p1))))
  {
  }

  /** For a zero-sized place the raw address is the bare alignment, without the pointer cast. */
  lemma ZstRawAddressIsUncast(ctx: Ctx, place: Place)
    requires ctx.layoutOf(MonoPlaceTy(ctx, place)).isZst
    ensures PlaceAdressSpec(ctx, place) ==
      TransmutePtr(PlaceAddressRawSpec(ctx, place), Ptr(ctx.typeFromCache(MonoPlaceTy(ctx, place))))
  {
  }

  /** A lone dereference: the raw address is the address of the pointer's own slot. */
  lemma RawAddressOfLoneDeref(ctx: Ctx, local: nat)
    requires !ctx.layoutOf(MonoPlaceTy(ctx, Place(local, [Deref]))).isZst
    ensures PlaceAddressRawSpec(ctx, Place(local, [Deref])) == ctx.localAdress(local)
    ensures PlaceAdressSpec(ctx, Place(local, [Deref])) ==
      ctx.placeElemAdress(Deref, StartState(ctx, local).ty,
                          MonoPlaceTy(ctx, Place(local, [Deref])), StartState(ctx, local).addr)
  {
    assert SliceHead([Deref]).1 == [];
  }

  /** Except for zero-sized places and a lone dereference, the raw address is the address. */
  lemma RawAddressAgreesElsewhere(ctx: Ctx, place: Place)
    requires !ctx.layoutOf(MonoPlaceTy(ctx, place)).isZst
    requires place.projection != [Deref]
    ensures PlaceAddressRawSpec(ctx, place) == PlaceAdressSpec(ctx, place)
  {
  }

  /**
   * Adding a projection runs one more body step on the address the shorter
   * place's fold reached, then applies the terminal step to the new last
   * projection.
   */
  lemma AdressOfExtendedPlace(ctx: Ctx, local: nat, proj: seq<PlaceElem>, elem: PlaceElem)
    requires |proj| > 0
    ensures var st := TerminalState(ctx, Place(local, proj));
      TerminalState(ctx, Place(local, proj + [elem])) == BodyStep(ctx, st, proj[|proj| - 1])
  {
    assert SliceHead(proj + [elem]).1 == proj;
    assert proj == SliceHead(proj).1 + [proj[|proj| - 1]];
    FoldBodySnoc(ctx, StartState(ctx, local), SliceHead(proj).1, proj[|proj| - 1]);
  }

  /** `place_set` has no zero-sized special case: the layout query does not affect it. */
  lemma PlaceSetIgnoresLayout<Root>(
    ctx: Ctx, place: Place, valueCalc: CILNode, layout: Rustc.Ty -> Layout,
    localSet: (nat, CILNode) -> Root,
    placeElemSet: (PlaceElem, PlaceTy, CILNode, CILNode) -> Root)
    ensures PlaceSetSpec(ctx.(layoutOf := layout), place, valueCalc, localSet, placeElemSet) ==
            PlaceSetSpec(ctx, place, valueCalc, localSet, placeElemSet)
    ensures place.projection == [] ==>
      PlaceSetSpec(ctx, place, valueCalc, localSet, placeElemSet) == localSet(place.local, valueCalc)
  {
    if place.projection != [] {
      assert TerminalState(ctx.(layoutOf := layout), place) == TerminalState(ctx, place) by {
        FoldBodyIgnoresLayout(ctx, layout, StartState(ctx, place.local), SliceHead(place.projection).1);
      }
    }
  }

  lemma {:induction false} FoldBodyIgnoresLayout(ctx: Ctx, layout: Rustc.Ty -> Layout, st: AddrState, body: seq<PlaceElem>)
    ensures FoldBody(ctx.(layoutOf := layout), st, body) == FoldBody(ctx, st, body)
    decreases |body|
  {
    if body != [] {
      FoldBodyIgnoresLayout(ctx, layout, BodyStep(ctx, st, body[0]), body[1..]);
    }
  }
}
