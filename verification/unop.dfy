/**
 * Unary-operator lowering (src/unop.rs): a case split on the operator and
 * the operand's type that wraps the already lowered operand in a node tree.
 *
 * The operand's lowering (`handle_operand`) and its type (`operand.ty`) are
 * inputs; `get_type` is a parameter.
 */
module Unop {

  import Rustc
  import Cil
  import opened Wrappers

  datatype UnOp = Neg | Not | PtrMetadata

  /** The name of the metadata field of a fat pointer. */
  const MetadataField: string := "metadata"

  /** The target type of a 128-bit operand. */
  function Wide(ty: Rustc.Ty): Cil.Type
    requires Rustc.Is128(ty)
  {
    if ty.Int? then Cil.Int(Cil.I128) else Cil.Int(Cil.U128)
  }

  /** The runtime class implementing a 128-bit operand's operators. */
  function WideClass(ty: Rustc.Ty): Cil.ClassRef
    requires Rustc.Is128(ty)
  {
    if ty.Int? then Cil.Int128Class else Cil.UInt128Class
  }

  /** A static call of the 128-bit operator `name`, of type `(T) -> T`, on `x`. */
  function WideCall(ty: Rustc.Ty, name: string, x: Cil.CILNode): Cil.CILNode
    requires Rustc.Is128(ty)
  {
    Cil.Call(Cil.MethodRef(WideClass(ty), name, Cil.FnSig([Wide(ty)], Wide(ty)), Cil.Static, []), [x])
  }

  /** `PtrMetadata` needs the operand's lowered type to be a class reference ("Invalid pointer type"). */
  predicate Lowerable(op: UnOp, ty: Rustc.Ty, getType: Rustc.Ty -> Cil.Type)
  {
    op == PtrMetadata ==> getType(ty).ClassRefType?
  }

  /** `unop`: the node computing `op` on the lowered operand `x` of type `ty`. */
  function Unop(op: UnOp, ty: Rustc.Ty, x: Cil.CILNode, getType: Rustc.Ty -> Cil.Type): (r: Cil.CILNode)
    requires Lowerable(op, ty, getType)
    // 128-bit arithmetic goes through the runtime's operator methods
    ensures r.Call? <==> op != PtrMetadata && Rustc.Is128(ty)
    ensures r.Call? ==>
      r.args == [x] && r.site.kind == Cil.Static && r.site.generics == [] &&
      r.site.classRef == WideClass(ty) &&
      r.site.sig.inputs == [Wide(ty)] && r.site.sig.output == Wide(ty) &&
      r.site.name == (if op == Neg then "op_UnaryNegation" else "op_OnesComplement")
    // negation: narrow signed integers are widened first
    ensures op == Neg && !Rustc.Is128(ty) ==>
      r == (if ty == Rustc.Int(Rustc.I8) then Cil.Neg(Cil.ConvI8(x))
            else if ty == Rustc.Int(Rustc.I16) then Cil.Neg(Cil.ConvI16(x))
            else Cil.Neg(x))
    // logical not on bool is a comparison with false; elsewhere a bitwise not
    ensures op == Not && !Rustc.Is128(ty) ==>
      r == (if ty == Rustc.Bool then Cil.Eq(Cil.LdFalse, x) else Cil.Not(x))
    // pointer metadata is a native-size field of the pointer's class
    ensures op == PtrMetadata ==>
      r == Cil.LdField(x, Cil.FieldDesc(getType(ty).classRef, MetadataField, Cil.Int(Cil.USize)))
  {
    match op
    case Neg =>
      if ty == Rustc.Int(Rustc.I128) then WideCall(ty, "op_UnaryNegation", x)
      else if ty == Rustc.Int(Rustc.I8) then Cil.Neg(Cil.ConvI8(x))
      else if ty == Rustc.Int(Rustc.I16) then Cil.Neg(Cil.ConvI16(x))
      else if ty == Rustc.Uint(Rustc.U128) then WideCall(ty, "op_UnaryNegation", x)
      else Cil.Neg(x)
    case Not =>
      if ty == Rustc.Bool then Cil.Eq(Cil.LdFalse, x)
      else if ty == Rustc.Uint(Rustc.U128) then WideCall(ty, "op_OnesComplement", x)
      else if ty == Rustc.Int(Rustc.I128) then WideCall(ty, "op_OnesComplement", x)
      else Cil.Not(x)
    case PtrMetadata =>
      Cil.LdField(x, Cil.FieldDesc(getType(ty).classRef, MetadataField, Cil.Int(Cil.USize)))
  }

  // ---------------------------------------------------------------------
  // The operand appears exactly once, in one fixed position
  // ---------------------------------------------------------------------

  /** A node tree with exactly one hole. */
  datatype Context =
    | Hole
    | NegOf(inner: Context)
    | NotOf(inner: Context)
    | ConvI8Of(inner: Context)
    | ConvI16Of(inner: Context)
    | EqRight(lhs: Cil.CILNode, inner: Context)
    | SoleArg(site: Cil.MethodRef, inner: Context)
    | LdFieldOf(inner: Context, field: Cil.FieldDesc)

  function Fill(c: Context, x: Cil.CILNode): Cil.CILNode
  {
    match c
    case Hole => x
    case NegOf(inner) => Cil.Neg(Fill(inner, x))
    case NotOf(inner) => Cil.Not(Fill(inner, x))
    case ConvI8Of(inner) => Cil.ConvI8(Fill(inner, x))
    case ConvI16Of(inner) => Cil.ConvI16(Fill(inner, x))
    case EqRight(lhs, inner) => Cil.Eq(lhs, Fill(inner, x))
    case SoleArg(site, inner) => Cil.Call(site, [Fill(inner, x)])
    case LdFieldOf(inner, field) => Cil.LdField(Fill(inner, x), field)
  }

  /** The node sitting in the hole of `c`, when `n` has the shape of `c`. */
  function Unplug(c: Context, n: Cil.CILNode): Option<Cil.CILNode>
  {
    match c
    case Hole => Some(n)
    case NegOf(inner) => if n.Neg? then Unplug(inner, n.val) else None
    case NotOf(inner) => if n.Not? then Unplug(inner, n.val) else None
    case ConvI8Of(inner) => if n.ConvI8? then Unplug(inner, n.val) else None
    case ConvI16Of(inner) => if n.ConvI16? then Unplug(inner, n.val) else None
    case EqRight(lhs, inner) => if n.Eq? && n.lhs == lhs then Unplug(inner, n.rhs) else None
    case SoleArg(site, inner) =>
      if n.Call? && n.site == site && |n.args| == 1 then Unplug(inner, n.args[0]) else None
    case LdFieldOf(inner, field) => if n.LdField? && n.field == field then Unplug(inner, n.addr) else None
  }

  /** Filling a hole and reading it back gives the filler. */
  lemma {:induction false} UnplugFill(c: Context, x: Cil.CILNode)
    ensures Unplug(c, Fill(c, x)) == Some(x)
  {
    match c
    case Hole =>
    case NegOf(inner) => UnplugFill(inner, x);
    case NotOf(inner) => UnplugFill(inner, x);
    case ConvI8Of(inner) => UnplugFill(inner, x);
    case ConvI16Of(inner) => UnplugFill(inner, x);
    case EqRight(_, inner) => UnplugFill(inner, x);
    case SoleArg(_, inner) => UnplugFill(inner, x);
    case LdFieldOf(inner, _) => UnplugFill(inner, x);
  }

  /** A node read back from a hole is the one filling it. */
  lemma {:induction false} FillUnplug(c: Context, n: Cil.CILNode)
    requires Unplug(c, n).Some?
    ensures Fill(c, Unplug(c, n).value) == n
  {
    match c
    case Hole =>
    case NegOf(inner) => FillUnplug(inner, n.val);
    case NotOf(inner) => FillUnplug(inner, n.val);
    case ConvI8Of(inner) => FillUnplug(inner, n.val);
    case ConvI16Of(inner) => FillUnplug(inner, n.val);
    case EqRight(_, inner) => FillUnplug(inner, n.rhs);
    case SoleArg(_, inner) =>
      FillUnplug(inner, n.args[0]);
      assert [n.args[0]] == n.args;
    case LdFieldOf(inner, _) => FillUnplug(inner, n.addr);
  }

  /** The context each arm of `unop` puts the operand in; it does not depend on the operand. */
  function UnopContext(op: UnOp, ty: Rustc.Ty, getType: Rustc.Ty -> Cil.Type): Context
    requires Lowerable(op, ty, getType)
  {
    match op
    case Neg =>
      if Rustc.Is128(ty) then SoleArg(Cil.MethodRef(WideClass(ty), "op_UnaryNegation", Cil.FnSig([Wide(ty)], Wide(ty)), Cil.Static, []), Hole)
      else if ty == Rustc.Int(Rustc.I8) then NegOf(ConvI8Of(Hole))
      else if ty == Rustc.Int(Rustc.I16) then NegOf(ConvI16Of(Hole))
      else NegOf(Hole)
    case Not =>
      if Rustc.Is128(ty) then SoleArg(Cil.MethodRef(WideClass(ty), "op_OnesComplement", Cil.FnSig([Wide(ty)], Wide(ty)), Cil.Static, []), Hole)
      else if ty == Rustc.Bool then EqRight(Cil.LdFalse, Hole)
      else NotOf(Hole)
    case PtrMetadata =>
      LdFieldOf(Hole, Cil.FieldDesc(getType(ty).classRef, MetadataField, Cil.Int(Cil.USize)))
  }

  /**
   * Every arm places the lowered operand exactly once, in a position fixed by
   * the operator and the type alone, so the operand can be read back from the
   * result and different operands give different results.
   */
  lemma UnopPlacesOperandOnce(op: UnOp, ty: Rustc.Ty, x: Cil.CILNode, y: Cil.CILNode, getType: Rustc.Ty -> Cil.Type)
    requires Lowerable(op, ty, getType)
    ensures Unop(op, ty, x, getType) == Fill(UnopContext(op, ty, getType), x)
    ensures Unplug(UnopContext(op, ty, getType), Unop(op, ty, x, getType)) == Some(x)
    ensures Unop(op, ty, x, getType) == Unop(op, ty, y, getType) <==> x == y
  {
    var c := UnopContext(op, ty, getType);
    UnopIsFill(op, ty, x, getType);
    UnopIsFill(op, ty, y, getType);
    UnplugFill(c, x);
    UnplugFill(c, y);
  }

  /** Each arm of `unop` is its context filled with the operand. */
  lemma UnopIsFill(op: UnOp, ty: Rustc.Ty, x: Cil.CILNode, getType: Rustc.Ty -> Cil.Type)
    requires Lowerable(op, ty, getType)
    ensures Unop(op, ty, x, getType) == Fill(UnopContext(op, ty, getType), x)
  {
    assert Fill(ConvI8Of(Hole), x) == Cil.ConvI8(x);
    assert Fill(ConvI16Of(Hole), x) == Cil.ConvI16(x);
  }
}
