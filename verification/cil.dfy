/**
 * The part of the backend's instruction tree (`cilly::cil_node::CILNode`)
 * and of its type vocabulary (`cilly::Type`, `ClassRef`, `MethodRef`,
 * `FieldDesc`) that place and unary-operator lowering build. Interned
 * handles (`alloc_string`, `alloc_methodref`, `alloc_field`, `sig`) are
 * represented by the values they intern.
 */
module Cil {

  /** Primitive integer types of the target (`cilly::v2::Int`). */
  datatype IntKind = I8 | I16 | I32 | I64 | I128 | ISize | U8 | U16 | U32 | U64 | U128 | USize

  /** A reference to a .NET class or value type. */
  datatype ClassRef =
    | Int128Class     // [System.Runtime]System.Int128
    | UInt128Class    // [System.Runtime]System.UInt128
    | Named(name: string)

  datatype Type =
    | Int(intKind: IntKind)
    | ClassRefType(classRef: ClassRef)
    | Ptr(pointed: Type)
    | Float32
    | Float64
    | BoolType
    | Void

  datatype MethodKind = Static | Instance | Virtual | Constructor

  datatype FnSig = FnSig(inputs: seq<Type>, output: Type)

  datatype MethodRef = MethodRef(classRef: ClassRef, name: string, sig: FnSig, kind: MethodKind, generics: seq<Type>)

  datatype FieldDesc = FieldDesc(owner: ClassRef, name: string, fieldType: Type)

  datatype CILNode =
    // typed loads through a pointer (ldind.*)
    | LDIndI8(ptr: CILNode)
    | LDIndI16(ptr: CILNode)
    | LDIndI32(ptr: CILNode)
    | LDIndI64(ptr: CILNode)
    | LDIndISize(ptr: CILNode)
    | LDIndU8(ptr: CILNode)
    | LDIndU16(ptr: CILNode)
    | LDIndU32(ptr: CILNode)
    | LDIndU64(ptr: CILNode)
    | LDIndUSize(ptr: CILNode)
    | LDIndF32(ptr: CILNode)
    | LDIndF64(ptr: CILNode)
    | LDIndBool(ptr: CILNode)
    /** Loads a thin pointer whose own type is `loadedPtr`. */
    | LDIndPtr(ptr: CILNode, loadedPtr: Type)
    /** Loads a whole value of type `obj` (ldobj). */
    | LdObj(ptr: CILNode, obj: Type)
    | TransmutePtr(val: CILNode, newPtr: Type)
    | ConvUSize(val: CILNode)
    | LdcU64(value: nat)
    | LdFalse
    | Neg(val: CILNode)
    | Not(val: CILNode)
    | ConvI8(val: CILNode)
    | ConvI16(val: CILNode)
    | Eq(lhs: CILNode, rhs: CILNode)
    | Call(site: MethodRef, args: seq<CILNode>)
    | LdField(addr: CILNode, field: FieldDesc)

  /** The nodes that read a value through the pointer `ptr`. */
  predicate IsLoad(n: CILNode)
  {
    n.LDIndI8? || n.LDIndI16? || n.LDIndI32? || n.LDIndI64? || n.LDIndISize? ||
    n.LDIndU8? || n.LDIndU16? || n.LDIndU32? || n.LDIndU64? || n.LDIndUSize? ||
    n.LDIndF32? || n.LDIndF64? || n.LDIndBool? || n.LDIndPtr? || n.LdObj?
  }
}
