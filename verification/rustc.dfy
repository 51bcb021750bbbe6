/**
 * The host compiler's view of a source type, reduced to what the backend
 * inspects: the type kind (`TyKind`) and, recursively, the kinds of the
 * types it is built from. A `Ty` stands for an interned `rustc_middle::ty::Ty`
 * whose `kind()` is this value. Regions (lifetimes) are not represented: no
 * lowering in this model looks at them.
 */
module Rustc {

  datatype IntTy = I8 | I16 | I32 | I64 | I128 | Isize

  datatype UintTy = U8 | U16 | U32 | U64 | U128 | Usize

  datatype FloatTy = F16 | F32 | F64 | F128

  datatype Mutability = Not | Mut

  datatype AdtKind = Struct | Union | Enum

  datatype Ty =
    | Int(intTy: IntTy)
    | Uint(uintTy: UintTy)
    | Float(floatTy: FloatTy)
    | Bool
    | Char
    | Str
    | Foreign
    | Array(element: Ty, length: nat)
    | Slice(element: Ty)
    /** `name` is the ADT's debug name; `args` are its generic arguments. */
    | Adt(name: string, adtKind: AdtKind, args: seq<Ty>)
    | RawPtr(pointee: Ty, mutability: Mutability)
    | Ref(pointee: Ty, mutability: Mutability)
    | FnPtr
    | FnDef
    | Closure
    | Dynamic
    | Generator
    | Never
    | Tuple(elements: seq<Ty>)
    | Alias
    | Param(paramName: string)
    | Bound
    | Placeholder
    | Infer
    | Error

  /** The two 128-bit integer types, which the backend handles through runtime value types. */
  predicate Is128(t: Ty)
  {
    t == Int(I128) || t == Uint(U128)
  }
}
