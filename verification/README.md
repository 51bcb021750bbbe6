# rustc_codegen_clr lowering core, modelled in Dafny

rustc_codegen_clr is a Rust compiler backend that emits .NET CIL. This
project models four pieces of its lowering core and proves properties of
them:

- **The legacy type descriptor** (`src/variable.rs`). `VariableType` is a
  closed sum type. `from_ty` lowers a source type kind to it. `deref_op`,
  `set_pointed_op` and `sizeof_op` choose the `ldind.*`/`ldobj`,
  `stind.*`/`stobj` and `sizeof` opcodes of ECMA-335 Partition III.
  `il_name` and `arg_name` build the canonical CIL type names. The tuple-name
  loop is a method proved against a comma-join function. `FromTy` is
  `from_ty` as written, where every generic parameter gets the one name
  `inner:?`; `FromTyCorrected` names each parameter after itself. Both share
  one traversal, `LowerWith`, and agree on every type without parameters.
- **Place lowering** (`src/place/mod.rs`). This covers the load chosen for a
  pointee kind (`deref_op`), the by-address classification, the two-case
  `PlaceTy`, and the three entry points `place_adress`, `place_address_raw`
  and `place_set`. All three run one loop over every projection but the
  last, then a terminal step. The loop is a method (`WalkBody`) proved equal
  to a left fold (`FoldBody`). Compiler queries (`place.ty`, `monomorphize`,
  `layout_of`, `type_from_cache`, `pointer_to_is_fat`) and the helpers
  `local_adress`, `local_body`, `place_elem_body` and `place_elem_adress` are
  the fields of a `Ctx` value. The two helpers only `place_set` calls,
  `local_set` and `place_elem_set`, are function parameters of `PlaceSet`
  and `PlaceSetSpec`. All of them are uninterpreted total functions.
- **Basic blocks** (`cilly/src/v2/basic_block.rs`). A block is a tree of
  root-handle lists with optional handler blocks. The model covers its
  pre-order traversal, the "meaningful root" filter, and the two shape
  queries `is_direct_jump` and `is_only_rethrow`. `map_roots` rewrites every
  handle through the interning arena. That arena is the class `Assembly`:
  a handle-to-root map plus its inverse, and `AllocRoot` gives back the
  existing handle for an equal root.
- **Unary-operator lowering** (`src/unop.rs`). This is the case split on
  operator and operand type. Every arm is shown to put the operand into a
  one-hole context that depends only on the operator and the type.

Files: `wrappers.dfy` (Option), `rustc.dfy` (source type kinds),
`cil.dfy` (the instruction and type vocabulary built by place and unary
lowering), `variable.dfy`, `place.dfy`, `basic_block.dfy`, `unop.dfy`.

`todo!`, `panic!`, `assert!` and `expect` failures are preconditions,
named by predicates: `Variable.Lowerable`, `Variable.Nameable`,
`Variable.HasPointedOps`, `Place.DerefDefined`, `Place.ByAdressDefined`,
`Place.IsPointer`, `BasicBlocks.Resolves` and `Unop.Lowerable`.

## Model

| member | source | states |
|---|---|---|
| Variable.PrefixIl | src/variable.rs:12-19 | the only prefix is written `valuetype` |
| Variable.IlName | src/variable.rs:198-251 | the canonical name of a descriptor; it is empty only when it is a user-supplied generic or struct name |
| Variable.IsVoid | src/variable.rs:85-87 | holds for `Void` and nothing else |
| Variable.StripQuotes | src/variable.rs:222 | the result holds no quote and has every other character of the input, each as many times as in the input |
| Variable.StripQuotesAppend | src/variable.rs:222 | stripping distributes over concatenation, so the kept characters stay in their order |
| Variable.StripQuotesOneChar | src/variable.rs:222 | a lone quote is dropped, any other lone character is kept |
| Variable.StripQuotesIdempotent | src/variable.rs:222 | stripping a stripped name changes nothing |
| Variable.NatToString | src/variable.rs:221 | a length is rendered as non-empty decimal digits, without a leading zero, whose decimal value is the length, so different lengths give different names |
| Variable.ElementNames | src/variable.rs:236-243 | one name per tuple element, in element order, each the element's `il_name` |
| Variable.TupleInner | src/variable.rs:235-243 | the push loop builds exactly the comma-join of the element names |
| Variable.CommaJoinSnoc | src/variable.rs:240-243 | each further element appends `,` and its name to the join so far |
| Variable.CommaJoinSplits | src/variable.rs:235-243 | for comma-free names, splitting the joined string at commas gives the names back: none lost, merged or reordered |
| Variable.TupleNameDeterminesElements | src/variable.rs:231-247 | two tuples whose element names hold no comma and whose names are equal have the same arity and the same element names in the same order; a tuple-typed element's name holds a comma, so tuples of tuples are not covered |
| Variable.TupleArityBoundary | src/variable.rs:231-234 | a tuple has a name iff it has at most 7 elements; the 7-element name has arity `7` |
| Variable.GetPrefix | src/variable.rs:180-185 | a prefix exists iff the descriptor is a tuple |
| Variable.ArgName | src/variable.rs:186-197 | `"valuetype " + il_name` for tuples, `il_name` for every other descriptor |
| Variable.RefNamesIgnoreMutability | src/variable.rs:217-218 | `Ref t` and `RefMut t` have the same name, the pointee's name followed by `*` |
| Variable.ArrayNameQuotesOnlyAtEnds | src/variable.rs:220-224 | an array name starts and ends with a quote and holds no other quote |
| Variable.SliceNameQuotesOnlyAtEnds | src/variable.rs:225-229 | a slice name starts and ends with a quote and holds no other quote |
| Variable.DerefOp | src/variable.rs:49-60 | a load; width equal to the scalar's byte size (4 for `I32`, 8 for `I64`); a float load iff `F32`/`F64`; `LDIndI` iff a reference; `LDObj` iff `Struct`/`Array`, named by the type's `il_name` |
| Variable.SetPointedOp | src/variable.rs:73-84 | the store that writes back what `DerefOp` reads, on the same descriptors |
| Variable.SizeofOpAsWritten | src/variable.rs:61-72 | as written: `LDIndI` for references, the corrected size op elsewhere |
| Variable.SizeofOpAsWrittenLoadsForReferences | src/variable.rs:63 | for `Ref(I32)` the op is not a size op, and for `RefMut(F64)` it is a load |
| Variable.SizeofOp | src/variable.rs:61-72 | always a size op: the scalar's byte size as a constant, `sizeof` of the `LDObj` name for structs and arrays, `sizeof native int` for references |
| Variable.LoadStoreAndSizeAgree | src/variable.rs:49-84 | for scalars, load width, store width and size constant are one and the same byte size |
| Variable.GetPointedType | src/variable.rs:88-94 | `Some` exactly for `Ref`/`RefMut`, holding the pointee |
| Variable.LowerWith | src/variable.rs:97-178 | the traversal of `from_ty`, with the parameter naming as an argument; the descriptor is `Void` exactly for the empty tuple |
| Variable.FromTy | src/variable.rs:95-179 | `from_ty` as written, parameters named `inner:?`; the descriptor is `Void` exactly for the empty tuple |
| Variable.FromTyVoid | src/variable.rs:153-156 | `is_void` of a lowered type holds iff the type is the empty tuple |
| Variable.FromTyTuple | src/variable.rs:153-164 | a non-empty tuple lowers to a `Tuple` of the same length, element by element in order |
| Variable.FromTyRefPointee | src/variable.rs:142-149 | the pointee of a lowered reference is the lowered pointee; `RefMut` iff the reference is mutable |
| Variable.LowerRoundTrip | src/variable.rs:97-178 | reading back the descriptor gives the input with ADT generic arguments dropped and parameters renamed as the naming does |
| Variable.FromTyRoundTrip | src/variable.rs:97-178 | as written, reading back gives the input with ADT generic arguments dropped and every parameter renamed `inner:?`; for a type without parameters, the input with only the ADT arguments dropped |
| Variable.FromTyInjective | src/variable.rs:98-174 | as written, equal descriptors mean types equal up to ADT generic arguments and parameter names; without parameters, equal up to ADT arguments, so each integer width, float width, bool and mutability gets its own descriptor |
| Variable.FromTyAgreesWithoutParams | src/variable.rs:97-178 | on a type without generic parameters, the lowering as written and the corrected lowering give the same descriptor |
| Variable.FromTyParamsCollide | src/variable.rs:174 | as written, parameters `T` and `U` get the same descriptor `Generic("inner:?")` and the same name; corrected, they get different descriptors |
| Variable.FromTyCorrected | src/variable.rs:174 | corrected: `from_ty` naming each parameter after itself; `Void` exactly for the empty tuple |
| Variable.FromTyCorrectedRoundTrip | src/variable.rs:97-178 | corrected, reading back gives the input with only ADT generic arguments dropped |
| Variable.FromTyCorrectedInjective | src/variable.rs:97-178 | corrected, equal descriptors mean types equal up to ADT generic arguments |
| Place.SliceHead | src/place/mod.rs:21-25 | for a non-empty sequence, prefix followed by last is the sequence |
| Place.PointedType | src/place/mod.rs:26-38 | the pointee of a `Ref` or `RawPtr`; no other `PlaceTy` is accepted |
| Place.PointedTypeAgreesWithDescriptor | src/place/mod.rs:26-38 | the pointee of a reference agrees with the legacy descriptor's `get_pointed_type` |
| Place.BodyTyIsByAdress | src/place/mod.rs:39-65 | true for non-empty tuples, ADTs, closures, arrays, slices and `str`; false for the empty tuple, integers, floats, references, raw pointers, bool and char |
| Place.ByAdressIffAggregateDescriptor | src/place/mod.rs:39-65 | on the kinds both lowerings know, by-address iff the legacy descriptor is a tuple, struct, array or slice |
| Place.DerefOp | src/place/mod.rs:68-156 | a load whose operand is `ptr` unchanged; `LdObj` exactly for compound pointees, 128-bit integers and fat pointers; `LDIndPtr` exactly for thin pointers; the loaded type is the primitive's own width and signedness (i128/u128 as the 128-bit value types, char as u32, bool as bool), the cached type for pointers, and `LdObj` of the cached type for compound pointees |
| Place.ByAdressLoadsAsObject | src/place/mod.rs:109-120 | every by-address type `deref_op` accepts (all but slices and `str`, on which it panics) is loaded with `LdObj` of its own type |
| Place.From | src/place/mod.rs:254-258 | a `PlaceTy` tagged `Ty` whose underlying type is the given type |
| Place.Kind | src/place/mod.rs:272-279 | the underlying type: the type itself, or the enum of an enum variant |
| Place.Monomorphize | src/place/mod.rs:260-265 | the tag and the variant index are kept; the underlying type is monomorphized |
| Place.AsTy | src/place/mod.rs:266-271 | `Some` iff the tag is `Ty`, holding the underlying type |
| Place.PlaceTyRoundTrip | src/place/mod.rs:254-279 | `as_ty` gives back a type exactly from the `PlaceTy` built from it by `from`; `as_ty` commutes with monomorphizing |
| Place.FoldBodySnoc | src/place/mod.rs:180-184 | one more projection is one more step on the state reached so far |
| Place.FoldBodyAppend | src/place/mod.rs:180-184 | folding over two runs of projections is folding over the first, then the second |
| Place.WalkBody | src/place/mod.rs:180-184 | the loop ends in the left fold of the per-projection step |
| Place.PlaceAdress | src/place/mod.rs:159-188 | the ZST, empty-projection and fold-then-terminal cases of `place_adress` |
| Place.PlaceAddressRaw | src/place/mod.rs:190-225 | the cases of `place_address_raw`, including a lone `Deref` |
| Place.PlaceSet | src/place/mod.rs:226-248 | `local_set` for an empty projection, else the fold and `place_elem_set` on the last projection |
| Place.ZstAdressIsAlignment | src/place/mod.rs:163-170 | a ZST place's address is its preferred alignment cast to a pointer, the same for every place of that type |
| Place.ZstRawAddressIsUncast | src/place/mod.rs:197-200 | for a ZST place the raw address is the address without the pointer cast |
| Place.RawAddressOfLoneDeref | src/place/mod.rs:203-210 | for a lone `Deref` the raw address is the local's own address, while `place_adress` goes through the terminal step |
| Place.RawAddressAgreesElsewhere | src/place/mod.rs:194-225 | outside ZST places and a lone `Deref`, the raw address is the address |
| Place.AdressOfExtendedPlace | src/place/mod.rs:174-186 | one more projection runs one more body step on the previous last projection |
| Place.PlaceSetIgnoresLayout | src/place/mod.rs:226-248 | `place_set` does not depend on the layout query (no ZST case); an empty projection gives `local_set` |
| BasicBlocks.New | cilly/src/v2/basic_block.rs:14-30 | `roots`, `block_id` and `handler` read back the constructor's arguments |
| BasicBlocks.IterRoots | cilly/src/v2/basic_block.rs:31-37 | pre-order: the traversal starts with the block's own roots, and is exactly them when there is no handler |
| BasicBlocks.IterRootsLength | cilly/src/v2/basic_block.rs:31-37 | the traversal's length is the own-root count plus the handlers' counts, recursively |
| BasicBlocks.IterAllAppend | cilly/src/v2/basic_block.rs:33 | the traversal of a list of handler blocks distributes over concatenation |
| BasicBlocks.RemoveHandler | cilly/src/v2/basic_block.rs:112-114 | no handler; roots and id unchanged; only the own roots are traversed |
| BasicBlocks.FilterMeaningful | cilly/src/v2/basic_block.rs:104-109 | exactly the handles whose root is neither `Nop` nor `SourceFileInfo` remain |
| BasicBlocks.FilterAppend | cilly/src/v2/basic_block.rs:104-109 | the filter distributes over concatenation, so relative order is kept |
| BasicBlocks.FilterEmptyIff | cilly/src/v2/basic_block.rs:100-110 | no meaningful root iff every root is `Nop` or `SourceFileInfo` |
| BasicBlocks.SingleMeaningfulIff | cilly/src/v2/basic_block.rs:100-110 | one meaningful root satisfying a property iff one position of the traversal holds it and every other position is a no-op or marker |
| BasicBlocks.MeaningfulRoots | cilly/src/v2/basic_block.rs:100-110 | exactly the traversed handles whose root is neither `Nop` nor `SourceFileInfo`, never more than the tree's root count |
| BasicBlocks.IsDirectJump | cilly/src/v2/basic_block.rs:78-89 | `Some((target, sub))` iff exactly one meaningful root and it is an unconditional branch |
| BasicBlocks.IsOnlyRethrow | cilly/src/v2/basic_block.rs:92-98 | true iff the meaningful roots are exactly one `ReThrow` |
| BasicBlocks.DirectJumpIff | cilly/src/v2/basic_block.rs:78-89 | a direct jump iff one root anywhere in the tree is an unconditional branch and all others are no-ops or markers |
| BasicBlocks.OnlyRethrowIff | cilly/src/v2/basic_block.rs:92-98 | only a rethrow iff one root anywhere in the tree is `ReThrow` and all others are no-ops or markers |
| BasicBlocks.JumpAndRethrowExclusive | cilly/src/v2/basic_block.rs:76-98 | no block is both a direct jump and only a rethrow |
| BasicBlocks.EmptyBlockIsNeitherJumpNorRethrow | cilly/src/v2/basic_block.rs:139-151 | an empty block is not a direct jump and not a rethrow |
| BasicBlocks.RethrowAloneIsRethrow | cilly/src/v2/basic_block.rs:152-155 | a block of one rethrow is only a rethrow |
| BasicBlocks.BreakSpoilsRethrow | cilly/src/v2/basic_block.rs:156-163 | a break before or after the rethrow makes it not only a rethrow |
| BasicBlocks.RethrowInsideHandler | cilly/src/v2/basic_block.rs:31-37 | markers are skipped and a handler's roots are traversed like the block's own |
| BasicBlocks.DirectJumpThroughMarkers | cilly/src/v2/basic_block.rs:78-89 | markers around one unconditional branch give its target and sub-target |
| BasicBlocks.NoDirectJump | cilly/src/v2/basic_block.rs:78-89 | a trailing break, or a branch that is not unconditional, gives `None` |
| BasicBlocks.Assembly.GetRoot | cilly/src/v2/basic_block.rs:55 | the root got back is indexed under the same handle |
| BasicBlocks.Assembly.AllocRoot | cilly/src/v2/basic_block.rs:57 | the handle names the value; an equal stored root's handle is reused with nothing changed; otherwise a fresh handle is added; stored roots are kept |
| BasicBlocks.HandlesAreUnique | cilly/src/v2/basic_block.rs:55-57 | in a valid arena, handles are equal iff their roots are |
| BasicBlocks.MapRootList | cilly/src/v2/basic_block.rs:54-58 | position by position, the new handle names `f` of the old handle's root; stored roots are kept |
| BasicBlocks.MapRoots | cilly/src/v2/basic_block.rs:48-59 | every handle of the pre-order traversal is replaced as above; id, root-list lengths and handler shape are kept |
| BasicBlocks.MapBlocks | cilly/src/v2/basic_block.rs:40-46 | the handler blocks are rewritten in order, with the same guarantees |
| Unop.Unop | src/unop.rs:14-86 | a call iff a 128-bit `Neg`/`Not`: static `op_UnaryNegation`/`op_OnesComplement` on the Int128/UInt128 class with signature `(T) -> T` and the operand as sole argument; `i8`/`i16` negation is widened first; bool `Not` compares with false; `PtrMetadata` loads the `USize` metadata field of the pointer's class |
| Unop.UnplugFill | src/unop.rs:22-85 | filling a one-hole context and reading the hole back gives the filler |
| Unop.FillUnplug | src/unop.rs:22-85 | a node read out of a context's hole fills it back to the same node |
| Unop.UnopPlacesOperandOnce | src/unop.rs:19-85 | every arm is a fixed one-hole context around the operand, so the operand is recoverable and distinct operands give distinct results |

## Left out

- `BasicBlock::iter_roots_mut`, `roots_mut`, `handler_mut` and `handler_and_root_mut` hand out mutable borrows. They are not modelled as such. The order `iter_roots_mut` visits handles in is the order `MapRoots` and `MapBlocks` rewrite them in.
- BasicBlocks.MapRoots: `BasicBlock` is an owned value tree, so `map_roots` and `remove_handler` return the updated block instead of updating in place. Aliasing of the `&mut` borrow is not captured.
- BasicBlocks.MapRoots: `CILRoot::map` with its `root_map` and `node_map` closures is one pure function `f`. Any nodes, strings or roots those closures allocate in the assembly are not modelled.
- `BasicBlock::from_v1` and `CILRoot::from_v1`: the old block format is not part of this model.
- `opt::is_branch_unconditional` is a parameter of `IsDirectJump`. Branch conditions are node handles.
- `Assembly` holds only the root arena. Nodes, strings, method and field references are not interned here. Handles are naturals counted from 0, with no 32-bit limit.
- Place.DerefOp and the entry points: compiler queries and the submodule helpers (`place_elem_body`, `place_elem_adress`, `place_elem_set`, `local_adress`, `local_body`, `local_set`) are uninterpreted parameters. Their caching side effects on the compile context are not modelled.
- Place.BodyTyIsByAdress: the `assert_morphic!` check is not modelled; the type is taken as monomorphic.
- `Rustc.Ty` carries no regions and no generic arguments except an ADT's. An array length is a natural. The `try_to_scalar` / `to_u64` failures are not modelled. Generator witness kinds are merged into one generator kind.
- Variable.FromTy: the place module's lemmas use the lowering as written; they do not depend on how parameters are named. The ADT name comes from `format!("{adt:?}")` and is an opaque string. The debug `println!` is left out. Lengths are naturals, so the `usize` bound is not modelled.
- Unop.Unop: the field name is written as `"metadata"`. `crate::METADATA` is defined in a file that is not part of this model. `handle_operand` and `operand.ty` are inputs. `get_type` is a parameter. `alloc_string`, `alloc_methodref`, `alloc_field` and `sig` are represented by the values they intern.
- `ClassRef::int_128` / `uint_128` are the constants `Int128Class` / `UInt128Class`.
- The serde, `Debug` and `Hash` derives.

## Findings

| source | as written | input that shows it | evidently intended | confidence | as-written member | corrected member |
|---|---|---|---|---|---|---|
| src/variable.rs:174 | `format!("inner:?")` has no braces, so it interpolates nothing | parameters `T` and `U` both lower to `Generic("inner:?")` | `format!("{inner:?}")`, naming each parameter after itself | medium, not executed | Variable.FromTyParamsCollide | Variable.FromTyCorrectedInjective |
| src/variable.rs:63 | `sizeof_op` returns `LDIndI`, a load, for `Ref`/`RefMut` (the line repeats `deref_op`'s) | `Ref(I32)`: the op is a pointer load, not a size | the size of a pointer, `sizeof native int` | medium, not executed | Variable.SizeofOpAsWrittenLoadsForReferences | Variable.SizeofOp |
