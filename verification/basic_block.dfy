/**
 * Basic blocks of the CIL intermediate form (cilly/src/v2/basic_block.rs).
 *
 * A block is a tree: its own list of root handles, an id, and optionally a
 * list of handler blocks. Roots are interned in an `Assembly`: a handle
 * names a `CILRoot` stored in the assembly's arena, and allocating a root
 * equal to one already stored gives back the existing handle.
 */
module BasicBlocks {

  import opened Wrappers

  type u32 = x: int | 0 <= x < 0x1_0000_0000

  /** A handle of an interned root. */
  type RootIdx = nat

  /** A handle of an interned node; nodes are not part of this model. */
  type NodeIdx = nat

  /** The payload of a branch: target block, sub-target, and an optional condition. */
  datatype BranchInfo = BranchInfo(target: u32, sub: u32, cond: Option<NodeIdx>)

  datatype CILRoot =
    | Nop
    | Break
    | SourceFileInfo(lineStart: nat, lineLen: nat, colStart: nat, colLen: nat, file: nat)
    | StLoc(local: nat, value: NodeIdx)
    | Branch(info: BranchInfo)
    | Ret(retValue: NodeIdx)
    | VoidRet
    | Throw(exception: NodeIdx)
    | ReThrow
    | Pop(popped: NodeIdx)

  /** A block's optional list of handler blocks (`Option<Vec<BasicBlock>>`). */
  datatype Handler = NoHandler | Handler(blocks: seq<BasicBlock>)

  datatype BasicBlock = BasicBlock(roots: seq<RootIdx>, blockId: u32, handler: Handler)

  /** `BasicBlock::new`: a block built from its three parts, read back by `roots`, `block_id` and `handler`. */
  function New(roots: seq<RootIdx>, blockId: u32, handler: Handler): (b: BasicBlock)
    ensures b.roots == roots && b.blockId == blockId && b.handler == handler
  {
    BasicBlock(roots, blockId, handler)
  }

  // ---------------------------------------------------------------------
  // Traversal
  // ---------------------------------------------------------------------

  /** Pre-order: the block's own roots, then the roots of each handler block in order. */
  function IterRoots(b: BasicBlock): (r: seq<RootIdx>)
    ensures b.handler.NoHandler? ==> r == b.roots
    ensures |b.roots| <= |r| && r[..|b.roots|] == b.roots
    decreases b
  {
    match b.handler
    case NoHandler => b.roots
    case Handler(hs) => b.roots + IterAll(hs)
  }

  function IterAll(bs: seq<BasicBlock>): seq<RootIdx>
    decreases bs
  {
    if bs == [] then [] else IterRoots(bs[0]) + IterAll(bs[1..])
  }

  /** The number of roots in a block tree, counted structurally. */
  function RootCount(b: BasicBlock): nat
    decreases b
  {
    match b.handler
    case NoHandler => |b.roots|
    case Handler(hs) => |b.roots| + RootCountAll(hs)
  }

  function RootCountAll(bs: seq<BasicBlock>): nat
    decreases bs
  {
    if bs == [] then 0 else RootCount(bs[0]) + RootCountAll(bs[1..])
  }

  lemma {:induction false} IterRootsLength(b: BasicBlock)
    ensures |IterRoots(b)| == RootCount(b)
    decreases b, 1
  {
    match b.handler
    case NoHandler =>
    case Handler(hs) => IterAllLength(hs);
  }

  lemma {:induction false} IterAllLength(bs: seq<BasicBlock>)
    ensures |IterAll(bs)| == RootCountAll(bs)
    decreases bs, 0
  {
    if bs != [] {
      IterRootsLength(bs[0]);
      IterAllLength(bs[1..]);
    }
  }

  lemma {:induction false} IterAllAppend(a: seq<BasicBlock>, b: seq<BasicBlock>)
    ensures IterAll(a + b) == IterAll(a) + IterAll(b)
    decreases |a|
  {
    if a == [] {
      assert a + b == b;
    } else {
      assert (a + b)[1..] == a[1..] + b;
      IterAllAppend(a[1..], b);
    }
  }

  lemma IterAllSingleton(b: BasicBlock)
    ensures IterAll([b]) == IterRoots(b)
  {
    assert [b][1..] == [];
  }

  /** `remove_handler`: the block without its handlers; only its own roots remain in the traversal. */
  function RemoveHandler(b: BasicBlock): (r: BasicBlock)
    ensures r.handler == NoHandler
    ensures r.roots == b.roots && r.blockId == b.blockId
    ensures IterRoots(r) == b.roots
    ensures |IterRoots(r)| <= |IterRoots(b)|
  {
    b.(handler := NoHandler)
  }

  // ---------------------------------------------------------------------
  // Meaningful roots and the two shape queries
  // ---------------------------------------------------------------------

  /** Every handle in `idxs` names a stored root (`get_root` panics otherwise). */
  predicate Resolves(table: map<RootIdx, CILRoot>, idxs: seq<RootIdx>)
  {
    forall i :: 0 <= i < |idxs| ==> idxs[i] in table
  }

  /** Roots other than no-ops and source-position markers. */
  predicate IsMeaningful(root: CILRoot)
  {
    !(root.Nop? || root.SourceFileInfo?)
  }

  function FilterMeaningful(idxs: seq<RootIdx>, table: map<RootIdx, CILRoot>): (r: seq<RootIdx>)
    requires Resolves(table, idxs)
    ensures |r| <= |idxs|
    ensures forall i :: 0 <= i < |r| ==> r[i] in table && IsMeaningful(table[r[i]])
    ensures forall x :: x in r <==> x in idxs && IsMeaningful(table[x])
    decreases |idxs|
  {
    if idxs == [] then []
    else (if IsMeaningful(table[idxs[0]]) then [idxs[0]] else []) + FilterMeaningful(idxs[1..], table)
  }

  lemma ResolvesAppend(a: seq<RootIdx>, b: seq<RootIdx>, table: map<RootIdx, CILRoot>)
    requires Resolves(table, a) && Resolves(table, b)
    ensures Resolves(table, a + b)
  {
    forall i | 0 <= i < |a + b| ensures (a + b)[i] in table {
      if i >= |a| { assert (a + b)[i] == b[i - |a|]; }
    }
  }

  /** Filtering keeps relative order: it distributes over concatenation. */
  lemma {:induction false} FilterAppend(a: seq<RootIdx>, b: seq<RootIdx>, table: map<RootIdx, CILRoot>)
    requires Resolves(table, a) && Resolves(table, b)
    ensures Resolves(table, a + b)
    ensures FilterMeaningful(a + b, table) == FilterMeaningful(a, table) + FilterMeaningful(b, table)
    decreases |a|
  {
    ResolvesAppend(a, b, table);
    if a == [] {
      assert a + b == b;
    } else {
      assert (a + b)[1..] == a[1..] + b;
      FilterAppend(a[1..], b, table);
    }
  }

  /** The roots `is_direct_jump` and `is_only_rethrow` look at: the traversal without no-ops and markers. */
  function MeaningfulRoots(b: BasicBlock, table: map<RootIdx, CILRoot>): (r: seq<RootIdx>)
    requires Resolves(table, IterRoots(b))
    ensures forall x :: x in r <==> x in IterRoots(b) && IsMeaningful(table[x])
    ensures |r| <= RootCount(b)
  {
    IterRootsLength(b);
    FilterMeaningful(IterRoots(b), table)
  }

  /** Position `i` of `idxs` holds the only meaningful root. */
  predicate OnlyMeaningfulAt(idxs: seq<RootIdx>, table: map<RootIdx, CILRoot>, i: int)
    requires Resolves(table, idxs)
  {
    0 <= i < |idxs| && IsMeaningful(table[idxs[i]]) &&
    forall j :: 0 <= j < |idxs| && j != i ==> !IsMeaningful(table[idxs[j]])
  }

  lemma {:induction false} FilterEmptyIff(idxs: seq<RootIdx>, table: map<RootIdx, CILRoot>)
    requires Resolves(table, idxs)
    ensures FilterMeaningful(idxs, table) == [] <==>
      forall j :: 0 <= j < |idxs| ==> !IsMeaningful(table[idxs[j]])
    decreases |idxs|
  {
    if idxs != [] {
      FilterEmptyIff(idxs[1..], table);
      assert forall j :: 1 <= j < |idxs| ==> idxs[1..][j - 1] == idxs[j];
    }
  }

  lemma {:induction false} FilterOfOnlyMeaningful(idxs: seq<RootIdx>, table: map<RootIdx, CILRoot>, i: int)
    requires Resolves(table, idxs) && OnlyMeaningfulAt(idxs, table, i)
    ensures FilterMeaningful(idxs, table) == [idxs[i]]
    decreases |idxs|
  {
    if i == 0 {
      FilterEmptyIff(idxs[1..], table);
    } else {
      assert !IsMeaningful(table[idxs[0]]);
      assert OnlyMeaningfulAt(idxs[1..], table, i - 1) by {
        forall j | 0 <= j < |idxs[1..]| && j != i - 1
          ensures !IsMeaningful(table[idxs[1..][j]])
        {
          assert idxs[1..][j] == idxs[j + 1];
        }
      }
      FilterOfOnlyMeaningful(idxs[1..], table, i - 1);
    }
  }

  lemma {:induction false} SingletonFilterHasPosition(idxs: seq<RootIdx>, table: map<RootIdx, CILRoot>)
    requires Resolves(table, idxs) && |FilterMeaningful(idxs, table)| == 1
    ensures exists i :: OnlyMeaningfulAt(idxs, table, i) && FilterMeaningful(idxs, table) == [idxs[i]]
    decreases |idxs|
  {
    if IsMeaningful(table[idxs[0]]) {
      FilterEmptyIff(idxs[1..], table);
      assert forall j :: 1 <= j < |idxs| ==> idxs[1..][j - 1] == idxs[j];
      assert OnlyMeaningfulAt(idxs, table, 0);
    } else {
      SingletonFilterHasPosition(idxs[1..], table);
      var k :| OnlyMeaningfulAt(idxs[1..], table, k) && FilterMeaningful(idxs[1..], table) == [idxs[1..][k]];
      assert forall j :: 1 <= j < |idxs| ==> idxs[1..][j - 1] == idxs[j];
      assert OnlyMeaningfulAt(idxs, table, k + 1);
    }
  }

  /** Exactly one meaningful root, and it satisfies `p`, stated over the whole traversal. */
  lemma {:induction false} SingleMeaningfulIff(idxs: seq<RootIdx>, table: map<RootIdx, CILRoot>, p: CILRoot -> bool)
    requires Resolves(table, idxs)
    ensures (|FilterMeaningful(idxs, table)| == 1 && p(table[FilterMeaningful(idxs, table)[0]])) <==>
      exists i :: OnlyMeaningfulAt(idxs, table, i) && p(table[idxs[i]])
  {
    if |FilterMeaningful(idxs, table)| == 1 {
      SingletonFilterHasPosition(idxs, table);
    }
    if exists i :: OnlyMeaningfulAt(idxs, table, i) && p(table[idxs[i]]) {
      var i :| OnlyMeaningfulAt(idxs, table, i) && p(table[idxs[i]]);
      FilterOfOnlyMeaningful(idxs, table, i);
    }
  }

  /**
   * `is_direct_jump`: the target and sub-target when the only meaningful
   * root is a branch the optimiser calls unconditional.
   */
  function IsDirectJump(b: BasicBlock, table: map<RootIdx, CILRoot>, isUnconditional: BranchInfo -> bool)
    : (r: Option<(u32, u32)>)
    requires Resolves(table, IterRoots(b))
    ensures var m := MeaningfulRoots(b, table);
      r.Some? <==> |m| == 1 && table[m[0]].Branch? && isUnconditional(table[m[0]].info)
    ensures r.Some? ==> var info := table[MeaningfulRoots(b, table)[0]].info;
      r.value == (info.target, info.sub)
  {
    var m := MeaningfulRoots(b, table);
    if |m| == 0 then None
    else
      match table[m[0]]
      case Branch(info) =>
        if isUnconditional(info) && |m[1..]| == 0 then Some((info.target, info.sub)) else None
      case _ => None
  }

  /** `is_only_rethrow`: the only meaningful root is a rethrow. */
  function IsOnlyRethrow(b: BasicBlock, table: map<RootIdx, CILRoot>): (r: bool)
    requires Resolves(table, IterRoots(b))
    ensures r <==> MeaningfulRoots(b, table) != [] && table[MeaningfulRoots(b, table)[0]] == ReThrow &&
                   |MeaningfulRoots(b, table)| == 1
  {
    var m := MeaningfulRoots(b, table);
    if |m| == 0 then false
    else table[m[0]] == ReThrow && |m[1..]| == 0
  }

  predicate IsUnconditionalBranch(root: CILRoot, isUnconditional: BranchInfo -> bool)
  {
    root.Branch? && isUnconditional(root.info)
  }

  /**
   * A direct jump, stated over the unfiltered pre-order traversal: one root
   * anywhere in the tree is an unconditional branch and every other root is a
   * no-op or a source-position marker.
   */
  lemma DirectJumpIff(b: BasicBlock, table: map<RootIdx, CILRoot>, isUnconditional: BranchInfo -> bool)
    requires Resolves(table, IterRoots(b))
    ensures IsDirectJump(b, table, isUnconditional).Some? <==>
      exists i :: OnlyMeaningfulAt(IterRoots(b), table, i) &&
                  IsUnconditionalBranch(table[IterRoots(b)[i]], isUnconditional)
  {
    var idxs := IterRoots(b);
    assert MeaningfulRoots(b, table) == FilterMeaningful(idxs, table);
    if IsDirectJump(b, table, isUnconditional).Some? {
      SingletonFilterHasPosition(idxs, table);
      var i :| OnlyMeaningfulAt(idxs, table, i) && FilterMeaningful(idxs, table) == [idxs[i]];
      assert OnlyMeaningfulAt(idxs, table, i) && IsUnconditionalBranch(table[idxs[i]], isUnconditional);
      assert exists j :: OnlyMeaningfulAt(IterRoots(b), table, j) &&
                         IsUnconditionalBranch(table[IterRoots(b)[j]], isUnconditional);
    } else {
      forall i | OnlyMeaningfulAt(idxs, table, i)
        ensures !IsUnconditionalBranch(table[idxs[i]], isUnconditional)
      {
        FilterOfOnlyMeaningful(idxs, table, i);
      }
    }
  }

  /** Only a rethrow, stated over the unfiltered pre-order traversal. */
  lemma OnlyRethrowIff(b: BasicBlock, table: map<RootIdx, CILRoot>)
    requires Resolves(table, IterRoots(b))
    ensures IsOnlyRethrow(b, table) <==>
      exists i :: OnlyMeaningfulAt(IterRoots(b), table, i) && table[IterRoots(b)[i]] == ReThrow
  {
    var idxs := IterRoots(b);
    assert MeaningfulRoots(b, table) == FilterMeaningful(idxs, table);
    if IsOnlyRethrow(b, table) {
      SingletonFilterHasPosition(idxs, table);
      var i :| OnlyMeaningfulAt(idxs, table, i) && FilterMeaningful(idxs, table) == [idxs[i]];
      assert OnlyMeaningfulAt(idxs, table, i) && table[idxs[i]] == ReThrow;
      assert exists j :: OnlyMeaningfulAt(IterRoots(b), table, j) && table[IterRoots(b)[j]] == ReThrow;
    } else {
      forall i | OnlyMeaningfulAt(idxs, table, i)
        ensures table[idxs[i]] != ReThrow
      {
        FilterOfOnlyMeaningful(idxs, table, i);
      }
    }
  }

  /** A block is never both a direct jump and only a rethrow. */
  lemma JumpAndRethrowExclusive(b: BasicBlock, table: map<RootIdx, CILRoot>, isUnconditional: BranchInfo -> bool)
    requires Resolves(table, IterRoots(b))
    ensures !(IsDirectJump(b, table, isUnconditional).Some? && IsOnlyRethrow(b, table))
  {
  }

  // The in-file tests, as lemmas over a concrete root table.

  function TestTable(): map<RootIdx, CILRoot>
  {
    map[0 := ReThrow, 1 := Break, 2 := Nop, 3 := Branch(BranchInfo(7, 0, None)),
        4 := SourceFileInfo(1, 1, 1, 1, 0)]
  }

  lemma EmptyBlockIsNeitherJumpNorRethrow(isUnconditional: BranchInfo -> bool)
    ensures IsDirectJump(New([], 0, NoHandler), TestTable(), isUnconditional) == None
    ensures !IsOnlyRethrow(New([], 0, NoHandler), TestTable())
  {
  }

  lemma RethrowAloneIsRethrow()
    ensures IsOnlyRethrow(New([0], 0, NoHandler), TestTable())
  {
    assert IterRoots(New([0], 0, NoHandler)) == [0];
  }

  /** A debugger break has side effects, before or after the rethrow. */
  lemma BreakSpoilsRethrow()
    ensures !IsOnlyRethrow(New([1, 0], 0, NoHandler), TestTable())
    ensures !IsOnlyRethrow(New([0, 1], 0, NoHandler), TestTable())
  {
    assert IterRoots(New([1, 0], 0, NoHandler)) == [1, 0];
    assert IterRoots(New([0, 1], 0, NoHandler)) == [0, 1];
  }

  /** Markers are skipped, and a handler's roots count like the block's own. */
  lemma RethrowInsideHandler()
    ensures IsOnlyRethrow(New([2, 4], 0, Handler([New([2, 0], 1, NoHandler)])), TestTable())
  {
    var b := New([2, 4], 0, Handler([New([2, 0], 1, NoHandler)]));
    IterAllSingleton(New([2, 0], 1, NoHandler));
    assert IterRoots(b) == [2, 4, 2, 0];
    FilterOfOnlyMeaningful([2, 4, 2, 0], TestTable(), 3);
  }

  /** Markers around one unconditional branch: a direct jump to the branch's target. */
  lemma DirectJumpThroughMarkers()
    ensures IsDirectJump(New([2, 3, 4], 0, NoHandler), TestTable(), _ => true) == Some((7, 0))
  {
    assert IterRoots(New([2, 3, 4], 0, NoHandler)) == [2, 3, 4];
    FilterOfOnlyMeaningful([2, 3, 4], TestTable(), 1);
  }

  /** A break after the branch, or a branch that is not unconditional: no direct jump. */
  lemma NoDirectJump()
    ensures IsDirectJump(New([3, 1], 0, NoHandler), TestTable(), _ => true) == None
    ensures IsDirectJump(New([2, 3], 0, NoHandler), TestTable(), _ => false) == None
  {
    assert IterRoots(New([3, 1], 0, NoHandler)) == [3, 1];
    assert FilterMeaningful([3, 1], TestTable()) == [3, 1] by {
      assert [3, 1][1..] == [1];
      assert FilterMeaningful([1], TestTable()) == [1];
    }
    assert IterRoots(New([2, 3], 0, NoHandler)) == [2, 3];
  }

  // ---------------------------------------------------------------------
  // The interning arena
  // ---------------------------------------------------------------------

  /** The part of `Assembly` that stores roots: handle to root, and root back to its handle. */
  class Assembly {
    var roots: map<RootIdx, CILRoot>
    var index: map<CILRoot, RootIdx>
    var next: nat

    /** Handles are `0 .. next`, and the two maps are inverse: equal roots share one handle. */
    ghost predicate Valid()
      reads this
    {
      (forall h :: h in roots <==> 0 <= h < next) &&
      (forall h :: h in roots ==> roots[h] in index && index[roots[h]] == h) &&
      (forall v :: v in index ==> index[v] in roots && roots[index[v]] == v)
    }

    constructor()
      ensures Valid()
      ensures roots == map[] && index == map[] && next == 0
    {
      roots := map[];
      index := map[];
      next := 0;
    }

    /** The root a handle names (panics on a handle this assembly never gave out). */
    function GetRoot(h: RootIdx): (r: CILRoot)
      reads this
      requires Valid() && h in roots
      ensures r in index && index[r] == h
    {
      roots[h]
    }

    /** The handle of `val`: the existing one when an equal root is stored, a fresh one otherwise. */
    method AllocRoot(val: CILRoot) returns (h: RootIdx)
      requires Valid()
      modifies this
      ensures Valid()
      ensures h in roots && roots[h] == val
      ensures old(val in index) ==> h == old(index[val]) && roots == old(roots) && next == old(next)
      ensures old(val !in index) ==> h == old(next) && roots == old(roots)[h := val] && next == old(next) + 1
      ensures Extends(old(roots), roots)
    {
      if val in index {
        h := index[val];
      } else {
        h := next;
        roots := roots[h := val];
        index := index[val := h];
        next := next + 1;
      }
    }
  }

  /** Distinct handles of a valid assembly name distinct roots. */
  lemma HandlesAreUnique(asm: Assembly, h1: RootIdx, h2: RootIdx)
    requires asm.Valid() && h1 in asm.roots && h2 in asm.roots
    ensures asm.roots[h1] == asm.roots[h2] <==> h1 == h2
  {
    assert asm.index[asm.roots[h1]] == h1;
  }

  lemma ResolvesSplit(table: map<RootIdx, CILRoot>, a: seq<RootIdx>, b: seq<RootIdx>)
    requires Resolves(table, a + b)
    ensures Resolves(table, a) && Resolves(table, b)
  {
    assert forall i :: 0 <= i < |a| ==> a[i] == (a + b)[i];
    assert forall i :: 0 <= i < |b| ==> b[i] == (a + b)[|a| + i];
  }

  lemma ResolvesLater(before: map<RootIdx, CILRoot>, after: map<RootIdx, CILRoot>, idxs: seq<RootIdx>)
    requires Resolves(before, idxs) && Extends(before, after)
    ensures Resolves(after, idxs)
  {
  }

  /** Every root stored before is still stored under the same handle. */
  predicate Extends(before: map<RootIdx, CILRoot>, after: map<RootIdx, CILRoot>)
  {
    forall h :: h in before ==> h in after && after[h] == before[h]
  }

  // ---------------------------------------------------------------------
  // map_roots
  // ---------------------------------------------------------------------

  /** Position by position, the new handle names `f` of the root the old handle named. */
  predicate Remapped(src: seq<RootIdx>, dst: seq<RootIdx>,
                     before: map<RootIdx, CILRoot>, after: map<RootIdx, CILRoot>, f: CILRoot -> CILRoot)
  {
    |src| == |dst| &&
    forall i :: 0 <= i < |src| ==> src[i] in before && dst[i] in after && after[dst[i]] == f(before[src[i]])
  }

  /** Same id, same root-list lengths and the same handler tree, block by block. */
  predicate SameShape(a: BasicBlock, b: BasicBlock)
    decreases a
  {
    a.blockId == b.blockId && |a.roots| == |b.roots| &&
    match a.handler
    case NoHandler => b.handler.NoHandler?
    case Handler(hs) => b.handler.Handler? && SameShapes(hs, b.handler.blocks)
  }

  predicate SameShapes(xs: seq<BasicBlock>, ys: seq<BasicBlock>)
    decreases xs
  {
    |xs| == |ys| && forall i :: 0 <= i < |xs| ==> SameShape(xs[i], ys[i])
  }

  lemma RemappedLater(src: seq<RootIdx>, dst: seq<RootIdx>, m0: map<RootIdx, CILRoot>,
                      m1: map<RootIdx, CILRoot>, m2: map<RootIdx, CILRoot>, f: CILRoot -> CILRoot)
    requires Remapped(src, dst, m0, m1, f) && Extends(m1, m2)
    ensures Remapped(src, dst, m0, m2, f)
  {
  }

  lemma RemappedEarlier(src: seq<RootIdx>, dst: seq<RootIdx>, m0: map<RootIdx, CILRoot>,
                        m1: map<RootIdx, CILRoot>, m2: map<RootIdx, CILRoot>, f: CILRoot -> CILRoot)
    requires Remapped(src, dst, m1, m2, f) && Extends(m0, m1) && Resolves(m0, src)
    ensures Remapped(src, dst, m0, m2, f)
  {
  }

  lemma RemappedAppend(s1: seq<RootIdx>, d1: seq<RootIdx>, s2: seq<RootIdx>, d2: seq<RootIdx>,
                       m0: map<RootIdx, CILRoot>, m1: map<RootIdx, CILRoot>, f: CILRoot -> CILRoot)
    requires Remapped(s1, d1, m0, m1, f) && Remapped(s2, d2, m0, m1, f)
    ensures Remapped(s1 + s2, d1 + d2, m0, m1, f)
  {
    forall i | 0 <= i < |s1 + s2|
      ensures (s1 + s2)[i] in m0 && (d1 + d2)[i] in m1 && m1[(d1 + d2)[i]] == f(m0[(s1 + s2)[i]])
    {
      if i >= |s1| {
        assert (s1 + s2)[i] == s2[i - |s1|] && (d1 + d2)[i] == d2[i - |s1|];
      }
    }
  }

  /** Rewrites a list of handles, one `get_root`, `f` and `alloc_root` per position. */
  method MapRootList(rs: seq<RootIdx>, asm: Assembly, f: CILRoot -> CILRoot) returns (out: seq<RootIdx>)
    requires asm.Valid() && Resolves(asm.roots, rs)
    modifies asm
    ensures asm.Valid() && Extends(old(asm.roots), asm.roots)
    ensures Remapped(rs, out, old(asm.roots), asm.roots, f)
  {
    out := [];
    var i := 0;
    while i < |rs|
      invariant 0 <= i <= |rs|
      invariant asm.Valid() && Extends(old(asm.roots), asm.roots)
      invariant Remapped(rs[..i], out, old(asm.roots), asm.roots, f)
    {
      var val := f(asm.GetRoot(rs[i]));
      var h := asm.AllocRoot(val);
      out := out + [h];
      i := i + 1;
    }
    assert rs[..i] == rs;
  }

  /**
   * `map_roots`: every handle in the block tree, in pre-order, is replaced by
   * the handle of `f` applied to the root it named; the tree's shape and ids
   * are kept and no stored root is disturbed.
   */
  method MapRoots(b: BasicBlock, asm: Assembly, f: CILRoot -> CILRoot) returns (r: BasicBlock)
    requires asm.Valid() && Resolves(asm.roots, IterRoots(b))
    modifies asm
    ensures asm.Valid() && Extends(old(asm.roots), asm.roots)
    ensures SameShape(b, r)
    ensures Remapped(IterRoots(b), IterRoots(r), old(asm.roots), asm.roots, f)
    decreases b, 1
  {
    ghost var m0 := asm.roots;
    match b.handler {
      case NoHandler =>
        assert IterRoots(b) == b.roots;
        var newRoots := MapRootList(b.roots, asm, f);
        r := BasicBlock(newRoots, b.blockId, NoHandler);
      case Handler(hs) =>
        ResolvesSplit(m0, b.roots, IterAll(hs));
        var newRoots := MapRootList(b.roots, asm, f);
        ghost var m1 := asm.roots;
        ResolvesLater(m0, m1, IterAll(hs));
        var newHs := MapBlocks(hs, asm, f);
        r := BasicBlock(newRoots, b.blockId, Handler(newHs));
        RemappedLater(b.roots, newRoots, m0, m1, asm.roots, f);
        RemappedEarlier(IterAll(hs), IterAll(newHs), m0, m1, asm.roots, f);
        RemappedAppend(b.roots, newRoots, IterAll(hs), IterAll(newHs), m0, asm.roots, f);
    }
  }

  /** `map_roots` over a list of handler blocks, in order. */
  method MapBlocks(hs: seq<BasicBlock>, asm: Assembly, f: CILRoot -> CILRoot) returns (out: seq<BasicBlock>)
    requires asm.Valid() && Resolves(asm.roots, IterAll(hs))
    modifies asm
    ensures asm.Valid() && Extends(old(asm.roots), asm.roots)
    ensures SameShapes(hs, out)
    ensures Remapped(IterAll(hs), IterAll(out), old(asm.roots), asm.roots, f)
    decreases hs, 0
  {
    ghost var m0 := asm.roots;
    out := [];
    var i := 0;
    while i < |hs|
      invariant 0 <= i <= |hs| && |out| == i
      invariant asm.Valid() && Extends(m0, asm.roots)
      invariant forall j :: 0 <= j < i ==> SameShape(hs[j], out[j])
      invariant Remapped(IterAll(hs[..i]), IterAll(out), m0, asm.roots, f)
    {
      ghost var m1 := asm.roots;
      assert hs == hs[..i] + [hs[i]] + hs[i + 1..];
      IterAllAppend(hs[..i] + [hs[i]], hs[i + 1..]);
      IterAllAppend(hs[..i], [hs[i]]);
      IterAllSingleton(hs[i]);
      ResolvesSplit(m0, IterAll(hs[..i] + [hs[i]]), IterAll(hs[i + 1..]));
      ResolvesSplit(m0, IterAll(hs[..i]), IterAll([hs[i]]));
      ResolvesLater(m0, m1, IterRoots(hs[i]));
      var nb := MapRoots(hs[i], asm, f);
      RemappedLater(IterAll(hs[..i]), IterAll(out), m0, m1, asm.roots, f);
      RemappedEarlier(IterRoots(hs[i]), IterRoots(nb), m0, m1, asm.roots, f);
      RemappedAppend(IterAll(hs[..i]), IterAll(out), IterRoots(hs[i]), IterRoots(nb), m0, asm.roots, f);
      IterAllAppend(out, [nb]);
      IterAllSingleton(nb);
      assert hs[..i + 1] == hs[..i] + [hs[i]];
      IterAllAppend(hs[..i], [hs[i]]);
      out := out + [nb];
      i := i + 1;
    }
    assert hs[..i] == hs;
  }
}
