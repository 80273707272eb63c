/**
  The loop statistics pass (mb64566-loop-analysis-pass): for every loop of a
  function, in pre-order over the loop forest, one record with a running
  index, the nesting depth, whether the loop has sub-loops, and four counts
  over its blocks.  The counts are specified by functions over the list of
  member blocks; GetLoopInfo computes them with the source's nested loops and
  is proved to agree with them.
*/
module LoopAnalysis {
  import opened IR

  // ----- is_top_level --------------------------------------------------------

  /** is_top_level: no immediate sub-loop of L contains block b.  Deeper
      loops are not consulted. */
  function IsTopLevel(L: Loop, b: BlockId): (r: bool)
    ensures r <==> forall s :: s in L.subLoops ==> b !in s.blocks
  {
    NoSubLoopContains(L.subLoops, b)
  }

  /** The scan over the sub-loops with its early `return false`. */
  function NoSubLoopContains(subs: seq<Loop>, b: BlockId): (r: bool)
    ensures r <==> forall s :: s in subs ==> b !in s.blocks
  {
    if subs == [] then true
    else if b in subs[0].blocks then false
    else NoSubLoopContains(subs[1..], b)
  }

  // ----- what get_loop_info counts -------------------------------------------

  predicate IsAtomic(x: Inst) {
    x.kind.AtomicRMW? || x.kind.AtomicCmpXchg?
  }

  /** The blocks listed in ids exist and end in a terminator. */
  ghost predicate BlocksIn(bs: seq<Block>, ids: seq<BlockId>) {
    forall k :: 0 <= k < |ids| ==> ids[k] < |bs| && WellFormedBlock(bs[ids[k]])
  }

  /** The ids all name blocks of the function. */
  predicate IdsIn(bs: seq<Block>, ids: seq<BlockId>) {
    forall k :: 0 <= k < |ids| ==> ids[k] < |bs|
  }

  /** Whether the terminator of a block is a BranchInst. */
  predicate EndsInBranch(s: Block)
    requires WellFormedBlock(s)
  {
    Terminator(s).kind.Br?
  }

  /** Number of blocks in ids that are top-level in L. */
  function TopLevelCount(L: Loop, ids: seq<BlockId>): nat
  {
    if ids == [] then 0
    else TopLevelCount(L, ids[..|ids| - 1]) + (if IsTopLevel(L, ids[|ids| - 1]) then 1 else 0)
  }

  /** Number of top-level blocks in ids whose terminator is a branch. */
  function BranchCount(bs: seq<Block>, L: Loop, ids: seq<BlockId>): nat
    requires BlocksIn(bs, ids)
  {
    if ids == [] then 0
    else
      var b := ids[|ids| - 1];
      BranchCount(bs, L, ids[..|ids| - 1]) + (if IsTopLevel(L, b) && EndsInBranch(bs[b]) then 1 else 0)
  }

  /** Total number of instructions in the blocks of ids. */
  function InstCount(bs: seq<Block>, ids: seq<BlockId>): nat
    requires IdsIn(bs, ids)
  {
    if ids == [] then 0
    else InstCount(bs, ids[..|ids| - 1]) + |bs[ids[|ids| - 1]]|
  }

  /** Number of atomicrmw and cmpxchg instructions in one block. */
  function AtomsIn(s: Block): nat
  {
    if s == [] then 0
    else AtomsIn(s[..|s| - 1]) + (if IsAtomic(s[|s| - 1]) then 1 else 0)
  }

  /** Number of atomicrmw and cmpxchg instructions in the blocks of ids. */
  function AtomCount(bs: seq<Block>, ids: seq<BlockId>): nat
    requires IdsIn(bs, ids)
  {
    if ids == [] then 0
    else AtomCount(bs, ids[..|ids| - 1]) + AtomsIn(bs[ids[|ids| - 1]])
  }

  // ----- get_loop_info -------------------------------------------------------

  /** get_loop_info: the four counters are set to zero, then one pass over the
      member blocks (sub-loop blocks included) counts top-level blocks and
      their branch terminators, adds each block's size, and scans each block
      for atomic instructions. */
  method GetLoopInfo(bs: seq<Block>, L: Loop) returns (numBbs: int, numInsns: int, numAtoms: int, numBranches: int)
    requires BlocksIn(bs, L.blocks)
    ensures numBbs == TopLevelCount(L, L.blocks)
    ensures numBranches == BranchCount(bs, L, L.blocks)
    ensures numInsns == InstCount(bs, L.blocks)
    ensures numAtoms == AtomCount(bs, L.blocks)
    ensures 0 <= numBranches <= numBbs <= |L.blocks|
    ensures 0 <= numAtoms <= numInsns
  {
    numBbs, numInsns, numAtoms, numBranches := 0, 0, 0, 0;
    var i := 0;
    while i < |L.blocks|
      invariant 0 <= i <= |L.blocks|
      invariant numBbs == TopLevelCount(L, L.blocks[..i])
      invariant numBranches == BranchCount(bs, L, L.blocks[..i])
      invariant numInsns == InstCount(bs, L.blocks[..i])
      invariant numAtoms == AtomCount(bs, L.blocks[..i])
    {
      var b := L.blocks[i];
      assert L.blocks[..i + 1][..i] == L.blocks[..i];
      if IsTopLevel(L, b) {
        numBbs := numBbs + 1;
        if EndsInBranch(bs[b]) {
          numBranches := numBranches + 1;
        }
      }
      numInsns := numInsns + |bs[b]|;
      var j := 0;
      while j < |bs[b]|
        invariant 0 <= j <= |bs[b]|
        invariant numAtoms == AtomCount(bs, L.blocks[..i]) + AtomsIn(bs[b][..j])
      {
        assert bs[b][..j + 1][..j] == bs[b][..j];
        if IsAtomic(bs[b][j]) {
          numAtoms := numAtoms + 1;
        }
        j := j + 1;
      }
      assert bs[b][..j] == bs[b];
      i := i + 1;
    }
    assert L.blocks[..i] == L.blocks;
    CountBounds(bs, L, L.blocks);
  }

  // ----- properties of the counts --------------------------------------------

  /** At most one atomic per instruction. */
  lemma {:induction false} AtomsInBound(s: Block)
    ensures AtomsIn(s) <= |s|
  {
    if s != [] {
      AtomsInBound(s[..|s| - 1]);
    }
  }

  /** branches <= top-level blocks <= member blocks, atomics <= instructions,
      and every member block contributes at least its terminator. */
  lemma {:induction false} CountBounds(bs: seq<Block>, L: Loop, ids: seq<BlockId>)
    requires BlocksIn(bs, ids)
    ensures BranchCount(bs, L, ids) <= TopLevelCount(L, ids) <= |ids|
    ensures AtomCount(bs, ids) <= InstCount(bs, ids)
    ensures |ids| <= InstCount(bs, ids)
  {
    if ids != [] {
      var init := ids[..|ids| - 1];
      CountBounds(bs, L, init);
      AtomsInBound(bs[ids[|ids| - 1]]);
    }
  }

  /** The instruction count is a sum over blocks, so concatenating block lists
      adds their counts. */
  lemma {:induction false} InstCountAppend(bs: seq<Block>, a: seq<BlockId>, c: seq<BlockId>)
    requires IdsIn(bs, a + c)
    ensures IdsIn(bs, a) && IdsIn(bs, c)
    ensures InstCount(bs, a + c) == InstCount(bs, a) + InstCount(bs, c)
  {
    if c != [] {
      var c' := c[..|c| - 1];
      assert (a + c)[..|a + c| - 1] == a + c';
      assert forall k :: 0 <= k < |c| ==> c[k] == (a + c)[|a| + k];
      InstCountAppend(bs, a, c');
    } else {
      assert a + c == a;
    }
    assert forall k :: 0 <= k < |c| ==> c[k] == (a + c)[|a| + k];
  }

  /** The instruction count does not depend on the order in which the
      member blocks are visited. */
  lemma {:induction false} InstCountOrderFree(bs: seq<Block>, ids: seq<BlockId>, ids': seq<BlockId>)
    requires IdsIn(bs, ids) && IdsIn(bs, ids')
    requires multiset(ids) == multiset(ids')
    ensures InstCount(bs, ids) == InstCount(bs, ids')
    decreases |ids|
  {
    if ids == [] {
      assert |multiset(ids')| == 0;
    } else {
      var n := |ids| - 1;
      var last := ids[n];
      assert ids == ids[..n] + [last];
      assert last in multiset(ids');
      var k :| 0 <= k < |ids'| && ids'[k] == last;
      var rest := ids'[..k] + ids'[k + 1..];
      InstCountRemoveAt(bs, ids', k);
      RemoveMatching(ids, ids', k);
      assert IdsIn(bs, ids[..n]);
      InstCountOrderFree(bs, ids[..n], rest);
    }
  }

  /** Taking one block out of the list takes its instructions out of the count. */
  lemma InstCountRemoveAt(bs: seq<Block>, ids: seq<BlockId>, k: nat)
    requires IdsIn(bs, ids) && k < |ids|
    ensures IdsIn(bs, ids[..k] + ids[k + 1..])
    ensures InstCount(bs, ids) == InstCount(bs, ids[..k] + ids[k + 1..]) + |bs[ids[k]]|
  {
    var x := ids[k];
    assert ids == (ids[..k] + [x]) + ids[k + 1..];
    InstCountAppend(bs, ids[..k] + [x], ids[k + 1..]);
    InstCountAppend(bs, ids[..k], [x]);
    var rest := ids[..k] + ids[k + 1..];
    assert IdsIn(bs, rest) by {
      forall j | 0 <= j < |rest|
        ensures rest[j] < |bs|
      {
        if j < k {
          assert rest[j] == ids[j];
        } else {
          assert rest[j] == ids[j + 1];
        }
      }
    }
    InstCountAppend(bs, ids[..k], ids[k + 1..]);
    assert InstCount(bs, [x]) == |bs[x]| by {
      assert [x][..0] == [];
    }
  }

  /** Removing the last element of one list and a matching element of a
      permutation of it leaves permutations. */
  lemma RemoveMatching(ids: seq<BlockId>, ids': seq<BlockId>, k: nat)
    requires ids != [] && k < |ids'| && ids'[k] == ids[|ids| - 1]
    requires multiset(ids) == multiset(ids')
    ensures multiset(ids[..|ids| - 1]) == multiset(ids'[..k] + ids'[k + 1..])
  {
    var n := |ids| - 1;
    var last := ids[n];
    assert ids == ids[..n] + [last];
    assert ids' == ids'[..k] + [last] + ids'[k + 1..];
    calc {
      multiset(ids[..n]);
      multiset(ids) - multiset{last};
      multiset(ids') - multiset{last};
      multiset(ids'[..k]) + multiset(ids'[k + 1..]);
      multiset(ids'[..k] + ids'[k + 1..]);
    }
  }

  /** Over a list of distinct blocks, the top-level count is the number of
      distinct top-level blocks. */
  lemma {:induction false} TopLevelCountIsCardinality(L: Loop, ids: seq<BlockId>)
    requires Distinct(ids)
    ensures TopLevelCount(L, ids) == |set b | b in ids && IsTopLevel(L, b)|
  {
    var S := set b | b in ids && IsTopLevel(L, b);
    if ids != [] {
      var n := |ids| - 1;
      var init := ids[..n];
      var S' := set b | b in init && IsTopLevel(L, b);
      DistinctInit(ids);
      TopLevelCountIsCardinality(L, init);
      if IsTopLevel(L, ids[n]) {
        assert S == S' + {ids[n]};
      } else {
        assert S == S';
      }
    } else {
      assert S == {};
    }
  }

  // ----- records and process_loop --------------------------------------------

  /** One line of the pass's output: the eight fields of a loop record. */
  datatype LoopStats = LoopStats(
    index: int,
    funcName: string,
    depth: int,
    hasSubLoops: bool,
    numBbs: int,
    numInsns: int,
    numAtoms: int,
    numBranches: int)

  /** Every loop of the tree rooted at L has its blocks in the function. */
  ghost predicate LoopFits(bs: seq<Block>, L: Loop)
    decreases L
  {
    && BlocksIn(bs, L.blocks)
    && forall k :: 0 <= k < |L.subLoops| ==> LoopFits(bs, L.subLoops[k])
  }

  ghost predicate AllFit(bs: seq<Block>, ls: seq<Loop>) {
    forall k :: 0 <= k < |ls| ==> LoopFits(bs, ls[k])
  }

  /** The record process_loop writes for L when L has LLVM loop depth
      loopDepth and loop_count is index. */
  function LoopRecord(bs: seq<Block>, L: Loop, fname: string, loopDepth: nat, index: int): (r: LoopStats)
    requires BlocksIn(bs, L.blocks)
    ensures r.index == index && r.funcName == fname && r.depth == loopDepth - 1
    ensures r.hasSubLoops <==> L.subLoops != []
    ensures 0 <= r.numBranches <= r.numBbs <= |L.blocks|
    ensures 0 <= r.numAtoms <= r.numInsns && |L.blocks| <= r.numInsns
  {
    CountBounds(bs, L, L.blocks);
    LoopStats(index, fname, loopDepth - 1, |L.subLoops| > 0,
      TopLevelCount(L, L.blocks), InstCount(bs, L.blocks), AtomCount(bs, L.blocks),
      BranchCount(bs, L, L.blocks))
  }

  /** Number of loops in the tree rooted at L. */
  function LoopCount(L: Loop): nat
    decreases L
  {
    1 + LoopCountList(L.subLoops)
  }

  function LoopCountList(ls: seq<Loop>): nat
    decreases ls
  {
    if ls == [] then 0 else LoopCountList(ls[..|ls| - 1]) + LoopCount(ls[|ls| - 1])
  }

  /** One call of process_loop: the loop, its LLVM loop depth and the value
      of loop_count it sees on entry. */
  datatype Visit = Visit(loop: Loop, loopDepth: nat, index: int)

  /** The calls process_loop makes for the tree rooted at L, in the order it
      makes them, when it is entered with loop_count == start. */
  function Visits(L: Loop, loopDepth: nat, start: int): seq<Visit>
    decreases L
  {
    [Visit(L, loopDepth, start)] + VisitsOfList(L.subLoops, loopDepth + 1, start + 1)
  }

  /** The calls for the trees in ls, one tree after another. */
  function VisitsOfList(ls: seq<Loop>, loopDepth: nat, start: int): seq<Visit>
    decreases ls
  {
    if ls == [] then []
    else
      var init := ls[..|ls| - 1];
      VisitsOfList(init, loopDepth, start) + Visits(ls[|ls| - 1], loopDepth, start + LoopCountList(init))
  }

  ghost predicate VisitsFit(bs: seq<Block>, vs: seq<Visit>) {
    forall k :: 0 <= k < |vs| ==> BlocksIn(bs, vs[k].loop.blocks)
  }

  /** Every loop visited in a fitting tree fits. */
  lemma {:induction false} VisitsFitTree(bs: seq<Block>, L: Loop, loopDepth: nat, start: int)
    requires LoopFits(bs, L)
    ensures VisitsFit(bs, Visits(L, loopDepth, start))
    decreases L, 1
  {
    VisitsFitList(bs, L.subLoops, loopDepth + 1, start + 1);
  }

  lemma {:induction false} VisitsFitList(bs: seq<Block>, ls: seq<Loop>, loopDepth: nat, start: int)
    requires AllFit(bs, ls)
    ensures VisitsFit(bs, VisitsOfList(ls, loopDepth, start))
    decreases ls, 0
  {
    if ls != [] {
      var init := ls[..|ls| - 1];
      VisitsFitList(bs, init, loopDepth, start);
      VisitsFitTree(bs, ls[|ls| - 1], loopDepth, start + LoopCountList(init));
    }
  }

  /** The records written for a sequence of calls. */
  function RecordsFor(bs: seq<Block>, fname: string, vs: seq<Visit>): seq<LoopStats>
    requires VisitsFit(bs, vs)
  {
    seq(|vs|, k requires 0 <= k < |vs| => LoopRecord(bs, vs[k].loop, fname, vs[k].loopDepth, vs[k].index))
  }

  /** The records of the tree rooted at L in pre-order, numbered from start. */
  function Records(bs: seq<Block>, L: Loop, fname: string, loopDepth: nat, start: int): seq<LoopStats>
    requires LoopFits(bs, L)
  {
    VisitsFitTree(bs, L, loopDepth, start);
    RecordsFor(bs, fname, Visits(L, loopDepth, start))
  }

  /** The records of the trees in ls, one tree after another. */
  function RecordsOfList(bs: seq<Block>, ls: seq<Loop>, fname: string, loopDepth: nat, start: int): seq<LoopStats>
    requires AllFit(bs, ls)
  {
    VisitsFitList(bs, ls, loopDepth, start);
    RecordsFor(bs, fname, VisitsOfList(ls, loopDepth, start))
  }

  lemma RecordsForAppend(bs: seq<Block>, fname: string, vs: seq<Visit>, ws: seq<Visit>)
    requires VisitsFit(bs, vs + ws)
    ensures VisitsFit(bs, vs) && VisitsFit(bs, ws)
    ensures RecordsFor(bs, fname, vs + ws) == RecordsFor(bs, fname, vs) + RecordsFor(bs, fname, ws)
  {
    assert forall k :: 0 <= k < |vs| ==> (vs + ws)[k] == vs[k];
    assert forall k :: 0 <= k < |ws| ==> (vs + ws)[|vs| + k] == ws[k];
  }

  /** The records of a run of calls are the matching run of records. */
  lemma RecordsForSlice(bs: seq<Block>, fname: string, vs: seq<Visit>, a: nat, b: nat, ws: seq<Visit>)
    requires VisitsFit(bs, vs) && a <= b <= |vs| && vs[a..b] == ws
    ensures VisitsFit(bs, ws) && b <= |RecordsFor(bs, fname, vs)|
    ensures RecordsFor(bs, fname, vs)[a..b] == RecordsFor(bs, fname, ws)
  {
    assert forall k :: 0 <= k < b - a ==> vs[a..b][k] == vs[a + k];
  }

  /** One call per loop; loop_count values run consecutively from start; the
      root is visited first and no call is shallower than the root. */
  lemma {:induction false} VisitsShape(L: Loop, loopDepth: nat, start: int)
    ensures var vs := Visits(L, loopDepth, start);
      && |vs| == LoopCount(L)
      && vs[0] == Visit(L, loopDepth, start)
      && (forall k :: 0 <= k < |vs| ==> vs[k].index == start + k && vs[k].loopDepth >= loopDepth)
    decreases L, 1
  {
    VisitsOfListShape(L.subLoops, loopDepth + 1, start + 1);
  }

  lemma {:induction false} VisitsOfListShape(ls: seq<Loop>, loopDepth: nat, start: int)
    ensures var vs := VisitsOfList(ls, loopDepth, start);
      && |vs| == LoopCountList(ls)
      && (forall k :: 0 <= k < |vs| ==> vs[k].index == start + k && vs[k].loopDepth >= loopDepth)
    decreases ls, 0
  {
    if ls != [] {
      var init := ls[..|ls| - 1];
      VisitsOfListShape(init, loopDepth, start);
      VisitsShape(ls[|ls| - 1], loopDepth, start + LoopCountList(init));
    }
  }

  /** Visiting one more tree of the list appends its calls. */
  lemma VisitsOfListSnoc(ls: seq<Loop>, loopDepth: nat, start: int, i: nat)
    requires i < |ls|
    ensures LoopCountList(ls[..i + 1]) == LoopCountList(ls[..i]) + LoopCount(ls[i])
    ensures VisitsOfList(ls[..i + 1], loopDepth, start)
      == VisitsOfList(ls[..i], loopDepth, start) + Visits(ls[i], loopDepth, start + LoopCountList(ls[..i]))
  {
    assert ls[..i + 1][..i] == ls[..i];
  }

  /** The calls for a prefix of the list come first. */
  lemma {:induction false} VisitsOfListPrefix(ls: seq<Loop>, loopDepth: nat, start: int, i: nat)
    requires i <= |ls|
    ensures var vs := VisitsOfList(ls, loopDepth, start);
      LoopCountList(ls[..i]) <= |vs| && vs[..LoopCountList(ls[..i])] == VisitsOfList(ls[..i], loopDepth, start)
    decreases |ls| - i
  {
    var vs := VisitsOfList(ls, loopDepth, start);
    VisitsOfListShape(ls, loopDepth, start);
    if i == |ls| {
      assert ls[..i] == ls;
    } else {
      VisitsOfListPrefix(ls, loopDepth, start, i + 1);
      VisitsOfListSnoc(ls, loopDepth, start, i);
      VisitsOfListShape(ls[..i], loopDepth, start);
      var n := LoopCountList(ls[..i]);
      var vp := VisitsOfList(ls[..i + 1], loopDepth, start);
      assert vs[..n] == vp[..n];
    }
  }

  /** Pre-order: the call for L comes first, then, for each sub-loop in
      stored order, the calls of its whole tree, one level deeper and
      numbered on from the calls before it. */
  lemma VisitsPreOrder(L: Loop, loopDepth: nat, start: int, i: nat)
    requires i < |L.subLoops|
    ensures var vs := Visits(L, loopDepth, start);
      var off := 1 + LoopCountList(L.subLoops[..i]);
      && off + LoopCount(L.subLoops[i]) <= |vs|
      && vs[off .. off + LoopCount(L.subLoops[i])] == Visits(L.subLoops[i], loopDepth + 1, start + off)
  {
    var subs := L.subLoops;
    var vl := VisitsOfList(subs, loopDepth + 1, start + 1);
    var pre := VisitsOfList(subs[..i], loopDepth + 1, start + 1);
    var off := 1 + LoopCountList(subs[..i]);
    var w := Visits(subs[i], loopDepth + 1, start + off);
    VisitsOfListPrefix(subs, loopDepth + 1, start + 1, i + 1);
    VisitsOfListSnoc(subs, loopDepth + 1, start + 1, i);
    VisitsOfListShape(subs[..i], loopDepth + 1, start + 1);
    VisitsShape(subs[i], loopDepth + 1, start + off);
    SliceAfterPrefix(vl, pre, w);
    SliceShift([Visit(L, loopDepth, start)], vl, |pre|, |pre| + |w|);
  }

  lemma SliceAfterPrefix<T>(a: seq<T>, x: seq<T>, y: seq<T>)
    requires |x| + |y| <= |a| && a[..|x| + |y|] == x + y
    ensures a[|x|..|x| + |y|] == y
  {
    forall k | |x| <= k < |x| + |y|
      ensures a[k] == y[k - |x|]
    {
      assert a[k] == a[..|x| + |y|][k];
    }
  }

  lemma SliceShift<T>(h: seq<T>, a: seq<T>, lo: nat, hi: nat)
    requires lo <= hi <= |a|
    ensures (h + a)[|h| + lo .. |h| + hi] == a[lo..hi]
  {
  }

  /** The records of a tree: one per loop, with indices running from start,
      the root's record first at depth loopDepth - 1 and no record shallower. */
  lemma RecordsShape(bs: seq<Block>, L: Loop, fname: string, loopDepth: nat, start: int)
    requires LoopFits(bs, L)
    ensures var r := Records(bs, L, fname, loopDepth, start);
      && |r| == LoopCount(L)
      && r[0] == LoopRecord(bs, L, fname, loopDepth, start)
      && (forall k :: 0 <= k < |r| ==> r[k].index == start + k)
      && (forall k :: 0 <= k < |r| ==> r[k].depth >= loopDepth - 1 && r[k].funcName == fname)
  {
    VisitsShape(L, loopDepth, start);
  }

  /** In the records, every sub-loop's tree follows the records of the
      sub-loops stored before it, one level deeper. */
  lemma RecordsPreOrder(bs: seq<Block>, L: Loop, fname: string, loopDepth: nat, start: int, i: nat)
    requires LoopFits(bs, L)
    requires i < |L.subLoops|
    ensures LoopFits(bs, L.subLoops[i])
    ensures var r := Records(bs, L, fname, loopDepth, start);
      var off := 1 + LoopCountList(L.subLoops[..i]);
      && off + LoopCount(L.subLoops[i]) <= |r|
      && r[off .. off + LoopCount(L.subLoops[i])] == Records(bs, L.subLoops[i], fname, loopDepth + 1, start + off)
  {
    var child := L.subLoops[i];
    var off := 1 + LoopCountList(L.subLoops[..i]);
    var n := LoopCount(child);
    var vs := Visits(L, loopDepth, start);
    VisitsPreOrder(L, loopDepth, start, i);
    VisitsFitTree(bs, L, loopDepth, start);
    RecordsForSlice(bs, fname, vs, off, off + n, Visits(child, loopDepth + 1, start + off));
  }

  /** The first record of each sub-loop's tree is that sub-loop's own: one
      level deeper than its parent's and numbered on from it. */
  lemma ChildRecordOneDeeper(bs: seq<Block>, L: Loop, fname: string, loopDepth: nat, start: int, i: nat)
    requires LoopFits(bs, L)
    requires i < |L.subLoops|
    ensures LoopFits(bs, L.subLoops[i])
    ensures var r := Records(bs, L, fname, loopDepth, start);
      var off := 1 + LoopCountList(L.subLoops[..i]);
      && 0 < off < |r|
      && r[off] == LoopRecord(bs, L.subLoops[i], fname, loopDepth + 1, start + off)
      && r[off].depth == r[0].depth + 1
      && r[off].index == r[0].index + off
  {
    var off := 1 + LoopCountList(L.subLoops[..i]);
    RecordsPreOrder(bs, L, fname, loopDepth, start, i);
    RecordsShape(bs, L, fname, loopDepth, start);
    RecordsShape(bs, L.subLoops[i], fname, loopDepth + 1, start + off);
  }

  /** The records of a list of trees: one per loop, numbered consecutively
      from start, none shallower than loopDepth - 1. */
  lemma RecordsOfListShape(bs: seq<Block>, ls: seq<Loop>, fname: string, loopDepth: nat, start: int)
    requires AllFit(bs, ls)
    ensures var r := RecordsOfList(bs, ls, fname, loopDepth, start);
      && |r| == LoopCountList(ls)
      && (forall k :: 0 <= k < |r| ==> r[k].index == start + k)
      && (forall k :: 0 <= k < |r| ==> r[k].depth >= loopDepth - 1 && r[k].funcName == fname)
  {
    VisitsOfListShape(ls, loopDepth, start);
  }

  /** Processing one more tree of the list appends its records to what was
      written before. */
  lemma RecordsOfListSnoc(bs: seq<Block>, out: seq<LoopStats>, ls: seq<Loop>, fname: string, loopDepth: nat, start: int, i: nat)
    requires AllFit(bs, ls) && i < |ls|
    ensures AllFit(bs, ls[..i]) && AllFit(bs, ls[..i + 1]) && LoopFits(bs, ls[i])
    ensures LoopCountList(ls[..i + 1]) == LoopCountList(ls[..i]) + LoopCount(ls[i])
    ensures out + RecordsOfList(bs, ls[..i + 1], fname, loopDepth, start)
      == out + RecordsOfList(bs, ls[..i], fname, loopDepth, start) + Records(bs, ls[i], fname, loopDepth, start + LoopCountList(ls[..i]))
  {
    VisitsOfListSnoc(ls, loopDepth, start, i);
    assert AllFit(bs, ls[..i + 1]);
    VisitsFitList(bs, ls[..i + 1], loopDepth, start);
    var vs := VisitsOfList(ls[..i], loopDepth, start);
    var ws := Visits(ls[i], loopDepth, start + LoopCountList(ls[..i]));
    RecordsForAppend(bs, fname, vs, ws);
    AppendAssoc(out, RecordsFor(bs, fname, vs), RecordsFor(bs, fname, ws));
  }

  /** The records of a tree: its root's, then those of its whole sub-loop list. */
  lemma RecordsUnfold(bs: seq<Block>, out: seq<LoopStats>, L: Loop, fname: string, loopDepth: nat, start: int)
    requires LoopFits(bs, L)
    ensures AllFit(bs, L.subLoops)
    ensures LoopCount(L) == 1 + LoopCountList(L.subLoops)
    ensures out + Records(bs, L, fname, loopDepth, start)
      == out + [LoopRecord(bs, L, fname, loopDepth, start)]
        + RecordsOfList(bs, L.subLoops, fname, loopDepth + 1, start + 1)
  {
    VisitsFitTree(bs, L, loopDepth, start);
    VisitsFitList(bs, L.subLoops, loopDepth + 1, start + 1);
    var v := Visit(L, loopDepth, start);
    var ws := VisitsOfList(L.subLoops, loopDepth + 1, start + 1);
    RecordsForAppend(bs, fname, [v], ws);
    RecordsForOne(bs, fname, v);
    var head := [LoopRecord(bs, L, fname, loopDepth, start)];
    var tail := RecordsFor(bs, fname, ws);
    assert Records(bs, L, fname, loopDepth, start) == head + tail;
    AppendAssoc(out, head, tail);
  }

  lemma RecordsForOne(bs: seq<Block>, fname: string, v: Visit)
    requires BlocksIn(bs, v.loop.blocks)
    ensures VisitsFit(bs, [v])
    ensures RecordsFor(bs, fname, [v]) == [LoopRecord(bs, v.loop, fname, v.loopDepth, v.index)]
  {
  }

  /** The pass's state: the global loop_count and the records written so far. */
  class StatsPass {
    var loopCount: int
    var output: seq<LoopStats>

    constructor ()
      ensures loopCount == 0 && output == []
    {
      loopCount := 0;
      output := [];
    }

    /** process_loop: write L's record with the current loop_count, bump the
        counter, then process every sub-loop in stored order. */
    method ProcessLoop(bs: seq<Block>, L: Loop, fname: string, loopDepth: nat)
      requires LoopFits(bs, L) && loopDepth >= 1
      modifies this
      ensures output == old(output) + Records(bs, L, fname, loopDepth, old(loopCount))
      ensures loopCount == old(loopCount) + LoopCount(L)
      decreases L
    {
      var numBbs, numInsns, numAtoms, numBranches := GetLoopInfo(bs, L);
      output := output + [LoopStats(loopCount, fname, loopDepth - 1, |L.subLoops| > 0,
        numBbs, numInsns, numAtoms, numBranches)];
      loopCount := loopCount + 1;
      ProcessLoops(bs, L.subLoops, fname, loopDepth + 1);
      RecordsUnfold(bs, old(output), L, fname, loopDepth, old(loopCount));
    }

    /** A `for` loop over a list of loops calling process_loop on each: the
        sub-loop loop of process_loop, and the top-level loop of run. */
    method ProcessLoops(bs: seq<Block>, ls: seq<Loop>, fname: string, loopDepth: nat)
      requires AllFit(bs, ls) && loopDepth >= 1
      modifies this
      ensures output == old(output) + RecordsOfList(bs, ls, fname, loopDepth, old(loopCount))
      ensures loopCount == old(loopCount) + LoopCountList(ls)
      decreases ls
    {
      var i := 0;
      while i < |ls|
        invariant 0 <= i <= |ls|
        invariant AllFit(bs, ls[..i])
        invariant output == old(output) + RecordsOfList(bs, ls[..i], fname, loopDepth, old(loopCount))
        invariant loopCount == old(loopCount) + LoopCountList(ls[..i])
      {
        RecordsOfListSnoc(bs, old(output), ls, fname, loopDepth, old(loopCount), i);
        ProcessLoop(bs, ls[i], fname, loopDepth);
        i := i + 1;
      }
      assert ls[..i] == ls;
    }

    /** LoopPass::run: process every top-level loop (LLVM loop depth 1) in
        the order LoopInfo yields them. */
    method Run(bs: seq<Block>, fname: string, topLevel: seq<Loop>)
      requires AllFit(bs, topLevel)
      modifies this
      ensures output == old(output) + RecordsOfList(bs, topLevel, fname, 1, old(loopCount))
      ensures loopCount == old(loopCount) + LoopCountList(topLevel)
    {
      ProcessLoops(bs, topLevel, fname, 1);
    }
  }
}
