/**
  The loop-invariant code motion pass: for each top-level loop with a
  preheader, classify every instruction of every member block except the
  header (allowed opcode, operands defined outside the loop, speculatable,
  block dominating every exit), and then move the instructions found, in the
  order found, to just before the preheader's terminator.
*/
module LoopOpt {
  import opened IR

  // ----- isLoopInvariant -----------------------------------------------------

  /** The allow-list: binary operators, select, casts and getelementptr. */
  predicate AllowedKind(k: Kind) {
    k.BinaryOp? || k.Select? || k.Cast? || k.GetElementPtr?
  }

  /** Some instruction of block s has id `id`. */
  predicate Defines(s: Block, id: InstId) {
    exists x :: x in s && x.id == id
  }

  /** L->contains on the instruction with id `id`: its block is a member
      block of L (sub-loop blocks included). */
  predicate InLoop(bs: seq<Block>, L: Loop, id: InstId) {
    exists k :: 0 <= k < |L.blocks| && L.blocks[k] < |bs| && Defines(bs[L.blocks[k]], id)
  }

  /** An operand that lets isLoopInvariant go on: a constant, or the result
      of an instruction outside L. */
  predicate OperandOutside(bs: seq<Block>, L: Loop, o: Operand) {
    o.Const? || (o.InstResult? && !InLoop(bs, L, o.def))
  }

  /** The operand loop of isLoopInvariant, left to right with early exits:
      Some(false) at the first operand defined inside L, None at the first
      operand that is neither a constant nor an instruction (the code then
      hands a null pointer to L->contains, which is undefined), and
      Some(true) when every operand passes. */
  function OperandScan(bs: seq<Block>, L: Loop, ops: seq<Operand>): (r: Option<bool>)
    ensures r == Some(true) <==> forall k :: 0 <= k < |ops| ==> OperandOutside(bs, L, ops[k])
    ensures r == None <==>
      exists k :: 0 <= k < |ops| && ops[k].Argument? && forall j :: 0 <= j < k ==> OperandOutside(bs, L, ops[j])
  {
    if ops == [] then Some(true)
    else
      var rest := OperandScan(bs, L, ops[1..]);
      assert forall k :: 1 <= k < |ops| ==> ops[k] == ops[1..][k - 1];
      match ops[0]
      case Const(_) => rest
      case InstResult(d) => if InLoop(bs, L, d) then Some(false) else rest
      case Argument(_) => None
  }

  /** isLoopInvariant may be asked about x: its operand loop never reaches
      the undefined null-pointer query. */
  predicate ScanOk(bs: seq<Block>, L: Loop, x: Inst) {
    !AllowedKind(x.kind) || OperandScan(bs, L, x.operands).Some?
  }

  /** isLoopInvariant: an allowed opcode whose every operand is a constant
      or an instruction outside L. */
  function IsLoopInvariant(bs: seq<Block>, L: Loop, x: Inst): (r: bool)
    requires ScanOk(bs, L, x)
    ensures r <==> AllowedKind(x.kind) && forall k :: 0 <= k < |x.operands| ==> OperandOutside(bs, L, x.operands[k])
  {
    if !AllowedKind(x.kind) then false
    else OperandScan(bs, L, x.operands).value
  }

  // ----- isSafeToHoist -------------------------------------------------------

  /** The exit-block loop of isSafeToHoist: b dominates every exit block. */
  function DominatesAll(an: Oracles, b: BlockId, exits: seq<BlockId>): (r: bool)
    ensures r <==> forall k :: 0 <= k < |exits| ==> an.dominates(b, exits[k])
  {
    if exits == [] then true
    else
      assert forall k :: 1 <= k < |exits| ==> exits[k] == exits[1..][k - 1];
      an.dominates(b, exits[0]) && DominatesAll(an, b, exits[1..])
  }

  /** isSafeToHoist for instruction x of block b: speculatable, and b
      dominates every exit block of L (vacuously so when there are none). */
  function IsSafeToHoist(an: Oracles, L: Loop, b: BlockId, x: Inst): (r: bool)
    ensures r <==> an.speculatable(x) && forall k :: 0 <= k < |L.exitBlocks| ==> an.dominates(b, L.exitBlocks[k])
  {
    an.speculatable(x) && DominatesAll(an, b, L.exitBlocks)
  }

  // ----- the candidates ------------------------------------------------------

  /** Instruction x of block b passes both tests. */
  predicate Hoistable(bs: seq<Block>, L: Loop, an: Oracles, b: BlockId, x: Inst)
    requires ScanOk(bs, L, x)
  {
    IsLoopInvariant(bs, L, x) && IsSafeToHoist(an, L, b, x)
  }

  /** Every block in ids is a block of the function, and every instruction
      of a non-header block among them may be classified. */
  ghost predicate ScanDefinedOver(bs: seq<Block>, L: Loop, ids: seq<BlockId>) {
    forall k :: 0 <= k < |ids| ==>
      && ids[k] < |bs|
      && (ids[k] != L.header ==> forall x :: x in bs[ids[k]] ==> ScanOk(bs, L, x))
  }

  ghost predicate ScanDefined(bs: seq<Block>, L: Loop) {
    ScanDefinedOver(bs, L, L.blocks)
  }

  /** The instructions of s (a prefix of block b) that pass, in order. */
  function BlockCandidates(bs: seq<Block>, L: Loop, an: Oracles, b: BlockId, s: seq<Inst>): seq<Inst>
    requires forall x :: x in s ==> ScanOk(bs, L, x)
  {
    if s == [] then []
    else
      var x := s[|s| - 1];
      BlockCandidates(bs, L, an, b, s[..|s| - 1]) + (if Hoistable(bs, L, an, b, x) then [x] else [])
  }

  /** The candidates of the blocks ids, block after block, skipping the header. */
  function CandidatesOver(bs: seq<Block>, L: Loop, an: Oracles, ids: seq<BlockId>): seq<Inst>
    requires ScanDefinedOver(bs, L, ids)
  {
    if ids == [] then []
    else
      var b := ids[|ids| - 1];
      assert ScanDefinedOver(bs, L, ids[..|ids| - 1]);
      CandidatesOver(bs, L, an, ids[..|ids| - 1]) + (if b == L.header then [] else BlockCandidates(bs, L, an, b, bs[b]))
  }

  /** ToHoist as hoistLoopInvariants collects it. */
  function Candidates(bs: seq<Block>, L: Loop, an: Oracles): seq<Inst>
    requires ScanDefined(bs, L)
  {
    CandidatesOver(bs, L, an, L.blocks)
  }

  // ----- what the candidates are ----------------------------------------------

  lemma {:induction false} BlockCandidatesMember(bs: seq<Block>, L: Loop, an: Oracles, b: BlockId, s: seq<Inst>, x: Inst)
    requires forall y :: y in s ==> ScanOk(bs, L, y)
    ensures x in BlockCandidates(bs, L, an, b, s) <==> x in s && Hoistable(bs, L, an, b, x)
    ensures multiset(BlockCandidates(bs, L, an, b, s)) <= multiset(s)
  {
    if s != [] {
      var n := |s| - 1;
      assert s == s[..n] + [s[n]];
      BlockCandidatesMember(bs, L, an, b, s[..n], x);
    }
  }

  /** A candidate comes from a non-header block of ids where it passes both
      tests; k is that block's position. */
  lemma {:induction false} CandidateSource(bs: seq<Block>, L: Loop, an: Oracles, ids: seq<BlockId>, x: Inst) returns (k: nat)
    requires ScanDefinedOver(bs, L, ids)
    requires x in CandidatesOver(bs, L, an, ids)
    ensures k < |ids| && ids[k] != L.header && x in bs[ids[k]] && Hoistable(bs, L, an, ids[k], x)
  {
    var n := |ids| - 1;
    var b := ids[n];
    var init := ids[..n];
    assert ScanDefinedOver(bs, L, init);
    if x in CandidatesOver(bs, L, an, init) {
      k := CandidateSource(bs, L, an, init, x);
      assert ids[k] == init[k];
    } else {
      BlockCandidatesMember(bs, L, an, b, bs[b], x);
      k := n;
    }
  }

  /** An instruction of a non-header block of ids that passes both tests
      there is a candidate. */
  lemma {:induction false} CandidateFromSource(bs: seq<Block>, L: Loop, an: Oracles, ids: seq<BlockId>, x: Inst, k: nat)
    requires ScanDefinedOver(bs, L, ids)
    requires k < |ids| && ids[k] != L.header && x in bs[ids[k]] && Hoistable(bs, L, an, ids[k], x)
    ensures x in CandidatesOver(bs, L, an, ids)
  {
    var n := |ids| - 1;
    var init := ids[..n];
    assert ScanDefinedOver(bs, L, init);
    if k < n {
      assert init[k] == ids[k];
      CandidateFromSource(bs, L, an, init, x, k);
    } else {
      BlockCandidatesMember(bs, L, an, ids[n], bs[ids[n]], x);
    }
  }

  /** x is a candidate exactly when it lies in a non-header member block and
      passes both tests there. */
  lemma CandidatesMember(bs: seq<Block>, L: Loop, an: Oracles, x: Inst)
    requires ScanDefined(bs, L)
    ensures x in Candidates(bs, L, an) <==>
      exists k :: 0 <= k < |L.blocks| && L.blocks[k] != L.header && x in bs[L.blocks[k]] && Hoistable(bs, L, an, L.blocks[k], x)
  {
    if x in Candidates(bs, L, an) {
      var k := CandidateSource(bs, L, an, L.blocks, x);
    }
    if exists k :: 0 <= k < |L.blocks| && L.blocks[k] != L.header && x in bs[L.blocks[k]] && Hoistable(bs, L, an, L.blocks[k], x) {
      var k :| 0 <= k < |L.blocks| && L.blocks[k] != L.header && x in bs[L.blocks[k]] && Hoistable(bs, L, an, L.blocks[k], x);
      CandidateFromSource(bs, L, an, L.blocks, x, k);
    }
  }

  /** With distinct member blocks and no instruction twice in the function,
      no instruction is collected twice. */
  lemma {:induction false} CandidatesOverDistinct(bs: seq<Block>, L: Loop, an: Oracles, ids: seq<BlockId>)
    requires UniqueInsts(bs) && Distinct(ids) && ScanDefinedOver(bs, L, ids)
    ensures Distinct(CandidatesOver(bs, L, an, ids))
  {
    if ids != [] {
      var n := |ids| - 1;
      var b := ids[n];
      var init := ids[..n];
      assert ScanDefinedOver(bs, L, init);
      DistinctInit(ids);
      CandidatesOverDistinct(bs, L, an, init);
      var c := CandidatesOver(bs, L, an, init);
      var blk := if b == L.header then [] else BlockCandidates(bs, L, an, b, bs[b]);
      forall x
        ensures multiset(c + blk)[x] <= 1
      {
        if b != L.header {
          BlockCandidatesMember(bs, L, an, b, bs[b], x);
          FlattenOneBlock(bs, b, x);
          assert Occurrences(bs, x) <= 1;
        }
        if x in c {
          var k := CandidateSource(bs, L, an, init, x);
          assert init[k] in init;
          InOneBlockOnly(bs, init[k], b, x);
          assert x !in blk;
        }
      }
    }
  }

  // ----- moveBefore ------------------------------------------------------------

  /** s with x placed just before its last instruction (the terminator). */
  function InsertBeforeLast(s: Block, x: Inst): Block
    requires |s| > 0
  {
    s[..|s| - 1] + [x] + [s[|s| - 1]]
  }

  /** Every block with x removed. */
  function RemoveEverywhere(bs: seq<Block>, x: Inst): seq<Block>
  {
    seq(|bs|, b requires 0 <= b < |bs| => Without(bs[b], [x]))
  }

  /** x->moveBefore(pre's terminator): x leaves its block and is inserted
      just before the last instruction of pre. */
  function MovedBefore(bs: seq<Block>, x: Inst, pre: BlockId): (r: seq<Block>)
    requires pre < |bs| && WellFormedBlock(bs[pre]) && !IsTerminator(x.kind)
    ensures |r| == |bs| && WellFormedBlock(r[pre])
    ensures Terminator(r[pre]) == Terminator(bs[pre])
  {
    WithoutWellFormed(bs[pre], [x]);
    var rs := RemoveEverywhere(bs, x);
    rs[pre := InsertBeforeLast(rs[pre], x)]
  }

  /** Removing non-terminators keeps a block well formed, with the same
      terminator. */
  lemma WithoutWellFormed(s: Block, ys: seq<Inst>)
    requires WellFormedBlock(s)
    requires forall y :: y in ys ==> !IsTerminator(y.kind)
    ensures Without(s, ys) == Without(s[..|s| - 1], ys) + [s[|s| - 1]]
    ensures WellFormedBlock(Without(s, ys))
  {
    var n := |s| - 1;
    assert s == s[..n] + [s[n]];
    WithoutAppend(s[..n], [s[n]], ys);
    assert Without([s[n]], ys) == [s[n]];
    var w := Without(s[..n], ys);
    forall k | 0 <= k < |w|
      ensures !IsTerminator(w[k].kind)
    {
      WithoutMember(s[..n], ys, w[k]);
    }
  }

  /** Moving a non-terminator keeps every well-formed block well formed. */
  lemma MovedBeforeWellFormed(bs: seq<Block>, x: Inst, pre: BlockId)
    requires pre < |bs| && WellFormedBlock(bs[pre]) && !IsTerminator(x.kind)
    ensures forall b :: 0 <= b < |bs| && WellFormedBlock(bs[b]) ==> WellFormedBlock(MovedBefore(bs, x, pre)[b])
  {
    forall b | 0 <= b < |bs| && WellFormedBlock(bs[b])
      ensures WellFormedBlock(MovedBefore(bs, x, pre)[b])
    {
      WithoutWellFormed(bs[b], [x]);
    }
  }

  /** The instructions xs moved before pre's terminator one after another. */
  function MoveAll(bs: seq<Block>, pre: BlockId, xs: seq<Inst>): (r: seq<Block>)
    requires pre < |bs| && WellFormedBlock(bs[pre])
    requires forall k :: 0 <= k < |xs| ==> !IsTerminator(xs[k].kind)
    ensures |r| == |bs| && WellFormedBlock(r[pre])
    ensures Terminator(r[pre]) == Terminator(bs[pre])
    decreases |xs|
  {
    if xs == [] then bs
    else
      var n := |xs| - 1;
      MovedBefore(MoveAll(bs, pre, xs[..n]), xs[n], pre)
  }

  // ----- what the moves do -------------------------------------------------------

  lemma MultisetClearAdd<T>(a: multiset<T>, b: multiset<T>, x: T)
    ensures a[x := 0] + b[x := 0] == (a + b)[x := 0]
  {
  }

  /** Removing x everywhere removes every copy of x from the function. */
  lemma {:induction false} RemoveEverywhereMultiset(bs: seq<Block>, x: Inst)
    ensures multiset(Flatten(RemoveEverywhere(bs, x))) == multiset(Flatten(bs))[x := 0]
  {
    var rs := RemoveEverywhere(bs, x);
    if bs != [] {
      assert rs[1..] == RemoveEverywhere(bs[1..], x);
      RemoveEverywhereMultiset(bs[1..], x);
      WithoutOneMultiset(bs[0], x);
      MultisetClearAdd(multiset(bs[0]), multiset(Flatten(bs[1..])), x);
    }
  }

  /** Moving an instruction that occurs once keeps the function's instructions. */
  lemma MovedBeforeMultiset(bs: seq<Block>, x: Inst, pre: BlockId)
    requires pre < |bs| && WellFormedBlock(bs[pre]) && !IsTerminator(x.kind)
    requires multiset(Flatten(bs))[x] == 1
    ensures multiset(Flatten(MovedBefore(bs, x, pre))) == multiset(Flatten(bs))
  {
    var rs := RemoveEverywhere(bs, x);
    WithoutWellFormed(bs[pre], [x]);
    var s := rs[pre];
    var t := InsertBeforeLast(s, x);
    assert MovedBefore(bs, x, pre) == rs[pre := t];
    InsertBeforeLastMultiset(s, x);
    FlattenUpdate(rs, pre, t);
    RemoveEverywhereMultiset(bs, x);
    MultisetMove(multiset(Flatten(rs[pre := t])), multiset(s), multiset(t), multiset(Flatten(bs)), x);
  }

  /** The multiset arithmetic of a move: a is what results from taking x out
      of m (where it occurs once) and replacing a block s by s with x added. */
  lemma MultisetMove<T>(a: multiset<T>, s: multiset<T>, t: multiset<T>, m: multiset<T>, x: T)
    requires m[x] == 1 && t == s + multiset{x}
    requires a + s == m[x := 0] + t
    ensures a == m
  {
    forall y ensures a[y] == m[y] {
      assert (a + s)[y] == (m[x := 0] + t)[y];
    }
  }

  lemma InsertBeforeLastMultiset(s: Block, x: Inst)
    requires |s| > 0
    ensures multiset(InsertBeforeLast(s, x)) == multiset(s) + multiset{x}
  {
    assert s == s[..|s| - 1] + [s[|s| - 1]];
  }

  /** Moving instructions that occur once each keeps every block well
      formed and keeps the function's instructions. */
  lemma {:induction false} MoveAllSameInsts(bs: seq<Block>, pre: BlockId, xs: seq<Inst>)
    requires pre < |bs| && (forall b :: 0 <= b < |bs| ==> WellFormedBlock(bs[b])) && UniqueInsts(bs)
    requires forall k :: 0 <= k < |xs| ==> !IsTerminator(xs[k].kind) && xs[k] in Flatten(bs)
    ensures var r := MoveAll(bs, pre, xs);
      (forall b :: 0 <= b < |r| ==> WellFormedBlock(r[b])) && multiset(Flatten(r)) == multiset(Flatten(bs))
  {
    if xs != [] {
      var n := |xs| - 1;
      var x := xs[n];
      MoveAllSameInsts(bs, pre, xs[..n]);
      var st := MoveAll(bs, pre, xs[..n]);
      assert Occurrences(bs, x) <= 1;
      assert multiset(Flatten(st))[x] == 1;
      MovedBeforeMultiset(st, x, pre);
      MovedBeforeWellFormed(st, x, pre);
    }
  }

  /** Moving instructions of the function keeps it valid and keeps its
      instructions. */
  lemma MoveAllValid(bs: seq<Block>, pre: BlockId, xs: seq<Inst>)
    requires ValidBlocks(bs) && pre < |bs|
    requires forall k :: 0 <= k < |xs| ==> !IsTerminator(xs[k].kind) && xs[k] in Flatten(bs)
    ensures ValidBlocks(MoveAll(bs, pre, xs))
    ensures multiset(Flatten(MoveAll(bs, pre, xs))) == multiset(Flatten(bs))
  {
    var r := MoveAll(bs, pre, xs);
    MoveAllSameInsts(bs, pre, xs);
    assert UniqueInsts(r) by {
      forall y ensures Occurrences(r, y) <= 1 {
        assert Occurrences(bs, y) <= 1;
      }
    }
  }

  lemma InsertBeforeLastAppend(a: Block, t: Inst, x: Inst)
    ensures InsertBeforeLast(a + [t], x) == a + [x] + [t]
  {
    assert (a + [t])[..|a|] == a;
  }

  /** An element of a non-empty list other than its last lies in its body. */
  lemma InBodyUnlessLast(s: Block, y: Inst)
    requires y in s && y != s[|s| - 1]
    ensures y in s[..|s| - 1]
  {
    assert s == s[..|s| - 1] + [s[|s| - 1]];
  }

  /** After moving non-terminators xs to pre, every other block is its old
      self without xs, in the old order. */
  lemma {:induction false} MoveAllOthers(bs: seq<Block>, pre: BlockId, xs: seq<Inst>, b: BlockId)
    requires pre < |bs| && WellFormedBlock(bs[pre])
    requires forall k :: 0 <= k < |xs| ==> !IsTerminator(xs[k].kind)
    requires b < |bs| && b != pre
    ensures MoveAll(bs, pre, xs)[b] == Without(bs[b], xs)
  {
    if xs == [] {
      WithoutNoop(bs[b], xs);
    } else {
      var n := |xs| - 1;
      assert xs == xs[..n] + [xs[n]];
      MoveAllOthers(bs, pre, xs[..n], b);
      WithoutThenOne(bs[b], xs[..n], xs[n]);
    }
  }

  /** After moving distinct non-terminators xs to pre, pre is its old body
      without xs, then xs in order, then its old terminator. */
  lemma {:induction false} MoveAllPreheader(bs: seq<Block>, pre: BlockId, xs: seq<Inst>)
    requires pre < |bs| && WellFormedBlock(bs[pre])
    requires forall k :: 0 <= k < |xs| ==> !IsTerminator(xs[k].kind)
    requires Distinct(xs)
    ensures MoveAll(bs, pre, xs)[pre] == Without(bs[pre][..|bs[pre]| - 1], xs) + xs + [Terminator(bs[pre])]
  {
    var body := bs[pre][..|bs[pre]| - 1];
    var t := Terminator(bs[pre]);
    if xs == [] {
      WithoutNoop(body, xs);
      assert bs[pre] == body + [t];
    } else {
      var n := |xs| - 1;
      var x := xs[n];
      var xs' := xs[..n];
      assert xs == xs' + [x];
      DistinctInit(xs);
      MoveAllPreheader(bs, pre, xs');
      var st := MoveAll(bs, pre, xs');
      var a := Without(body, xs');
      WithoutAppend(a + xs', [t], [x]);
      WithoutAppend(a, xs', [x]);
      WithoutNoop(xs', [x]);
      WithoutNoop([t], [x]);
      WithoutThenOne(body, xs', x);
      var w := Without(body, xs);
      assert Without(st[pre], [x]) == w + xs' + [t];
      InsertBeforeLastAppend(w + xs', t, x);
      calc {
        MoveAll(bs, pre, xs)[pre];
        InsertBeforeLast(RemoveEverywhere(st, x)[pre], x);
        InsertBeforeLast(Without(st[pre], [x]), x);
        w + xs' + [x] + [t];
        { AppendAssoc(w, xs', [x]); }
        w + xs + [t];
      }
    }
  }

  // ----- hoistLoopInvariants ---------------------------------------------------

  /** What LoopInfo guarantees about a loop of the function: its member
      blocks are distinct blocks of the function, and so are its header and
      its preheader. */
  ghost predicate LoopInFunction(bs: seq<Block>, L: Loop) {
    && Distinct(L.blocks)
    && L.header < |bs|
    && (L.preheader.Some? ==> L.preheader.value < |bs|)
  }

  /** The candidates are distinct instructions of the function with an
      allowed opcode (so never terminators). */
  lemma CandidatesFacts(bs: seq<Block>, L: Loop, an: Oracles)
    requires ValidBlocks(bs) && LoopInFunction(bs, L) && ScanDefined(bs, L)
    ensures var c := Candidates(bs, L, an);
      && Distinct(c)
      && forall k :: 0 <= k < |c| ==> c[k] in Flatten(bs) && AllowedKind(c[k].kind) && !IsTerminator(c[k].kind)
  {
    var c := Candidates(bs, L, an);
    CandidatesOverDistinct(bs, L, an, L.blocks);
    forall k | 0 <= k < |c|
      ensures c[k] in Flatten(bs) && AllowedKind(c[k].kind)
    {
      var j := CandidateSource(bs, L, an, L.blocks, c[k]);
      FlattenMember(bs, L.blocks[j], c[k]);
    }
  }

  /** The whole effect of hoistLoopInvariants on the function's blocks:
      nothing without a preheader, otherwise every candidate moved, in
      collection order, before the preheader's terminator.  The function
      stays valid and keeps the same instructions. */
  function HoistSpec(bs: seq<Block>, L: Loop, an: Oracles): (r: seq<Block>)
    requires ValidBlocks(bs) && LoopInFunction(bs, L) && (L.preheader.Some? ==> ScanDefined(bs, L))
    ensures |r| == |bs| && ValidBlocks(r)
    ensures multiset(Flatten(r)) == multiset(Flatten(bs)) && |Flatten(r)| == |Flatten(bs)|
  {
    match L.preheader
    case None => bs
    case Some(pre) =>
      CandidatesFacts(bs, L, an);
      MoveAllValid(bs, pre, Candidates(bs, L, an));
      var r := MoveAll(bs, pre, Candidates(bs, L, an));
      assert |multiset(Flatten(r))| == |Flatten(r)|;
      r
  }

  /** A function body: its blocks, updated in place. */
  class Function {
    var blocks: seq<Block>

    /** Well-formed blocks, no instruction twice, and every id naming at
        most one instruction, so that an operand's id picks out one
        instruction. */
    ghost predicate Valid()
      reads this
    {
      ValidBlocks(blocks) && UniqueIds(blocks)
    }
  }

  /** The inner loop of the collection: the instructions of block b that
      pass both tests, in block order. */
  method ScanBlock(bs: seq<Block>, L: Loop, an: Oracles, b: BlockId) returns (found: seq<Inst>)
    requires b < |bs| && forall x :: x in bs[b] ==> ScanOk(bs, L, x)
    ensures found == BlockCandidates(bs, L, an, b, bs[b])
  {
    found := [];
    var j := 0;
    while j < |bs[b]|
      invariant 0 <= j <= |bs[b]|
      invariant forall x :: x in bs[b][..j] ==> ScanOk(bs, L, x)
      invariant found == BlockCandidates(bs, L, an, b, bs[b][..j])
    {
      var x := bs[b][j];
      assert bs[b][..j + 1] == bs[b][..j] + [x];
      if IsLoopInvariant(bs, L, x) && IsSafeToHoist(an, L, b, x) {
        found := found + [x];
      }
      j := j + 1;
    }
    assert bs[b][..j] == bs[b];
  }

  /** The collection phase of hoistLoopInvariants: ToHoist over the member
      blocks in L->blocks() order, skipping the header. */
  method CollectCandidates(bs: seq<Block>, L: Loop, an: Oracles) returns (toHoist: seq<Inst>)
    requires ScanDefined(bs, L)
    ensures toHoist == Candidates(bs, L, an)
  {
    toHoist := [];
    var i := 0;
    while i < |L.blocks|
      invariant 0 <= i <= |L.blocks|
      invariant ScanDefinedOver(bs, L, L.blocks[..i])
      invariant toHoist == CandidatesOver(bs, L, an, L.blocks[..i])
    {
      var b := L.blocks[i];
      assert L.blocks[..i + 1][..i] == L.blocks[..i];
      if b != L.header {
        var found := ScanBlock(bs, L, an, b);
        toHoist := toHoist + found;
      }
      i := i + 1;
    }
    assert L.blocks[..i] == L.blocks;
  }

  /** The move phase of hoistLoopInvariants: each instruction of xs, in
      order, moved before pre's terminator. */
  method MoveCandidates(f: Function, pre: BlockId, xs: seq<Inst>)
    requires pre < |f.blocks| && WellFormedBlock(f.blocks[pre])
    requires forall k :: 0 <= k < |xs| ==> !IsTerminator(xs[k].kind)
    modifies f
    ensures f.blocks == MoveAll(old(f.blocks), pre, xs)
  {
    ghost var bs := f.blocks;
    var k := 0;
    while k < |xs|
      invariant 0 <= k <= |xs|
      invariant f.blocks == MoveAll(bs, pre, xs[..k])
    {
      assert xs[..k + 1][..k] == xs[..k];
      f.blocks := MovedBefore(f.blocks, xs[k], pre);
      k := k + 1;
    }
    assert xs[..k] == xs;
  }

  /** hoistLoopInvariants: give up without a preheader; collect ToHoist over
      the member blocks except the header, testing every instruction before
      anything moves; then move each collected instruction, in order, to
      just before the preheader's terminator. */
  method HoistLoopInvariants(f: Function, L: Loop, an: Oracles)
    requires f.Valid() && LoopInFunction(f.blocks, L) && (L.preheader.Some? ==> ScanDefined(f.blocks, L))
    modifies f
    ensures f.Valid()
    ensures f.blocks == HoistSpec(old(f.blocks), L, an)
  {
    if L.preheader.None? {
      return;
    }
    var pre := L.preheader.value;
    var bs := f.blocks;
    var toHoist := CollectCandidates(bs, L, an);
    CandidatesFacts(bs, L, an);
    MoveAllValid(bs, pre, toHoist);
    SameInstsKeepIds(bs, MoveAll(bs, pre, toHoist));
    MoveCandidates(f, pre, toHoist);
  }

  // ----- what hoisting does ------------------------------------------------------

  /** Without a preheader nothing changes.  With preheader pre, every other
      block keeps its instructions in order except the candidates, which it
      loses; pre becomes its old body without candidates, then the candidates
      in collection order, then its old terminator. */
  lemma HoistShape(bs: seq<Block>, L: Loop, an: Oracles)
    requires ValidBlocks(bs) && LoopInFunction(bs, L) && (L.preheader.Some? ==> ScanDefined(bs, L))
    ensures L.preheader.None? ==> HoistSpec(bs, L, an) == bs
    ensures L.preheader.Some? ==>
      var pre := L.preheader.value;
      var c := Candidates(bs, L, an);
      var r := HoistSpec(bs, L, an);
      && (forall b :: 0 <= b < |bs| && b != pre ==> r[b] == Without(bs[b], c))
      && r[pre] == Without(bs[pre][..|bs[pre]| - 1], c) + c + [Terminator(bs[pre])]
  {
    if L.preheader.Some? {
      var pre := L.preheader.value;
      var c := Candidates(bs, L, an);
      CandidatesFacts(bs, L, an);
      forall b | 0 <= b < |bs| && b != pre
        ensures MoveAll(bs, pre, c)[b] == Without(bs[b], c)
      {
        MoveAllOthers(bs, pre, c, b);
      }
      MoveAllPreheader(bs, pre, c);
    }
  }

  /** Every candidate ends up in the preheader and in no other block. */
  lemma HoistedLandInPreheader(bs: seq<Block>, L: Loop, an: Oracles, x: Inst)
    requires ValidBlocks(bs) && LoopInFunction(bs, L) && ScanDefined(bs, L)
    requires L.preheader.Some? && x in Candidates(bs, L, an)
    ensures x in HoistSpec(bs, L, an)[L.preheader.value]
    ensures forall b :: 0 <= b < |bs| && b != L.preheader.value ==> x !in HoistSpec(bs, L, an)[b]
  {
    HoistShape(bs, L, an);
    var c := Candidates(bs, L, an);
    forall b | 0 <= b < |bs| && b != L.preheader.value
      ensures x !in HoistSpec(bs, L, an)[b]
    {
      WithoutMember(bs[b], c, x);
    }
  }

  /** An instruction that is not a candidate stays in its block. */
  lemma OthersStay(bs: seq<Block>, L: Loop, an: Oracles, b: BlockId, y: Inst)
    requires ValidBlocks(bs) && LoopInFunction(bs, L) && (L.preheader.Some? ==> ScanDefined(bs, L))
    requires b < |bs| && y in bs[b] && (L.preheader.Some? ==> y !in Candidates(bs, L, an))
    ensures y in HoistSpec(bs, L, an)[b]
  {
    if L.preheader.Some? {
      var pre := L.preheader.value;
      var c := Candidates(bs, L, an);
      CandidatesFacts(bs, L, an);
      if b == pre {
        var n := |bs[pre]| - 1;
        var body := bs[pre][..n];
        var t := bs[pre][n];
        MoveAllPreheader(bs, pre, c);
        assert HoistSpec(bs, L, an)[pre] == Without(body, c) + c + [t];
        if y != t {
          InBodyUnlessLast(bs[pre], y);
          WithoutMember(body, c, y);
        }
      } else {
        MoveAllOthers(bs, pre, c, b);
        WithoutMember(bs[b], c, y);
      }
    }
  }

  /** The header is never touched (unless it were its own preheader, which
      LoopInfo rules out). */
  lemma HeaderNeverChanges(bs: seq<Block>, L: Loop, an: Oracles)
    requires ValidBlocks(bs) && LoopInFunction(bs, L) && (L.preheader.Some? ==> ScanDefined(bs, L))
    requires L.preheader != Some(L.header)
    ensures HoistSpec(bs, L, an)[L.header] == bs[L.header]
  {
    HoistShape(bs, L, an);
    if L.preheader.Some? {
      var c := Candidates(bs, L, an);
      forall y | y in bs[L.header]
        ensures y !in c
      {
        if y in c {
          var k := CandidateSource(bs, L, an, L.blocks, y);
          InOneBlockOnly(bs, L.blocks[k], L.header, y);
        }
      }
      WithoutNoop(bs[L.header], c);
    }
  }

  /** What a hoisted instruction is: an allowed opcode, never a terminator,
      PHI, load, store, call or atomic; speculatable; every operand a
      constant or defined outside the loop; and taken from a non-header
      member block that dominates every exit. */
  lemma CandidateIsInvariantAndSafe(bs: seq<Block>, L: Loop, an: Oracles, x: Inst)
    requires ScanDefined(bs, L) && x in Candidates(bs, L, an)
    ensures AllowedKind(x.kind) && !IsTerminator(x.kind) && an.speculatable(x)
    ensures forall j :: 0 <= j < |x.operands| ==> OperandOutside(bs, L, x.operands[j])
    ensures exists k ::
      && 0 <= k < |L.blocks| && L.blocks[k] != L.header && x in bs[L.blocks[k]]
      && (forall e :: 0 <= e < |L.exitBlocks| ==> an.dominates(L.blocks[k], L.exitBlocks[e]))
  {
    var k := CandidateSource(bs, L, an, L.blocks, x);
  }

  /** No candidate uses another candidate: a candidate lies inside the loop,
      and a candidate's operands all lie outside. */
  lemma NoCandidateUsesCandidate(bs: seq<Block>, L: Loop, an: Oracles, x: Inst, y: Inst)
    requires ScanDefined(bs, L) && x in Candidates(bs, L, an) && y in Candidates(bs, L, an)
    ensures InstResult(y.id) !in x.operands
  {
    var k := CandidateSource(bs, L, an, L.blocks, y);
    assert Defines(bs[L.blocks[k]], y.id);
    assert InLoop(bs, L, y.id);
    CandidateIsInvariantAndSafe(bs, L, an, x);
  }

  // ----- the pass ignores sub-loops ------------------------------------------------

  /** Two loops that agree on header, blocks, preheader and exit blocks. */
  predicate SameOutline(L: Loop, L': Loop) {
    L.header == L'.header && L.blocks == L'.blocks && L.preheader == L'.preheader && L.exitBlocks == L'.exitBlocks
  }

  lemma {:induction false} OperandScanOutline(bs: seq<Block>, L: Loop, L': Loop, ops: seq<Operand>)
    requires SameOutline(L, L')
    ensures OperandScan(bs, L, ops) == OperandScan(bs, L', ops)
  {
    if ops != [] {
      OperandScanOutline(bs, L, L', ops[1..]);
    }
  }

  lemma {:induction false} BlockCandidatesOutline(bs: seq<Block>, L: Loop, L': Loop, an: Oracles, b: BlockId, s: seq<Inst>)
    requires SameOutline(L, L')
    requires forall x :: x in s ==> ScanOk(bs, L, x) && ScanOk(bs, L', x)
    ensures BlockCandidates(bs, L, an, b, s) == BlockCandidates(bs, L', an, b, s)
  {
    if s != [] {
      var n := |s| - 1;
      assert s[n] in s;
      BlockCandidatesOutline(bs, L, L', an, b, s[..n]);
      OperandScanOutline(bs, L, L', s[n].operands);
    }
  }

  lemma {:induction false} CandidatesOverOutline(bs: seq<Block>, L: Loop, L': Loop, an: Oracles, ids: seq<BlockId>)
    requires SameOutline(L, L')
    requires ScanDefinedOver(bs, L, ids) && ScanDefinedOver(bs, L', ids)
    ensures CandidatesOver(bs, L, an, ids) == CandidatesOver(bs, L', an, ids)
  {
    if ids != [] {
      var n := |ids| - 1;
      assert ScanDefinedOver(bs, L, ids[..n]) && ScanDefinedOver(bs, L', ids[..n]);
      CandidatesOverOutline(bs, L, L', an, ids[..n]);
      if ids[n] != L.header {
        BlockCandidatesOutline(bs, L, L', an, ids[n], bs[ids[n]]);
      }
    }
  }

  /** hoistLoopInvariants never looks at the sub-loops: replacing them
      changes nothing in what it does. */
  lemma HoistIgnoresSubLoops(bs: seq<Block>, L: Loop, an: Oracles, subs: seq<Loop>)
    requires ValidBlocks(bs) && LoopInFunction(bs, L) && (L.preheader.Some? ==> ScanDefined(bs, L))
    ensures L.preheader.Some? ==> ScanDefined(bs, L.(subLoops := subs))
    ensures HoistSpec(bs, L.(subLoops := subs), an) == HoistSpec(bs, L, an)
  {
    var L' := L.(subLoops := subs);
    if L.preheader.Some? {
      forall x ensures ScanOk(bs, L, x) == ScanOk(bs, L', x) {
        OperandScanOutline(bs, L, L', x.operands);
      }
      CandidatesOverOutline(bs, L, L', an, L.blocks);
    }
  }

  // ----- LoopPass::run -------------------------------------------------------------

  /** Every hoist of run may classify its loop's instructions in the state
      the earlier hoists left, and every loop is a loop of the function. */
  ghost predicate RunDefined(bs: seq<Block>, ls: seq<Loop>, an: Oracles)
    decreases |ls|, 0
  {
    && ValidBlocks(bs)
    && (forall k :: 0 <= k < |ls| ==> LoopInFunction(bs, ls[k]))
    && (ls != [] ==>
      var init := ls[..|ls| - 1];
      && RunDefined(bs, init, an)
      && (ls[|ls| - 1].preheader.Some? ==> ScanDefined(RunSpec(bs, init, an), ls[|ls| - 1])))
  }

  /** The effect of run: the top-level loops in order, those without a
      preheader skipped, each other one hoisted in the state the previous
      ones left.  The function stays valid and keeps its instructions. */
  function RunSpec(bs: seq<Block>, ls: seq<Loop>, an: Oracles): (r: seq<Block>)
    requires RunDefined(bs, ls, an)
    ensures |r| == |bs| && ValidBlocks(r)
    ensures multiset(Flatten(r)) == multiset(Flatten(bs))
    decreases |ls|, 1
  {
    if ls == [] then bs
    else
      var init := ls[..|ls| - 1];
      var L := ls[|ls| - 1];
      var prev := RunSpec(bs, init, an);
      if L.preheader.None? then prev else HoistSpec(prev, L, an)
  }

  lemma {:induction false} RunDefinedPrefix(bs: seq<Block>, ls: seq<Loop>, an: Oracles, i: nat)
    requires RunDefined(bs, ls, an) && i <= |ls|
    ensures RunDefined(bs, ls[..i], an)
    decreases |ls| - i
  {
    if i == |ls| {
      assert ls[..i] == ls;
    } else {
      RunDefinedPrefix(bs, ls, an, i + 1);
      assert ls[..i + 1][..i] == ls[..i];
    }
  }

  /** The last loop of a run: the state the earlier loops left, hoisted
      (which without a preheader leaves it as it is). */
  lemma RunLast(bs: seq<Block>, ls: seq<Loop>, an: Oracles)
    requires RunDefined(bs, ls, an) && ls != []
    ensures RunDefined(bs, ls[..|ls| - 1], an)
    ensures LoopInFunction(RunSpec(bs, ls[..|ls| - 1], an), ls[|ls| - 1])
    ensures ls[|ls| - 1].preheader.Some? ==> ScanDefined(RunSpec(bs, ls[..|ls| - 1], an), ls[|ls| - 1])
    ensures RunSpec(bs, ls, an) == HoistSpec(RunSpec(bs, ls[..|ls| - 1], an), ls[|ls| - 1], an)
  {
  }

  /** One more loop of run: the state the earlier loops left, hoisted (which
      without a preheader leaves it as it is). */
  lemma RunStep(bs: seq<Block>, ls: seq<Loop>, an: Oracles, i: nat)
    requires RunDefined(bs, ls, an) && i < |ls|
    ensures RunDefined(bs, ls[..i], an) && RunDefined(bs, ls[..i + 1], an)
    ensures LoopInFunction(RunSpec(bs, ls[..i], an), ls[i])
    ensures ls[i].preheader.Some? ==> ScanDefined(RunSpec(bs, ls[..i], an), ls[i])
    ensures RunSpec(bs, ls[..i + 1], an) == HoistSpec(RunSpec(bs, ls[..i], an), ls[i], an)
  {
    RunDefinedPrefix(bs, ls, an, i + 1);
    var upto := ls[..i + 1];
    assert upto[..|upto| - 1] == ls[..i] && upto[|upto| - 1] == ls[i];
    RunLast(bs, upto, an);
  }

  /** The state run leaves after its first i top-level loops: RunSpec of the
      prefix, named as a function of the whole list so that the invariant of
      Run's loop mentions no prefix's RunDefined, which keeps that loop's
      proof small. */
  function RunPrefix(bs: seq<Block>, ls: seq<Loop>, an: Oracles, i: nat): (r: seq<Block>)
    requires RunDefined(bs, ls, an) && i <= |ls|
    ensures RunDefined(bs, ls[..i], an) && r == RunSpec(bs, ls[..i], an)
  {
    RunDefinedPrefix(bs, ls, an, i);
    RunSpec(bs, ls[..i], an)
  }

  /** One iteration of the loop of LoopPass::run: the i-th top-level loop is
      skipped when it has no preheader and handed to hoistLoopInvariants
      otherwise, which takes the function from the state of run after the
      first i loops to its state after the first i + 1. */
  method RunIteration(f: Function, ghost bs: seq<Block>, topLevel: seq<Loop>, an: Oracles, i: nat)
    requires f.Valid() && RunDefined(bs, topLevel, an) && i < |topLevel|
    requires f.blocks == RunPrefix(bs, topLevel, an, i)
    modifies f
    ensures f.Valid() && f.blocks == RunPrefix(bs, topLevel, an, i + 1)
    ensures topLevel[i].preheader.None? ==> f.blocks == old(f.blocks)
  {
    RunStep(bs, topLevel, an, i);
    ghost var next := RunPrefix(bs, topLevel, an, i + 1);
    var L := topLevel[i];
    if L.preheader.None? {
      return;
    }
    HoistLoopInvariants(f, L, an);
  }

  /** LoopPass::run: every top-level loop in LoopInfo order; a loop without a
      preheader is skipped, any other is handed to hoistLoopInvariants.
      Sub-loops are not visited. */
  method Run(f: Function, topLevel: seq<Loop>, an: Oracles)
    requires f.Valid() && RunDefined(f.blocks, topLevel, an)
    modifies f
    ensures f.Valid()
    ensures f.blocks == RunSpec(old(f.blocks), topLevel, an)
  {
    ghost var bs := f.blocks;
    var i := 0;
    assert topLevel[..0] == [];
    while i < |topLevel|
      invariant 0 <= i <= |topLevel|
      invariant f.blocks == RunPrefix(bs, topLevel, an, i)
      invariant f.Valid()
    {
      RunIteration(f, bs, topLevel, an, i);
      i := i + 1;
    }
    assert topLevel[..i] == topLevel;
  }

  /** When no top-level loop has a preheader, run changes nothing. */
  lemma {:induction false} RunWithoutPreheadersChangesNothing(bs: seq<Block>, ls: seq<Loop>, an: Oracles)
    requires RunDefined(bs, ls, an)
    requires forall k :: 0 <= k < |ls| ==> ls[k].preheader.None?
    ensures RunSpec(bs, ls, an) == bs
  {
    if ls != [] {
      RunWithoutPreheadersChangesNothing(bs, ls[..|ls| - 1], an);
    }
  }
}
