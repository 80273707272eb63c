/**
  The slice of LLVM IR that both loop passes look at: instructions with an
  opcode kind and operands, basic blocks as instruction sequences ending in a
  terminator, a function as a sequence of blocks (a block id is its index),
  and the loop forest as a tree of loops over block ids.  The analyses LLVM
  supplies (dominance, exit blocks, preheader, speculatability) are inputs.
*/
module IR {

  datatype Option<T> = None | Some(value: T)

  type BlockId = nat
  type InstId = nat

  /** Opcode classes the passes distinguish. */
  datatype Kind =
    // ordinary instructions
    | BinaryOp          // add, sub, mul, and, or, xor, shl, ... (Instruction::isBinaryOp)
    | UnaryOp           // fneg
    | Cmp               // icmp, fcmp: a CmpInst, not a binary operator
    | Select
    | Cast              // every CastInst: trunc, zext, sext, bitcast, ptrtoint, ...
    | GetElementPtr
    | Phi
    | Load
    | Store
    | Call
    | Alloca
    | AtomicRMW
    | AtomicCmpXchg
    | OtherInst
    // terminators
    | Br                // BranchInst: conditional or unconditional branch
    | Switch
    | Ret
    | Unreachable
    | OtherTerminator   // invoke, indirectbr, resume, ...

  predicate IsTerminator(k: Kind) {
    k.Br? || k.Switch? || k.Ret? || k.Unreachable? || k.OtherTerminator?
  }

  /** An operand: a Constant (which in LLVM includes globals), the result of
      an instruction, or another value such as a function argument. */
  datatype Operand = Const(value: int) | InstResult(def: InstId) | Argument(index: nat)

  /** An instruction; the record is its identity (a function never holds the
      same record twice, see UniqueInsts). */
  datatype Inst = Inst(id: InstId, kind: Kind, operands: seq<Operand>)

  type Block = seq<Inst>

  /** A block ends in exactly one terminator, its last instruction. */
  predicate WellFormedBlock(s: Block) {
    && |s| > 0
    && IsTerminator(s[|s| - 1].kind)
    && forall k :: 0 <= k < |s| - 1 ==> !IsTerminator(s[k].kind)
  }

  function Terminator(s: Block): (t: Inst)
    requires WellFormedBlock(s)
    ensures t in s && IsTerminator(t.kind)
  {
    s[|s| - 1]
  }

  /** A loop of the loop forest: its header, all member blocks in the order
      Loop::blocks() lists them (sub-loop blocks included), its immediate
      sub-loops in stored order, and the results of getLoopPreheader and
      getExitBlocks. */
  datatype Loop = Loop(
    header: BlockId,
    blocks: seq<BlockId>,
    subLoops: seq<Loop>,
    preheader: Option<BlockId>,
    exitBlocks: seq<BlockId>)

  /** The oracles LLVM supplies: isSafeToSpeculativelyExecute and
      DominatorTree::dominates on blocks. */
  datatype Oracles = Oracles(speculatable: Inst -> bool, dominates: (BlockId, BlockId) -> bool)

  /** All instructions of a function, block after block. */
  function Flatten(bs: seq<Block>): seq<Inst>
  {
    if bs == [] then [] else bs[0] + Flatten(bs[1..])
  }

  /** How many times x occurs in the function. */
  ghost function Occurrences(bs: seq<Block>, x: Inst): nat {
    multiset(Flatten(bs))[x]
  }

  /** No instruction occurs twice in the function. */
  ghost predicate UniqueInsts(bs: seq<Block>) {
    forall x :: Occurrences(bs, x) <= 1
  }

  predicate SameId(x: Inst, y: Inst) {
    x.id == y.id
  }

  /** Operands name instructions by id: no two instructions of the function
      share one. */
  ghost predicate UniqueIds(bs: seq<Block>) {
    forall x, y {:trigger SameId(x, y)} ::
      x in multiset(Flatten(bs)) && y in multiset(Flatten(bs)) && SameId(x, y) ==> x == y
  }

  /** The shape every pass keeps: every block well formed, no instruction
      twice. */
  ghost predicate ValidBlocks(bs: seq<Block>) {
    && (forall b :: 0 <= b < |bs| ==> WellFormedBlock(bs[b]))
    && UniqueInsts(bs)
  }

  /** Rearranging the instructions of a function keeps its ids unique. */
  lemma SameInstsKeepIds(bs: seq<Block>, rs: seq<Block>)
    requires UniqueIds(bs) && multiset(Flatten(rs)) == multiset(Flatten(bs))
    ensures UniqueIds(rs)
  {
  }

  /** No element occurs twice. */
  ghost predicate Distinct<T(!new)>(xs: seq<T>) {
    forall x :: multiset(xs)[x] <= 1
  }

  /** Dropping the last element keeps a list distinct, and that element does
      not occur before it. */
  lemma DistinctInit<T(!new)>(xs: seq<T>)
    requires xs != [] && Distinct(xs)
    ensures Distinct(xs[..|xs| - 1]) && xs[|xs| - 1] !in xs[..|xs| - 1]
  {
    var n := |xs| - 1;
    assert xs == xs[..n] + [xs[n]];
    assert multiset(xs) == multiset(xs[..n]) + multiset{xs[n]};
    forall x ensures multiset(xs[..n])[x] <= 1 {
      assert multiset(xs[..n])[x] <= multiset(xs)[x];
    }
    assert multiset(xs)[xs[n]] == multiset(xs[..n])[xs[n]] + 1;
  }

  /** The elements of s not in ys, in their original order. */
  function Without(s: seq<Inst>, ys: seq<Inst>): seq<Inst>
  {
    if s == [] then []
    else (if s[0] in ys then [] else [s[0]]) + Without(s[1..], ys)
  }

  // ----- lemmas about Without ------------------------------------------------

  /** Exactly the elements of s outside ys remain. */
  lemma {:induction false} WithoutMember(s: seq<Inst>, ys: seq<Inst>, y: Inst)
    ensures y in Without(s, ys) <==> y in s && y !in ys
  {
    if s != [] {
      WithoutMember(s[1..], ys, y);
      assert s == [s[0]] + s[1..];
    }
  }

  lemma {:induction false} WithoutNoop(s: seq<Inst>, ys: seq<Inst>)
    requires forall y :: y in s ==> y !in ys
    ensures Without(s, ys) == s
  {
    if s != [] {
      assert s[0] !in ys;
      WithoutNoop(s[1..], ys);
      calc {
        Without(s, ys);
        [s[0]] + Without(s[1..], ys);
        [s[0]] + s[1..];
        s;
      }
    }
  }

  lemma {:induction false} WithoutThenOne(s: seq<Inst>, xs: seq<Inst>, x: Inst)
    ensures Without(Without(s, xs), [x]) == Without(s, xs + [x])
  {
    if s != [] {
      WithoutThenOne(s[1..], xs, x);
      var w := Without(s, xs);
      var rest := Without(s[1..], xs);
      if s[0] in xs {
        assert w == rest;
      } else {
        assert w == [s[0]] + rest;
        assert w[1..] == rest;
      }
    }
  }

  lemma {:induction false} WithoutOneMultiset(s: seq<Inst>, x: Inst)
    ensures multiset(Without(s, [x])) == multiset(s)[x := 0]
  {
    if s != [] {
      WithoutOneMultiset(s[1..], x);
      assert s == [s[0]] + s[1..];
    }
  }

  lemma {:induction false} WithoutAppend(a: seq<Inst>, b: seq<Inst>, ys: seq<Inst>)
    ensures Without(a + b, ys) == Without(a, ys) + Without(b, ys)
  {
    if a == [] {
      assert a + b == b;
    } else {
      WithoutAppend(a[1..], b, ys);
      var h := if a[0] in ys then [] else [a[0]];
      TailOfAppend(a, b);
      calc {
        Without(a + b, ys);
        h + Without(a[1..] + b, ys);
        h + (Without(a[1..], ys) + Without(b, ys));
        { AppendAssoc(h, Without(a[1..], ys), Without(b, ys)); }
        (h + Without(a[1..], ys)) + Without(b, ys);
        Without(a, ys) + Without(b, ys);
      }
    }
  }

  lemma AppendAssoc<T>(a: seq<T>, b: seq<T>, c: seq<T>)
    ensures (a + b) + c == a + (b + c)
  {
  }

  lemma TailOfAppend<T>(a: seq<T>, b: seq<T>)
    requires a != []
    ensures (a + b)[0] == a[0] && (a + b)[1..] == a[1..] + b
  {
  }

  // ----- lemmas about Flatten ------------------------------------------------

  lemma {:induction false} FlattenMember(bs: seq<Block>, b: nat, x: Inst)
    requires b < |bs| && x in bs[b]
    ensures x in Flatten(bs)
  {
    if b > 0 {
      FlattenMember(bs[1..], b - 1, x);
    }
  }

  /** Replacing one block changes the instruction multiset by exactly that block. */
  lemma {:induction false} FlattenUpdate(bs: seq<Block>, i: nat, t: Block)
    requires i < |bs|
    ensures multiset(Flatten(bs[i := t])) + multiset(bs[i]) == multiset(Flatten(bs)) + multiset(t)
  {
    if i == 0 {
      assert bs[i := t][1..] == bs[1..];
    } else {
      FlattenUpdate(bs[1..], i - 1, t);
      assert bs[i := t][1..] == bs[1..][i - 1 := t];
      assert Flatten(bs[i := t]) == bs[0] + Flatten(bs[1..][i - 1 := t]);
      assert bs[1..][i - 1] == bs[i];
      calc {
        multiset(Flatten(bs[i := t])) + multiset(bs[i]);
        multiset(bs[0]) + (multiset(Flatten(bs[1..][i - 1 := t])) + multiset(bs[1..][i - 1]));
        multiset(bs[0]) + (multiset(Flatten(bs[1..])) + multiset(t));
        multiset(Flatten(bs)) + multiset(t);
      }
    }
  }

  /** An instruction of block b occurs in the whole function at least as
      often as in b and in any other block c together. */
  lemma {:induction false} FlattenTwoBlocks(bs: seq<Block>, b: nat, c: nat, x: Inst)
    requires b < |bs| && c < |bs| && b != c
    ensures multiset(bs[b])[x] + multiset(bs[c])[x] <= multiset(Flatten(bs))[x]
  {
    if b == 0 {
      FlattenOneBlock(bs[1..], c - 1, x);
    } else if c == 0 {
      FlattenOneBlock(bs[1..], b - 1, x);
    } else {
      FlattenTwoBlocks(bs[1..], b - 1, c - 1, x);
    }
  }

  lemma {:induction false} FlattenOneBlock(bs: seq<Block>, b: nat, x: Inst)
    requires b < |bs|
    ensures multiset(bs[b])[x] <= multiset(Flatten(bs))[x]
  {
    if b > 0 {
      FlattenOneBlock(bs[1..], b - 1, x);
    }
  }

  /** In a function without duplicates, an instruction lives in one block only. */
  lemma InOneBlockOnly(bs: seq<Block>, b: nat, c: nat, x: Inst)
    requires UniqueInsts(bs)
    requires b < |bs| && c < |bs| && b != c && x in bs[b]
    ensures x !in bs[c]
  {
    FlattenTwoBlocks(bs, b, c, x);
    assert Occurrences(bs, x) <= 1;
  }
}
