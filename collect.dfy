/** Temp classification: one walk over the blocks, in the given order,
    driving every temporary's state machine. */
module Collect {
  import opened Mir
  import opened TempStates
  import opened Sites

  // ----- specification of the walk -----

  /** The table after the first `n` statements of block `bb`; statement `k`
      is met at location `(bb, k)`. */
  function ApplyStatements(t: seq<TempState>, bb: nat, stmts: seq<Statement>, n: nat): (r: seq<TempState>)
    requires n <= |stmts|
    ensures |r| == |t|
  {
    if n == 0 then t
    else StatementStep(ApplyStatements(t, bb, stmts, n - 1), stmts[n - 1], Location(bb, n - 1))
  }

  /** The table after visiting a whole block; its terminator is met at
      location `(bb, |statements|)`. */
  function ApplyBlock(t: seq<TempState>, bb: nat, blk: Block): (r: seq<TempState>)
    ensures |r| == |t|
  {
    TerminatorStep(ApplyStatements(t, bb, blk.statements, |blk.statements|),
                   blk.terminator, Location(bb, |blk.statements|))
  }

  ghost predicate OrderValid(body: Body, rpo: seq<nat>)
  {
    forall k :: 0 <= k < |rpo| ==> rpo[k] < |body.blocks|
  }

  /** The table after the first `n` blocks of the visiting order. */
  function ApplyOrder(t: seq<TempState>, body: Body, rpo: seq<nat>, n: nat): (r: seq<TempState>)
    requires n <= |rpo| && OrderValid(body, rpo)
    ensures |r| == |t|
  {
    if n == 0 then t
    else ApplyBlock(ApplyOrder(t, body, rpo, n - 1), rpo[n - 1], body.blocks[rpo[n - 1]])
  }

  function InitialTemps(n: nat): (r: seq<TempState>)
    ensures |r| == n && forall i :: 0 <= i < n ==> r[i] == Undefined
  {
    seq(n, _ => Undefined)
  }

  // One unfolding of each fold, stated over named tables.

  lemma OperandsSnoc(t: seq<TempState>, ops: seq<Operand>, k: nat, loc: Location, prev: seq<TempState>, r: seq<TempState>)
    requires k < |ops|
    requires prev == OperandsStep(t, ops[..k], loc)
    requires r == OperandStep(prev, ops[k], loc)
    ensures r == OperandsStep(t, ops[..k + 1], loc)
  {
    assert ops[..k + 1][..k] == ops[..k];
  }

  lemma StatementsStep(t: seq<TempState>, bb: nat, stmts: seq<Statement>, n: nat, prev: seq<TempState>, r: seq<TempState>)
    requires 0 < n <= |stmts|
    requires prev == ApplyStatements(t, bb, stmts, n - 1)
    requires r == StatementStep(prev, stmts[n - 1], Location(bb, n - 1))
    ensures r == ApplyStatements(t, bb, stmts, n)
  {
  }

  lemma BlockStep(t: seq<TempState>, bb: nat, blk: Block, mid: seq<TempState>, r: seq<TempState>)
    requires mid == ApplyStatements(t, bb, blk.statements, |blk.statements|)
    requires r == TerminatorStep(mid, blk.terminator, Location(bb, |blk.statements|))
    ensures r == ApplyBlock(t, bb, blk)
  {
  }

  lemma OrderStep(t: seq<TempState>, body: Body, rpo: seq<nat>, n: nat, prev: seq<TempState>, r: seq<TempState>)
    requires 0 < n <= |rpo| && OrderValid(body, rpo)
    requires prev == ApplyOrder(t, body, rpo, n - 1)
    requires r == ApplyBlock(prev, rpo[n - 1], body.blocks[rpo[n - 1]])
    ensures r == ApplyOrder(t, body, rpo, n)
  {
  }

  // ----- the walk only moves temporaries forward -----

  lemma {:induction false} StatementsProgress(t: seq<TempState>, bb: nat, stmts: seq<Statement>, n: nat, r: seq<TempState>)
    requires n <= |stmts|
    requires r == ApplyStatements(t, bb, stmts, n)
    ensures Progress(t, r)
  {
    if n > 0 {
      var prev := ApplyStatements(t, bb, stmts, n - 1);
      StatementsProgress(t, bb, stmts, n - 1, prev);
      var next := StatementStep(prev, stmts[n - 1], Location(bb, n - 1));
      StatementsStep(t, bb, stmts, n, prev, next);
      StatementStepFacts(prev, stmts[n - 1], Location(bb, n - 1));
      ProgressTrans(t, prev, r);
    }
  }

  lemma BlockProgress(t: seq<TempState>, bb: nat, blk: Block, r: seq<TempState>)
    requires r == ApplyBlock(t, bb, blk)
    ensures Progress(t, r)
  {
    var mid := ApplyStatements(t, bb, blk.statements, |blk.statements|);
    StatementsProgress(t, bb, blk.statements, |blk.statements|, mid);
    var next := TerminatorStep(mid, blk.terminator, Location(bb, |blk.statements|));
    BlockStep(t, bb, blk, mid, next);
    TerminatorStepFacts(mid, blk.terminator, Location(bb, |blk.statements|));
    ProgressTrans(t, mid, r);
  }

  /** Over the whole walk no temporary moves back a stage: in particular an
      Unpromotable temporary stays Unpromotable, and a Defined one that is
      still Defined keeps its location. */
  lemma {:induction false} OrderProgress(body: Body, t: seq<TempState>, rpo: seq<nat>, n: nat, r: seq<TempState>)
    requires n <= |rpo| && OrderValid(body, rpo)
    requires r == ApplyOrder(t, body, rpo, n)
    ensures Progress(t, r)
  {
    if n > 0 {
      var prev := ApplyOrder(t, body, rpo, n - 1);
      OrderProgress(body, t, rpo, n - 1, prev);
      var next := ApplyBlock(prev, rpo[n - 1], body.blocks[rpo[n - 1]]);
      OrderStep(t, body, rpo, n, prev, next);
      BlockProgress(prev, rpo[n - 1], body.blocks[rpo[n - 1]], next);
      ProgressTrans(t, prev, r);
    }
  }

  // ----- every Defined entry points at its defining statement or call -----

  lemma StatementKeepsDefSites(body: Body, t: seq<TempState>, bb: nat, s: nat, r: seq<TempState>)
    requires bb < |body.blocks| && s < |body.blocks[bb].statements|
    requires DefSites(body, t)
    requires r == StatementStep(t, body.blocks[bb].statements[s], Location(bb, s))
    ensures DefSites(body, r)
  {
    StatementStepFacts(t, body.blocks[bb].statements[s], Location(bb, s));
    forall i | 0 <= i < |r| && r[i].Defined?
      ensures IsDefSite(body, r[i].location, i)
    {
      if t[i].Defined? {
        assert IsDefSite(body, t[i].location, i);
      }
    }
  }

  lemma TerminatorKeepsDefSites(body: Body, t: seq<TempState>, bb: nat, r: seq<TempState>)
    requires bb < |body.blocks| && DefSites(body, t)
    requires r == TerminatorStep(t, body.blocks[bb].terminator, Location(bb, |body.blocks[bb].statements|))
    ensures DefSites(body, r)
  {
    var blk := body.blocks[bb];
    TerminatorStepFacts(t, blk.terminator, Location(bb, |blk.statements|));
    forall i | 0 <= i < |r| && r[i].Defined?
      ensures IsDefSite(body, r[i].location, i)
    {
      if t[i].Defined? {
        assert IsDefSite(body, t[i].location, i);
      }
    }
  }

  lemma {:induction false} StatementsKeepDefSites(body: Body, t: seq<TempState>, bb: nat, n: nat, r: seq<TempState>)
    requires bb < |body.blocks| && n <= |body.blocks[bb].statements|
    requires DefSites(body, t)
    requires r == ApplyStatements(t, bb, body.blocks[bb].statements, n)
    ensures DefSites(body, r)
  {
    if n > 0 {
      var stmts := body.blocks[bb].statements;
      var prev := ApplyStatements(t, bb, stmts, n - 1);
      StatementsKeepDefSites(body, t, bb, n - 1, prev);
      var next := StatementStep(prev, stmts[n - 1], Location(bb, n - 1));
      StatementsStep(t, bb, stmts, n, prev, next);
      StatementKeepsDefSites(body, prev, bb, n - 1, next);
    }
  }

  lemma BlockKeepsDefSites(body: Body, t: seq<TempState>, bb: nat, r: seq<TempState>)
    requires bb < |body.blocks| && DefSites(body, t)
    requires r == ApplyBlock(t, bb, body.blocks[bb])
    ensures DefSites(body, r)
  {
    var blk := body.blocks[bb];
    var mid := ApplyStatements(t, bb, blk.statements, |blk.statements|);
    StatementsKeepDefSites(body, t, bb, |blk.statements|, mid);
    var next := TerminatorStep(mid, blk.terminator, Location(bb, |blk.statements|));
    BlockStep(t, bb, blk, mid, next);
    TerminatorKeepsDefSites(body, mid, bb, next);
  }

  /** The table the walk produces records, for every Defined temporary, the
      location of the statement that assigns it or of the call that writes it. */
  lemma {:induction false} OrderKeepsDefSites(body: Body, t: seq<TempState>, rpo: seq<nat>, n: nat, r: seq<TempState>)
    requires n <= |rpo| && OrderValid(body, rpo) && DefSites(body, t)
    requires r == ApplyOrder(t, body, rpo, n)
    ensures DefSites(body, r)
  {
    if n > 0 {
      var prev := ApplyOrder(t, body, rpo, n - 1);
      OrderKeepsDefSites(body, t, rpo, n - 1, prev);
      var next := ApplyBlock(prev, rpo[n - 1], body.blocks[rpo[n - 1]]);
      OrderStep(t, body, rpo, n, prev, next);
      BlockKeepsDefSites(body, prev, rpo[n - 1], next);
    }
  }

  // ----- the collector -----

  class TempCollector {
    var temps: seq<TempState>
    var location: Location

    constructor (n: nat)
      ensures temps == InitialTemps(n) && location == Location(0, 0)
    {
      temps := InitialTemps(n);
      location := Location(0, 0);
    }

    method VisitLvalue(lv: Lvalue, ctx: Context)
      requires AllBelow(LvalueTemps(lv), |temps|)
      modifies this
      ensures temps == LvalueStep(old(temps), lv, ctx, location) && location == old(location)
    {
      match lv {
        case Projection(base) =>
          VisitLvalue(base, ProjectionBase);
        case Temp(i) =>
          if ctx == Context.Drop {
            return;
          }
          var t := temps[i];
          if t == Undefined {
            if IsWrite(ctx) {
              temps := temps[i := Defined(location, 0)];
              return;
            }
          } else if t.Defined? {
            if IsRead(ctx) {
              temps := temps[i := Defined(t.location, t.uses + 1)];
              return;
            }
          }
          temps := temps[i := Unpromotable];
        case _ =>
      }
    }

    method VisitOperand(op: Operand)
      requires AllBelow(OperandTemps(op), |temps|)
      modifies this
      ensures temps == OperandStep(old(temps), op, location) && location == old(location)
    {
      if op.Consume? {
        VisitLvalue(op.place, Context.Consume);
      }
    }

    method VisitOperands(ops: seq<Operand>)
      requires AllBelow(OperandsTemps(ops), |temps|)
      modifies this
      ensures temps == OperandsStep(old(temps), ops, location) && location == old(location)
    {
      for k := 0 to |ops|
        invariant |temps| == |old(temps)| && location == old(location)
        invariant OperandsTemps(ops[..k]) <= OperandsTemps(ops)
        invariant temps == OperandsStep(old(temps), ops[..k], location)
      {
        OperandsTempsAt(ops, k);
        OperandsTempsPrefix(ops, k + 1);
        ghost var before := temps;
        VisitOperand(ops[k]);
        OperandsSnoc(old(temps), ops, k, location, before, temps);
      }
      assert ops[..|ops|] == ops;
    }

    method VisitRvalue(rv: Rvalue)
      requires AllBelow(RvalueTemps(rv), |temps|)
      modifies this
      ensures temps == RvalueStep(old(temps), rv, location) && location == old(location)
    {
      match rv {
        case Use(op) => VisitOperand(op);
        case Ref(lv) => VisitLvalue(lv, Borrow);
        case Len(lv) => VisitLvalue(lv, Inspect);
        case BinaryOp(l, r) =>
          VisitOperand(l);
          VisitOperand(r);
        case Aggregate(_, ops) => VisitOperands(ops);
      }
    }

    /** An assignment visits its destination as a store, then its right-hand
        side; the statement counter then advances. */
    method VisitStatement(bb: nat, st: Statement)
      requires location.block == bb
      requires AllBelow(StatementTemps(st), |temps|)
      modifies this
      ensures temps == StatementStep(old(temps), st, old(location))
      ensures location == Location(bb, old(location.statementIndex) + 1)
    {
      VisitLvalue(st.dest, Store);
      VisitRvalue(st.rhs);
      location := location.(statementIndex := location.statementIndex + 1);
    }

    method VisitTerminator(t: Terminator)
      requires AllBelow(TerminatorTemps(t), |temps|)
      modifies this
      ensures temps == TerminatorStep(old(temps), t, location) && location == old(location)
    {
      match t {
        case Switch(discr, _) => VisitLvalue(discr, Inspect);
        case Drop(value, _, _) => VisitLvalue(value, Context.Drop);
        case Call(func, args, dest, _) =>
          VisitCall(func, args, dest);
        case _ =>
      }
    }

    /** A call visits its callee, its arguments, then its destination as a
        call write. */
    method VisitCall(func: Operand, args: seq<Operand>, dest: Option<Destination>)
      requires AllBelow(OperandTemps(func), |temps|) && AllBelow(OperandsTemps(args), |temps|)
      requires dest.Some? ==> AllBelow(LvalueTemps(dest.value.place), |temps|)
      modifies this
      ensures location == old(location)
      ensures temps == CallStep(old(temps), func, args, dest, location)
    {
      VisitOperand(func);
      VisitOperands(args);
      if dest.Some? {
        VisitLvalue(dest.value.place, CallDest);
      }
    }

    /** The statement counter restarts at 0 in every block. */
    method VisitBasicBlockData(bb: nat, data: Block)
      requires BlockTempsBelow(data, |temps|)
      modifies this
      ensures temps == ApplyBlock(old(temps), bb, data)
      ensures location == Location(bb, |data.statements|)
    {
      location := Location(bb, 0);
      var k := 0;
      while k < |data.statements|
        invariant k <= |data.statements|
        invariant location == Location(bb, k) && |temps| == |old(temps)|
        invariant temps == ApplyStatements(old(temps), bb, data.statements, k)
      {
        ghost var before := temps;
        VisitStatement(bb, data.statements[k]);
        k := k + 1;
        StatementsStep(old(temps), bb, data.statements, k, before, temps);
      }
      ghost var mid := temps;
      VisitTerminator(data.terminator);
      BlockStep(old(temps), bb, data, mid, temps);
    }
  }

  /** `collect_temps`: one entry per declared temporary, all Undefined at the
      start, then one visit per block in the given order. */
  method CollectTemps(body: Body, rpo: seq<nat>) returns (temps: seq<TempState>)
    requires OrderValid(body, rpo) && AllTempsBelow(body, |body.tempDecls|)
    ensures |temps| == |body.tempDecls|
    ensures temps == ApplyOrder(InitialTemps(|body.tempDecls|), body, rpo, |rpo|)
    ensures DefSites(body, temps)
  {
    var collector := new TempCollector(|body.tempDecls|);
    for k := 0 to |rpo|
      invariant |collector.temps| == |body.tempDecls|
      invariant collector.temps == ApplyOrder(InitialTemps(|body.tempDecls|), body, rpo, k)
    {
      ghost var before := collector.temps;
      collector.VisitBasicBlockData(rpo[k], body.blocks[rpo[k]]);
      OrderStep(InitialTemps(|body.tempDecls|), body, rpo, k + 1, before, collector.temps);
    }
    temps := collector.temps;
    OrderKeepsDefSites(body, InitialTemps(|body.tempDecls|), rpo, |rpo|, temps);
  }
}
