/** The fragment of the mid-level IR (MIR) that constant promotion reads and rewrites.
    Spans, scopes and the variable/argument/upvar declarations carry no behaviour here
    and are not modelled. Types are opaque tokens. */
module Mir {

  datatype Option<T> = None | Some(value: T)

  /** An opaque type token, as produced by the type checker. */
  datatype Ty = Ty(id: nat)

  datatype TempDecl = TempDecl(ty: Ty)

  /** A definition site: a block and the number of statements before it.
      `statementIndex == |statements|` addresses the block's terminator. */
  datatype Location = Location(block: nat, statementIndex: nat)

  datatype Lvalue =
    | Temp(index: nat)
    | ReturnPointer
    | Var(id: nat)
    | Projection(base: Lvalue)

  datatype Literal = Value(n: int) | Promoted(index: nat)

  datatype Operand = Consume(place: Lvalue) | Constant(literal: Literal)

  datatype AggregateKind = Tuple | Array

  datatype Rvalue =
    | Use(op: Operand)
    | Ref(place: Lvalue)
    | Len(place: Lvalue)
    | BinaryOp(lhs: Operand, rhs: Operand)
    | Aggregate(kind: AggregateKind, ops: seq<Operand>)

  /** The rvalue left behind when a definition is moved out: `()`. */
  const Unit: Rvalue := Aggregate(Tuple, [])

  datatype Statement = Assign(dest: Lvalue, rhs: Rvalue)

  datatype Destination = Destination(place: Lvalue, target: nat)

  datatype Terminator =
    | Goto(target: nat)
    | Return
    | Switch(discr: Lvalue, targets: seq<nat>)
    | Drop(value: Lvalue, target: nat, unwind: Option<nat>)
    | Call(func: Operand, args: seq<Operand>, destination: Option<Destination>, cleanup: Option<nat>)
    | OtherTerminator

  datatype Block = Block(statements: seq<Statement>, terminator: Terminator)

  /** A function body; `promoted` holds the bodies extracted from it. */
  datatype Body = Body(blocks: seq<Block>, tempDecls: seq<TempDecl>, promoted: seq<Body>, returnTy: Ty)

  // ----- temporaries referenced by a piece of IR -----

  function LvalueTemps(lv: Lvalue): set<nat>
  {
    match lv
    case Temp(i) => {i}
    case Projection(base) => LvalueTemps(base)
    case _ => {}
  }

  function OperandTemps(op: Operand): set<nat>
  {
    match op
    case Consume(lv) => LvalueTemps(lv)
    case Constant(_) => {}
  }

  function OperandsTemps(ops: seq<Operand>): set<nat>
  {
    if |ops| == 0 then {} else OperandTemps(ops[0]) + OperandsTemps(ops[1..])
  }

  function RvalueTemps(rv: Rvalue): set<nat>
  {
    match rv
    case Use(op) => OperandTemps(op)
    case Ref(lv) => LvalueTemps(lv)
    case Len(lv) => LvalueTemps(lv)
    case BinaryOp(l, r) => OperandTemps(l) + OperandTemps(r)
    case Aggregate(_, ops) => OperandsTemps(ops)
  }

  function StatementTemps(st: Statement): set<nat>
  {
    LvalueTemps(st.dest) + RvalueTemps(st.rhs)
  }

  /** The temporaries read by a call: its callee and its arguments. */
  function CallArgTemps(t: Terminator): set<nat>
  {
    if t.Call? then OperandTemps(t.func) + OperandsTemps(t.args) else {}
  }

  function TerminatorTemps(t: Terminator): set<nat>
  {
    match t
    case Switch(discr, _) => LvalueTemps(discr)
    case Drop(value, _, _) => LvalueTemps(value)
    case Call(_, _, dest, _) =>
      CallArgTemps(t) + (if dest.Some? then LvalueTemps(dest.value.place) else {})
    case _ => {}
  }

  lemma {:induction false} OperandsTempsAt(ops: seq<Operand>, k: nat)
    requires k < |ops|
    ensures OperandTemps(ops[k]) <= OperandsTemps(ops)
  {
    if k > 0 {
      OperandsTempsAt(ops[1..], k - 1);
      assert ops[1..][k - 1] == ops[k];
    }
  }

  lemma {:induction false} OperandsTempsPrefix(ops: seq<Operand>, k: nat)
    requires k <= |ops|
    ensures OperandsTemps(ops[..k]) <= OperandsTemps(ops)
  {
    if k > 0 {
      assert ops[..k][1..] == ops[1..][..k - 1];
      OperandsTempsPrefix(ops[1..], k - 1);
    }
  }

  lemma {:induction false} OperandsTempsUpdate(ops: seq<Operand>, k: nat, op: Operand)
    requires k < |ops|
    requires OperandTemps(op) == {}
    ensures OperandsTemps(ops[k := op]) <= OperandsTemps(ops)
  {
    if k > 0 {
      OperandsTempsUpdate(ops[1..], k - 1, op);
      assert ops[k := op][1..] == ops[1..][k - 1 := op];
    }
  }

  ghost predicate AllBelow(s: set<nat>, n: nat)
  {
    forall j :: j in s ==> j < n
  }

  ghost predicate StatementsBelow(stmts: seq<Statement>, n: nat)
  {
    forall s :: 0 <= s < |stmts| ==> AllBelow(StatementTemps(stmts[s]), n)
  }

  ghost predicate BlockTempsBelow(blk: Block, n: nat)
  {
    StatementsBelow(blk.statements, n) && AllBelow(TerminatorTemps(blk.terminator), n)
  }

  /** Every temporary the body mentions is declared. */
  ghost predicate AllTempsBelow(body: Body, n: nat)
  {
    forall b :: 0 <= b < |body.blocks| ==> BlockTempsBelow(body.blocks[b], n)
  }

  // ----- renaming: same shape, every temp replaced by one whose origin it is -----

  /** `b` is `a` with every `Temp(j)` replaced by a `Temp(t)` such that
      `origin[t] == j`; nothing else differs. */
  ghost predicate RenamedLvalue(a: Lvalue, b: Lvalue, origin: seq<nat>)
  {
    match a
    case Temp(j) => b.Temp? && b.index < |origin| && origin[b.index] == j
    case Projection(base) => b.Projection? && RenamedLvalue(base, b.base, origin)
    case _ => b == a
  }

  ghost predicate RenamedOperand(a: Operand, b: Operand, origin: seq<nat>)
  {
    match a
    case Consume(lv) => b.Consume? && RenamedLvalue(lv, b.place, origin)
    case Constant(_) => b == a
  }

  ghost predicate RenamedOperands(a: seq<Operand>, b: seq<Operand>, origin: seq<nat>)
  {
    |a| == |b| && forall k :: 0 <= k < |a| ==> RenamedOperand(a[k], b[k], origin)
  }

  ghost predicate RenamedRvalue(a: Rvalue, b: Rvalue, origin: seq<nat>)
  {
    match a
    case Use(op) => b.Use? && RenamedOperand(op, b.op, origin)
    case Ref(lv) => b.Ref? && RenamedLvalue(lv, b.place, origin)
    case Len(lv) => b.Len? && RenamedLvalue(lv, b.place, origin)
    case BinaryOp(l, r) => b.BinaryOp? && RenamedOperand(l, b.lhs, origin) && RenamedOperand(r, b.rhs, origin)
    case Aggregate(kind, ops) => b.Aggregate? && b.kind == kind && RenamedOperands(ops, b.ops, origin)
  }

  ghost predicate Extends(short: seq<nat>, long: seq<nat>)
  {
    |short| <= |long| && long[..|short|] == short
  }

  /** A renaming stays valid when the origin table only grows. */
  lemma {:induction false} RenamedLvalueExtends(a: Lvalue, b: Lvalue, o: seq<nat>, o': seq<nat>)
    requires RenamedLvalue(a, b, o) && Extends(o, o')
    ensures RenamedLvalue(a, b, o')
  {
    match a
    case Temp(j) =>
      assert o'[b.index] == o'[..|o|][b.index];
    case Projection(base) =>
      RenamedLvalueExtends(base, b.base, o, o');
    case _ =>
  }

  lemma RenamedOperandExtends(a: Operand, b: Operand, o: seq<nat>, o': seq<nat>)
    requires RenamedOperand(a, b, o) && Extends(o, o')
    ensures RenamedOperand(a, b, o')
  {
    if a.Consume? {
      RenamedLvalueExtends(a.place, b.place, o, o');
    }
  }

  lemma RenamedOperandsExtends(a: seq<Operand>, b: seq<Operand>, o: seq<nat>, o': seq<nat>)
    requires RenamedOperands(a, b, o) && Extends(o, o')
    ensures RenamedOperands(a, b, o')
  {
    forall k | 0 <= k < |a|
      ensures RenamedOperand(a[k], b[k], o')
    {
      RenamedOperandExtends(a[k], b[k], o, o');
    }
  }

  lemma RenamedRvalueExtends(a: Rvalue, b: Rvalue, o: seq<nat>, o': seq<nat>)
    requires RenamedRvalue(a, b, o) && Extends(o, o')
    ensures RenamedRvalue(a, b, o')
  {
    match a
    case Use(op) => RenamedOperandExtends(op, b.op, o, o');
    case Ref(lv) => RenamedLvalueExtends(lv, b.place, o, o');
    case Len(lv) => RenamedLvalueExtends(lv, b.place, o, o');
    case BinaryOp(l, r) =>
      RenamedOperandExtends(l, b.lhs, o, o');
      RenamedOperandExtends(r, b.rhs, o, o');
    case Aggregate(_, ops) => RenamedOperandsExtends(ops, b.ops, o, o');
  }

  /** A renamed lvalue mentions only temporaries that the origin table covers. */
  lemma {:induction false} RenamedLvalueTemps(a: Lvalue, b: Lvalue, o: seq<nat>)
    requires RenamedLvalue(a, b, o)
    ensures forall t :: t in LvalueTemps(b) ==> t < |o| && o[t] in LvalueTemps(a)
  {
    match a
    case Temp(j) =>
    case Projection(base) =>
      RenamedLvalueTemps(base, b.base, o);
    case _ =>
  }

  lemma RenamedOperandTemps(a: Operand, b: Operand, o: seq<nat>)
    requires RenamedOperand(a, b, o)
    ensures forall t :: t in OperandTemps(b) ==> t < |o| && o[t] in OperandTemps(a)
  {
    if a.Consume? {
      RenamedLvalueTemps(a.place, b.place, o);
    }
  }

  lemma {:induction false} RenamedOperandsTemps(a: seq<Operand>, b: seq<Operand>, o: seq<nat>)
    requires RenamedOperands(a, b, o)
    ensures forall t :: t in OperandsTemps(b) ==> t < |o| && o[t] in OperandsTemps(a)
    decreases |a|
  {
    if |a| > 0 {
      RenamedOperandTemps(a[0], b[0], o);
      assert RenamedOperands(a[1..], b[1..], o) by {
        forall k | 0 <= k < |a| - 1
          ensures RenamedOperand(a[1..][k], b[1..][k], o)
        {
          assert a[1..][k] == a[k + 1] && b[1..][k] == b[k + 1];
        }
      }
      RenamedOperandsTemps(a[1..], b[1..], o);
    }
  }

  /** A renamed rvalue mentions only temporaries that the origin table
      covers, each the copy of a temporary the original mentions. */
  lemma RenamedRvalueTemps(a: Rvalue, b: Rvalue, o: seq<nat>)
    requires RenamedRvalue(a, b, o)
    ensures forall t :: t in RvalueTemps(b) ==> t < |o| && o[t] in RvalueTemps(a)
  {
    match a
    case Use(op) => RenamedOperandTemps(op, b.op, o);
    case Ref(lv) => RenamedLvalueTemps(lv, b.place, o);
    case Len(lv) => RenamedLvalueTemps(lv, b.place, o);
    case BinaryOp(l, r) =>
      RenamedOperandTemps(l, b.lhs, o);
      RenamedOperandTemps(r, b.rhs, o);
    case Aggregate(_, ops) => RenamedOperandsTemps(ops, b.ops, o);
  }

  lemma {:induction false} OperandsTempsSnoc(ops: seq<Operand>, op: Operand)
    ensures OperandsTemps(ops + [op]) == OperandsTemps(ops) + OperandTemps(op)
    decreases |ops|
  {
    if |ops| > 0 {
      assert (ops + [op])[1..] == ops[1..] + [op];
      OperandsTempsSnoc(ops[1..], op);
    } else {
      assert (ops + [op])[1..] == [];
    }
  }

  // ----- sizes for termination -----

  function LvalueSize(lv: Lvalue): nat
  {
    match lv
    case Projection(base) => 1 + LvalueSize(base)
    case _ => 1
  }
}
