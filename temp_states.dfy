/** The per-temporary state machine of the collection phase, and the explicit
    assignment of lvalue contexts to the positions of the IR (the order in which
    the visitor meets the temporaries of a statement or terminator). */
module TempStates {
  import opened Mir

  datatype TempState =
    | Undefined
    | Defined(location: Location, uses: nat)
    | Unpromotable
    | PromotedOut

  /** A temporary is a promotion candidate once it has one definition and at
      least one direct use. */
  predicate IsPromotable(s: TempState)
  {
    if s.Defined? then s.uses > 0 else false
  }

  lemma IsPromotableExactly(s: TempState)
    ensures IsPromotable(s) <==> (s.Defined? && s.uses > 0)
    ensures s.Undefined? || s.Unpromotable? || s.PromotedOut? ==> !IsPromotable(s)
  {
  }

  /** How an lvalue occurrence is used at its position. */
  datatype Context = Store | CallDest | Drop | Borrow | Consume | Inspect | ProjectionBase

  predicate IsWrite(ctx: Context) { ctx == Store || ctx == CallDest }
  predicate IsRead(ctx: Context) { ctx == Borrow || ctx == Context.Consume || ctx == Inspect }

  /** Progress along Undefined, Defined, then Unpromotable or PromotedOut. */
  function Stage(s: TempState): nat
  {
    match s
    case Undefined => 0
    case Defined(_, _) => 1
    case Unpromotable => 2
    case PromotedOut => 2
  }

  /** The collector's reaction to one occurrence of a temporary in state `s`,
      met in context `ctx` while the walk stands at `loc`. */
  function Transition(s: TempState, ctx: Context, loc: Location): (r: TempState)
    ensures Stage(r) >= Stage(s)
    ensures s.Unpromotable? ==> r.Unpromotable?
    ensures r.Defined? && !s.Defined? ==> s.Undefined? && IsWrite(ctx) && r == Defined(loc, 0)
    ensures r.Defined? && s.Defined? ==> r.location == s.location && r.uses >= s.uses
  {
    if ctx == Context.Drop then s
    else if s == Undefined then
      if IsWrite(ctx) then Defined(loc, 0) else Unpromotable
    else if s.Defined? then
      if IsRead(ctx) then Defined(s.location, s.uses + 1) else Unpromotable
    else Unpromotable
  }

  /** The four rules of the state machine, case by case. */
  lemma TransitionRules(s: TempState, ctx: Context, loc: Location)
    ensures ctx == Context.Drop ==> Transition(s, ctx, loc) == s
    ensures s.Undefined? && IsWrite(ctx) ==> Transition(s, ctx, loc) == Defined(loc, 0)
    ensures s.Defined? && IsRead(ctx) ==> Transition(s, ctx, loc) == Defined(s.location, s.uses + 1)
    ensures ctx != Context.Drop && !(s.Undefined? && IsWrite(ctx)) && !(s.Defined? && IsRead(ctx)) ==>
      Transition(s, ctx, loc) == Unpromotable
  {
  }

  // ----- the walk over one statement or terminator, in visiting order -----

  /** Meeting `Temp(i)` in context `ctx`; the base of a projection is met in a
      projection context. Temporaries outside the table are not touched. */
  function LvalueStep(t: seq<TempState>, lv: Lvalue, ctx: Context, loc: Location): (r: seq<TempState>)
    ensures |r| == |t|
  {
    match lv
    case Temp(i) => if i < |t| then t[i := Transition(t[i], ctx, loc)] else t
    case Projection(base) => LvalueStep(t, base, ProjectionBase, loc)
    case _ => t
  }

  function OperandStep(t: seq<TempState>, op: Operand, loc: Location): (r: seq<TempState>)
    ensures |r| == |t|
  {
    match op
    case Consume(lv) => LvalueStep(t, lv, Context.Consume, loc)
    case Constant(_) => t
  }

  /** Operands are met from first to last. */
  function OperandsStep(t: seq<TempState>, ops: seq<Operand>, loc: Location): (r: seq<TempState>)
    ensures |r| == |t|
    decreases |ops|
  {
    if |ops| == 0 then t
    else OperandStep(OperandsStep(t, ops[..|ops| - 1], loc), ops[|ops| - 1], loc)
  }

  function RvalueStep(t: seq<TempState>, rv: Rvalue, loc: Location): (r: seq<TempState>)
    ensures |r| == |t|
  {
    match rv
    case Use(op) => OperandStep(t, op, loc)
    case Ref(lv) => LvalueStep(t, lv, Borrow, loc)
    case Len(lv) => LvalueStep(t, lv, Inspect, loc)
    case BinaryOp(l, r) => OperandStep(OperandStep(t, l, loc), r, loc)
    case Aggregate(_, ops) => OperandsStep(t, ops, loc)
  }

  /** The destination is met as a store, before the right-hand side. */
  function StatementStep(t: seq<TempState>, st: Statement, loc: Location): (r: seq<TempState>)
    ensures |r| == |t|
  {
    RvalueStep(LvalueStep(t, st.dest, Store, loc), st.rhs, loc)
  }

  /** A call meets its callee, its arguments, then its destination as a call
      write. */
  function CallStep(t: seq<TempState>, func: Operand, args: seq<Operand>, dest: Option<Destination>, loc: Location): (r: seq<TempState>)
    ensures |r| == |t|
  {
    var t' := OperandsStep(OperandStep(t, func, loc), args, loc);
    if dest.Some? then LvalueStep(t', dest.value.place, CallDest, loc) else t'
  }

  function TerminatorStep(t: seq<TempState>, term: Terminator, loc: Location): (r: seq<TempState>)
    ensures |r| == |t|
  {
    match term
    case Switch(discr, _) => LvalueStep(t, discr, Inspect, loc)
    case Drop(value, _, _) => LvalueStep(t, value, Context.Drop, loc)
    case Call(func, args, dest, _) => CallStep(t, func, args, dest, loc)
    case _ => t
  }

  // ----- what one step may do to the table -----

  /** No entry moves back a stage, Unpromotable is kept, and a Defined entry
      that stays Defined keeps its location. */
  ghost predicate Progress(t: seq<TempState>, r: seq<TempState>)
  {
    |r| == |t| &&
    forall i :: 0 <= i < |t| ==>
      && Stage(r[i]) >= Stage(t[i])
      && (t[i].Unpromotable? ==> r[i].Unpromotable?)
      && (t[i].Defined? && r[i].Defined? ==> r[i].location == t[i].location)
  }

  /** Every entry that became Defined is one of `w` and is defined at `loc`. */
  ghost predicate DefinesOnly(t: seq<TempState>, r: seq<TempState>, loc: Location, w: set<nat>)
  {
    forall i :: 0 <= i < |t| && i < |r| && r[i].Defined? && !t[i].Defined? ==> i in w && r[i].location == loc
  }

  /** The temporary a position defines: a bare `Temp` in a write context. */
  function Written(lv: Lvalue, ctx: Context): set<nat>
  {
    if lv.Temp? && IsWrite(ctx) then {lv.index} else {}
  }

  lemma ProgressTrans(a: seq<TempState>, b: seq<TempState>, c: seq<TempState>)
    requires Progress(a, b) && Progress(b, c)
    ensures Progress(a, c)
  {
    forall i | 0 <= i < |a|
      ensures Stage(c[i]) >= Stage(a[i])
      ensures a[i].Unpromotable? ==> c[i].Unpromotable?
      ensures a[i].Defined? && c[i].Defined? ==> c[i].location == a[i].location
    {
      if a[i].Defined? && c[i].Defined? {
        assert Stage(b[i]) >= 1 && Stage(c[i]) == 1;
      }
    }
  }

  lemma DefinesOnlyTrans(a: seq<TempState>, b: seq<TempState>, c: seq<TempState>, loc: Location, w1: set<nat>, w2: set<nat>)
    requires Progress(a, b) && Progress(b, c)
    requires DefinesOnly(a, b, loc, w1) && DefinesOnly(b, c, loc, w2)
    ensures DefinesOnly(a, c, loc, w1 + w2)
  {
    forall i | 0 <= i < |a| && i < |c| && c[i].Defined? && !a[i].Defined?
      ensures i in w1 + w2 && c[i].location == loc
    {
      if b[i].Defined? {
        assert Stage(c[i]) == 1;
      }
    }
  }

  /** Meeting one lvalue: progress, and only a bare temporary in a write
      context can become Defined, at the current location. */
  lemma {:induction false} LvalueStepFacts(t: seq<TempState>, lv: Lvalue, ctx: Context, loc: Location)
    ensures Progress(t, LvalueStep(t, lv, ctx, loc))
    ensures DefinesOnly(t, LvalueStep(t, lv, ctx, loc), loc, Written(lv, ctx))
  {
    match lv
    case Temp(i) =>
    case Projection(base) =>
      LvalueStepFacts(t, base, ProjectionBase, loc);
    case _ =>
  }

  /** An operand only reads: nothing becomes Defined. */
  lemma OperandStepFacts(t: seq<TempState>, op: Operand, loc: Location)
    ensures Progress(t, OperandStep(t, op, loc))
    ensures DefinesOnly(t, OperandStep(t, op, loc), loc, {})
  {
    if op.Consume? {
      LvalueStepFacts(t, op.place, Context.Consume, loc);
    }
  }

  lemma {:induction false} OperandsStepFacts(t: seq<TempState>, ops: seq<Operand>, loc: Location)
    ensures Progress(t, OperandsStep(t, ops, loc))
    ensures DefinesOnly(t, OperandsStep(t, ops, loc), loc, {})
    decreases |ops|
  {
    if |ops| > 0 {
      var prev := OperandsStep(t, ops[..|ops| - 1], loc);
      OperandsStepFacts(t, ops[..|ops| - 1], loc);
      OperandStepFacts(prev, ops[|ops| - 1], loc);
      ProgressTrans(t, prev, OperandsStep(t, ops, loc));
      DefinesOnlyTrans(t, prev, OperandsStep(t, ops, loc), loc, {}, {});
    }
  }

  lemma RvalueStepFacts(t: seq<TempState>, rv: Rvalue, loc: Location)
    ensures Progress(t, RvalueStep(t, rv, loc))
    ensures DefinesOnly(t, RvalueStep(t, rv, loc), loc, {})
  {
    match rv
    case Use(op) => OperandStepFacts(t, op, loc);
    case Ref(lv) => LvalueStepFacts(t, lv, Borrow, loc);
    case Len(lv) => LvalueStepFacts(t, lv, Inspect, loc);
    case BinaryOp(l, r) =>
      var mid := OperandStep(t, l, loc);
      OperandStepFacts(t, l, loc);
      OperandStepFacts(mid, r, loc);
      ProgressTrans(t, mid, RvalueStep(t, rv, loc));
      DefinesOnlyTrans(t, mid, RvalueStep(t, rv, loc), loc, {}, {});
    case Aggregate(_, ops) => OperandsStepFacts(t, ops, loc);
  }

  /** An assignment can only define its own destination. */
  lemma StatementStepFacts(t: seq<TempState>, st: Statement, loc: Location)
    ensures Progress(t, StatementStep(t, st, loc))
    ensures DefinesOnly(t, StatementStep(t, st, loc), loc, Written(st.dest, Store))
  {
    var mid := LvalueStep(t, st.dest, Store, loc);
    LvalueStepFacts(t, st.dest, Store, loc);
    RvalueStepFacts(mid, st.rhs, loc);
    ProgressTrans(t, mid, StatementStep(t, st, loc));
    DefinesOnlyTrans(t, mid, StatementStep(t, st, loc), loc, Written(st.dest, Store), {});
  }

  /** A terminator can only define the destination of a call. */
  lemma TerminatorStepFacts(t: seq<TempState>, term: Terminator, loc: Location)
    ensures Progress(t, TerminatorStep(t, term, loc))
    ensures DefinesOnly(t, TerminatorStep(t, term, loc), loc,
                        if term.Call? && term.destination.Some? then Written(term.destination.value.place, CallDest) else {})
  {
    match term
    case Switch(discr, _) => LvalueStepFacts(t, discr, Inspect, loc);
    case Drop(value, _, _) => LvalueStepFacts(t, value, Context.Drop, loc);
    case Call(func, args, dest, _) =>
      var a := OperandStep(t, func, loc);
      var b := OperandsStep(a, args, loc);
      OperandStepFacts(t, func, loc);
      OperandsStepFacts(a, args, loc);
      ProgressTrans(t, a, b);
      DefinesOnlyTrans(t, a, b, loc, {}, {});
      if dest.Some? {
        LvalueStepFacts(b, dest.value.place, CallDest, loc);
        ProgressTrans(t, b, TerminatorStep(t, term, loc));
        DefinesOnlyTrans(t, b, TerminatorStep(t, term, loc), loc, {}, Written(dest.value.place, CallDest));
      }
    case _ =>
  }
}
