/** Extraction of one promotion candidate into a new constant body: the
    promoter walks the tree of temporaries the candidate reads, copies (or
    moves) each definition into the new body under a fresh temporary, and
    renames every temporary it copies. */
module Promote {
  import opened Mir
  import opened TempStates
  import opened Sites

  /** Why a promotion stops the compiler. */
  datatype Error =
    | NotPromotable(temp: nat)          // a renamed temporary is not Defined with a use
    | NotShuffleCall(block: nat)        // a shuffle candidate whose terminator is not a call
    | MissingShuffleArgument(block: nat) // a shuffle call with fewer than three arguments

  datatype Result<T> = Ok(value: T) | Err(error: Error)

  /** A root of promotion: a borrow at a statement, or the third argument of
      a `simd_shuffleN` call that ends a block. */
  datatype Candidate = Ref(location: Location) | ShuffleIndices(block: nat)

  /** What is taken out of the source for one temporary: the right-hand side
      of its assignment, or the callee, arguments and cleanup of its call. */
  datatype Definition =
    | Rhs(rv: Rvalue)
    | CallDef(func: Operand, args: seq<Operand>, cleanup: Option<nat>)

  ghost predicate RenamedDefinition(a: Definition, b: Definition, origin: seq<nat>)
  {
    match a
    case Rhs(rv) => b.Rhs? && RenamedRvalue(rv, b.rv, origin)
    case CallDef(f, args, c) => b.CallDef? && RenamedOperand(f, b.func, origin) &&
                                RenamedOperands(args, b.args, origin) && b.cleanup == c
  }

  function DefinitionTemps(d: Definition): set<nat>
  {
    match d
    case Rhs(rv) => RvalueTemps(rv)
    case CallDef(f, args, _) => OperandTemps(f) + OperandsTemps(args)
  }

  /** Every temporary of `s` is in the table and ranks below `bound`. */
  ghost predicate RankedBelow(s: set<nat>, rank: seq<nat>, bound: nat)
  {
    forall j :: j in s ==> j < |rank| && rank[j] < bound
  }

  /** A rank above every rank of the table. */
  ghost function RankBound(rank: seq<nat>): (r: nat)
    ensures forall k :: 0 <= k < |rank| ==> rank[k] < r
  {
    if |rank| == 0 then 0
    else
      var rest := RankBound(rank[1..]);
      assert forall k :: 1 <= k < |rank| ==> rank[k] == rank[1..][k - 1];
      if rank[0] + 1 > rest then rank[0] + 1 else rest
  }

  /** The statement or call at `loc` can be taken apart. */
  ghost predicate SiteOk(body: Body, loc: Location)
  {
    loc.block < |body.blocks| &&
    var blk := body.blocks[loc.block];
    loc.statementIndex < |blk.statements| ||
    (loc.statementIndex == |blk.statements| && blk.terminator.Call? && blk.terminator.destination.Some?)
  }

  /** The definition at `loc`, as taken when the original is kept (`keep`)
      or moved out; a moved call loses its cleanup edge. */
  function Taken(body: Body, loc: Location, keep: bool): Definition
    requires SiteOk(body, loc)
  {
    var blk := body.blocks[loc.block];
    if loc.statementIndex < |blk.statements| then Rhs(blk.statements[loc.statementIndex].rhs)
    else CallDef(blk.terminator.func, blk.terminator.args, if keep then blk.terminator.cleanup else None)
  }

  /** The source after moving the definition at `loc` out: the assignment's
      right-hand side becomes `()`, or the call becomes a jump to its
      continuation. */
  function TakenOut(body: Body, loc: Location): Body
    requires SiteOk(body, loc)
  {
    var blk := body.blocks[loc.block];
    if loc.statementIndex < |blk.statements| then
      WithStatement(body, loc.block, loc.statementIndex, Assign(blk.statements[loc.statementIndex].dest, Unit))
    else WithTerminator(body, loc.block, Goto(blk.terminator.destination.value.target))
  }

  /** `b` is `a` with statements and blocks added at the end only: earlier
      blocks are untouched, the last block only gains statements (and may
      get a new terminator), and declarations are only appended. */
  ghost predicate Appended(a: Body, b: Body)
  {
    && |a.blocks| >= 1 && |b.blocks| >= |a.blocks|
    && b.blocks[..|a.blocks| - 1] == a.blocks[..|a.blocks| - 1]
    && a.blocks[|a.blocks| - 1].statements <= b.blocks[|a.blocks| - 1].statements
    && a.tempDecls <= b.tempDecls
    && b.promoted == a.promoted && b.returnTy == a.returnTy
  }

  lemma AppendedTrans(a: Body, b: Body, c: Body)
    requires Appended(a, b) && Appended(b, c)
    ensures Appended(a, c)
  {
    var n := |a.blocks| - 1;
    assert c.blocks[..n] == c.blocks[..|b.blocks| - 1][..n];
    assert b.blocks[..n] == b.blocks[..|b.blocks| - 1][..n];
    if |b.blocks| > |a.blocks| {
      assert c.blocks[n] == c.blocks[..|b.blocks| - 1][n];
    }
  }

  /** The new body defines temporary `r` by `d` at its end: an assignment as
      the last statement, or a call ending the next-to-last block whose
      continuation is the (empty) last block. */
  ghost predicate DefinesAtEnd(p: Body, r: nat, d: Definition)
  {
    |p.blocks| >= 1 &&
    match d
    case Rhs(rv) =>
      var stmts := p.blocks[|p.blocks| - 1].statements;
      |stmts| >= 1 && stmts[|stmts| - 1] == Assign(Temp(r), rv)
    case CallDef(f, args, c) =>
      |p.blocks| >= 2 &&
      p.blocks[|p.blocks| - 2].terminator == Call(f, args, Some(Destination(Temp(r), |p.blocks| - 1)), c) &&
      p.blocks[|p.blocks| - 1] == Block([], Return)
  }

  /** Block `blk` writes `Temp(t)`: by an assignment, or as a call's
      destination. */
  ghost predicate BlockDefines(blk: Block, t: nat)
  {
    || (exists k :: 0 <= k < |blk.statements| && blk.statements[k].dest == Temp(t))
    || (blk.terminator.Call? && blk.terminator.destination.Some? &&
        blk.terminator.destination.value.place == Temp(t))
  }

  /** Some block of `p` writes `Temp(t)`. */
  ghost predicate DefinedIn(p: Body, t: nat)
  {
    exists b :: 0 <= b < |p.blocks| && BlockDefines(p.blocks[b], t)
  }

  /** Each of the first `n` temporaries of `p` is written in `p`. */
  ghost predicate DefinesBelow(p: Body, n: nat)
  {
    forall t :: 0 <= t < n ==> DefinedIn(p, t)
  }

  /** The last block of the new body, if any, ends in `return`. */
  ghost predicate ReturnsLast(p: Body)
  {
    |p.blocks| >= 1 ==> p.blocks[|p.blocks| - 1].terminator == Return
  }

  /** Appending keeps every write of the new body, as long as the block
      appended to ends in `return` rather than a call. */
  lemma DefinesBelowAppended(a: Body, b: Body, n: nat)
    requires Appended(a, b) && ReturnsLast(a) && DefinesBelow(a, n)
    ensures DefinesBelow(b, n)
  {
    var m := |a.blocks| - 1;
    forall t | 0 <= t < n
      ensures DefinedIn(b, t)
    {
      assert DefinedIn(a, t);
      var x :| 0 <= x < |a.blocks| && BlockDefines(a.blocks[x], t);
      if x < m {
        assert b.blocks[x] == b.blocks[..m][x] == a.blocks[..m][x] == a.blocks[x];
        assert BlockDefines(b.blocks[x], t);
      } else {
        assert x == m && a.blocks[m].terminator == Return;
        var k :| 0 <= k < |a.blocks[m].statements| && a.blocks[m].statements[k].dest == Temp(t);
        assert b.blocks[m].statements[k] == a.blocks[m].statements[k];
        assert BlockDefines(b.blocks[m], t);
      }
    }
  }

  /** Error `e` names a temporary of rank below `bound` that the table
      `temps` does not hold as Defined with a use. */
  ghost predicate FailedBelow(e: Error, temps: seq<TempState>, rank: seq<nat>, bound: nat)
  {
    e.NotPromotable? && e.temp < |temps| && e.temp < |rank| && rank[e.temp] < bound &&
    !IsPromotable(temps[e.temp])
  }

  /** The promoter's state, as a value. */
  datatype Snapshot = Snapshot(keep: bool, source: Body, temps: seq<TempState>, origin: seq<nat>, promoted: Body)

  /** What every promotion step keeps: the duplication flag, the source
      changes only by moving definitions out (and not at all while the
      originals are kept), the origin table only grows, and the new body only
      grows at its end. */
  ghost predicate StepOk(a: Snapshot, b: Snapshot)
  {
    && b.keep == a.keep
    && Moved(a.source, a.temps, b.source, b.temps)
    && (a.keep ==> b.source == a.source && b.temps == a.temps)
    && Extends(a.origin, b.origin)
    && Appended(a.promoted, b.promoted)
  }

  /** Temporary `j` was promoted on the way from `a` to `b`: it was
      promotable in `a`, and if originals were not kept and it has a single
      use, it is PromotedOut in `b` with its site moved out. */
  ghost predicate PromotedFrom(a: Snapshot, b: Snapshot, j: nat)
  {
    && j < |a.temps| && IsPromotable(a.temps[j])
    && var loc := a.temps[j].location;
    && IsDefSite(a.source, loc, j) && SiteOk(a.source, loc)
    && (!a.keep && a.temps[j].uses == 1 ==> j < |b.temps| && b.temps[j] == PromotedOut && MovedOutAt(a.source, b.source, loc))
  }

  /** Every temporary of `s` was promoted on the way from `a` to `b`. */
  ghost predicate AllPromoted(s: set<nat>, a: Snapshot, b: Snapshot)
  {
    forall j :: j in s ==> PromotedFrom(a, b, j)
  }

  /** A promotion stays a promotion through later steps. */
  lemma PromotedFromLater(a: Snapshot, b: Snapshot, c: Snapshot, j: nat)
    requires PromotedFrom(a, b, j) && StepOk(b, c)
    ensures PromotedFrom(a, c, j)
  {
    var loc := a.temps[j].location;
    if !a.keep && a.temps[j].uses == 1 {
      assert BlockMoved(b.source.blocks[loc.block], c.source.blocks[loc.block], loc.block, b.temps, c.temps);
    }
  }

  /** A promotion that starts after an earlier step counts from before it:
      the temporary, still promotable, was untouched by that step. */
  lemma PromotedFromEarlier(a: Snapshot, b: Snapshot, c: Snapshot, j: nat)
    requires StepOk(a, b) && PromotedFrom(b, c, j)
    ensures PromotedFrom(a, c, j)
  {
    var loc := b.temps[j].location;
    assert a.temps[j] == b.temps[j];
    assert BlockMoved(a.source.blocks[loc.block], b.source.blocks[loc.block], loc.block, a.temps, b.temps);
  }

  lemma AllPromotedSeq(s1: set<nat>, s2: set<nat>, a: Snapshot, b: Snapshot, c: Snapshot)
    requires StepOk(a, b) && StepOk(b, c) && AllPromoted(s1, a, b) && AllPromoted(s2, b, c)
    ensures AllPromoted(s1 + s2, a, c)
  {
    forall j | j in s1 + s2
      ensures PromotedFrom(a, c, j)
    {
      if j in s1 {
        PromotedFromLater(a, b, c, j);
      } else {
        PromotedFromEarlier(a, b, c, j);
      }
    }
  }

  lemma StepOkRefl(a: Snapshot)
    requires |a.promoted.blocks| >= 1
    ensures StepOk(a, a)
  {
    MovedRefl(a.source, a.temps);
  }

  lemma StepOkTrans(a: Snapshot, b: Snapshot, c: Snapshot)
    requires StepOk(a, b) && StepOk(b, c)
    ensures StepOk(a, c)
  {
    MovedTrans(a.source, a.temps, b.source, b.temps, c.source, c.temps);
    AppendedTrans(a.promoted, b.promoted, c.promoted);
    assert c.origin[..|a.origin|] == c.origin[..|b.origin|][..|a.origin|];
  }

  lemma RankedBelowSubset(a: set<nat>, b: set<nat>, rank: seq<nat>, bound: nat)
    requires a <= b && RankedBelow(b, rank, bound)
    ensures RankedBelow(a, rank, bound)
  {
  }

  lemma RenamedDefinitionExtends(a: Definition, b: Definition, o: seq<nat>, o': seq<nat>)
    requires RenamedDefinition(a, b, o) && Extends(o, o')
    ensures RenamedDefinition(a, b, o')
  {
    match a
    case Rhs(rv) => RenamedRvalueExtends(rv, b.rv, o, o');
    case CallDef(f, args, _) =>
      RenamedOperandExtends(f, b.func, o, o');
      RenamedOperandsExtends(args, b.args, o, o');
  }

  /** `nb` shows the definition of `ob` at `loc` moved out: `()` in place
      of the right-hand side, or a jump to the call's continuation. */
  ghost predicate MovedOutAt(ob: Body, nb: Body, loc: Location)
    requires SiteOk(ob, loc)
  {
    var blk := ob.blocks[loc.block];
    && |nb.blocks| == |ob.blocks|
    && |nb.blocks[loc.block].statements| == |blk.statements|
    && if loc.statementIndex < |blk.statements| then
         nb.blocks[loc.block].statements[loc.statementIndex] == Assign(blk.statements[loc.statementIndex].dest, Unit)
       else nb.blocks[loc.block].terminator == Goto(blk.terminator.destination.value.target)
  }

  /** `b` is `a` after promoting Defined temporary `i` to `n`: the new body
      ends with a definition of `n` that renames the definition taken at `i`'s
      site, and the source is unchanged (`keep`) or shows that site moved out,
      `i` now PromotedOut. */
  ghost predicate CopiedOut(a: Snapshot, b: Snapshot, i: nat, keep: bool, n: nat)
  {
    && i < |a.temps| && a.temps[i].Defined?
    && var loc := a.temps[i].location;
    && SiteOk(a.source, loc)
    && n + 1 == |b.promoted.tempDecls| && n < |b.origin| && b.origin[n] == i
    && (exists d :: RenamedDefinition(Taken(a.source, loc, keep), d, b.origin) && DefinesAtEnd(b.promoted, n, d))
    && (keep ==> b.source == a.source && b.temps == a.temps)
    && (!keep ==> i < |b.temps| && b.temps[i] == PromotedOut && MovedOutAt(a.source, b.source, loc))
  }

  lemma CopiedOutIntro(a: Snapshot, b: Snapshot, i: nat, keep: bool, n: nat, d: Definition)
    requires i < |a.temps| && a.temps[i].Defined? && SiteOk(a.source, a.temps[i].location)
    requires n + 1 == |b.promoted.tempDecls| && n < |b.origin| && b.origin[n] == i
    requires RenamedDefinition(Taken(a.source, a.temps[i].location, keep), d, b.origin) && DefinesAtEnd(b.promoted, n, d)
    requires keep ==> b.source == a.source && b.temps == a.temps
    requires !keep ==> i < |b.temps| && b.temps[i] == PromotedOut && MovedOutAt(a.source, b.source, a.temps[i].location)
    ensures CopiedOut(a, b, i, keep, n)
  {
  }

  /** A definition moved out of `s0` at `loc`, whose temporary `i` is now
      PromotedOut, stays moved out through later moves. */
  lemma MovedKeepsMovedOut(s0: Body, s1: Body, t1: seq<TempState>, s2: Body, t2: seq<TempState>, loc: Location, i: nat)
    requires SiteOk(s0, loc) && s1 == TakenOut(s0, loc)
    requires IsDefSite(s0, loc, i) && i < |t1| && t1[i] == PromotedOut
    requires Moved(s1, t1, s2, t2)
    ensures t2[i] == PromotedOut && MovedOutAt(s0, s2, loc)
  {
    assert BlockMoved(s1.blocks[loc.block], s2.blocks[loc.block], loc.block, t1, t2);
  }

  // ----- candidates -----

  /** The candidate names a statement, or a block, of `body`. */
  ghost predicate InRange(body: Body, c: Candidate)
  {
    match c
    case Ref(loc) => loc.block < |body.blocks| && loc.statementIndex < |body.blocks[loc.block].statements|
    case ShuffleIndices(b) => b < |body.blocks|
  }

  /** The candidate's site exists: a statement, or a call with a third
      argument. */
  ghost predicate CandidateOk(body: Body, c: Candidate)
  {
    && InRange(body, c)
    && (c.ShuffleIndices? ==>
          body.blocks[c.block].terminator.Call? && |body.blocks[c.block].terminator.args| >= 3)
  }

  /** The value a candidate promotes: the borrow's right-hand side, or the
      shuffle's index argument. */
  function CandidateRvalue(body: Body, c: Candidate): Rvalue
    requires CandidateOk(body, c)
  {
    match c
    case Ref(loc) => body.blocks[loc.block].statements[loc.statementIndex].rhs
    case ShuffleIndices(b) => Use(body.blocks[b].terminator.args[2])
  }

  /** The source with the candidate's value replaced by promoted constant
      number `k`. */
  function Placed(body: Body, c: Candidate, k: nat): Body
    requires CandidateOk(body, c)
  {
    match c
    case Ref(loc) =>
      var st := body.blocks[loc.block].statements[loc.statementIndex];
      WithStatement(body, loc.block, loc.statementIndex, Assign(st.dest, Use(Constant(Promoted(k)))))
    case ShuffleIndices(b) =>
      var t := body.blocks[b].terminator;
      WithTerminator(body, b, t.(args := t.args[2 := Constant(Promoted(k))]))
  }

  /** Placing the constant keeps the source valid, and the promoted value
      reads only temporaries the table ranks. */
  lemma PlacedValid(body: Body, temps: seq<TempState>, rank: seq<nat>, c: Candidate, k: nat)
    requires SourceValid(body, temps, rank) && CandidateOk(body, c)
    ensures SourceValid(Placed(body, c, k), temps, rank)
    ensures RankedBelow(RvalueTemps(CandidateRvalue(body, c)), rank, RankBound(rank))
  {
    match c
    case Ref(loc) =>
      ValidAfterRhsShrink(body, temps, rank, loc.block, loc.statementIndex, Use(Constant(Promoted(k))));
      assert BlockTempsBelow(body.blocks[loc.block], |temps|);
      assert AllBelow(StatementTemps(body.blocks[loc.block].statements[loc.statementIndex]), |temps|);
    case ShuffleIndices(b) =>
      var t := body.blocks[b].terminator;
      OperandsTempsUpdate(t.args, 2, Constant(Promoted(k)));
      OperandsTempsAt(t.args, 2);
      ValidAfterTerminatorShrink(body, temps, rank, b, t.(args := t.args[2 := Constant(Promoted(k))]));
      assert BlockTempsBelow(body.blocks[b], |temps|);
  }

  /** The new body ends by assigning `rv` to the return place. */
  ghost predicate ReturnsAtEnd(p: Body, rv: Rvalue)
  {
    |p.blocks| >= 1 &&
    var stmts := p.blocks[|p.blocks| - 1].statements;
    |stmts| >= 1 && stmts[|stmts| - 1] == Assign(ReturnPointer, rv)
  }

  /** Every temporary of the new body `p` is declared with the type of the
      source temporary it copies. */
  ghost predicate DeclaredFrom(p: Body, decls: seq<TempDecl>, origin: seq<nat>)
  {
    |origin| == |p.tempDecls| &&
    forall t :: 0 <= t < |origin| ==> origin[t] < |decls| && p.tempDecls[t] == decls[origin[t]]
  }

  // ----- the walk, as functions of the promoter's state -----

  /** `p` with `dest = rv` appended to its last block. */
  function Assigned(p: Body, dest: Lvalue, rv: Rvalue): Body
  {
    if |p.blocks| == 0 then p
    else
      var m := |p.blocks| - 1;
      p.(blocks := p.blocks[m := p.blocks[m].(statements := p.blocks[m].statements + [Statement.Assign(dest, rv)])])
  }

  /** `p` with temporary `n` defined by `d` at its end: an assignment in the
      last block, or a call ending it whose continuation is a new empty
      block. */
  function Injected(p: Body, n: nat, d: Definition): Body
  {
    if |p.blocks| == 0 then p
    else
      match d
      case Rhs(rv) => Assigned(p, Temp(n), rv)
      case CallDef(f, args, c) =>
        var m := |p.blocks| - 1;
        p.(blocks := p.blocks[m := p.blocks[m].(terminator := Call(f, args, Some(Destination(Temp(n), m + 1)), c))]
                     + [Block([], Return)])
  }

  /* The outcome and final state of each walk step from state `s`. A state
     that no valid promoter is in (a table entry without a site, a temporary
     ranked out of order) answers `NotPromotable` for the temporary at
     hand; these answers make the functions total and are never reached
     from a valid promoter. */

  /** Promoting temporary `i`: a temporary that is not Defined with a use is
      an error; otherwise its definition is copied with the duplication flag
      raised for more than one use, and the flag is restored. */
  ghost function TempWalk(s: Snapshot, rank: seq<nat>, i: nat): (Result<nat>, Snapshot)
    requires i < |rank|
    decreases rank[i], 6
  {
    if i >= |s.temps| || !IsPromotable(s.temps[i]) then (Err(NotPromotable(i)), s)
    else
      var (r, s1) := CopyWalk(s.(keep := s.keep || s.temps[i].uses > 1), rank, i);
      (r, s1.(keep := s.keep))
  }

  /** Taking the definition of `i` (moving it out unless the flag is set),
      renaming it, declaring a fresh temporary and defining it at the end of
      the new body. */
  ghost function CopyWalk(s: Snapshot, rank: seq<nat>, i: nat): (Result<nat>, Snapshot)
    requires i < |rank|
    decreases rank[i], 5
  {
    if !(i < |s.temps| && s.temps[i].Defined? && SiteOk(s.source, s.temps[i].location) && i < |s.source.tempDecls|)
    then (Err(NotPromotable(i)), s)
    else
      var loc := s.temps[i].location;
      var s1 := if s.keep then s else s.(source := TakenOut(s.source, loc), temps := s.temps[i := PromotedOut]);
      var (d, s2) := DefinitionWalk(s1, rank, Taken(s.source, loc, s.keep), rank[i]);
      if d.Err? then (Err(d.error), s2)
      else
        var n := |s2.promoted.tempDecls|;
        var p := s2.promoted.(tempDecls := s2.promoted.tempDecls + [s.source.tempDecls[i]]);
        (Ok(n), s2.(promoted := Injected(p, n, d.value), origin := s2.origin + [i]))
  }

  ghost function DefinitionWalk(s: Snapshot, rank: seq<nat>, d: Definition, bound: nat): (Result<Definition>, Snapshot)
    decreases bound, 4
  {
    match d
    case Rhs(rv) =>
      var (x, s1) := RvalueWalk(s, rank, rv, bound);
      (if x.Err? then Err(x.error) else Ok(Rhs(x.value)), s1)
    case CallDef(f, args, c) =>
      var (x, s1) := OperandWalk(s, rank, f, bound);
      if x.Err? then (Err(x.error), s1)
      else
        var (y, s2) := OperandsWalk(s1, rank, args, bound);
        (if y.Err? then Err(y.error) else Ok(CallDef(x.value, y.value, c)), s2)
  }

  ghost function RvalueWalk(s: Snapshot, rank: seq<nat>, rv: Rvalue, bound: nat): (Result<Rvalue>, Snapshot)
    decreases bound, 3
  {
    match rv
    case Use(op) =>
      var (x, s1) := OperandWalk(s, rank, op, bound);
      (if x.Err? then Err(x.error) else Ok(Use(x.value)), s1)
    case Ref(lv) =>
      var (x, s1) := LvalueWalk(s, rank, lv, bound);
      (if x.Err? then Err(x.error) else Ok(Rvalue.Ref(x.value)), s1)
    case Len(lv) =>
      var (x, s1) := LvalueWalk(s, rank, lv, bound);
      (if x.Err? then Err(x.error) else Ok(Len(x.value)), s1)
    case BinaryOp(l, r) =>
      var (x, s1) := OperandWalk(s, rank, l, bound);
      if x.Err? then (Err(x.error), s1)
      else
        var (y, s2) := OperandWalk(s1, rank, r, bound);
        (if y.Err? then Err(y.error) else Ok(BinaryOp(x.value, y.value)), s2)
    case Aggregate(kind, ops) =>
      var (x, s1) := OperandsWalk(s, rank, ops, bound);
      (if x.Err? then Err(x.error) else Ok(Aggregate(kind, x.value)), s1)
  }

  /** Operands are walked first to last; the first error stops the walk. */
  ghost function OperandsWalk(s: Snapshot, rank: seq<nat>, ops: seq<Operand>, bound: nat): (Result<seq<Operand>>, Snapshot)
    decreases bound, 2, |ops|
  {
    if |ops| == 0 then (Ok([]), s)
    else
      var (xs, s1) := OperandsWalk(s, rank, ops[..|ops| - 1], bound);
      if xs.Err? then (xs, s1)
      else
        var (x, s2) := OperandWalk(s1, rank, ops[|ops| - 1], bound);
        (if x.Err? then Err(x.error) else Ok(xs.value + [x.value]), s2)
  }

  ghost function OperandWalk(s: Snapshot, rank: seq<nat>, op: Operand, bound: nat): (Result<Operand>, Snapshot)
    decreases bound, 1
  {
    match op
    case Consume(lv) =>
      var (x, s1) := LvalueWalk(s, rank, lv, bound);
      (if x.Err? then Err(x.error) else Ok(Operand.Consume(x.value)), s1)
    case Constant(_) => (Ok(op), s)
  }

  ghost function LvalueWalk(s: Snapshot, rank: seq<nat>, lv: Lvalue, bound: nat): (Result<Lvalue>, Snapshot)
    decreases bound, 0, LvalueSize(lv)
  {
    match lv
    case Temp(j) =>
      if j >= |rank| || rank[j] >= bound then (Err(NotPromotable(j)), s)
      else
        var (x, s1) := TempWalk(s, rank, j);
        (if x.Err? then Err(x.error) else Ok(Temp(x.value)), s1)
    case Projection(base) =>
      var (x, s1) := LvalueWalk(s, rank, base, bound);
      (if x.Err? then Err(x.error) else Ok(Projection(x.value)), s1)
    case _ => (Ok(lv), s)
  }

  /** Both operands of a binary operation renamed, one after the other. */
  lemma BinaryStepOk(s0: Snapshot, s1: Snapshot, s2: Snapshot, l: Operand, r: Operand, l': Operand, r': Operand)
    requires StepOk(s0, s1) && StepOk(s1, s2)
    requires RenamedOperand(l, l', s1.origin) && RenamedOperand(r, r', s2.origin)
    requires AllPromoted(OperandTemps(l), s0, s1) && AllPromoted(OperandTemps(r), s1, s2)
    ensures RenamedRvalue(BinaryOp(l, r), BinaryOp(l', r'), s2.origin)
    ensures AllPromoted(RvalueTemps(BinaryOp(l, r)), s0, s2)
  {
    RenamedOperandExtends(l, l', s1.origin, s2.origin);
    AllPromotedSeq(OperandTemps(l), OperandTemps(r), s0, s1, s2);
  }

  /** One more operand renamed: the facts the operand loop keeps, one step on. */
  lemma OperandsStepOk(s0: Snapshot, s1: Snapshot, s2: Snapshot, ops: seq<Operand>, k: nat, out: seq<Operand>, y: Operand)
    requires k < |ops| && StepOk(s0, s1) && StepOk(s1, s2)
    requires RenamedOperands(ops[..k], out, s1.origin) && RenamedOperand(ops[k], y, s2.origin)
    requires AllPromoted(OperandsTemps(ops[..k]), s0, s1) && AllPromoted(OperandTemps(ops[k]), s1, s2)
    ensures RenamedOperands(ops[..k + 1], out + [y], s2.origin)
    ensures AllPromoted(OperandsTemps(ops[..k + 1]), s0, s2)
  {
    RenamedOperandsExtends(ops[..k], out, s1.origin, s2.origin);
    assert ops[..k + 1] == ops[..k] + [ops[k]];
    OperandsTempsSnoc(ops[..k], ops[k]);
    AllPromotedSeq(OperandsTemps(ops[..k]), OperandTemps(ops[k]), s0, s1, s2);
  }

  /** Walking one more operand after a successful prefix. */
  lemma OperandsWalkSnoc(s: Snapshot, rank: seq<nat>, ops: seq<Operand>, bound: nat, k: nat,
                         out: seq<Operand>, s1: Snapshot, x: Result<Operand>, s2: Snapshot)
    requires k < |ops| && (Ok(out), s1) == OperandsWalk(s, rank, ops[..k], bound)
    requires (x, s2) == OperandWalk(s1, rank, ops[k], bound)
    ensures OperandsWalk(s, rank, ops[..k + 1], bound) == (if x.Err? then Err(x.error) else Ok(out + [x.value]), s2)
  {
    assert ops[..k + 1][..k] == ops[..k] && ops[..k + 1][k] == ops[k];
  }

  /** An error in a prefix of the operands is the error of the whole walk. */
  lemma {:induction false} OperandsWalkErr(s: Snapshot, rank: seq<nat>, ops: seq<Operand>, bound: nat, m: nat)
    requires m <= |ops| && OperandsWalk(s, rank, ops[..m], bound).0.Err?
    ensures OperandsWalk(s, rank, ops, bound) == OperandsWalk(s, rank, ops[..m], bound)
    decreases |ops| - m
  {
    if m < |ops| {
      assert ops[..m + 1][..m] == ops[..m];
      OperandsWalkErr(s, rank, ops, bound, m + 1);
    } else {
      assert ops[..m] == ops;
    }
  }

  /** One unfolding of `CopyWalk`, in a state its guards admit. */
  lemma CopyWalkUnfold(s: Snapshot, rank: seq<nat>, i: nat, s1: Snapshot, d: Result<Definition>, s2: Snapshot)
    requires i < |rank| && i < |s.temps| && s.temps[i].Defined? && i < |s.source.tempDecls|
    requires SiteOk(s.source, s.temps[i].location)
    requires s1 == if s.keep then s else s.(source := TakenOut(s.source, s.temps[i].location), temps := s.temps[i := PromotedOut])
    requires (d, s2) == DefinitionWalk(s1, rank, Taken(s.source, s.temps[i].location, s.keep), rank[i])
    ensures d.Err? ==> CopyWalk(s, rank, i) == (Err(d.error), s2)
    ensures d.Ok? ==>
      var n: nat := |s2.promoted.tempDecls|;
      var p := s2.promoted.(tempDecls := s2.promoted.tempDecls + [s.source.tempDecls[i]]);
      CopyWalk(s, rank, i) == (Ok(n), s2.(promoted := Injected(p, n, d.value), origin := s2.origin + [i]))
  {
  }

  /** Validity of the source does not depend on its list of promoted bodies. */
  lemma SourceValidPromoted(body: Body, temps: seq<TempState>, rank: seq<nat>, ps: seq<Body>)
    requires SourceValid(body, temps, rank)
    ensures SourceValid(body.(promoted := ps), temps, rank)
  {
    assert body.(promoted := ps).blocks == body.blocks;
  }

  /** Promotions depend only on the blocks and table reached. */
  lemma AllPromotedSameEnd(s: set<nat>, a: Snapshot, b: Snapshot, b': Snapshot)
    requires AllPromoted(s, a, b) && b'.temps == b.temps && b'.source.blocks == b.source.blocks
    ensures AllPromoted(s, a, b')
  {
    forall j | j in s
      ensures PromotedFrom(a, b', j)
    {
      assert PromotedFrom(a, b, j);
    }
  }

  /** Promoting candidate `c`: its value becomes promoted constant number
      `|s.source.promoted|` at the site, the value is walked, assigned to the
      new body's return place, and the new body is appended to the
      source's promoted bodies. */
  ghost function CandidateWalk(s: Snapshot, rank: seq<nat>, c: Candidate): (Result<nat>, Snapshot)
    requires CandidateOk(s.source, c)
  {
    var k := |s.source.promoted|;
    var (x, s1) := RvalueWalk(s.(source := Placed(s.source, c, k)), rank, CandidateRvalue(s.source, c), RankBound(rank));
    CandidateEnd(k, x, s1)
  }

  /** The end of `CandidateWalk`, once the value is walked. */
  ghost function CandidateEnd(k: nat, x: Result<Rvalue>, s1: Snapshot): (Result<nat>, Snapshot)
  {
    if x.Err? then (Err(x.error), s1)
    else
      var p := Assigned(s1.promoted, ReturnPointer, x.value);
      (Ok(k), s1.(promoted := p, source := s1.source.(promoted := s1.source.promoted + [p])))
  }

  class Promoter {
    var source: Body
    var promoted: Body
    var temps: seq<TempState>
    /** When set, definitions are copied and the source keeps them. */
    var keepOriginal: bool
    /** `origin[t]` is the source temporary that promoted temporary `t` copies. */
    ghost var origin: seq<nat>
    /** An acyclicity rank of the definitions (see `Ranked`). */
    ghost const rank: seq<nat>

    /** The source and table agree, and the new body writes every
        temporary it declares. */
    ghost predicate Valid()
      reads this
    {
      Consistent() && DefinesBelow(promoted, |promoted.tempDecls|)
    }

    /** `Valid` but for the writes of the new body: the source and table
        agree, the new body's temporaries are declared from the source's, and
        its last block ends in `return`. */
    ghost predicate Consistent()
      reads this
    {
      SourceValid(source, temps, rank) && DeclaredFrom(promoted, source.tempDecls, origin) && ReturnsLast(promoted)
    }

    ghost function Snap(): Snapshot
      reads this
    {
      Snapshot(keepOriginal, source, temps, origin, promoted)
    }

    /** A promoter for one candidate: an empty constant body of type `ty`. */
    constructor (source: Body, temps: seq<TempState>, ghost rank: seq<nat>, ty: Ty)
      requires SourceValid(source, temps, rank)
      ensures this.source == source && this.temps == temps && this.rank == rank
      ensures promoted == Body([], [], [], ty) && !keepOriginal && origin == []
      ensures Valid()
    {
      this.source := source;
      this.temps := temps;
      this.rank := rank;
      promoted := Body([], [], [], ty);
      keepOriginal := false;
      origin := [];
    }

    /** Appends an empty block ending in `return`; answers its index. */
    method NewBlock() returns (index: nat)
      modifies this
      ensures index == |old(promoted.blocks)|
      ensures promoted == old(promoted).(blocks := old(promoted.blocks) + [Block([], Return)])
      ensures source == old(source) && temps == old(temps) && keepOriginal == old(keepOriginal) && origin == old(origin)
    {
      index := |promoted.blocks|;
      promoted := promoted.(blocks := promoted.blocks + [Block([], Return)]);
    }

    /** Appends `dest = rv` to the last block of the new body. */
    method Assign(dest: Lvalue, rv: Rvalue)
      requires |promoted.blocks| >= 1
      modifies this
      ensures var n := |old(promoted.blocks)| - 1;
        promoted == old(promoted).(blocks := old(promoted.blocks)[n := old(promoted.blocks)[n].(
          statements := old(promoted.blocks)[n].statements + [Statement.Assign(dest, rv)])])
      ensures source == old(source) && temps == old(temps) && keepOriginal == old(keepOriginal) && origin == old(origin)
      ensures promoted == Assigned(old(promoted), dest, rv)
    {
      var n := |promoted.blocks| - 1;
      var blk := promoted.blocks[n];
      promoted := promoted.(blocks := promoted.blocks[n := blk.(statements := blk.statements + [Statement.Assign(dest, rv)])]);
    }

    /** Replaces the terminator of block `b` of the new body. */
    method SetTerminator(b: nat, t: Terminator)
      requires b < |promoted.blocks|
      modifies this
      ensures promoted == old(promoted).(blocks := old(promoted.blocks)[b := old(promoted.blocks)[b].(terminator := t)])
      ensures source == old(source) && temps == old(temps) && keepOriginal == old(keepOriginal) && origin == old(origin)
    {
      promoted := promoted.(blocks := promoted.blocks[b := promoted.blocks[b].(terminator := t)]);
    }

    /** Declares a new temporary of the type of source temporary `i`;
        answers its index. */
    method PushTempDecl(i: nat) returns (r: nat)
      requires Valid() && i < |source.tempDecls|
      modifies this
      ensures Consistent() && DefinesBelow(promoted, r)
      ensures r == |old(promoted.tempDecls)| && origin == old(origin) + [i]
      ensures promoted == old(promoted).(tempDecls := old(promoted.tempDecls) + [source.tempDecls[i]])
      ensures source == old(source) && temps == old(temps) && keepOriginal == old(keepOriginal)
      ensures |old(promoted.blocks)| >= 1 ==> StepOk(old(Snap()), Snap())
    {
      MovedRefl(source, temps);
      r := |promoted.tempDecls|;
      ghost var p0 := promoted;
      promoted := promoted.(tempDecls := promoted.tempDecls + [TempDecl(source.tempDecls[i].ty)]);
      origin := origin + [i];
      forall t | 0 <= t < r
        ensures DefinedIn(promoted, t)
      {
        assert DefinedIn(p0, t);
        var b :| 0 <= b < |p0.blocks| && BlockDefines(p0.blocks[b], t);
        assert BlockDefines(promoted.blocks[b], t);
      }
    }

    /** Defines temporary `n` of the new body by `d`: an assignment at the end
        of the last block, or a call ending the last block whose continuation
        is a new empty block. */
    method Inject(n: nat, d: Definition)
      requires Consistent() && |promoted.blocks| >= 1
      requires n + 1 == |promoted.tempDecls| && DefinesBelow(promoted, n)
      modifies this
      ensures Valid() && StepOk(old(Snap()), Snap())
      ensures DefinesAtEnd(promoted, n, d)
      ensures d.Rhs? ==> var m := |old(promoted.blocks)| - 1;
        promoted == old(promoted).(blocks := old(promoted.blocks)[m := old(promoted.blocks)[m].(
          statements := old(promoted.blocks)[m].statements + [Statement.Assign(Temp(n), d.rv)])])
      ensures d.CallDef? ==> var m := |old(promoted.blocks)| - 1;
        promoted == old(promoted).(blocks := old(promoted.blocks)[m := old(promoted.blocks)[m].(
          terminator := Call(d.func, d.args, Some(Destination(Temp(n), m + 1)), d.cleanup))] + [Block([], Return)])
      ensures source == old(source) && temps == old(temps) && keepOriginal == old(keepOriginal) && origin == old(origin)
      ensures promoted == Injected(old(promoted), n, d)
    {
      ghost var s0 := Snap();
      match d {
        case Rhs(rv) =>
          Assign(Temp(n), rv);
          ghost var m := |promoted.blocks| - 1;
          assert promoted.blocks[m].statements[|promoted.blocks[m].statements| - 1].dest == Temp(n);
          assert BlockDefines(promoted.blocks[m], n);
        case CallDef(f, args, c) =>
          var last := |promoted.blocks| - 1;
          var target := NewBlock();
          SetTerminator(last, Call(f, args, Some(Destination(Temp(n), target)), c));
          assert BlockDefines(promoted.blocks[last], n);
      }
      MovedRefl(source, temps);
      DefinesBelowAppended(s0.promoted, promoted, n);
      assert DefinedIn(promoted, n);
    }

    /** Takes the definition of Defined temporary `i` out of the source: a copy
        while originals are kept; otherwise the site is emptied (`()` for an
        assignment, a jump for a call, whose cleanup edge is dropped) and the
        temporary becomes PromotedOut. */
    method TakeDefinition(i: nat) returns (d: Definition)
      requires Valid() && i < |temps| && temps[i].Defined?
      modifies this
      ensures Valid()
      ensures SiteOk(old(source), old(temps)[i].location)
      ensures d == Taken(old(source), old(temps)[i].location, keepOriginal)
      ensures RankedBelow(DefinitionTemps(d), rank, rank[i])
      ensures keepOriginal ==> source == old(source) && temps == old(temps)
      ensures !keepOriginal ==> source == TakenOut(old(source), old(temps)[i].location) &&
                                temps == old(temps)[i := PromotedOut]
      ensures Moved(old(source), old(temps), source, temps)
      ensures promoted == old(promoted) && origin == old(origin) && keepOriginal == old(keepOriginal)
      ensures |promoted.blocks| >= 1 ==> StepOk(old(Snap()), Snap())
    {
      var loc := temps[i].location;
      assert IsDefSite(source, loc, i);
      var blk := source.blocks[loc.block];
      if loc.statementIndex < |blk.statements| {
        d := Rhs(blk.statements[loc.statementIndex].rhs);
        if !keepOriginal {
          MoveAssign(source, temps, rank, i);
          source := WithStatement(source, loc.block, loc.statementIndex, Statement.Assign(Temp(i), Unit));
          temps := temps[i := PromotedOut];
        } else {
          MovedRefl(source, temps);
        }
      } else {
        var t := blk.terminator;
        if !keepOriginal {
          MoveCall(source, temps, rank, i);
          d := CallDef(t.func, t.args, None);
          source := WithTerminator(source, loc.block, Goto(t.destination.value.target));
          temps := temps[i := PromotedOut];
        } else {
          d := CallDef(t.func, t.args, t.cleanup);
          MovedRefl(source, temps);
        }
      }
    }

    /** Promotes temporary `i`: copies its definition into the new body under
        a fresh temporary, first promoting every temporary the definition
        reads, and answers the fresh temporary. The definition is moved out
        of the source unless originals are kept already or `i` has more than
        one use; in that case this call and every call it makes leave the
        source unchanged. A temporary that is not Defined with a use stops
        the compiler. */
    method PromoteTemp(i: nat) returns (r: Result<nat>)
      requires Valid() && i < |temps| && |promoted.blocks| >= 1
      modifies this
      ensures Valid() && StepOk(old(Snap()), Snap())
      ensures !IsPromotable(old(temps)[i]) ==>
        r == Err(NotPromotable(i)) && source == old(source) && temps == old(temps) && promoted == old(promoted)
      ensures r.Ok? ==> IsPromotable(old(temps)[i])
      ensures r.Ok? ==> CopiedOut(old(Snap()), Snap(), i, old(keepOriginal) || old(temps)[i].uses > 1, r.value)
      ensures r.Err? ==> FailedBelow(r.error, temps, rank, if IsPromotable(old(temps)[i]) then rank[i] else rank[i] + 1)
      ensures (r, Snap()) == TempWalk(old(Snap()), rank, i)
      decreases rank[i], 6
    {
      ghost var s0 := Snap();
      var oldKeep := keepOriginal;
      if !IsPromotable(temps[i]) {
        StepOkRefl(s0);
        return Err(NotPromotable(i));
      }
      if temps[i].uses > 1 {
        keepOriginal := true;
      }
      ghost var keep := keepOriginal;
      r := CopyDefinition(i);
      ghost var s1 := Snap();
      keepOriginal := oldKeep;
      assert Snap() == s1.(keep := oldKeep);
      assert StepOk(s0.(keep := keep), s1);
    }

    /** The work of `PromoteTemp` once `i` is known to be Defined, with the
        duplication flag already set for it. */
    method CopyDefinition(i: nat) returns (r: Result<nat>)
      requires Valid() && i < |temps| && temps[i].Defined? && |promoted.blocks| >= 1
      modifies this
      ensures Valid() && StepOk(old(Snap()), Snap())
      ensures r.Ok? ==> CopiedOut(old(Snap()), Snap(), i, keepOriginal, r.value)
      ensures r.Err? ==> FailedBelow(r.error, temps, rank, rank[i])
      ensures (r, Snap()) == CopyWalk(old(Snap()), rank, i)
      decreases rank[i], 5
    {
      ghost var s0 := Snap();
      ghost var loc := temps[i].location;
      assert IsDefSite(source, loc, i);
      var d := TakeDefinition(i);
      ghost var s1 := Snap();
      assert s1 == if s0.keep then s0 else s0.(source := TakenOut(s0.source, loc), temps := s0.temps[i := PromotedOut]);
      var d' := RenameDefinition(d, rank[i]);
      ghost var s2 := Snap();
      StepOkTrans(s0, s1, s2);
      CopyWalkUnfold(s0, rank, i, s1, d', s2);
      if d'.Err? {
        return Err(d'.error);
      }
      var n := PushTempDecl(i);
      ghost var s3 := Snap();
      Inject(n, d'.value);
      ghost var s4 := Snap();
      StepOkTrans(s1, s2, s3);
      StepOkTrans(s1, s3, s4);
      StepOkTrans(s0, s1, s4);
      RenamedDefinitionExtends(d, d'.value, s2.origin, s4.origin);
      if !keepOriginal {
        MovedKeepsMovedOut(s0.source, s1.source, s1.temps, s4.source, s4.temps, loc, i);
      }
      CopiedOutIntro(s0, s4, i, keepOriginal, n, d'.value);
      assert s3.promoted == s2.promoted.(tempDecls := s2.promoted.tempDecls + [s0.source.tempDecls[i]]);
      assert s3.source.tempDecls == s0.source.tempDecls;
      r := Ok(n);
    }

    /** Renames the temporaries a definition reads; a call keeps its cleanup. */
    method RenameDefinition(d: Definition, ghost bound: nat) returns (r: Result<Definition>)
      requires Valid() && |promoted.blocks| >= 1 && RankedBelow(DefinitionTemps(d), rank, bound)
      modifies this
      ensures Valid() && StepOk(old(Snap()), Snap())
      ensures r.Err? ==> FailedBelow(r.error, temps, rank, bound)
      ensures r.Ok? ==> RenamedDefinition(d, r.value, origin)
      ensures r.Ok? ==> AllPromoted(DefinitionTemps(d), old(Snap()), Snap())
      ensures (r, Snap()) == DefinitionWalk(old(Snap()), rank, d, bound)
      decreases bound, 4
    {
      match d {
        case Rhs(rv) =>
          var x := RenameRvalue(rv, bound);
          if x.Err? { return Err(x.error); }
          return Ok(Rhs(x.value));
        case CallDef(f, args, c) =>
          ghost var s0 := Snap();
          RankedBelowSubset(OperandTemps(f), DefinitionTemps(d), rank, bound);
          RankedBelowSubset(OperandsTemps(args), DefinitionTemps(d), rank, bound);
          var f' := RenameOperand(f, bound);
          ghost var s1 := Snap();
          if f'.Err? { return Err(f'.error); }
          var args' := RenameOperands(args, bound);
          StepOkTrans(s0, s1, Snap());
          if args'.Err? { return Err(args'.error); }
          RenamedOperandExtends(f, f'.value, s1.origin, origin);
          AllPromotedSeq(OperandTemps(f), OperandsTemps(args), s0, s1, Snap());
          return Ok(CallDef(f'.value, args'.value, c));
      }
    }

    method RenameRvalue(rv: Rvalue, ghost bound: nat) returns (r: Result<Rvalue>)
      requires Valid() && |promoted.blocks| >= 1 && RankedBelow(RvalueTemps(rv), rank, bound)
      modifies this
      ensures Valid() && StepOk(old(Snap()), Snap())
      ensures r.Err? ==> FailedBelow(r.error, temps, rank, bound)
      ensures r.Ok? ==> RenamedRvalue(rv, r.value, origin)
      ensures r.Ok? ==> AllPromoted(RvalueTemps(rv), old(Snap()), Snap())
      ensures (r, Snap()) == RvalueWalk(old(Snap()), rank, rv, bound)
      decreases bound, 3
    {
      match rv {
        case Use(op) =>
          var x := RenameOperand(op, bound);
          if x.Err? { return Err(x.error); }
          return Ok(Use(x.value));
        case Ref(lv) =>
          var x := RenameLvalue(lv, bound);
          if x.Err? { return Err(x.error); }
          return Ok(Rvalue.Ref(x.value));
        case Len(lv) =>
          var x := RenameLvalue(lv, bound);
          if x.Err? { return Err(x.error); }
          return Ok(Len(x.value));
        case BinaryOp(lhs, rhs) =>
          ghost var s0 := Snap();
          RankedBelowSubset(OperandTemps(lhs), RvalueTemps(rv), rank, bound);
          RankedBelowSubset(OperandTemps(rhs), RvalueTemps(rv), rank, bound);
          var x := RenameOperand(lhs, bound);
          ghost var s1 := Snap();
          if x.Err? { return Err(x.error); }
          var y := RenameOperand(rhs, bound);
          StepOkTrans(s0, s1, Snap());
          if y.Err? { return Err(y.error); }
          BinaryStepOk(s0, s1, Snap(), lhs, rhs, x.value, y.value);
          return Ok(BinaryOp(x.value, y.value));
        case Aggregate(kind, ops) =>
          var x := RenameOperands(ops, bound);
          if x.Err? { return Err(x.error); }
          return Ok(Aggregate(kind, x.value));
      }
    }

    method RenameOperands(ops: seq<Operand>, ghost bound: nat) returns (r: Result<seq<Operand>>)
      requires Valid() && |promoted.blocks| >= 1 && RankedBelow(OperandsTemps(ops), rank, bound)
      modifies this
      ensures Valid() && StepOk(old(Snap()), Snap())
      ensures r.Err? ==> FailedBelow(r.error, temps, rank, bound)
      ensures r.Ok? ==> RenamedOperands(ops, r.value, origin)
      ensures r.Ok? ==> AllPromoted(OperandsTemps(ops), old(Snap()), Snap())
      ensures (r, Snap()) == OperandsWalk(old(Snap()), rank, ops, bound)
      decreases bound, 2
    {
      ghost var s0 := Snap();
      StepOkRefl(s0);
      var out: seq<Operand> := [];
      var k := 0;
      while k < |ops|
        invariant 0 <= k <= |ops|
        invariant Valid() && |promoted.blocks| >= 1
        invariant StepOk(s0, Snap())
        invariant RenamedOperands(ops[..k], out, origin)
        invariant AllPromoted(OperandsTemps(ops[..k]), s0, Snap())
        invariant (Ok(out), Snap()) == OperandsWalk(s0, rank, ops[..k], bound)
      {
        OperandsTempsAt(ops, k);
        RankedBelowSubset(OperandTemps(ops[k]), OperandsTemps(ops), rank, bound);
        ghost var s1 := Snap();
        var x := RenameOperand(ops[k], bound);
        StepOkTrans(s0, s1, Snap());
        OperandsWalkSnoc(s0, rank, ops, bound, k, out, s1, x, Snap());
        if x.Err? {
          OperandsWalkErr(s0, rank, ops, bound, k + 1);
          return Err(x.error);
        }
        OperandsStepOk(s0, s1, Snap(), ops, k, out, x.value);
        out := out + [x.value];
        k := k + 1;
      }
      assert ops[..|ops|] == ops;
      r := Ok(out);
    }

    method RenameOperand(op: Operand, ghost bound: nat) returns (r: Result<Operand>)
      requires Valid() && |promoted.blocks| >= 1 && RankedBelow(OperandTemps(op), rank, bound)
      modifies this
      ensures Valid() && StepOk(old(Snap()), Snap())
      ensures r.Err? ==> FailedBelow(r.error, temps, rank, bound)
      ensures r.Ok? ==> RenamedOperand(op, r.value, origin)
      ensures r.Ok? ==> AllPromoted(OperandTemps(op), old(Snap()), Snap())
      ensures (r, Snap()) == OperandWalk(old(Snap()), rank, op, bound)
      decreases bound, 1
    {
      match op {
        case Consume(lv) =>
          var x := RenameLvalue(lv, bound);
          if x.Err? { return Err(x.error); }
          return Ok(Operand.Consume(x.value));
        case Constant(_) =>
          StepOkRefl(Snap());
          return Ok(op);
      }
    }

    /** Every temporary is replaced by its promoted copy; a projection renames
        its base; other places are left as they are. */
    method RenameLvalue(lv: Lvalue, ghost bound: nat) returns (r: Result<Lvalue>)
      requires Valid() && |promoted.blocks| >= 1 && RankedBelow(LvalueTemps(lv), rank, bound)
      modifies this
      ensures Valid() && StepOk(old(Snap()), Snap())
      ensures r.Err? ==> FailedBelow(r.error, temps, rank, bound)
      ensures r.Ok? ==> RenamedLvalue(lv, r.value, origin)
      ensures r.Ok? ==> AllPromoted(LvalueTemps(lv), old(Snap()), Snap())
      ensures r.Ok? && lv.Temp? ==>
        && r.value.Temp?
        && CopiedOut(old(Snap()), Snap(), lv.index, old(keepOriginal) || old(temps)[lv.index].uses > 1, r.value.index)
      ensures (r, Snap()) == LvalueWalk(old(Snap()), rank, lv, bound)
      decreases bound, 0, LvalueSize(lv)
    {
      match lv {
        case Temp(j) =>
          ghost var s0 := Snap();
          var x := PromoteTemp(j);
          if x.Err? { return Err(x.error); }
          assert PromotedFrom(s0, Snap(), j);
          return Ok(Temp(x.value));
        case Projection(base) =>
          var x := RenameLvalue(base, bound);
          if x.Err? { return Err(x.error); }
          return Ok(Projection(x.value));
        case _ =>
          StepOkRefl(Snap());
          return Ok(lv);
      }
    }

    /** Promotes one candidate: its value becomes promoted constant number
        `|source.promoted|` at the site, the value (with every temporary it
        reads promoted) is assigned to the new body's return place, and the
        new body is appended to the source's promoted bodies. */
    method PromoteCandidate(c: Candidate) returns (r: Result<nat>)
      requires Valid() && |promoted.blocks| >= 1 && CandidateOk(source, c)
      modifies this
      ensures Valid() && TempsMoved(old(temps), temps)
      ensures r.Ok? ==>
        && promoted.returnTy == old(promoted.returnTy) && promoted.promoted == old(promoted.promoted)
        && r.value == |old(source.promoted)|
        && source.promoted == old(source.promoted) + [promoted]
        && Moved(Placed(old(source), c, r.value), old(temps), source.(promoted := old(source.promoted)), temps)
        && exists rv :: RenamedRvalue(CandidateRvalue(old(source), c), rv, origin) && ReturnsAtEnd(promoted, rv)
      ensures r.Ok? ==>
        AllPromoted(RvalueTemps(CandidateRvalue(old(source), c)), old(Snap()).(source := Placed(old(source), c, r.value)), Snap())
      ensures (r, Snap()) == CandidateWalk(old(Snap()), rank, c)
      ensures r.Err? ==> FailedBelow(r.error, temps, rank, RankBound(rank))
    {
      ghost var s0 := Snap();
      var k := |source.promoted|;
      PlacedValid(source, temps, rank, c, k);
      var rv := CandidateRvalue(source, c);
      source := Placed(source, c, k);
      ghost var s1 := Snap();
      assert s1 == s0.(source := Placed(s0.source, c, k));
      var rv' := RenameRvalue(rv, RankBound(rank));
      ghost var s2 := Snap();
      assert CandidateWalk(s0, rank, c) == CandidateEnd(k, rv', s2);
      if rv'.Err? {
        return Err(rv'.error);
      }
      Assign(ReturnPointer, rv'.value);
      DefinesBelowAppended(s2.promoted, promoted, |promoted.tempDecls|);
      assert ReturnsAtEnd(promoted, rv'.value);
      SourceValidPromoted(source, temps, rank, source.promoted + [promoted]);
      source := source.(promoted := source.promoted + [promoted]);
      assert source.(promoted := old(source.promoted)) == s2.source;
      AllPromotedSameEnd(RvalueTemps(rv), s1, s2, Snap());
      r := Ok(k);
    }
  }
}
