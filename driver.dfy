/** The promotion driver: promotes every candidate, last to first, each into
    its own constant body, then deletes what promotion left behind in the
    source: assignments to, and drops of, temporaries that were moved out. */
module Driver {
  import opened Mir
  import opened TempStates
  import opened Sites
  import opened Promote

  // ----- cleanup -----

  /** Temporary `i` was moved out into a promoted body. */
  predicate IsPromotedOut(temps: seq<TempState>, i: nat)
  {
    i < |temps| && temps[i] == PromotedOut
  }

  /** A statement that survives cleanup: it does not assign a moved-out
      temporary. */
  predicate Kept(st: Statement, temps: seq<TempState>)
  {
    !(st.dest.Temp? && IsPromotedOut(temps, st.dest.index))
  }

  /** The statements that survive cleanup, in their order. */
  function Retained(stmts: seq<Statement>, temps: seq<TempState>): (r: seq<Statement>)
    ensures |r| <= |stmts|
  {
    if |stmts| == 0 then []
    else
      var last := stmts[|stmts| - 1];
      Retained(stmts[..|stmts| - 1], temps) + (if Kept(last, temps) then [last] else [])
  }

  /** A drop of a moved-out temporary becomes a jump to the drop's target. */
  function CleanTerminator(t: Terminator, temps: seq<TempState>): Terminator
  {
    if t.Drop? && t.value.Temp? && IsPromotedOut(temps, t.value.index) then Goto(t.target) else t
  }

  function CleanBlock(blk: Block, temps: seq<TempState>): Block
  {
    Block(Retained(blk.statements, temps), CleanTerminator(blk.terminator, temps))
  }

  function Cleaned(body: Body, temps: seq<TempState>): (r: Body)
    ensures |r.blocks| == |body.blocks| && r.tempDecls == body.tempDecls
    ensures r.promoted == body.promoted && r.returnTy == body.returnTy
  {
    body.(blocks := seq(|body.blocks|, b requires 0 <= b < |body.blocks| => CleanBlock(body.blocks[b], temps)))
  }

  /** Nothing assigns or drops a moved-out temporary. */
  ghost predicate NoPromotedOutLeft(body: Body, temps: seq<TempState>)
  {
    forall b :: 0 <= b < |body.blocks| ==>
      && (forall s :: 0 <= s < |body.blocks[b].statements| ==> Kept(body.blocks[b].statements[s], temps))
      && var t := body.blocks[b].terminator;
         !(t.Drop? && t.value.Temp? && IsPromotedOut(temps, t.value.index))
  }

  /** A statement survives exactly when it was there and does not assign a
      moved-out temporary. */
  lemma {:induction false} RetainedMembership(stmts: seq<Statement>, temps: seq<TempState>, st: Statement)
    ensures st in Retained(stmts, temps) <==> st in stmts && Kept(st, temps)
  {
    if |stmts| > 0 {
      var init := stmts[..|stmts| - 1];
      RetainedMembership(init, temps, st);
      assert stmts == init + [stmts[|stmts| - 1]];
    }
  }

  /** Cleanup deletes nothing from a block with no moved-out assignment. */
  lemma {:induction false} RetainedAllKept(stmts: seq<Statement>, temps: seq<TempState>)
    ensures (forall k :: 0 <= k < |stmts| ==> Kept(stmts[k], temps)) <==> Retained(stmts, temps) == stmts
  {
    if |stmts| > 0 {
      var init := stmts[..|stmts| - 1];
      RetainedAllKept(init, temps);
      assert stmts == init + [stmts[|stmts| - 1]];
      if Retained(stmts, temps) == stmts {
        assert Retained(init, temps) == init;
      }
      if forall k :: 0 <= k < |stmts| ==> Kept(stmts[k], temps) {
        assert forall k :: 0 <= k < |init| ==> init[k] == stmts[k];
      }
    }
  }

  lemma RetainedKeptOnly(stmts: seq<Statement>, temps: seq<TempState>)
    ensures forall k :: 0 <= k < |Retained(stmts, temps)| ==> Kept(Retained(stmts, temps)[k], temps)
  {
    var r := Retained(stmts, temps);
    forall k | 0 <= k < |r|
      ensures Kept(r[k], temps)
    {
      RetainedMembership(stmts, temps, r[k]);
    }
  }

  /** After cleanup no moved-out temporary is assigned or dropped. */
  lemma CleanedIsClean(body: Body, temps: seq<TempState>)
    ensures NoPromotedOutLeft(Cleaned(body, temps), temps)
  {
    forall b | 0 <= b < |body.blocks|
      ensures forall s :: 0 <= s < |Cleaned(body, temps).blocks[b].statements| ==>
                Kept(Cleaned(body, temps).blocks[b].statements[s], temps)
    {
      RetainedKeptOnly(body.blocks[b].statements, temps);
    }
  }

  /** Cleaning twice is cleaning once. */
  lemma CleanedIdempotent(body: Body, temps: seq<TempState>)
    ensures Cleaned(Cleaned(body, temps), temps) == Cleaned(body, temps)
  {
    var c := Cleaned(body, temps);
    forall b | 0 <= b < |c.blocks|
      ensures CleanBlock(c.blocks[b], temps) == c.blocks[b]
    {
      RetainedKeptOnly(body.blocks[b].statements, temps);
      RetainedAllKept(c.blocks[b].statements, temps);
    }
  }

  /** `retain` over one block's statements. */
  method RetainStatements(stmts: seq<Statement>, temps: seq<TempState>) returns (r: seq<Statement>)
    ensures r == Retained(stmts, temps)
  {
    r := [];
    for k := 0 to |stmts|
      invariant r == Retained(stmts[..k], temps)
    {
      assert stmts[..k + 1][..k] == stmts[..k];
      if Kept(stmts[k], temps) {
        r := r + [stmts[k]];
      }
    }
    assert stmts[..|stmts|] == stmts;
  }

  /** Deletes assignments to moved-out temporaries and turns their drops into
      jumps, block by block. */
  method EliminatePromoted(body: Body, temps: seq<TempState>) returns (r: Body)
    ensures r == Cleaned(body, temps)
    ensures NoPromotedOutLeft(r, temps)
  {
    var blocks := body.blocks;
    for b := 0 to |blocks|
      invariant |blocks| == |body.blocks|
      invariant forall k :: 0 <= k < b ==> blocks[k] == CleanBlock(body.blocks[k], temps)
      invariant forall k :: b <= k < |blocks| ==> blocks[k] == body.blocks[k]
    {
      var stmts := RetainStatements(blocks[b].statements, temps);
      var t := blocks[b].terminator;
      if t.Drop? && t.value.Temp? && IsPromotedOut(temps, t.value.index) {
        t := Goto(t.target);
      }
      blocks := blocks[b := Block(stmts, t)];
    }
    r := body.(blocks := blocks);
    assert r.blocks == Cleaned(body, temps).blocks;
    CleanedIsClean(body, temps);
  }

  // ----- the candidate loop -----

  /** Same blocks and the same number of statements in each. */
  ghost predicate SameShape(a: Body, b: Body)
  {
    |a.blocks| == |b.blocks| &&
    forall k :: 0 <= k < |a.blocks| ==> |a.blocks[k].statements| == |b.blocks[k].statements|
  }

  /** A borrow into a temporary that an earlier promotion already moved out
      is part of that promotion and is skipped. */
  ghost predicate Skips(body: Body, temps: seq<TempState>, c: Candidate)
    requires InRange(body, c)
  {
    c.Ref? &&
    var dest := body.blocks[c.location.block].statements[c.location.statementIndex].dest;
    dest.Temp? && IsPromotedOut(temps, dest.index)
  }

  /** The type of the new constant: that of the borrow's destination, or of
      the shuffle's index argument. */
  function CandidateTy(body: Body, c: Candidate, lvalueTy: Lvalue -> Ty, operandTy: Operand -> Ty): Ty
    requires CandidateOk(body, c)
  {
    match c
    case Ref(loc) => lvalueTy(body.blocks[loc.block].statements[loc.statementIndex].dest)
    case ShuffleIndices(b) => operandTy(body.blocks[b].terminator.args[2])
  }

  /** `p` is a constant body of type `ty`, with no promoted bodies of its own
      and temporaries declared from `decls`, that ends by returning a renamed
      copy of `rv`. */
  ghost predicate PromotedBody(p: Body, rv: Rvalue, ty: Ty, decls: seq<TempDecl>)
  {
    && p.returnTy == ty && p.promoted == [] && DefinesBelow(p, |p.tempDecls|)
    && exists origin, rv' ::
         && DeclaredFrom(p, decls, origin) && RenamedRvalue(rv, rv', origin) && ReturnsAtEnd(p, rv')
         && forall t :: t in RvalueTemps(rv') ==> DefinedIn(p, t)
  }

  /** Every temporary the candidate's value reads was promotable, defined at
      its recorded site; one used once has been moved out of that site
      (`nb`, `nt` are the source and table after the turn). */
  ghost predicate ReadsMovedOut(body: Body, temps: seq<TempState>, c: Candidate, k: nat, nb: Body, nt: seq<TempState>)
    requires CandidateOk(body, c)
  {
    var placed := Placed(body, c, k);
    forall j :: j in RvalueTemps(CandidateRvalue(body, c)) ==>
      && j < |temps| && IsPromotable(temps[j])
      && IsDefSite(placed, temps[j].location, j) && SiteOk(placed, temps[j].location)
      && (temps[j].uses == 1 ==>
            j < |nt| && nt[j] == PromotedOut && MovedOutAt(placed, nb, temps[j].location))
  }

  /** The promoter's state when a turn starts: a new body holding one empty
      block that returns. */
  ghost function StartState(body: Body, temps: seq<TempState>, ty: Ty): Snapshot
  {
    Snapshot(false, body, temps, [], Body([Block([], Return)], [], [], ty))
  }

  /** The source and table one turn answers, as the walk defines them. */
  ghost function Outcome(body: Body, temps: seq<TempState>, c: Candidate, ty: Ty, rank: seq<nat>): (Result<Body>, seq<TempState>)
    requires CandidateOk(body, c)
  {
    var (x, s) := CandidateWalk(StartState(body, temps, ty), rank, c);
    (if x.Err? then Err(x.error) else Ok(s.source), s.temps)
  }

  lemma AllPromotedReads(body: Body, temps: seq<TempState>, c: Candidate, k: nat, a: Snapshot, b: Snapshot)
    requires CandidateOk(body, c) && a.source == Placed(body, c, k) && a.temps == temps && !a.keep
    requires AllPromoted(RvalueTemps(CandidateRvalue(body, c)), a, b)
    ensures ReadsMovedOut(body, temps, c, k, b.source, b.temps)
  {
    forall j | j in RvalueTemps(CandidateRvalue(body, c))
      ensures j < |temps| && IsPromotable(temps[j])
    {
      assert PromotedFrom(a, b, j);
    }
  }

  lemma PromotedBodyReads(p: Body, origin: seq<nat>, decls: seq<TempDecl>, rv: Rvalue, rv': Rvalue)
    requires DeclaredFrom(p, decls, origin) && RenamedRvalue(rv, rv', origin) && DefinesBelow(p, |p.tempDecls|)
    ensures forall t :: t in RvalueTemps(rv') ==> DefinedIn(p, t)
  {
    RenamedRvalueTemps(rv, rv', origin);
  }

  lemma MovedSameShape(a: Body, ta: seq<TempState>, b: Body, tb: seq<TempState>)
    requires Moved(a, ta, b, tb)
    ensures SameShape(a, b)
  {
    forall k | 0 <= k < |a.blocks|
      ensures |a.blocks[k].statements| == |b.blocks[k].statements|
    {
      assert BlockMoved(a.blocks[k], b.blocks[k], k, ta, tb);
    }
  }

  lemma PlacedSameShape(body: Body, c: Candidate, k: nat)
    requires CandidateOk(body, c)
    ensures SameShape(body, Placed(body, c, k)) && Placed(body, c, k).returnTy == body.returnTy
  {
  }

  lemma TempsMovedTrans(a: seq<TempState>, b: seq<TempState>, c: seq<TempState>)
    requires TempsMoved(a, b) && TempsMoved(b, c)
    ensures TempsMoved(a, c)
  {
  }

  /** `(r, t)` is the outcome of one turn of the candidate loop on the
      source `body` and table `temps`, with `t` the table after the turn on
      either answer. A borrow into a moved-out temporary is skipped. A
      shuffle site that is not a call, or a call without an index argument,
      stops the compiler with that error. Otherwise the turn answers what
      the walk answers: it either stops at a temporary that cannot be
      promoted, or succeeds, and then the candidate's value becomes the next
      promoted constant at the site, the definitions it reads are moved (or
      copied) out, and the new constant body returns a renamed copy of the
      value. */
  ghost predicate OneStep(body: Body, temps: seq<TempState>, c: Candidate,
                          lvalueTy: Lvalue -> Ty, operandTy: Operand -> Ty, rank: seq<nat>,
                          r: Result<Body>, t: seq<TempState>)
  {
    && InRange(body, c)
    && (Skips(body, temps, c) ==> r == Ok(body) && t == temps)
    && (c.ShuffleIndices? && !body.blocks[c.block].terminator.Call? ==> r == Err(NotShuffleCall(c.block)) && t == temps)
    && (c.ShuffleIndices? && body.blocks[c.block].terminator.Call? && |body.blocks[c.block].terminator.args| < 3 ==>
          r == Err(MissingShuffleArgument(c.block)) && t == temps)
    && TempsMoved(temps, t)
    && (r.Ok? ==>
          && SourceValid(r.value, t, rank) && SameShape(body, r.value)
          && r.value.tempDecls == body.tempDecls && r.value.returnTy == body.returnTy
          && body.promoted <= r.value.promoted && |r.value.promoted| <= |body.promoted| + 1)
    && (r.Ok? && !Skips(body, temps, c) ==> CandidateOk(body, c))
    && (CandidateOk(body, c) && !Skips(body, temps, c) ==>
          Walked(body, temps, c, CandidateTy(body, c, lvalueTy, operandTy), rank, r, t))
  }

  /** `(r, t)` is what the walk answers for candidate `c`, whose constant has
      type `ty`. An error names a temporary that cannot be promoted; a
      success places the next promoted constant at the site, moves (or
      copies) out the definitions the value reads, and builds a constant
      body that returns a renamed copy of the value. */
  ghost predicate Walked(body: Body, temps: seq<TempState>, c: Candidate, ty: Ty, rank: seq<nat>,
                         r: Result<Body>, t: seq<TempState>)
    requires CandidateOk(body, c)
  {
    && (r, t) == Outcome(body, temps, c, ty, rank)
    && (r.Err? ==> FailedBelow(r.error, t, rank, RankBound(rank)))
    && (r.Ok? ==>
          && var k := |body.promoted|;
          && |r.value.promoted| == k + 1
          && Moved(Placed(body, c, k), temps, r.value.(promoted := body.promoted), t)
          && ReadsMovedOut(body, temps, c, k, r.value, t)
          && PromotedBody(r.value.promoted[k], CandidateRvalue(body, c), ty, body.tempDecls))
  }

  /** One turn of the candidate loop on the current source `body` and table
      `temps`: answers the source and table after it. */
  method PromoteOne(body: Body, temps: seq<TempState>, c: Candidate,
                    lvalueTy: Lvalue -> Ty, operandTy: Operand -> Ty, ghost rank: seq<nat>)
    returns (r: Result<Body>, t: seq<TempState>)
    requires SourceValid(body, temps, rank) && InRange(body, c)
    ensures OneStep(body, temps, c, lvalueTy, operandTy, rank, r, t)
  {
    var ty: Ty;
    match c {
      case Ref(loc) =>
        var dest := body.blocks[loc.block].statements[loc.statementIndex].dest;
        assert BlockTempsBelow(body.blocks[loc.block], |temps|);
        assert AllBelow(StatementTemps(body.blocks[loc.block].statements[loc.statementIndex]), |temps|);
        if dest.Temp? && temps[dest.index] == PromotedOut {
          return Ok(body), temps;
        }
        ty := lvalueTy(dest);
      case ShuffleIndices(b) =>
        var t := body.blocks[b].terminator;
        if !t.Call? {
          return Err(NotShuffleCall(b)), temps;
        }
        if |t.args| < 3 {
          return Err(MissingShuffleArgument(b)), temps;
        }
        ty := operandTy(t.args[2]);
    }
    r, t := PromoteAt(body, temps, c, ty, rank);
  }

  /** Runs a promoter over the candidate `c` of a valid site. */
  method PromoteAt(body: Body, temps: seq<TempState>, c: Candidate, ty: Ty, ghost rank: seq<nat>)
    returns (r: Result<Body>, t: seq<TempState>)
    requires SourceValid(body, temps, rank) && CandidateOk(body, c)
    ensures Walked(body, temps, c, ty, rank, r, t) && TempsMoved(temps, t)
    ensures r.Ok? ==>
      && SourceValid(r.value, t, rank) && SameShape(body, r.value)
      && r.value.tempDecls == body.tempDecls && r.value.returnTy == body.returnTy
      && body.promoted <= r.value.promoted && |r.value.promoted| == |body.promoted| + 1
  {
    var k := |body.promoted|;
    var p := new Promoter(body, temps, rank, ty);
    var start := p.NewBlock();
    assert start == 0;
    assert p.Snap() == StartState(body, temps, ty);
    ghost var s0 := p.Snap();
    var res := p.PromoteCandidate(c);
    if res.Err? {
      return Err(res.error), p.temps;
    }
    PlacedSameShape(body, c, k);
    MovedSameShape(Placed(body, c, k), temps, p.source.(promoted := body.promoted), p.temps);
    AllPromotedReads(body, temps, c, k, s0.(source := Placed(body, c, k)), p.Snap());
    ghost var rv' :| RenamedRvalue(CandidateRvalue(body, c), rv', p.origin) && ReturnsAtEnd(p.promoted, rv');
    PromotedBodyReads(p.promoted, p.origin, body.tempDecls, CandidateRvalue(body, c), rv');
    assert PromotedBody(p.promoted, CandidateRvalue(body, c), ty, body.tempDecls);
    r, t := Ok(p.source), p.temps;
  }

  // ----- a worked turn: `t0 = 1 + 2; t1 = &t0; return` -----

  const ExSum: Rvalue := BinaryOp(Constant(Value(1)), Constant(Value(2)))
  const ExDecls: seq<TempDecl> := [TempDecl(Ty(0)), TempDecl(Ty(1))]
  const ExBody: Body := Body([Block([Assign(Temp(0), ExSum), Assign(Temp(1), Rvalue.Ref(Temp(0)))], Return)], ExDecls, [], Ty(2))
  const ExTemps: seq<TempState> := [Defined(Location(0, 0), 1), Defined(Location(0, 1), 0)]
  const ExRank: seq<nat> := [0, 1]
  const ExCandidate: Candidate := Candidate.Ref(Location(0, 1))
  /** The source once the borrow reads constant 0, and once the sum is moved out. */
  const ExPlaced: Body := Body([Block([Assign(Temp(0), ExSum), Assign(Temp(1), Use(Constant(Promoted(0))))], Return)], ExDecls, [], Ty(2))
  const ExTaken: Body := Body([Block([Assign(Temp(0), Unit), Assign(Temp(1), Use(Constant(Promoted(0))))], Return)], ExDecls, [], Ty(2))

  /** The constant body the turn builds. */
  function ExPromoted(ty: Ty): Body
  {
    Body([Block([Assign(Temp(0), ExSum), Assign(ReturnPointer, Rvalue.Ref(Temp(0)))], Return)], [TempDecl(Ty(0))], [], ty)
  }

  lemma ExValid()
    ensures SourceValid(ExBody, ExTemps, ExRank) && CandidateOk(ExBody, ExCandidate) && !Skips(ExBody, ExTemps, ExCandidate)
  {
    assert IsDefSite(ExBody, ExTemps[1].location, 1);
  }

  lemma ExPlacedTaken()
    ensures CandidateOk(ExBody, ExCandidate) && Placed(ExBody, ExCandidate, 0) == ExPlaced
    ensures SiteOk(ExPlaced, Location(0, 0)) && TakenOut(ExPlaced, Location(0, 0)) == ExTaken
  {
    ExValid();
    assert ExBody.blocks[0].statements[1 := Assign(Temp(1), Use(Constant(Promoted(0))))] == ExPlaced.blocks[0].statements;
    assert ExPlaced.blocks[0].statements[0 := Assign(Temp(0), Unit)] == ExTaken.blocks[0].statements;
  }

  /** Promoting `t0` from the placed source moves the sum into the new body. */
  lemma ExTempWalk(ty: Ty)
    ensures var s1 := StartState(ExBody, ExTemps, ty).(source := ExPlaced);
      TempWalk(s1, ExRank, 0) ==
        (Ok(0), s1.(source := ExTaken, temps := [PromotedOut, ExTemps[1]], origin := [0],
                    promoted := Body([Block([Assign(Temp(0), ExSum)], Return)], [TempDecl(Ty(0))], [], ty)))
  {
    ExPlacedTaken();
    var s1 := StartState(ExBody, ExTemps, ty).(source := ExPlaced);
    var s2 := s1.(source := ExTaken, temps := ExTemps[0 := PromotedOut]);
    assert ExTemps[0 := PromotedOut] == [PromotedOut, ExTemps[1]];
    assert DefinitionWalk(s2, ExRank, Rhs(ExSum), 0) == (Ok(Rhs(ExSum)), s2);
    assert Taken(ExPlaced, Location(0, 0), false) == Rhs(ExSum);
    var p := Body([Block([], Return)], [TempDecl(Ty(0))], [], ty);
    var q := Body([Block([Assign(Temp(0), ExSum)], Return)], [TempDecl(Ty(0))], [], ty);
    assert [] + [TempDecl(Ty(0))] == [TempDecl(Ty(0))];
    var blk := Block([Assign(Temp(0), ExSum)], Return);
    var stmts: seq<Statement> := [];
    assert stmts + [Assign(Temp(0), ExSum)] == blk.statements;
    assert p.blocks[0 := blk][0] == blk;
    assert p.blocks[0 := blk] == q.blocks;
    assert Injected(p, 0, Rhs(ExSum)) == q;
    assert s1.(keep := false) == s1;
    assert s2 == s1.(source := TakenOut(s1.source, Location(0, 0)), temps := s1.temps[0 := PromotedOut]);
    CopyWalkUnfold(s1, ExRank, 0, s2, Ok(Rhs(ExSum)), s2);
    assert s2.promoted.(tempDecls := s2.promoted.tempDecls + [ExPlaced.tempDecls[0]]) == p;
    assert s2.origin + [0] == [0];
    assert CopyWalk(s1, ExRank, 0) == (Ok(0), s2.(promoted := q, origin := [0]));
  }

  /** The worked turn succeeds: the borrow is promoted into constant 0, whose
      body defines its own temporary 0 from the sum and returns a borrow of
      it; the source keeps `t0 = ()` and `t1 = promoted[0]`, and `t0` is moved
      out. */
  lemma BorrowOfSumPromoted(ty: Ty)
    ensures SourceValid(ExBody, ExTemps, ExRank) && CandidateOk(ExBody, ExCandidate) && !Skips(ExBody, ExTemps, ExCandidate)
    ensures Outcome(ExBody, ExTemps, ExCandidate, ty, ExRank) ==
      (Ok(ExTaken.(promoted := [ExPromoted(ty)])), [PromotedOut, Defined(Location(0, 1), 0)])
  {
    ExValid();
    ExPlacedTaken();
    ExTempWalk(ty);
    assert RankBound(ExRank) == 2 by {
      assert RankBound(ExRank[1..]) == 2 by { assert ExRank[1..][1..] == []; }
    }
    var s0 := StartState(ExBody, ExTemps, ty);
    var s1 := s0.(source := ExPlaced);
    var q := Body([Block([Assign(Temp(0), ExSum)], Return)], [TempDecl(Ty(0))], [], ty);
    var s3 := s1.(source := ExTaken, temps := [PromotedOut, ExTemps[1]], origin := [0], promoted := q);
    assert CandidateRvalue(ExBody, ExCandidate) == Rvalue.Ref(Temp(0));
    assert RvalueWalk(s1, ExRank, Rvalue.Ref(Temp(0)), 2) == (Ok(Rvalue.Ref(Temp(0))), s3);
    assert CandidateWalk(s0, ExRank, ExCandidate) == CandidateEnd(0, Ok(Rvalue.Ref(Temp(0))), s3);
    assert [Assign(Temp(0), ExSum)] + [Assign(ReturnPointer, Rvalue.Ref(Temp(0)))] == ExPromoted(ty).blocks[0].statements;
    assert q.blocks[0 := ExPromoted(ty).blocks[0]] == ExPromoted(ty).blocks;
    assert Assigned(q, ReturnPointer, Rvalue.Ref(Temp(0))) == ExPromoted(ty);
    assert [] + [ExPromoted(ty)] == [ExPromoted(ty)];
  }

  /** `steps` are the sources and tables the candidate loop passes through
      on `mir` and `temps`, taking the candidates last to first: every step
      after the first is the successful outcome of one turn on the step
      before it. */
  ghost predicate Trace(mir: Body, temps: seq<TempState>, candidates: seq<Candidate>,
                        lvalueTy: Lvalue -> Ty, operandTy: Operand -> Ty, rank: seq<nat>,
                        steps: seq<(Body, seq<TempState>)>)
  {
    && 1 <= |steps| <= |candidates| + 1
    && steps[0] == (mir, temps)
    && forall m :: 0 <= m < |steps| - 1 ==>
         OneStep(steps[m].0, steps[m].1, candidates[|candidates| - 1 - m], lvalueTy, operandTy, rank,
                 Ok(steps[m + 1].0), steps[m + 1].1)
  }

  lemma TraceExtend(mir: Body, temps: seq<TempState>, candidates: seq<Candidate>,
                    lvalueTy: Lvalue -> Ty, operandTy: Operand -> Ty, rank: seq<nat>,
                    steps: seq<(Body, seq<TempState>)>, next: (Body, seq<TempState>))
    requires Trace(mir, temps, candidates, lvalueTy, operandTy, rank, steps) && |steps| <= |candidates|
    requires OneStep(steps[|steps| - 1].0, steps[|steps| - 1].1, candidates[|candidates| - |steps|],
                     lvalueTy, operandTy, rank, Ok(next.0), next.1)
    ensures Trace(mir, temps, candidates, lvalueTy, operandTy, rank, steps + [next])
  {
    var s := steps + [next];
    forall m | 0 <= m < |s| - 1
      ensures OneStep(s[m].0, s[m].1, candidates[|candidates| - 1 - m], lvalueTy, operandTy, rank, Ok(s[m + 1].0), s[m + 1].1)
    {
      if m < |steps| - 1 {
        assert s[m] == steps[m] && s[m + 1] == steps[m + 1];
      }
    }
  }

  /** Promotes every candidate, last first (a later candidate may read an
      earlier one's temporary), then deletes the assignments to, and drops of,
      the temporaries moved out. Answers the cleaned source and the final
      table. */
  method PromoteCandidates(mir: Body, temps: seq<TempState>, candidates: seq<Candidate>,
                           lvalueTy: Lvalue -> Ty, operandTy: Operand -> Ty, ghost rank: seq<nat>)
    returns (r: Result<Body>, finalTemps: seq<TempState>)
    requires SourceValid(mir, temps, rank)
    requires forall k :: 0 <= k < |candidates| ==> InRange(mir, candidates[k])
    ensures r.Ok? ==>
      && TempsMoved(temps, finalTemps)
      && |r.value.blocks| == |mir.blocks| && r.value.tempDecls == mir.tempDecls && r.value.returnTy == mir.returnTy
      && mir.promoted <= r.value.promoted && |r.value.promoted| <= |mir.promoted| + |candidates|
      && (exists mid :: SourceValid(mid, finalTemps, rank) && SameShape(mir, mid) && r.value == Cleaned(mid, finalTemps))
      && NoPromotedOutLeft(r.value, finalTemps)
    ensures r.Ok? ==> exists steps: seq<(Body, seq<TempState>)> ::
      && Trace(mir, temps, candidates, lvalueTy, operandTy, rank, steps) && |steps| == |candidates| + 1
      && finalTemps == steps[|candidates|].1 && r.value == Cleaned(steps[|candidates|].0, finalTemps)
    ensures r.Err? ==> exists steps: seq<(Body, seq<TempState>)> ::
      && Trace(mir, temps, candidates, lvalueTy, operandTy, rank, steps) && |steps| <= |candidates|
      && OneStep(steps[|steps| - 1].0, steps[|steps| - 1].1, candidates[|candidates| - |steps|],
                 lvalueTy, operandTy, rank, Err(r.error), finalTemps)
  {
    var body := mir;
    finalTemps := temps;
    ghost var steps := [(mir, temps)];
    for j := |candidates| downto 0
      invariant SourceValid(body, finalTemps, rank) && SameShape(mir, body) && TempsMoved(temps, finalTemps)
      invariant body.tempDecls == mir.tempDecls && body.returnTy == mir.returnTy
      invariant mir.promoted <= body.promoted && |body.promoted| <= |mir.promoted| + (|candidates| - j)
      invariant Trace(mir, temps, candidates, lvalueTy, operandTy, rank, steps)
      invariant |steps| == |candidates| - j + 1 && steps[|steps| - 1] == (body, finalTemps)
    {
      assert InRange(mir, candidates[j]);
      var step, t := PromoteOne(body, finalTemps, candidates[j], lvalueTy, operandTy, rank);
      if step.Err? {
        return Err(step.error), t;
      }
      TraceExtend(mir, temps, candidates, lvalueTy, operandTy, rank, steps, (step.value, t));
      steps := steps + [(step.value, t)];
      TempsMovedTrans(temps, finalTemps, t);
      body, finalTemps := step.value, t;
    }
    var cleaned := EliminatePromoted(body, finalTemps);
    r := Ok(cleaned);
  }
}
