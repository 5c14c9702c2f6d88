/** A defect of the promoter as written: while originals are kept, a
    temporary defined by a call is promoted by walking a copy of the whole
    call, destination included, and the destination is that temporary. */
module Findings {
  import opened Mir
  import opened TempStates
  import opened Sites
  import opened Collect
  import opened Promote

  /** The temporaries the promoter as written visits in the copied call that
      defines a temporary while originals are kept: the callee, the arguments
      and the destination. */
  function KeptCallVisits(t: Terminator): (r: set<nat>)
    requires t.Call?
    ensures CallArgTemps(t) <= r
    ensures t.destination.Some? && t.destination.value.place.Temp? ==> t.destination.value.place.index in r
  {
    OperandTemps(t.func) + OperandsTemps(t.args) +
    (if t.destination.Some? then LvalueTemps(t.destination.value.place) else {})
  }

  /** `_0 = f() -> bb1; bb1: _1 = &_0; _2 = &_0; return`: `_0` is defined by
      a call and borrowed twice. */
  const CallBorrowedTwice: Body :=
    Body([Block([], Call(Constant(Value(0)), [], Some(Destination(Temp(0), 1)), None)),
          Block([Assign(Temp(1), Rvalue.Ref(Temp(0))), Assign(Temp(2), Rvalue.Ref(Temp(0)))], Return)],
         [TempDecl(Ty(0)), TempDecl(Ty(1)), TempDecl(Ty(1))], [], Ty(2))

  /** In that body `_0` is promotable with two uses, so promoting it keeps the
      original; the call that defines it then visits `_0` itself, and since
      nothing about `_0` has changed, promoting it starts over in the same
      state: no rank orders this visit, and the promoter as written never
      returns. The corrected walk (`Promoter.RenameDefinition`) visits only the
      callee and the arguments, which read no temporaries here, and the table
      is ranked, so the corrected promoter applies to this body. */
  lemma KeptCallRevisitsItself()
    ensures var temps := ApplyOrder(InitialTemps(3), CallBorrowedTwice, [0, 1], 2);
      && temps[0] == Defined(Location(0, 0), 2) && IsPromotable(temps[0])
      && SourceValid(CallBorrowedTwice, temps, [0, 1, 1])
      && var t := CallBorrowedTwice.blocks[0].terminator;
         && 0 in KeptCallVisits(t) && CallArgTemps(t) == {}
         && forall rank: seq<nat> :: !(0 < |rank| && forall j :: j in KeptCallVisits(t) ==> j < |rank| && rank[j] < rank[0])
  {
    var body := CallBorrowedTwice;
    var t0 := InitialTemps(3);
    assert t0 == [Undefined, Undefined, Undefined];
    var t1 := ApplyOrder(t0, body, [0, 1], 1);
    assert t1 == ApplyBlock(t0, 0, body.blocks[0]);
    assert t1 == [Defined(Location(0, 0), 0), Undefined, Undefined];
    var t2 := ApplyOrder(t0, body, [0, 1], 2);
    assert t2 == ApplyBlock(t1, 1, body.blocks[1]);
    var s1 := ApplyStatements(t1, 1, body.blocks[1].statements, 1);
    assert s1 == StatementStep(t1, body.blocks[1].statements[0], Location(1, 0));
    assert s1 == [Defined(Location(0, 0), 1), Defined(Location(1, 0), 0), Undefined];
    var s2 := ApplyStatements(t1, 1, body.blocks[1].statements, 2);
    assert s2 == StatementStep(s1, body.blocks[1].statements[1], Location(1, 1));
    assert s2 == [Defined(Location(0, 0), 2), Defined(Location(1, 0), 0), Defined(Location(1, 1), 0)];
    assert BlockTempsBelow(body.blocks[1], 3);
    assert BlockTempsBelow(body.blocks[0], 3);
  }
}
