/** Facts about where temporaries are defined in a body, the acyclicity rank
    that makes extraction terminate, and the shape of the edits extraction is
    allowed to make to the source body. */
module Sites {
  import opened Mir
  import opened TempStates

  /** The statement or call terminator at `loc` writes `Temp(i)`. */
  ghost predicate IsDefSite(body: Body, loc: Location, i: nat)
  {
    loc.block < |body.blocks| &&
    var blk := body.blocks[loc.block];
    || (loc.statementIndex < |blk.statements| && blk.statements[loc.statementIndex].dest == Temp(i))
    || (loc.statementIndex == |blk.statements| && blk.terminator.Call? &&
        blk.terminator.destination.Some? && blk.terminator.destination.value.place == Temp(i))
  }

  /** Every Defined entry of the table points at a site that defines it. */
  ghost predicate DefSites(body: Body, temps: seq<TempState>)
  {
    forall i :: 0 <= i < |temps| && temps[i].Defined? ==> IsDefSite(body, temps[i].location, i)
  }

  /** The temporaries that the definition at `loc` reads. */
  ghost function SiteTemps(body: Body, loc: Location): set<nat>
  {
    if loc.block < |body.blocks| then
      var blk := body.blocks[loc.block];
      if loc.statementIndex < |blk.statements| then RvalueTemps(blk.statements[loc.statementIndex].rhs)
      else CallArgTemps(blk.terminator)
    else {}
  }

  /** Acyclicity of the definitions: every temporary read by the definition of
      a Defined temporary has a smaller rank. */
  ghost predicate Ranked(body: Body, temps: seq<TempState>, rank: seq<nat>)
  {
    |rank| == |temps| &&
    forall i :: 0 <= i < |temps| && temps[i].Defined? ==>
      forall j :: j in SiteTemps(body, temps[i].location) ==> j < |rank| && rank[j] < rank[i]
  }

  ghost predicate SourceValid(body: Body, temps: seq<TempState>, rank: seq<nat>)
  {
    |temps| == |body.tempDecls| && AllTempsBelow(body, |temps|) && DefSites(body, temps) && Ranked(body, temps, rank)
  }

  function WithStatement(body: Body, b: nat, s: nat, st: Statement): (r: Body)
    requires b < |body.blocks| && s < |body.blocks[b].statements|
    ensures |r.blocks| == |body.blocks| && r.tempDecls == body.tempDecls && r.promoted == body.promoted
  {
    var blk := body.blocks[b];
    body.(blocks := body.blocks[b := blk.(statements := blk.statements[s := st])])
  }

  function WithTerminator(body: Body, b: nat, t: Terminator): (r: Body)
    requires b < |body.blocks|
    ensures |r.blocks| == |body.blocks| && r.tempDecls == body.tempDecls && r.promoted == body.promoted
  {
    body.(blocks := body.blocks[b := body.blocks[b].(terminator := t)])
  }

  // ----- the edits extraction makes: moving definitions out -----

  ghost predicate StatementMoved(os: Statement, ns: Statement, loc: Location, ot: seq<TempState>, nt: seq<TempState>)
  {
    || ns == os
    || (os.dest.Temp? && os.dest.index < |ot| && os.dest.index < |nt| &&
        ot[os.dest.index].Defined? && ot[os.dest.index].location == loc &&
        nt[os.dest.index] == PromotedOut && ns == Assign(os.dest, Unit))
  }

  ghost predicate TerminatorMoved(ot_: Terminator, nt_: Terminator, loc: Location, ot: seq<TempState>, nt: seq<TempState>)
  {
    || nt_ == ot_
    || (ot_.Call? && ot_.destination.Some? && ot_.destination.value.place.Temp? &&
        var k := ot_.destination.value.place.index;
        k < |ot| && k < |nt| && ot[k].Defined? && ot[k].location == loc &&
        nt[k] == PromotedOut && nt_ == Goto(ot_.destination.value.target))
  }

  ghost predicate BlockMoved(ob: Block, nb: Block, b: nat, ot: seq<TempState>, nt: seq<TempState>)
  {
    && |nb.statements| == |ob.statements|
    && (forall s :: 0 <= s < |ob.statements| ==>
          StatementMoved(ob.statements[s], nb.statements[s], Location(b, s), ot, nt))
    && TerminatorMoved(ob.terminator, nb.terminator, Location(b, |ob.statements|), ot, nt)
  }

  /** Table entries only go from Defined to PromotedOut. */
  ghost predicate TempsMoved(ot: seq<TempState>, nt: seq<TempState>)
  {
    |nt| == |ot| && forall k :: 0 <= k < |ot| ==> nt[k] == ot[k] || (ot[k].Defined? && nt[k] == PromotedOut)
  }

  /** `ns`/`nt` arise from `os`/`ot` by moving the definitions of some Defined
      temporaries out: each such temporary becomes PromotedOut, its assignment's
      right-hand side becomes `()` or its call becomes a `Goto` to the call's
      continuation; nothing else changes. */
  ghost predicate Moved(os: Body, ot: seq<TempState>, ns: Body, nt: seq<TempState>)
  {
    && ns.tempDecls == os.tempDecls && ns.promoted == os.promoted && ns.returnTy == os.returnTy
    && |ns.blocks| == |os.blocks|
    && TempsMoved(ot, nt)
    && forall b :: 0 <= b < |os.blocks| ==> BlockMoved(os.blocks[b], ns.blocks[b], b, ot, nt)
  }

  lemma MovedRefl(body: Body, temps: seq<TempState>)
    ensures Moved(body, temps, body, temps)
  {
  }

  lemma StatementMovedTrans(a: Statement, b: Statement, c: Statement, loc: Location,
                            ta: seq<TempState>, tb: seq<TempState>, tc: seq<TempState>)
    requires TempsMoved(ta, tb) && TempsMoved(tb, tc)
    requires StatementMoved(a, b, loc, ta, tb) && StatementMoved(b, c, loc, tb, tc)
    ensures StatementMoved(a, c, loc, ta, tc)
  {
    if b != a && a.dest.Temp? {
      var k := a.dest.index;
      assert tb[k] == PromotedOut;
    }
  }

  lemma TerminatorMovedTrans(a: Terminator, b: Terminator, c: Terminator, loc: Location,
                             ta: seq<TempState>, tb: seq<TempState>, tc: seq<TempState>)
    requires TempsMoved(ta, tb) && TempsMoved(tb, tc)
    requires TerminatorMoved(a, b, loc, ta, tb) && TerminatorMoved(b, c, loc, tb, tc)
    ensures TerminatorMoved(a, c, loc, ta, tc)
  {
  }

  /** Two rounds of moving are one round of moving. */
  lemma MovedTrans(a: Body, ta: seq<TempState>, b: Body, tb: seq<TempState>, c: Body, tc: seq<TempState>)
    requires Moved(a, ta, b, tb) && Moved(b, tb, c, tc)
    ensures Moved(a, ta, c, tc)
  {
    forall bi | 0 <= bi < |a.blocks|
      ensures BlockMoved(a.blocks[bi], c.blocks[bi], bi, ta, tc)
    {
      var x, y, z := a.blocks[bi], b.blocks[bi], c.blocks[bi];
      assert BlockMoved(x, y, bi, ta, tb) && BlockMoved(y, z, bi, tb, tc);
      forall s | 0 <= s < |x.statements|
        ensures StatementMoved(x.statements[s], z.statements[s], Location(bi, s), ta, tc)
      {
        StatementMovedTrans(x.statements[s], y.statements[s], z.statements[s], Location(bi, s), ta, tb, tc);
      }
      TerminatorMovedTrans(x.terminator, y.terminator, z.terminator, Location(bi, |x.statements|), ta, tb, tc);
    }
  }

  // ----- the edits preserve the invariants -----

  /** Marking a Defined temporary PromotedOut keeps the table valid. */
  lemma ValidAfterPromotedOut(body: Body, temps: seq<TempState>, rank: seq<nat>, i: nat)
    requires SourceValid(body, temps, rank) && i < |temps|
    ensures SourceValid(body, temps[i := PromotedOut], rank)
  {
    var nt := temps[i := PromotedOut];
    forall k | 0 <= k < |nt| && nt[k].Defined?
      ensures IsDefSite(body, nt[k].location, k)
      ensures forall j :: j in SiteTemps(body, nt[k].location) ==> j < |rank| && rank[j] < rank[k]
    {
      assert nt[k] == temps[k];
    }
  }

  /** Replacing a right-hand side by one that reads fewer temporaries keeps a
      valid table valid. */
  lemma ValidAfterRhsShrink(body: Body, temps: seq<TempState>, rank: seq<nat>, b: nat, s: nat, rhs: Rvalue)
    requires SourceValid(body, temps, rank)
    requires b < |body.blocks| && s < |body.blocks[b].statements|
    requires RvalueTemps(rhs) <= RvalueTemps(body.blocks[b].statements[s].rhs)
    ensures SourceValid(WithStatement(body, b, s, Assign(body.blocks[b].statements[s].dest, rhs)), temps, rank)
  {
    var old_ := body.blocks[b].statements[s];
    var nb := WithStatement(body, b, s, Assign(old_.dest, rhs));
    assert BlockTempsBelow(body.blocks[b], |temps|);
    forall s' | 0 <= s' < |nb.blocks[b].statements|
      ensures AllBelow(StatementTemps(nb.blocks[b].statements[s']), |temps|)
    {
      if s' == s {
        assert StatementTemps(nb.blocks[b].statements[s']) <= StatementTemps(old_);
      } else {
        assert nb.blocks[b].statements[s'] == body.blocks[b].statements[s'];
      }
    }
    assert BlockTempsBelow(nb.blocks[b], |temps|);
    forall k | 0 <= k < |temps| && temps[k].Defined?
      ensures IsDefSite(nb, temps[k].location, k)
      ensures forall j :: j in SiteTemps(nb, temps[k].location) ==> j < |rank| && rank[j] < rank[k]
    {
      var loc := temps[k].location;
      assert IsDefSite(body, loc, k);
      assert SiteTemps(nb, loc) <= SiteTemps(body, loc);
    }
  }

  /** Replacing a terminator by one that reads fewer temporaries keeps a valid
      table valid, provided any temporary the old call defined is no longer
      Defined or is still the new call's destination. */
  lemma ValidAfterTerminatorShrink(body: Body, temps: seq<TempState>, rank: seq<nat>, b: nat, t: Terminator)
    requires SourceValid(body, temps, rank)
    requires b < |body.blocks|
    requires TerminatorTemps(t) <= TerminatorTemps(body.blocks[b].terminator)
    requires CallArgTemps(t) <= CallArgTemps(body.blocks[b].terminator)
    requires (t.Call? && body.blocks[b].terminator.Call? && t.destination == body.blocks[b].terminator.destination) ||
             (forall k :: 0 <= k < |temps| && temps[k].Defined? ==>
                temps[k].location != Location(b, |body.blocks[b].statements|))
    ensures SourceValid(WithTerminator(body, b, t), temps, rank)
  {
    var nb := WithTerminator(body, b, t);
    assert BlockTempsBelow(body.blocks[b], |temps|);
    assert BlockTempsBelow(nb.blocks[b], |temps|);
    forall k | 0 <= k < |temps| && temps[k].Defined?
      ensures IsDefSite(nb, temps[k].location, k)
      ensures forall j :: j in SiteTemps(nb, temps[k].location) ==> j < |rank| && rank[j] < rank[k]
    {
      var loc := temps[k].location;
      assert IsDefSite(body, loc, k);
      assert SiteTemps(nb, loc) <= SiteTemps(body, loc);
    }
  }

  /** Moving an assignment out: the table entry becomes PromotedOut and the
      right-hand side becomes `()`. */
  lemma MoveAssign(body: Body, temps: seq<TempState>, rank: seq<nat>, i: nat)
    requires SourceValid(body, temps, rank) && i < |temps| && temps[i].Defined?
    requires var loc := temps[i].location;
      loc.block < |body.blocks| && loc.statementIndex < |body.blocks[loc.block].statements|
    ensures var loc := temps[i].location;
      var ns := WithStatement(body, loc.block, loc.statementIndex, Assign(Temp(i), Unit));
      var nt := temps[i := PromotedOut];
      SourceValid(ns, nt, rank) && Moved(body, temps, ns, nt)
  {
    var loc := temps[i].location;
    var nt := temps[i := PromotedOut];
    assert IsDefSite(body, loc, i);
    var st := body.blocks[loc.block].statements[loc.statementIndex];
    assert st.dest == Temp(i);
    ValidAfterPromotedOut(body, temps, rank, i);
    ValidAfterRhsShrink(body, nt, rank, loc.block, loc.statementIndex, Unit);
    var ns := WithStatement(body, loc.block, loc.statementIndex, Assign(Temp(i), Unit));
    forall b | 0 <= b < |body.blocks|
      ensures BlockMoved(body.blocks[b], ns.blocks[b], b, temps, nt)
    {
      if b == loc.block {
        forall s | 0 <= s < |body.blocks[b].statements|
          ensures StatementMoved(body.blocks[b].statements[s], ns.blocks[b].statements[s], Location(b, s), temps, nt)
        {
        }
      }
    }
  }

  /** Moving a call out: the table entry becomes PromotedOut and the call
      becomes a `Goto` to its continuation. */
  lemma MoveCall(body: Body, temps: seq<TempState>, rank: seq<nat>, i: nat)
    requires SourceValid(body, temps, rank) && i < |temps| && temps[i].Defined?
    requires var loc := temps[i].location;
      loc.block < |body.blocks| && loc.statementIndex >= |body.blocks[loc.block].statements|
    ensures var loc := temps[i].location;
      var t := body.blocks[loc.block].terminator;
      && t.Call? && t.destination.Some? && t.destination.value.place == Temp(i)
      && var ns := WithTerminator(body, loc.block, Goto(t.destination.value.target));
         var nt := temps[i := PromotedOut];
         SourceValid(ns, nt, rank) && Moved(body, temps, ns, nt)
  {
    var loc := temps[i].location;
    var nt := temps[i := PromotedOut];
    assert IsDefSite(body, loc, i);
    var t := body.blocks[loc.block].terminator;
    var g := Goto(t.destination.value.target);
    ValidAfterPromotedOut(body, temps, rank, i);
    forall k | 0 <= k < |nt| && nt[k].Defined?
      ensures nt[k].location != Location(loc.block, |body.blocks[loc.block].statements|)
    {
      assert IsDefSite(body, nt[k].location, k);
    }
    ValidAfterTerminatorShrink(body, nt, rank, loc.block, g);
    var ns := WithTerminator(body, loc.block, g);
    forall b | 0 <= b < |body.blocks|
      ensures BlockMoved(body.blocks[b], ns.blocks[b], b, temps, nt)
    {
    }
  }
}
