/** How the parser puts an aggregation together from its parts and clauses, and
    that these can be found in it again. */
module Aggregations {
  import opened Results
  import opened Formulas
  import opened Functions
  import opened Parser
  import opened Printer
  import opened PrintedTokens
  import opened PrintedClauses

  /** No clause, no category, and no reference that is reduced already. */
  predicate IsPlain(e: Expr) {
    !IsMarker(e) && !e.Category? && (e.Ref? ==> e.spec.over == [] && e.spec.except == [])
  }

  /** Each argument is its part, bare; after the last part there are only markers. */
  predicate Covers(def: FnDef, args: seq<Expr>, es: seq<Expr>, i: nat) {
    && |es| <= |args|
    && (forall j :: 0 <= j < |es| ==> !IsMarker(args[j]) && Bare(args[j], def.Reduced(i + j, args[j])) == es[j])
    && forall j :: |es| <= j < |args| ==> IsMarker(args[j])
  }

  lemma CoversRest(def: FnDef, args: seq<Expr>, es: seq<Expr>, i: nat)
    requires es != [] && Covers(def, args, es, i)
    ensures Covers(def, args[1..], es[1..], i + 1)
  {
  }

  lemma {:induction false} BareOfCovered(def: FnDef, args: seq<Expr>, es: seq<Expr>, i: nat)
    requires Covers(def, args, es, i)
    ensures BareParts(def, args, i) == es && |Parts(args)| == |es|
    ensures es != [] ==> Parts(args)[0] == args[0]
    decreases |args|
  {
    if es != [] {
      CoversRest(def, args, es, i);
      BareOfCovered(def, args[1..], es[1..], i + 1);
      assert !IsMarker(args[0]) && Bare(args[0], def.Reduced(i + 0, args[0])) == es[0];
      assert es == [es[0]] + es[1..];
    } else if args != [] {
      assert IsMarker(args[0]);
      BareOfCovered(def, args[1..], [], i);
    }
  }

  lemma {:induction false} LeadingAreRefs(es: seq<Expr>, i: nat)
    requires i < LeadingRefs(es)
    ensures es[i].Ref?
  {
    if i > 0 {
      LeadingAreRefs(es[1..], i - 1);
    }
  }

  /** The printer reduces what the parser reduced. */
  lemma ReducedAlike(def: FnDef, es: seq<Expr>, clause: Clause, i: nat)
    requires i < |es| && IsPlain(es[i]) && clause.cats.Some? && clause.cats.value != []
    requires forall j :: 0 <= j < |es| && IsReduced(def, es, j) ==> es[j].Ref?
    ensures var a := OverAll(def, es, clause)[i];
            && def.Reduced(i, a) == IsReduced(def, es, i)
            && !IsMarker(a) && Bare(a, def.Reduced(i, a)) == es[i]
  {
    if def.over.Leading? && IsReduced(def, es, i) {
      LeadingAreRefs(es, i);
    }
    if IsReduced(def, es, i) {
      assert es[i].spec == es[i].spec.(over := []);
    }
  }

  lemma MarkersAreMarkers(clause: Clause)
    ensures forall m :: m in Markers(clause) ==> IsMarker(m)
  {
  }

  lemma FinishedCovers(def: FnDef, es: seq<Expr>, clause: Clause)
    requires (forall i :: 0 <= i < |es| ==> IsPlain(es[i])) && clause.cats.Some? && clause.cats.value != []
    requires forall j :: 0 <= j < |es| && IsReduced(def, es, j) ==> es[j].Ref?
    ensures Covers(def, OverAll(def, es, clause) + Markers(clause), es, 0)
  {
    var parts, markers := OverAll(def, es, clause), Markers(clause);
    var args := parts + markers;
    forall j | 0 <= j < |es|
      ensures !IsMarker(args[j]) && Bare(args[j], def.Reduced(0 + j, args[j])) == es[j]
    {
      ReducedAlike(def, es, clause, j);
    }
    MarkersAreMarkers(clause);
    forall j | |es| <= j < |args|
      ensures IsMarker(args[j])
    {
      assert args[j] == markers[j - |es|];
    }
  }

  /** What is reduced over categories has them from the `OVER` clause. */
  lemma SharedIsOver(def: FnDef, es: seq<Expr>, clause: Clause)
    requires forall i :: 0 <= i < |es| ==> IsPlain(es[i])
    requires forall j :: 0 <= j < |es| && IsReduced(def, es, j) ==> es[j].Ref?
    requires SharedOver(def, OverAll(def, es, clause)).Some?
    ensures clause.cats == SharedOver(def, OverAll(def, es, clause))
  {
    var parts := OverAll(def, es, clause);
    var at := OverAt(def, parts).value;
    assert OverOf(parts[at]) != [];
    assert IsPlain(es[at]);
    assert IsReduced(def, es, at);
  }

  lemma PartsOfFinished(def: FnDef, es: seq<Expr>, clause: Clause)
    requires forall i :: 0 <= i < |es| ==> IsPlain(es[i])
    requires forall j :: 0 <= j < |es| && IsReduced(def, es, j) ==> es[j].Ref?
    ensures Parts(OverAll(def, es, clause) + Markers(clause)) == OverAll(def, es, clause)
  {
    var parts := OverAll(def, es, clause);
    forall a | a in parts
      ensures !IsMarker(a)
    {
      var i :| 0 <= i < |parts| && parts[i] == a;
      assert IsPlain(es[i]);
    }
    MarkersAreMarkers(clause);
    PartsOf(parts, Markers(clause));
  }

  lemma {:induction false} ClauseComesBack(def: FnDef, es: seq<Expr>, clause: Clause)
    requires forall i :: 0 <= i < |es| ==> IsPlain(es[i])
    requires forall j :: 0 <= j < |es| && IsReduced(def, es, j) ==> es[j].Ref?
    requires clause.cats == SharedOver(def, OverAll(def, es, clause))
    ensures ClauseOf(def, OverAll(def, es, clause) + Markers(clause)) == clause
  {
    PartsOfFinished(def, es, clause);
    MarkersOfFinished(def, es, clause);
    ClauseIs(def, OverAll(def, es, clause) + Markers(clause), clause);
  }

  lemma {:induction false} ClauseIs(def: FnDef, args: seq<Expr>, clause: Clause)
    requires SharedOver(def, Parts(args)) == clause.cats && Condition(args) == clause.pred
    requires MarkerOf(args, WINDOW) == match clause.window case Some(w) => Some([w.0, w.1]) case None => None
    requires MarkerOf(args, INTO) == if clause.into == [] then None else Some(CategoryExprs(clause.into))
    ensures ClauseOf(def, args) == clause
  {
    assert CategoriesOf(CategoryExprs(clause.into)) == clause.into;
    var c := ClauseOf(def, args);
    assert c.cats == clause.cats && c.pred == clause.pred;
    assert c.window == clause.window;
    assert c.into == clause.into;
  }

  lemma MarkersOfFinished(def: FnDef, es: seq<Expr>, clause: Clause)
    requires forall i :: 0 <= i < |es| ==> IsPlain(es[i])
    requires forall j :: 0 <= j < |es| && IsReduced(def, es, j) ==> es[j].Ref?
    ensures var args := OverAll(def, es, clause) + Markers(clause);
            && Condition(args) == clause.pred
            && MarkerOf(args, WINDOW) == (match clause.window case Some(w) => Some([w.0, w.1]) case None => None)
            && MarkerOf(args, INTO) == if clause.into == [] then None else Some(CategoryExprs(clause.into))
  {
    var parts, markers := OverAll(def, es, clause), Markers(clause);
    PartsOfFinished(def, es, clause);
    PartsAreNoMarkers(parts + markers);
    MarkersAfter(parts, markers, WHERE);
    MarkersAfter(parts, markers, WINDOW);
    MarkersAfter(parts, markers, INTO);
    MarkersHold(clause);
  }

  /** What the parser finishes as a call whose references are reduced is made of
      the call's own parts and clauses. */
  lemma FinishedFrom(def: FnDef, es: seq<Expr>, clause: Clause, args: seq<Expr>)
    requires forall i :: 0 <= i < |es| ==> IsPlain(es[i])
    requires FinishAggregation(def, es, clause) == Ok(Expr.Call(def.id, args)) && SharedOver(def, Parts(args)).Some?
    ensures es == BareParts(def, args, 0) && clause == ClauseOf(def, args)
  {
    PartsOfFinished(def, es, clause);
    SharedIsOver(def, es, clause);
    ClauseComesBack(def, es, clause);
    FinishedCovers(def, es, clause);
    BareOfCovered(def, args, es, 0);
  }
}
