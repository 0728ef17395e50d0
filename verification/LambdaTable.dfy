/** Who calls whom among named LAMBDAs: the users of one, what redefining it
    leaves alone, and why an acyclic table always expands. */
module LambdaTable {
  import opened Results
  import opened Formulas
  import opened Placeholders
  import opened Lambdas

  datatype MeasureKind = Input | Derived(formula: Expr)

  type Measures = map<MeasureId, MeasureKind>

  /** Whether `e` calls one of the named LAMBDAs `ids`. */
  predicate CallsLambda(e: Expr, ids: set<U32>)
    decreases e, 1
  {
    match e
    case Call(f, es) => (NamedLambdaOf(f).Some? && NamedLambdaOf(f).value in ids) || AnyCallsLambda(es, ids)
    case Unary(_, a) => CallsLambda(a, ids)
    case Binary(_, a, b) => CallsLambda(a, ids) || CallsLambda(b, ids)
    case _ => false
  }

  predicate AnyCallsLambda(es: seq<Expr>, ids: set<U32>)
    decreases es, 0
  {
    es != [] && (CallsLambda(es[0], ids) || AnyCallsLambda(es[1..], ids))
  }

  lemma {:induction false} CallsLambdaIsCallees(e: Expr, ids: set<U32>)
    ensures CallsLambda(e, ids) <==> Callees(e) * ids != {}
    decreases e, 1
  {
    match e
    case Call(f, es) =>
      AnyCallsLambdaIsCallees(es, ids);
      var own := match NamedLambdaOf(f) case None => {} case Some(id) => {id};
      assert Callees(e) * ids == CalleesAll(es) * ids + own * ids;
      assert own * ids != {} <==> NamedLambdaOf(f).Some? && NamedLambdaOf(f).value in ids by {
        if NamedLambdaOf(f).Some? && NamedLambdaOf(f).value in ids {
          assert NamedLambdaOf(f).value in own * ids;
        }
      }
    case Unary(_, a) => CallsLambdaIsCallees(a, ids);
    case Binary(_, a, b) =>
      CallsLambdaIsCallees(a, ids);
      CallsLambdaIsCallees(b, ids);
      assert Callees(e) * ids == Callees(a) * ids + Callees(b) * ids;
    case _ =>
  }

  lemma {:induction false} AnyCallsLambdaIsCallees(es: seq<Expr>, ids: set<U32>)
    ensures AnyCallsLambda(es, ids) <==> CalleesAll(es) * ids != {}
    decreases es, 0
  {
    if es != [] {
      CallsLambdaIsCallees(es[0], ids);
      AnyCallsLambdaIsCallees(es[1..], ids);
      assert CalleesAll(es) * ids == Callees(es[0]) * ids + CalleesAll(es[1..]) * ids;
    }
  }

  // ----- reachability -----

  /** Each LAMBDA on the path calls the next; the last need not exist. */
  ghost predicate CallPath(t: Table, path: seq<U32>) {
    forall i :: 0 <= i < |path| - 1 ==> path[i] in t && path[i + 1] in Callees(t[path[i]].body)
  }

  /** Whether `a` calls `b`, directly or through others. */
  ghost predicate Reaches(t: Table, a: U32, b: U32) {
    exists path :: |path| >= 2 && path[0] == a && path[|path| - 1] == b && CallPath(t, path)
  }

  /** Whether a formula comes to use `id`: by a call, or through what it calls. */
  ghost predicate Uses(t: Table, e: Expr, id: U32) {
    exists c :: c in Callees(e) && (c == id || Reaches(t, c, id))
  }

  lemma ReachesByCall(t: Table, a: U32, b: U32, c: U32)
    requires a in t && b in Callees(t[a].body) && (b == c || Reaches(t, b, c))
    ensures Reaches(t, a, c)
  {
    if b == c {
      assert CallPath(t, [a, b]);
    } else {
      var path :| |path| >= 2 && path[0] == b && path[|path| - 1] == c && CallPath(t, path);
      assert CallPath(t, [a] + path);
      assert ([a] + path)[|path|] == c;
    }
  }

  /** A set that takes in every caller of its members takes in every LAMBDA
      from which a member can be reached. */
  lemma {:induction false} ClosedTakesInReachers(t: Table, hit: set<U32>, path: seq<U32>)
    requires |path| >= 2 && CallPath(t, path) && path[|path| - 1] in hit
    requires forall a :: a in t && a !in hit ==> Callees(t[a].body) * hit == {}
    ensures path[0] in hit
    decreases |path|
  {
    if |path| > 2 {
      var rest := path[1..];
      assert forall i :: 0 <= i < |rest| ==> rest[i] == path[i + 1];
      ClosedTakesInReachers(t, hit, rest);
    }
    assert path[0] in t && path[1] in Callees(t[path[0]].body) * hit;
  }

  /** Everything that calls LAMBDA `id`: the other LAMBDAs and the derived
      measures. The loops grow `hit` until a pass adds nothing. */
  method LambdaUsers(t: Table, measures: Measures, id: U32) returns (lambdas: set<U32>, derived: set<MeasureId>)
    ensures lambdas == set a | a in t && a != id && Reaches(t, a, id)
    ensures derived == set m | m in measures && measures[m].Derived? && Uses(t, measures[m].formula, id)
  {
    var hit := {id};
    var grew := true;
    while grew
      invariant id in hit && hit <= t.Keys + {id}
      invariant forall a :: a in hit && a != id ==> Reaches(t, a, id)
      invariant !grew ==> forall a :: a in t && a !in hit ==> Callees(t[a].body) * hit == {}
      decreases |(t.Keys + {id}) - hit| + (if grew then 1 else 0)
    {
      hit, grew := OnePass(t, id, hit);
    }
    forall a | a in t && Reaches(t, a, id)
      ensures a in hit
    {
      var path :| |path| >= 2 && path[0] == a && path[|path| - 1] == id && CallPath(t, path);
      ClosedTakesInReachers(t, hit, path);
    }
    HitIsReachers(t, id, hit);
    lambdas := hit - {id};
    derived := MeasuresCalling(measures, hit);
    forall m | m in measures && measures[m].Derived?
      ensures CallsLambda(measures[m].formula, hit) <==> Uses(t, measures[m].formula, id)
    {
      CallsLambdaIsCallees(measures[m].formula, hit);
      UsesIsHit(t, measures[m].formula, id, hit);
    }
  }

  method MeasuresCalling(measures: Measures, hit: set<U32>) returns (derived: set<MeasureId>)
    ensures derived == set m | m in measures && measures[m].Derived? && CallsLambda(measures[m].formula, hit)
  {
    derived := {};
    var todo := measures.Keys;
    while todo != {}
      invariant todo <= measures.Keys
      invariant derived == set m | m in measures.Keys - todo && measures[m].Derived? && CallsLambda(measures[m].formula, hit)
      decreases |todo|
    {
      var m :| m in todo;
      todo := todo - {m};
      if measures[m].Derived? && CallsLambda(measures[m].formula, hit) {
        derived := derived + {m};
      }
    }
  }

  lemma UsesIsHit(t: Table, e: Expr, id: U32, hit: set<U32>)
    requires id in hit
    requires forall a :: a in hit && a != id ==> Reaches(t, a, id)
    requires forall a :: a in t && Reaches(t, a, id) ==> a in hit
    ensures Callees(e) * hit != {} <==> Uses(t, e, id)
  {
    if Callees(e) * hit != {} {
      var c :| c in Callees(e) * hit;
      assert c in Callees(e) && (c == id || Reaches(t, c, id));
    }
    if Uses(t, e, id) {
      var c :| c in Callees(e) && (c == id || Reaches(t, c, id));
      assert c in Callees(e) * hit;
    }
  }

  lemma HitIsReachers(t: Table, id: U32, hit: set<U32>)
    requires hit <= t.Keys + {id}
    requires forall a :: a in hit && a != id ==> Reaches(t, a, id)
    requires forall a :: a in t && Reaches(t, a, id) ==> a in hit
    ensures hit - {id} == set a | a in t && a != id && Reaches(t, a, id)
  {
  }

  /** One pass over the table: every LAMBDA that calls a hit one becomes hit. */
  method OnePass(t: Table, id: U32, start: set<U32>) returns (hit: set<U32>, grew: bool)
    requires id in start && start <= t.Keys + {id}
    requires forall a :: a in start && a != id ==> Reaches(t, a, id)
    ensures start <= hit <= t.Keys + {id}
    ensures forall a :: a in hit && a != id ==> Reaches(t, a, id)
    ensures grew <==> hit != start
    ensures grew ==> |(t.Keys + {id}) - hit| < |(t.Keys + {id}) - start|
    ensures !grew ==> forall a :: a in t && a !in hit ==> Callees(t[a].body) * hit == {}
  {
    hit := start;
    var todo := t.Keys;
    while todo != {}
      invariant todo <= t.Keys
      invariant start <= hit <= t.Keys + {id}
      invariant forall a :: a in hit && a != id ==> Reaches(t, a, id)
      invariant hit == start ==> forall a :: a in t && a !in todo && a !in hit ==> Callees(t[a].body) * hit == {}
      decreases |todo|
    {
      var a :| a in todo;
      todo := todo - {a};
      if a !in hit {
        CallsLambdaIsCallees(t[a].body, hit);
        if CallsLambda(t[a].body, hit) {
          var b :| b in Callees(t[a].body) * hit;
          ReachesByCall(t, a, b, id);
          hit := hit + {a};
        }
      }
    }
    grew := |hit| != |start|;
    SubsetSize(start, hit);
    SubsetSize((t.Keys + {id}) - hit, (t.Keys + {id}) - start);
    if hit != start {
      var a :| a in hit && a !in start;
      assert a in (t.Keys + {id}) - start && a !in (t.Keys + {id}) - hit;
    }
  }

  /** A subset of the same size is the whole set. */
  lemma SubsetSize<T>(a: set<T>, b: set<T>)
    requires a <= b
    ensures |a| <= |b| && (|a| == |b| ==> a == b)
  {
    assert b == a + (b - a);
    assert |b| == |a| + |b - a|;
  }

  // ----- what redefining a LAMBDA leaves alone -----

  /** Calling any of `calls` does not come to use `id`. */
  ghost predicate Clear(t: Table, calls: set<U32>, id: U32) {
    forall c :: c in calls ==> c != id && !Reaches(t, c, id)
  }

  /** Redefining `id` does not change the expansion of a formula that does not use it. */
  lemma {:induction false} RedefinitionFrame(t: Table, id: U32, l: NamedLambda, e: Expr, depth: nat)
    requires id in t
    requires |t[id := l]| == |t| && Clear(t, Callees(e), id)
    ensures ExpandAt(t[id := l], e, depth) == ExpandAt(t, e, depth)
    decreases |t| + 2 - depth, e, 1
  {
    if depth <= |t| + 1 {
      match e
      case Unary(_, a) => RedefinitionFrame(t, id, l, a, depth);
      case Binary(_, a, b) =>
        RedefinitionFrame(t, id, l, a, depth);
        RedefinitionFrame(t, id, l, b, depth);
      case Call(f, es) =>
        RedefinitionFrameAll(t, id, l, es, depth);
        if ExpandAllAt(t, es, depth).Ok? && NamedLambdaOf(f).Some? && NamedLambdaOf(f).value in t {
          RedefinitionFrameBody(t, id, l, f, es, depth);
        }
      case _ =>
    }
  }

  lemma {:induction false} RedefinitionFrameAll(t: Table, id: U32, l: NamedLambda, es: seq<Expr>, depth: nat)
    requires id in t && depth <= |t| + 1 && |t[id := l]| == |t|
    requires Clear(t, CalleesAll(es), id)
    ensures ExpandAllAt(t[id := l], es, depth) == ExpandAllAt(t, es, depth)
    decreases |t| + 2 - depth, es, 0
  {
    if es != [] {
      RedefinitionFrame(t, id, l, es[0], depth);
      RedefinitionFrameAll(t, id, l, es[1..], depth);
    }
  }

  lemma {:induction false} RedefinitionFrameBody(t: Table, id: U32, l: NamedLambda, f: FuncId, es: seq<Expr>, depth: nat)
    requires id in t && depth <= |t| + 1 && |t[id := l]| == |t|
    requires Clear(t, Callees(Call(f, es)), id)
    requires NamedLambdaOf(f).Some? && NamedLambdaOf(f).value in t
    requires ExpandAllAt(t[id := l], es, depth) == ExpandAllAt(t, es, depth)
    requires ExpandAllAt(t, es, depth).Ok?
    ensures ExpandAt(t[id := l], Call(f, es), depth) == ExpandAt(t, Call(f, es), depth)
    decreases |t| + 2 - depth, Call(f, es), 0
  {
    var c := NamedLambdaOf(f).value;
    var args := ExpandAllAt(t, es, depth).value;
    ExpansionCallsNothingAll(t, es, depth);
    if |t[c].params| == |args| && BoundBody(t[c], args).Ok? {
      var body := BoundBody(t[c], args).value;
      SubstCallees(t[c].body, args);
      assert c in Callees(Call(f, es));
      forall b | b in Callees(body)
        ensures b != id && !Reaches(t, b, id)
      {
        if b == id || Reaches(t, b, id) {
          ReachesByCall(t, c, b, id);
        }
      }
      RedefinitionFrame(t, id, l, body, depth + 1);
    }
    assert t[id := l][c] == t[c];
  }

  /** Redefining a LAMBDA leaves the expansion of every derived measure that
      `LambdaUsers` does not report exactly as it was, errors included. */
  lemma RedefinitionLeavesOthersAlone(t: Table, measures: Measures, id: U32, l: NamedLambda, m: MeasureId)
    requires id in t && m in measures && measures[m].Derived?
    requires m !in set k | k in measures && measures[k].Derived? && Uses(t, measures[k].formula, id)
    ensures ExpandLambdas(t[id := l], measures[m].formula) == ExpandLambdas(t, measures[m].formula)
  {
    assert t[id := l].Keys == t.Keys && |t[id := l].Keys| == |t[id := l]| && |t.Keys| == |t|;
    assert !Uses(t, measures[m].formula, id);
    RedefinitionFrame(t, id, l, measures[m].formula, 0);
  }

  // ----- acyclic tables -----

  ghost predicate Acyclic(t: Table) {
    forall a :: !Reaches(t, a, a)
  }

  lemma LoopReaches(t: Table, path: seq<U32>, i: nat, j: nat)
    requires CallPath(t, path) && i < j < |path| && path[i] == path[j]
    ensures Reaches(t, path[i], path[i])
  {
    var loop := path[i..j + 1];
    assert CallPath(t, loop) && loop[0] == path[i] && loop[|loop| - 1] == path[j];
  }

  /** A call path of an acyclic table visits no LAMBDA twice, so it is no longer than the table. */
  lemma {:induction false} AcyclicPathIsShort(t: Table, path: seq<U32>)
    requires Acyclic(t) && CallPath(t, path) && forall i :: 0 <= i < |path| ==> path[i] in t
    ensures |path| <= |t|
  {
    forall i, j | 0 <= i < j < |path|
      ensures path[i] != path[j]
    {
      if path[i] == path[j] {
        LoopReaches(t, path, i, j);
      }
    }
    DistinctIsShort(path, t.Keys);
  }

  lemma {:induction false} DistinctIsShort(path: seq<U32>, ids: set<U32>)
    requires forall i, j :: 0 <= i < j < |path| ==> path[i] != path[j]
    requires forall i :: 0 <= i < |path| ==> path[i] in ids
    ensures |path| <= |ids|
  {
    if path != [] {
      DistinctIsShort(path[1..], ids - {path[0]});
    }
  }

  /** `path` is the calls being expanded around an expression that makes `calls`. */
  ghost predicate OnAcyclicPath(t: Table, calls: set<U32>, path: seq<U32>) {
    && Acyclic(t) && CallPath(t, path) && (forall i :: 0 <= i < |path| ==> path[i] in t)
    && (path != [] ==> calls <= Callees(t[path[|path| - 1]].body))
  }

  /** While the calls being expanded form a path of an acyclic table, the cycle
      guard is never reached. */
  lemma {:induction false} NoCycleErrorAt(t: Table, e: Expr, path: seq<U32>)
    requires OnAcyclicPath(t, Callees(e), path)
    ensures ExpandAt(t, e, |path|) != Err(CallCycle)
    decreases |t| + 2 - |path|, e, 1
  {
    AcyclicPathIsShort(t, path);
    match e
    case Unary(_, a) => NoCycleErrorAt(t, a, path);
    case Binary(_, a, b) =>
      NoCycleErrorAt(t, a, path);
      NoCycleErrorAt(t, b, path);
    case Call(f, es) =>
      NoCycleErrorAll(t, es, path);
      if ExpandAllAt(t, es, |path|).Ok? && NamedLambdaOf(f).Some? {
        NoCycleErrorInBody(t, f, es, path);
      }
    case _ =>
  }

  lemma {:induction false} NoCycleErrorInBody(t: Table, f: FuncId, es: seq<Expr>, path: seq<U32>)
    requires OnAcyclicPath(t, Callees(Call(f, es)), path) && |path| <= |t|
    requires NamedLambdaOf(f).Some? && ExpandAllAt(t, es, |path|).Ok?
    ensures ExpandAt(t, Call(f, es), |path|) != Err(CallCycle)
    decreases |t| + 2 - |path|, Call(f, es), 0
  {
    var id := NamedLambdaOf(f).value;
    var args := ExpandAllAt(t, es, |path|).value;
    ExpansionCallsNothingAll(t, es, |path|);
    assert id in Callees(Call(f, es));
    if id in t && |t[id].params| == |args| && BoundBody(t[id], args).Ok? {
      SubstCallees(t[id].body, args);
      var more := path + [id];
      assert forall i :: 0 <= i < |path| ==> more[i] == path[i];
      assert more[|more| - 1] == id && |more| == |path| + 1;
      NoCycleErrorAt(t, BoundBody(t[id], args).value, more);
    }
  }

  lemma {:induction false} NoCycleErrorAll(t: Table, es: seq<Expr>, path: seq<U32>)
    requires OnAcyclicPath(t, CalleesAll(es), path)
    requires |path| <= |t| + 1
    ensures ExpandAllAt(t, es, |path|) != Err(CallCycle)
    decreases |t| + 2 - |path|, es, 0
  {
    if es != [] {
      NoCycleErrorAt(t, es[0], path);
      NoCycleErrorAll(t, es[1..], path);
    }
  }

  /** The cycle error is only ever reported of a table that has a cycle. */
  lemma AcyclicNeverReportsACycle(t: Table, e: Expr)
    requires Acyclic(t)
    ensures ExpandLambdas(t, e) != Err(CallCycle)
  {
    NoCycleErrorAt(t, e, []);
  }
}
