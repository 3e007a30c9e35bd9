/**
 * The meaning of each kind of expression by its arguments: which of them are evaluated, which one
 * gives the result, and how many steps that takes.
 */
module JsonMeaning {
  import opened Common
  import opened JsonLogic

  /** What counts as true: everything but a missing value, null, false, zero, the empty text and the empty list. */
  ghost predicate Holds(v: Val) {
    v != Undef && v != Null && v != Bool(false) && v != Num(0.0) && v != Str("") && v != List([])
  }

  lemma TruthyIsHolds(v: Val)
    ensures Truthy(v) <==> Holds(v)
  {
  }

  /** The arguments of a call of `op`: the items of a list, or the one value. */
  ghost predicate Calls(e: Expr, op: string, args: seq<Expr>) {
    && e.Obj? && |e.fields| == 1 && e.fields[0].key == op
    && (if e.fields[0].value.Arr? then args == e.fields[0].value.items else args == [e.fields[0].value])
  }

  lemma CallParts(e: Expr, op: string, args: seq<Expr>)
    requires Calls(e, op, args)
    ensures IsCall(e) && Parts(e) == args && |e.fields| == 1 && e.fields[0].key == op
  {
  }

  /** Argument `i` evaluates to something that holds. */
  ghost predicate IsTrue(env: Env, data: Val, args: seq<Expr>, i: nat)
    requires i < |args|
  {
    Eval(env, data, args[i]).Value? && Holds(Eval(env, data, args[i]).v)
  }

  ghost predicate IsFalse(env: Env, data: Val, args: seq<Expr>, i: nat)
    requires i < |args|
  {
    Eval(env, data, args[i]).Value? && !Holds(Eval(env, data, args[i]).v)
  }

  /** The steps of the first `n` arguments. */
  function Steps(env: Env, data: Val, args: seq<Expr>, n: nat): nat
    requires n <= |args|
  {
    if n == 0 then 0 else Steps(env, data, args, n - 1) + Eval(env, data, args[n - 1]).cost
  }

  /** The steps of the first `n` conditions, which stand at the even places. */
  function ConditionSteps(env: Env, data: Val, args: seq<Expr>, n: nat): nat
    requires 2 * n <= |args|
  {
    if n == 0 then 0 else ConditionSteps(env, data, args, n - 1) + Eval(env, data, args[2 * (n - 1)]).cost
  }

  /** The result of an evaluation that took `n` steps before it. */
  ghost predicate Gives(b: Big, n: nat, last: Big) {
    b.cost == n + last.cost && OutcomeOf(b) == OutcomeOf(last)
  }

  // --- if -----------------------------------------------------------------------------------------

  lemma {:induction false} ConditionsPassed(env: Env, data: Val, e: Expr, n: nat)
    requires IsCall(e) && 2 * n <= |Parts(e)| && forall i :: 0 <= i < n ==> IsFalse(env, data, Parts(e), 2 * i)
    ensures EvalIf(env, data, e, 0) == After(ConditionSteps(env, data, Parts(e), n), EvalIf(env, data, e, 2 * n))
  {
    hide Parts, Eval, Holds;
    if n > 0 {
      ConditionsPassed(env, data, e, n - 1);
      assert IsFalse(env, data, Parts(e), 2 * (n - 1));
      TruthyIsHolds(Eval(env, data, Parts(e)[2 * (n - 1)]).v);
      hide Truthy;
    }
  }

  /**
   * `if` evaluates its conditions in turn. The first that holds decides for the argument after it;
   * if none does, the result is the last argument of an odd number, and null for an even one.
   * Nothing else is evaluated.
   */
  lemma IfChooses(env: Env, data: Val, e: Expr, args: seq<Expr>, n: nat)
    requires Calls(e, "if", args) && 2 * n <= |args| && forall i :: 0 <= i < n ==> IsFalse(env, data, args, 2 * i)
    ensures var r, spent := Eval(env, data, e), 1 + ConditionSteps(env, data, args, n);
      && (2 * n + 1 < |args| && IsTrue(env, data, args, 2 * n) ==>
            Gives(r, spent + Eval(env, data, args[2 * n]).cost, Eval(env, data, args[2 * n + 1])))
      && (2 * n < |args| && Eval(env, data, args[2 * n]).Stopped? ==> Gives(r, spent, Eval(env, data, args[2 * n])))
      && (2 * n + 1 == |args| ==> Gives(r, spent, Eval(env, data, args[2 * n])))
      && (2 * n == |args| ==> r == Value(Null, spent))
  {
    hide OPS, Parts, Calls, Eval, IsCall, Holds, Truthy;
    CallParts(e, "if", args);
    IfCalled(env, data, e);
    ConditionsPassed(env, data, e, n);
    if 2 * n < |args| && Eval(env, data, args[2 * n]).Value? {
      TruthyIsHolds(Eval(env, data, args[2 * n]).v);
    }
  }

  lemma IfCalled(env: Env, data: Val, e: Expr)
    requires IsCall(e) && e.fields[0].key == "if"
    ensures Eval(env, data, e) == After(1, EvalIf(env, data, e, 0))
  {
    hide EvalIf;
    assert "if" in OPS;
  }

  // --- and, or --------------------------------------------------------------------------------------

  /** Arguments of `and` or `or` before the deciding one: all true, or all false. */
  ghost predicate Undecided(env: Env, data: Val, args: seq<Expr>, any: bool, n: nat)
    requires n <= |args|
  {
    forall i :: 0 <= i < n ==> if any then IsFalse(env, data, args, i) else IsTrue(env, data, args, i)
  }

  lemma {:induction false} UndecidedPassed(env: Env, data: Val, e: Expr, any: bool, start: Val, n: nat)
    requires IsCall(e) && n <= |Parts(e)| && Undecided(env, data, Parts(e), any, n)
    ensures n > 0 ==> Eval(env, data, Parts(e)[n - 1]).Value?
    ensures var last := if n == 0 then start else Eval(env, data, Parts(e)[n - 1]).v;
      EvalUntil(env, data, e, any, start, 0) == After(Steps(env, data, Parts(e), n), EvalUntil(env, data, e, any, last, n))
  {
    hide Parts, Eval, Holds;
    if n > 0 {
      assert Undecided(env, data, Parts(e), any, n - 1);
      UndecidedPassed(env, data, e, any, start, n - 1);
      assert if any then IsFalse(env, data, Parts(e), n - 1) else IsTrue(env, data, Parts(e), n - 1);
      TruthyIsHolds(Eval(env, data, Parts(e)[n - 1]).v);
      hide Truthy;
    }
  }

  /**
   * `and` gives the first argument that does not hold, `or` the first that does, and else the last
   * one, or true and false without arguments; nothing after the deciding argument is evaluated.
   */
  lemma AndOrChoose(env: Env, data: Val, e: Expr, any: bool, args: seq<Expr>, n: nat)
    requires Calls(e, if any then "or" else "and", args) && n <= |args| && Undecided(env, data, args, any, n)
    ensures var r, spent := Eval(env, data, e), 1 + Steps(env, data, args, n);
      && (n < |args| && (if any then IsTrue(env, data, args, n) else IsFalse(env, data, args, n)) ==>
            Gives(r, spent, Eval(env, data, args[n])))
      && (n < |args| && Eval(env, data, args[n]).Stopped? ==> Gives(r, spent, Eval(env, data, args[n])))
      && (n == |args| > 0 ==> r.Value? && r.cost == spent && Eval(env, data, args[n - 1]).Value? && r.v == Eval(env, data, args[n - 1]).v)
      && (n == |args| == 0 ==> r == Value(Bool(!any), 1))
  {
    hide OPS, Parts, Calls, EvalUntil, Eval, IsCall, Holds, Truthy, Undecided;
    CallParts(e, if any then "or" else "and", args);
    var start := Bool(!any);
    UntilCalled(env, data, e, any);
    UndecidedPassed(env, data, e, any, start, n);
    var last := if n == 0 then start else Eval(env, data, args[n - 1]).v;
    UntilStep(env, data, e, any, last, n);
    if n < |args| && Eval(env, data, args[n]).Value? {
      TruthyIsHolds(Eval(env, data, args[n]).v);
    }
  }

  lemma UntilCalled(env: Env, data: Val, e: Expr, any: bool)
    requires IsCall(e) && e.fields[0].key == if any then "or" else "and"
    ensures Eval(env, data, e) == After(1, EvalUntil(env, data, e, any, Bool(!any), 0))
  {
    hide EvalUntil;
    assert "and" in OPS && "or" in OPS;
  }

  // --- Operators and lists ----------------------------------------------------------------------------

  lemma {:induction false} AllEvaluated(env: Env, data: Val, e: Expr, n: nat)
    requires n <= |Parts(e)| && forall i :: 0 <= i < n ==> Eval(env, data, Parts(e)[i]).Value?
    ensures var b := EvalParts(env, data, e, n);
      && b.Values? && |b.vs| == n && b.cost == Steps(env, data, Parts(e), n)
      && forall i :: 0 <= i < n ==> b.vs[i] == Eval(env, data, Parts(e)[i]).v
  {
    hide Parts, Eval;
    if n > 0 {
      AllEvaluated(env, data, e, n - 1);
    }
  }

  lemma StoppedAt(env: Env, data: Val, e: Expr, n: nat)
    requires n < |Parts(e)| && Eval(env, data, Parts(e)[n]).Stopped? && forall i :: 0 <= i < n ==> Eval(env, data, Parts(e)[i]).Value?
    ensures EvalParts(env, data, e, |Parts(e)|)
         == NoValues(Eval(env, data, Parts(e)[n]).why, Steps(env, data, Parts(e), n) + Eval(env, data, Parts(e)[n]).cost)
  {
    hide Parts, Eval;
    AllEvaluated(env, data, e, n);
    PartsCostMore(env, data, e, n + 1, |Parts(e)|);
  }

  /** An operator that evaluates all its arguments. */
  predicate Plainly(op: string) {
    op in OPS && op != "var" && op != "if" && op != "and" && op != "or"
  }

  /** Every other operator evaluates all its arguments, left to right, and is applied to their values; the first that stops stops it. */
  lemma OperatorsApply(env: Env, data: Val, e: Expr, op: string, args: seq<Expr>, vs: seq<Val>)
    requires Calls(e, op, args) && Plainly(op)
    requires |vs| <= |args| && forall i :: 0 <= i < |vs| ==> Eval(env, data, args[i]).Value? && Eval(env, data, args[i]).v == vs[i]
    ensures var r, spent := Eval(env, data, e), 1 + Steps(env, data, args, |vs|);
      && (|vs| == |args| ==> r == match env.apply(op, vs) case Some(v) => Value(v, spent) case None => Stopped(Conversion, spent))
      && (|vs| < |args| && Eval(env, data, args[|vs|]).Stopped? ==> Gives(r, spent, Eval(env, data, args[|vs|])))
  {
    hide OPS, Plainly, Parts, Eval, EvalParts, Steps, Calls, IsCall;
    CallParts(e, op, args);
    OperatorCalled(env, data, e);
    ValuesApplied(env, data, e, op, vs);
  }

  lemma ValuesApplied(env: Env, data: Val, e: Expr, op: string, vs: seq<Val>)
    requires |vs| <= |Parts(e)|
    requires forall i :: 0 <= i < |vs| ==> Eval(env, data, Parts(e)[i]).Value? && Eval(env, data, Parts(e)[i]).v == vs[i]
    ensures var args, b := Parts(e), EvalParts(env, data, e, |Parts(e)|);
      && (|vs| == |args| ==> b == Values(vs, Steps(env, data, args, |vs|)))
      && (|vs| < |args| && Eval(env, data, args[|vs|]).Stopped? ==>
            b == NoValues(Eval(env, data, args[|vs|]).why, Steps(env, data, args, |vs|) + Eval(env, data, args[|vs|]).cost))
  {
    hide *;
    var args := Parts(e);
    if |vs| == |args| {
      AllEvaluated(env, data, e, |args|);
      assert EvalParts(env, data, e, |args|).vs == vs;
    } else if Eval(env, data, args[|vs|]).Stopped? {
      StoppedAt(env, data, e, |vs|);
    }
  }

  lemma OperatorCalled(env: Env, data: Val, e: Expr)
    requires IsCall(e) && Plainly(e.fields[0].key)
    ensures var op, b := e.fields[0].key, EvalParts(env, data, e, |Parts(e)|);
      Eval(env, data, e) == match b
        case NoValues(why, c) => Stopped(why, 1 + c)
        case Values(vs, c) => if env.apply(op, vs).Some? then Value(env.apply(op, vs).value, 1 + c) else Stopped(Conversion, 1 + c)
  {
    hide EvalParts, EvalIf, EvalUntil, EvalVar;
    assert Eval(env, data, e) == After(1, EvalCall(env, data, e));
  }

  /** A list evaluates its items to a list of their values. */
  lemma ListsEvaluate(env: Env, data: Val, items: seq<Expr>, vs: seq<Val>)
    requires |vs| == |items| && forall i :: 0 <= i < |vs| ==> Eval(env, data, items[i]).Value? && Eval(env, data, items[i]).v == vs[i]
    ensures Eval(env, data, Arr(items)) == Value(List(vs), 1 + Steps(env, data, items, |items|))
  {
    var e := Arr(items);
    assert Parts(e) == items;
    AllEvaluated(env, data, e, |items|);
    assert EvalParts(env, data, e, |items|).vs == vs;
  }

  /** A literal is itself; a single field that names no operator stops the evaluation. */
  lemma LiteralsAndUnknown(env: Env, data: Val, v: Val, f: Field)
    ensures Eval(env, data, Lit(v)) == Value(v, 1)
    ensures f.key !in OPS ==> Eval(env, data, Obj([f])) == Stopped(BadOperator(f.key), 1)
  {
  }

  /** An object of several fields, or none, is data: the same fields, whatever they hold. */
  lemma ObjectsAreData(env: Env, data: Val, fields: seq<Field>)
    requires |fields| != 1
    ensures var r := Eval(env, data, Obj(fields));
      && r.Value? && r.cost == 1 && r.v.Record? && |r.v.fields| == |fields|
      && forall i :: 0 <= i < |fields| ==> r.v.fields[i] == Entry(fields[i].key, AsData(fields[i].value))
  {
    assert Eval(env, data, Obj(fields)) == Value(AsData(Obj(fields)), 1);
    hide Eval;
  }

  /** Data keeps its shape: literals are themselves, lists keep their items. */
  lemma DataIsKept(v: Val, items: seq<Expr>)
    ensures AsData(Lit(v)) == v
    ensures AsData(Arr(items)).List? && |AsData(Arr(items)).items| == |items|
    ensures forall i :: 0 <= i < |items| ==> AsData(Arr(items)).items[i] == AsData(items[i])
  {
  }

  // --- var --------------------------------------------------------------------------------------------

  lemma DotFirst(t: string)
    requires t != ""
    ensures t[0] == '.' ==> Dots(t) == [""] + Dots(t[1..])
    ensures t[0] != '.' ==> Dots(t) == [[t[0]] + Dots(t[1..])[0]] + Dots(t[1..])[1..]
    ensures Dots("") == [""]
  {
  }

  /** Splitting at dots. */
  lemma {:induction false} DotsAppend(a: string, b: string)
    ensures Dots(a + "." + b) == Dots(a) + Dots(b)
  {
    hide Dots;
    var t := a + "." + b;
    DotFirst(t);
    if a == "" {
      assert t[1..] == b;
    } else {
      DotsAppend(a[1..], b);
      DotFirst(a);
      assert t[1..] == a[1..] + "." + b && t[0] == a[0];
      var ra, rb := Dots(a[1..]), Dots(b);
      assert (ra + rb)[0] == ra[0] && (ra + rb)[1..] == ra[1..] + rb;
      if a[0] == '.' {
        assert [""] + (ra + rb) == ([""] + ra) + rb;
      } else {
        assert [[a[0]] + ra[0]] + (ra[1..] + rb) == ([[a[0]] + ra[0]] + ra[1..]) + rb;
      }
    }
  }

  lemma {:induction false} WalkSnoc(env: Env, v: Val, keys: seq<string>, k: string)
    ensures Walk(env, v, keys + [k]) == Into(env, Walk(env, v, keys), k)
    decreases |keys|
  {
    if keys == [] {
      assert ([] + [k])[1..] == [];
      assert Walk(env, v, [k]) == Walk(env, Into(env, v, k), []);
    } else {
      assert (keys + [k])[1..] == keys[1..] + [k];
      WalkSnoc(env, Into(env, v, keys[0]), keys[1..], k);
    }
  }

  /** The empty path is the data; one more segment after a dot is one more member, of an object or list, and missing otherwise. */
  lemma PathsAreMembers(env: Env, data: Val, path: string, key: string)
    requires '.' !in key
    ensures GetVar(env, data, "") == data
    ensures key != "" ==> GetVar(env, data, key) == if data.Record? || data.List? then env.member(data, key) else Undef
    ensures path != "" ==>
      var at := GetVar(env, data, path);
      GetVar(env, data, path + "." + key) == if at.Record? || at.List? then env.member(at, key) else Undef
  {
    DotlessPath(key);
    assert Walk(env, Into(env, data, key), []) == Into(env, data, key);
    assert [key][1..] == [];
    if path != "" {
      DotsAppend(path, key);
      WalkSnoc(env, data, Dots(path), key);
    }
  }

  /**
   * `var` looks up the text of its first argument, nothing and null being the empty path, and falls
   * back to its second argument, evaluated only then, when nothing is found.
   */
  lemma VarLooksUp(env: Env, data: Val, e: Expr, args: seq<Expr>)
    requires Calls(e, "var", args)
    ensures var r, first := Eval(env, data, e), if args == [] then Value(Undef, 1) else Eval(env, data, args[0]);
      match first
      case Stopped(_, _) => Gives(r, 1, first)
      case Value(path, c) =>
        var text := if path == Undef || path == Null then Some("") else env.text(path);
        match text
        case None => r == Stopped(Conversion, 1 + c)
        case Some(name) =>
          var found := GetVar(env, data, name);
          if found == Undef && |args| > 1 then Gives(r, 1 + c, Eval(env, data, args[1])) else r == Value(found, 1 + c)
  {
    assert Parts(e) == args && IsCall(e);
    assert Eval(env, data, e) == After(1, EvalVar(env, data, e)) by {
      assert "var" in OPS;
    }
    hide Parts, Eval, GetVar;
  }
}
