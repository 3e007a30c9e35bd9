/**
 * The bounded JSONLogic evaluator (json_logic.ts): a recursive evaluation with short-circuit
 * operators and a step counter that gives up after 1,000 steps. Conversions of values, the
 * arithmetic operators and member access are parameters; a conversion may throw, as it does for an
 * object with a field `toString` of its own. `Converts` says when exactly.
 */
module JsonLogic {
  import opened Common

  /** An evaluated value; Undef is a missing one. */
  datatype Val = Undef | Null | Bool(b: bool) | Num(n: real) | Str(s: string) | List(items: seq<Val>) | Record(fields: seq<Entry>)

  datatype Entry = Entry(key: string, value: Val)

  /** A JSON expression; objects keep the order of their fields. */
  datatype Expr = Lit(v: Val) | Arr(items: seq<Expr>) | Obj(fields: seq<Field>)

  datatype Field = Field(key: string, value: Expr)

  datatype Env = Env(
    apply: (string, seq<Val>) -> Option<Val>,
    text: Val -> Option<string>,
    member: (Val, string) -> Val)

  const MAX_STEPS := 1000

  const OPS: set<string> := {
    "var", "if", "==", "!=", "===", "!==", ">", ">=", "<", "<=", "!", "!!", "and", "or",
    "+", "-", "*", "/", "%", "min", "max", "in", "cat", "abs", "round"
  }

  predicate Truthy(v: Val) {
    match v
    case Undef => false
    case Null => false
    case Bool(b) => b
    case Num(n) => n != 0.0
    case Str(s) => s != ""
    case List(items) => items != []
    case Record(_) => true
  }

  predicate ObjectLike(v: Val) {
    v.List? || v.Record?
  }

  function Dots(path: string): (r: seq<string>)
    ensures r != []
  {
    if path == "" then [""]
    else if path[0] == '.' then [""] + Dots(path[1..])
    else
      var rest := Dots(path[1..]);
      [[path[0]] + rest[0]] + rest[1..]
  }

  function Into(env: Env, v: Val, key: string): Val {
    if ObjectLike(v) then env.member(v, key) else Undef
  }

  function Walk(env: Env, v: Val, keys: seq<string>): Val
    decreases |keys|
  {
    if keys == [] then v else Walk(env, Into(env, v, keys[0]), keys[1..])
  }

  function GetVar(env: Env, data: Val, path: string): Val {
    if path == "" then data else Walk(env, data, Dots(path))
  }

  function PathOf(env: Env, v: Val): Option<string> {
    if v.Undef? || v.Null? then Some("") else env.text(v)
  }

  /** An object with several fields, or none, is plain data. */
  function AsData(e: Expr): Val {
    match e
    case Lit(v) => v
    case Arr(items) => List(seq(|items|, i requires 0 <= i < |items| => AsData(items[i])))
    case Obj(fields) => Record(seq(|fields|, i requires 0 <= i < |fields| => Entry(fields[i].key, AsData(fields[i].value))))
  }

  predicate IsCall(e: Expr) {
    e.Obj? && |e.fields| == 1
  }

  /** What an expression evaluates: the items of a list, the arguments of a call. */
  function Parts(e: Expr): (r: seq<Expr>)
    ensures forall i :: 0 <= i < |r| ==> r[i] < e
  {
    if e.Arr? then e.items
    else if IsCall(e) then
      (if e.fields[0].value.Arr? then e.fields[0].value.items else [e.fields[0].value])
    else []
  }

  // --- The meaning of an expression ---------------------------------------------------------

  /** What an evaluation can trip over. */
  datatype Trouble = BadOperator(op: string) | Conversion

  /** A result and how many steps it takes. */
  datatype Big = Value(v: Val, cost: nat) | Stopped(why: Trouble, cost: nat)

  datatype Bigs = Values(vs: seq<Val>, cost: nat) | NoValues(why: Trouble, cost: nat)

  function After(c: nat, b: Big): Big {
    match b
    case Value(v, k) => Value(v, c + k)
    case Stopped(why, k) => Stopped(why, c + k)
  }

  function Eval(env: Env, data: Val, e: Expr): Big
    decreases e, 1, 0
  {
    match e
    case Lit(v) => Value(v, 1)
    case Arr(items) =>
      (match EvalParts(env, data, e, |items|)
       case Values(vs, c) => Value(List(vs), 1 + c)
       case NoValues(why, c) => Stopped(why, 1 + c))
    case Obj(fields) =>
      if |fields| != 1 then Value(AsData(e), 1)
      else if fields[0].key !in OPS then Stopped(BadOperator(fields[0].key), 1)
      else After(1, EvalCall(env, data, e))
  }

  /** The first `n` parts, left to right. */
  function EvalParts(env: Env, data: Val, e: Expr, n: nat): Bigs
    requires n <= |Parts(e)|
    decreases e, 0, n
  {
    if n == 0 then Values([], 0)
    else
      match EvalParts(env, data, e, n - 1)
      case NoValues(why, c) => NoValues(why, c)
      case Values(vs, c) =>
        match Eval(env, data, Parts(e)[n - 1])
        case Value(v, k) => Values(vs + [v], c + k)
        case Stopped(why, k) => NoValues(why, c + k)
  }

  function EvalVar(env: Env, data: Val, e: Expr): Big
    decreases e, 0, 0
  {
    var args := Parts(e);
    match (if args == [] then Value(Undef, 1) else Eval(env, data, args[0]))
    case Stopped(why, c) => Stopped(why, c)
    case Value(path, c) =>
      var text := PathOf(env, path);
      if text.None? then Stopped(Conversion, c)
      else
        var v := GetVar(env, data, text.value);
        if v.Undef? && |args| > 1 then After(c, Eval(env, data, args[1])) else Value(v, c)
  }

  /** Conditions and values in turn from argument `i` on. */
  function EvalIf(env: Env, data: Val, e: Expr, i: nat): Big
    requires i <= |Parts(e)|
    decreases e, 0, |Parts(e)| - i
  {
    var args := Parts(e);
    if i == |args| then Value(Null, 0)
    else if i == |args| - 1 then Eval(env, data, args[i])
    else
      match Eval(env, data, args[i])
      case Stopped(why, c) => Stopped(why, c)
      case Value(v, c) =>
        if Truthy(v) then After(c, Eval(env, data, args[i + 1])) else After(c, EvalIf(env, data, e, i + 2))
  }

  /** `and` stops at the first falsy argument, `or` at the first truthy one. */
  function EvalUntil(env: Env, data: Val, e: Expr, stop: bool, last: Val, i: nat): Big
    requires i <= |Parts(e)|
    decreases e, 0, |Parts(e)| - i
  {
    if i == |Parts(e)| then Value(last, 0)
    else
      match Eval(env, data, Parts(e)[i])
      case Stopped(why, c) => Stopped(why, c)
      case Value(v, c) =>
        if Truthy(v) == stop then Value(v, c) else After(c, EvalUntil(env, data, e, stop, v, i + 1))
  }

  function EvalCall(env: Env, data: Val, e: Expr): Big
    requires IsCall(e)
    decreases e, 0, |Parts(e)| + 1
  {
    var op := e.fields[0].key;
    if op == "var" then EvalVar(env, data, e)
    else if op == "if" then EvalIf(env, data, e, 0)
    else if op == "and" then EvalUntil(env, data, e, false, Bool(true), 0)
    else if op == "or" then EvalUntil(env, data, e, true, Bool(false), 0)
    else
      match EvalParts(env, data, e, |Parts(e)|)
      case Values(vs, c) =>
        var v := env.apply(op, vs);
        if v.None? then Stopped(Conversion, c) else Value(v.value, c)
      case NoValues(why, c) => Stopped(why, c)
  }

  // --- The evaluator ------------------------------------------------------------------------

  datatype Outcome = Result(v: Val) | Threw(why: Trouble) | LimitExceeded

  function OutcomeOf(b: Big): Outcome {
    match b
    case Value(v, _) => Result(v)
    case Stopped(why, _) => Threw(why)
  }

  /** A counter that stood at `before` and an outcome are right when the meaning fits the budget, and say so when not. */
  predicate Fits(b: Big, before: nat, after: nat, r: Outcome) {
    if before + b.cost <= MAX_STEPS then after == before + b.cost && r == OutcomeOf(b)
    else after == MAX_STEPS + 1 && r == LimitExceeded
  }

  class Evaluator {
    const env: Env
    const data: Val
    var steps: nat

    constructor (env: Env, data: Val)
      ensures this.env == env && this.data == data && steps == 0
    {
      this.env := env;
      this.data := data;
      steps := 0;
    }

    method Run(e: Expr) returns (r: Outcome)
      requires steps <= MAX_STEPS
      modifies this
      ensures Fits(Eval(env, data, e), old(steps), steps, r)
      decreases e, 1, 0
    {
      steps := steps + 1;
      CostIsPositive(env, data, e);
      if steps > MAX_STEPS {
        return LimitExceeded;
      }
      match e
      case Lit(v) => return Result(v);
      case Arr(_) =>
        var vs, bad := RunParts(e);
        r := if bad.None? then Result(List(vs)) else bad.value;
      case Obj(fields) =>
        if |fields| != 1 {
          return Result(AsData(e));
        }
        if fields[0].key !in OPS {
          return Threw(BadOperator(fields[0].key));
        }
        r := Call(e);
    }

    /** Evaluates all parts, or stops with what went wrong. */
    method RunParts(e: Expr) returns (vs: seq<Val>, bad: Option<Outcome>)
      requires steps <= MAX_STEPS
      modifies this
      ensures var b := EvalParts(env, data, e, |Parts(e)|);
        if old(steps) + b.cost <= MAX_STEPS then
          steps == old(steps) + b.cost
          && (if b.Values? then bad == None && vs == b.vs else bad == Some(Threw(b.why)))
        else steps == MAX_STEPS + 1 && bad == Some(LimitExceeded)
      decreases e, 0, |Parts(e)|
    {
      var parts := Parts(e);
      vs, bad := [], None;
      for i := 0 to |parts|
        invariant old(steps) <= steps <= MAX_STEPS && EvalParts(env, data, e, i) == Values(vs, steps - old(steps))
        invariant bad == None
      {
        PartsCostMore(env, data, e, i + 1, |parts|);
        var r := Run(parts[i]);
        if !r.Result? {
          bad := Some(r);
          return;
        }
        vs := vs + [r.v];
      }
    }

    method Call(e: Expr) returns (r: Outcome)
      requires steps <= MAX_STEPS && IsCall(e) && e.fields[0].key in OPS
      modifies this
      ensures Fits(EvalCall(env, data, e), old(steps), steps, r)
      decreases e, 0, |Parts(e)| + 1
    {
      var op := e.fields[0].key;
      if op == "var" {
        r := Var(e);
      } else if op == "if" {
        r := If(e);
      } else if op == "and" {
        r := Until(e, false, Bool(true));
      } else if op == "or" {
        r := Until(e, true, Bool(false));
      } else {
        var vs, bad := RunParts(e);
        if bad.Some? {
          return bad.value;
        }
        var v := env.apply(op, vs);
        r := if v.None? then Threw(Conversion) else Result(v.value);
      }
    }

    method Var(e: Expr) returns (r: Outcome)
      requires steps <= MAX_STEPS && IsCall(e)
      modifies this
      ensures Fits(EvalVar(env, data, e), old(steps), steps, r)
      decreases e, 0, 0
    {
      var args := Parts(e);
      if args == [] {
        steps := steps + 1;
        r := if steps > MAX_STEPS then LimitExceeded else Result(Undef);
      } else {
        r := Run(args[0]);
      }
      if !r.Result? {
        return;
      }
      var text := PathOf(env, r.v);
      if text.None? {
        return Threw(Conversion);
      }
      var v := GetVar(env, data, text.value);
      if v.Undef? && |args| > 1 {
        r := Run(args[1]);
      } else {
        r := Result(v);
      }
    }

    method If(e: Expr) returns (r: Outcome)
      requires steps <= MAX_STEPS && IsCall(e)
      modifies this
      ensures Fits(EvalIf(env, data, e, 0), old(steps), steps, r)
      decreases e, 0, |Parts(e)|
    {
      var args := Parts(e);
      var i := 0;
      while i + 1 < |args|
        invariant i <= |args| && old(steps) <= steps <= MAX_STEPS
        invariant EvalIf(env, data, e, 0) == After(steps - old(steps), EvalIf(env, data, e, i))
        decreases |args| - i
      {
        r := Run(args[i]);
        if !r.Result? {
          return;
        }
        if Truthy(r.v) {
          r := Run(args[i + 1]);
          return;
        }
        i := i + 2;
      }
      if i < |args| {
        r := Run(args[i]);
      } else {
        r := Result(Null);
      }
    }

    method Until(e: Expr, stop: bool, start: Val) returns (r: Outcome)
      requires steps <= MAX_STEPS && IsCall(e)
      modifies this
      ensures Fits(EvalUntil(env, data, e, stop, start, 0), old(steps), steps, r)
      decreases e, 0, |Parts(e)|
    {
      var args := Parts(e);
      var last := start;
      for i := 0 to |args|
        invariant old(steps) <= steps <= MAX_STEPS
        invariant EvalUntil(env, data, e, stop, start, 0) == After(steps - old(steps), EvalUntil(env, data, e, stop, last, i))
      {
        r := Run(args[i]);
        if !r.Result? {
          return;
        }
        last := r.v;
        if Truthy(last) == stop {
          return;
        }
      }
      r := Result(last);
    }
  }

  lemma CostIsPositive(env: Env, data: Val, e: Expr)
    ensures Eval(env, data, e).cost >= 1
  {
  }

  lemma {:induction false} PartsCostMore(env: Env, data: Val, e: Expr, m: nat, n: nat)
    requires m <= n <= |Parts(e)|
    ensures EvalParts(env, data, e, m).cost <= EvalParts(env, data, e, n).cost
    ensures EvalParts(env, data, e, m).NoValues? ==> EvalParts(env, data, e, n) == EvalParts(env, data, e, m)
    decreases n
  {
    if m < n {
      PartsCostMore(env, data, e, m, n - 1);
    }
  }

  /** evalLogic gives the meaning of the expression exactly when that takes at most 1,000 steps. */
  method EvalLogic(env: Env, data: Val, e: Expr) returns (r: Outcome)
    ensures r == if Eval(env, data, e).cost <= MAX_STEPS then OutcomeOf(Eval(env, data, e)) else LimitExceeded
  {
    var run := new Evaluator(env, data);
    r := run.Run(e);
  }

  // --- Accepted expressions -----------------------------------------------------------------

  /** All JSON nodes of an expression. */
  function Nodes(e: Expr): nat
    decreases e, 1, 0
  {
    match e
    case Lit(_) => 1
    case Arr(items) => 1 + ItemNodes(e, |items|)
    case Obj(fields) => 1 + FieldNodes(e, |fields|)
  }

  function ItemNodes(e: Expr, n: nat): nat
    requires e.Arr? && n <= |e.items|
    decreases e, 0, n
  {
    if n == 0 then 0 else ItemNodes(e, n - 1) + Nodes(e.items[n - 1])
  }

  function FieldNodes(e: Expr, n: nat): nat
    requires e.Obj? && n <= |e.fields|
    decreases e, 0, n
  {
    if n == 0 then 0 else FieldNodes(e, n - 1) + Nodes(e.fields[n - 1].value)
  }

  /** assertLogic: every object with one field, at any depth, names an operator. */
  predicate Accepted(e: Expr)
    decreases e
  {
    match e
    case Lit(_) => true
    case Arr(items) => forall i :: 0 <= i < |items| ==> Accepted(items[i])
    case Obj(fields) =>
      (|fields| == 1 ==> fields[0].key in OPS) && forall i :: 0 <= i < |fields| ==> Accepted(fields[i].value)
  }

  method AssertLogic(e: Expr) returns (bad: Option<string>)
    ensures bad.None? <==> Accepted(e)
    ensures bad.Some? ==> bad.value !in OPS
    decreases e
  {
    bad := None;
    match e
    case Lit(_) =>
    case Arr(items) =>
      for i := 0 to |items|
        invariant bad == None && forall k :: 0 <= k < i ==> Accepted(items[k])
      {
        bad := AssertLogic(items[i]);
        if bad.Some? {
          return;
        }
      }
    case Obj(fields) =>
      if |fields| == 1 && fields[0].key !in OPS {
        return Some(fields[0].key);
      }
      for i := 0 to |fields|
        invariant bad == None && forall k :: 0 <= k < i ==> Accepted(fields[k].value)
      {
        bad := AssertLogic(fields[i].value);
        if bad.Some? {
          return;
        }
      }
  }

  /** Nodes of the first `n` parts. */
  function PartNodes(e: Expr, n: nat): nat
    requires n <= |Parts(e)|
    decreases n
  {
    if n == 0 then 0 else PartNodes(e, n - 1) + Nodes(Parts(e)[n - 1])
  }

  lemma {:induction false} PartNodesGrow(e: Expr, m: nat, n: nat)
    requires m <= n <= |Parts(e)|
    ensures PartNodes(e, m) <= PartNodes(e, n)
    ensures m < n ==> PartNodes(e, m) + Nodes(Parts(e)[m]) <= PartNodes(e, n)
    decreases n
  {
    if m < n {
      PartNodesGrow(e, m, n - 1);
    }
  }

  lemma {:induction false} ItemsAreParts(e: Expr, n: nat)
    requires e.Arr? && n <= |e.items|
    ensures PartNodes(e, n) == ItemNodes(e, n)
  {
    if n > 0 {
      ItemsAreParts(e, n - 1);
    }
  }

  lemma {:induction false} ArgsAreParts(e: Expr, n: nat)
    requires IsCall(e) && e.fields[0].value.Arr? && n <= |Parts(e)|
    ensures PartNodes(e, n) == ItemNodes(e.fields[0].value, n)
  {
    if n > 0 {
      ArgsAreParts(e, n - 1);
    }
  }

  /** A list or call has more nodes than its parts; a call of an empty list two. */
  lemma PartsAreNodes(e: Expr)
    requires e.Arr? || IsCall(e)
    ensures PartNodes(e, |Parts(e)|) + 1 <= Nodes(e)
    ensures IsCall(e) && Parts(e) == [] ==> Nodes(e) >= 2
  {
    if e.Arr? {
      ItemsAreParts(e, |e.items|);
    } else {
      assert FieldNodes(e, 1) == FieldNodes(e, 0) + Nodes(e.fields[0].value);
      if e.fields[0].value.Arr? {
        ArgsAreParts(e, |Parts(e)|);
      } else {
        assert PartNodes(e, 1) == PartNodes(e, 0) + Nodes(Parts(e)[0]);
      }
    }
  }

  lemma AcceptedParts(e: Expr)
    requires Accepted(e) && (e.Arr? || IsCall(e))
    ensures forall i :: 0 <= i < |Parts(e)| ==> Accepted(Parts(e)[i])
  {
    if IsCall(e) {
      assert Accepted(e.fields[0].value);
    }
  }

  /** No conversion throws. */
  ghost predicate Total(env: Env) {
    (forall op, vs :: env.apply(op, vs).Some?) && forall v :: env.text(v).Some?
  }

  /** An evaluation is stopped by a conversion at most. */
  ghost predicate Fine(env: Env, b: Big) {
    b.Value? || (b.why.Conversion? && !Total(env))
  }

  /** An evaluation takes at most one step per node, and only a conversion stops that of an accepted expression. */
  lemma {:induction false} EvalBound(env: Env, data: Val, e: Expr)
    ensures Eval(env, data, e).cost <= Nodes(e)
    ensures Accepted(e) ==> Fine(env, Eval(env, data, e))
    decreases e, 1, 0
  {
    if e.Arr? || (IsCall(e) && e.fields[0].key in OPS) {
      PartsAreNodes(e);
      if Accepted(e) {
        AcceptedParts(e);
      }
      if e.Arr? {
        PartsBound(env, data, e, |Parts(e)|);
      } else {
        CallBound(env, data, e);
      }
    }
  }

  lemma {:induction false} PartsBound(env: Env, data: Val, e: Expr, n: nat)
    requires n <= |Parts(e)|
    ensures EvalParts(env, data, e, n).cost <= PartNodes(e, n)
    ensures (forall i :: 0 <= i < n ==> Accepted(Parts(e)[i])) ==>
      EvalParts(env, data, e, n).Values? || (EvalParts(env, data, e, n).why.Conversion? && !Total(env))
    decreases e, 0, n
  {
    if n > 0 {
      PartsBound(env, data, e, n - 1);
      EvalBound(env, data, Parts(e)[n - 1]);
    }
  }

  ghost predicate AllAccepted(parts: seq<Expr>) {
    forall i :: 0 <= i < |parts| ==> Accepted(parts[i])
  }

  lemma {:induction false} CallBound(env: Env, data: Val, e: Expr)
    requires IsCall(e)
    ensures EvalCall(env, data, e).cost <= (if Parts(e) == [] then 1 else PartNodes(e, |Parts(e)|))
    ensures AllAccepted(Parts(e)) ==> Fine(env, EvalCall(env, data, e))
    decreases e, 0, |Parts(e)| + 1
  {
    var op := e.fields[0].key;
    if op == "var" {
      VarBound(env, data, e);
    } else if op == "if" {
      IfBound(env, data, e, 0);
    } else if op == "and" {
      UntilBound(env, data, e, false, Bool(true), 0);
    } else if op == "or" {
      UntilBound(env, data, e, true, Bool(false), 0);
    } else {
      PartsBound(env, data, e, |Parts(e)|);
    }
  }

  lemma {:induction false} VarBound(env: Env, data: Val, e: Expr)
    requires IsCall(e)
    ensures EvalVar(env, data, e).cost <= (if Parts(e) == [] then 1 else PartNodes(e, |Parts(e)|))
    ensures AllAccepted(Parts(e)) ==> Fine(env, EvalVar(env, data, e))
    decreases e, 0, 0
  {
    var args := Parts(e);
    if args != [] {
      EvalBound(env, data, args[0]);
      PartNodesGrow(e, 0, |args|);
      if |args| > 1 {
        EvalBound(env, data, args[1]);
        PartNodesGrow(e, 1, |args|);
        assert PartNodes(e, 1) == PartNodes(e, 0) + Nodes(args[0]);
      }
    }
  }

  lemma {:induction false} IfBound(env: Env, data: Val, e: Expr, i: nat)
    requires i <= |Parts(e)|
    ensures EvalIf(env, data, e, i).cost + PartNodes(e, i) <= PartNodes(e, |Parts(e)|)
    ensures AllAccepted(Parts(e)) ==> Fine(env, EvalIf(env, data, e, i))
    decreases e, 0, |Parts(e)| - i
  {
    hide PartNodes, Nodes, Eval, Accepted, Parts, Truthy;
    var args := Parts(e);
    if i < |args| {
      EvalBound(env, data, args[i]);
      PartNodesGrow(e, i, |args|);
      if i + 1 < |args| {
        EvalBound(env, data, args[i + 1]);
        PartNodesGrow(e, i + 1, |args|);
        PartNodesStep(e, i);
        PartNodesStep(e, i + 1);
        IfBound(env, data, e, i + 2);
      }
    }
  }

  lemma PartNodesStep(e: Expr, i: nat)
    requires i < |Parts(e)|
    ensures PartNodes(e, i + 1) == PartNodes(e, i) + Nodes(Parts(e)[i])
  {
  }

  lemma {:induction false} UntilBound(env: Env, data: Val, e: Expr, stop: bool, last: Val, i: nat)
    requires i <= |Parts(e)|
    ensures EvalUntil(env, data, e, stop, last, i).cost + PartNodes(e, i) <= PartNodes(e, |Parts(e)|)
    ensures AllAccepted(Parts(e)) ==> Fine(env, EvalUntil(env, data, e, stop, last, i))
    decreases e, 0, |Parts(e)| - i
  {
    var args := Parts(e);
    if i < |args| {
      EvalBound(env, data, args[i]);
      PartNodesGrow(e, i, |args|);
      assert PartNodes(e, i + 1) == PartNodes(e, i) + Nodes(args[i]);
      if Eval(env, data, args[i]).Value? {
        UntilBound(env, data, e, stop, Eval(env, data, args[i]).v, i + 1);
      }
    }
  }

  /**
   * An accepted expression of at most 1,000 nodes never runs into the step limit or an unknown
   * operator, whatever the data: it throws only when a conversion of some value does.
   */
  lemma OnlyConversionsThrow(env: Env, data: Val, e: Expr)
    requires Accepted(e) && Nodes(e) <= MAX_STEPS
    ensures Eval(env, data, e).cost <= MAX_STEPS
    ensures OutcomeOf(Eval(env, data, e)).Result? || OutcomeOf(Eval(env, data, e)) == Threw(Conversion)
    ensures Total(env) ==> OutcomeOf(Eval(env, data, e)).Result?
  {
    EvalBound(env, data, e);
  }

  /** A tiny accepted expression throws exactly when the data cannot be converted. */
  lemma ConversionMayThrow(env: Env, data: Val)
    ensures var e := CallOf("cat", CallOf("var", Lit(Str(""))));
      && Accepted(e) && Nodes(e) == 3
      && (TextOk(env) ==> (OutcomeOf(Eval(env, data, e)) == Threw(Conversion) <==> env.apply("cat", [data]).None?))
  {
    var inner := CallOf("var", Lit(Str("")));
    var e := CallOf("cat", inner);
    assert Accepted(Lit(Str(""))) && Accepted(inner.fields[0].value) && "var" in OPS && "cat" in OPS;
    assert Accepted(inner) && Accepted(e.fields[0].value);
    assert FieldNodes(inner, 1) == FieldNodes(inner, 0) + Nodes(Lit(Str("")));
    assert FieldNodes(e, 1) == FieldNodes(e, 0) + Nodes(inner);
    if TextOk(env) {
      MissWhole(env, data);
      assert Parts(e) == [inner];
      assert EvalParts(env, data, e, 0) == Values([], 0);
      assert EvalParts(env, data, e, 1) == Values([] + [data], 2);
      assert [] + [data] == [data];
      assert Eval(env, data, e) == After(1, EvalCall(env, data, e));
    }
  }

  // --- Never throwing ------------------------------------------------------------------------

  /** Conversion to a text or number works unless an object, or one in a list, has a field `toString` of its own. */
  predicate Textable(v: Val) {
    match v
    case List(items) => forall i :: 0 <= i < |items| ==> Textable(items[i])
    case Record(fields) => forall i :: 0 <= i < |fields| ==> fields[i].key != "toString"
    case _ => true
  }

  ghost predicate AllTextable(vs: seq<Val>) {
    forall i :: 0 <= i < |vs| ==> Textable(vs[i])
  }

  /** Conversions as the language has them: operators convert all their arguments, to results that convert again. */
  ghost predicate Converts(env: Env) {
    && TextOk(env)
    && (forall v :: env.text(v).Some? <==> Textable(v))
    && (forall op, vs :: env.apply(op, vs).Some? <==> AllTextable(vs))
    && (forall op, vs :: env.apply(op, vs).Some? ==> Textable(env.apply(op, vs).value))
  }

  /** The data an expression brings along converts. */
  ghost predicate TextableLits(e: Expr)
    decreases e
  {
    match e
    case Lit(v) => Textable(v)
    case Arr(items) => forall i :: 0 <= i < |items| ==> TextableLits(items[i])
    case Obj(fields) => if |fields| == 1 then TextableLits(fields[0].value) else Textable(AsData(e))
  }

  ghost predicate Plain(e: Expr) {
    Accepted(e) && TextableLits(e)
  }

  ghost predicate AllPlain(parts: seq<Expr>) {
    forall i :: 0 <= i < |parts| ==> Plain(parts[i])
  }

  /** Whatever path is looked up, the value found converts. */
  ghost predicate AllReadable(env: Env, data: Val) {
    forall path :: Textable(GetVar(env, data, path))
  }

  ghost predicate Runs(env: Env, data: Val, e: Expr) {
    Eval(env, data, e).cost <= MAX_STEPS && OutcomeOf(Eval(env, data, e)).Result?
  }

  ghost predicate Calm(b: Big) {
    b.Value? && Textable(b.v)
  }

  lemma PlainParts(e: Expr)
    requires Plain(e) && (e.Arr? || IsCall(e))
    ensures AllPlain(Parts(e))
  {
    AcceptedParts(e);
    if IsCall(e) {
      assert TextableLits(e.fields[0].value);
    }
  }

  lemma {:induction false} EvalCalm(env: Env, data: Val, e: Expr)
    requires Converts(env) && AllReadable(env, data) && Plain(e)
    ensures Calm(Eval(env, data, e))
    decreases e, 1, 0
  {
    hide Converts, AllReadable;
    if e.Arr? || IsCall(e) {
      PlainParts(e);
      hide AllPlain;
      if e.Arr? {
        PartsCalm(env, data, e, |Parts(e)|);
      } else {
        CallCalm(env, data, e);
      }
    }
  }

  lemma {:induction false} PartsCalm(env: Env, data: Val, e: Expr, n: nat)
    requires Converts(env) && AllReadable(env, data) && n <= |Parts(e)| && AllPlain(Parts(e))
    ensures EvalParts(env, data, e, n).Values? && AllTextable(EvalParts(env, data, e, n).vs)
    decreases e, 0, n
  {
    hide Converts, AllReadable, Plain, Eval, Parts, Textable;
    if n > 0 {
      PartsCalm(env, data, e, n - 1);
      EvalCalm(env, data, Parts(e)[n - 1]);
    }
  }

  lemma {:induction false} CallCalm(env: Env, data: Val, e: Expr)
    requires Converts(env) && AllReadable(env, data) && IsCall(e) && AllPlain(Parts(e))
    ensures Calm(EvalCall(env, data, e))
    decreases e, 0, |Parts(e)| + 1
  {
    hide AllReadable, AllPlain, EvalParts, EvalIf, EvalUntil, EvalVar, Parts;
    var op := e.fields[0].key;
    if op == "var" {
      VarCalm(env, data, e);
    } else if op == "if" {
      IfCalm(env, data, e, 0);
    } else if op == "and" {
      UntilCalm(env, data, e, false, Bool(true), 0);
    } else if op == "or" {
      UntilCalm(env, data, e, true, Bool(false), 0);
    } else {
      PartsCalm(env, data, e, |Parts(e)|);
    }
  }

  lemma {:induction false} VarCalm(env: Env, data: Val, e: Expr)
    requires Converts(env) && AllReadable(env, data) && AllPlain(Parts(e))
    ensures Calm(EvalVar(env, data, e))
    decreases e, 0, 0
  {
    hide Plain, Eval, Parts, GetVar, Textable;
    var args := Parts(e);
    assert Textable(Undef) by {
      MissingIsTextable();
    }
    if args != [] {
      EvalCalm(env, data, args[0]);
      if |args| > 1 {
        EvalCalm(env, data, args[1]);
      }
    }
  }

  lemma MissingIsTextable()
    ensures Textable(Undef)
  {
  }

  lemma {:induction false} IfCalm(env: Env, data: Val, e: Expr, i: nat)
    requires Converts(env) && AllReadable(env, data) && i <= |Parts(e)| && AllPlain(Parts(e))
    ensures Calm(EvalIf(env, data, e, i))
    decreases e, 0, |Parts(e)| - i
  {
    hide Converts, AllReadable, Plain, Eval, Parts, Truthy;
    var args := Parts(e);
    if i < |args| {
      EvalCalm(env, data, args[i]);
      if i + 1 < |args| {
        EvalCalm(env, data, args[i + 1]);
        IfCalm(env, data, e, i + 2);
      }
    }
  }

  lemma {:induction false} UntilCalm(env: Env, data: Val, e: Expr, stop: bool, last: Val, i: nat)
    requires Converts(env) && AllReadable(env, data) && i <= |Parts(e)| && AllPlain(Parts(e)) && Textable(last)
    ensures Calm(EvalUntil(env, data, e, stop, last, i))
    decreases e, 0, |Parts(e)| - i
  {
    hide Converts, AllReadable, Plain, Eval, Parts, Truthy;
    if i < |Parts(e)| {
      EvalCalm(env, data, Parts(e)[i]);
      UntilCalm(env, data, e, stop, Eval(env, data, Parts(e)[i]).v, i + 1);
    }
  }

  /** An expression that turns what one path finds into text. */
  function Shown(path: string): Expr {
    CallOf("cat", CallOf("var", Lit(Str(path))))
  }

  lemma ShownIsPlain(path: string)
    ensures Plain(Shown(path)) && Nodes(Shown(path)) == 3
  {
    var inner := CallOf("var", Lit(Str(path)));
    assert Plain(Lit(Str(path))) && "var" in OPS && "cat" in OPS;
    assert Plain(inner.fields[0].value) && Plain(inner) && Plain(Shown(path).fields[0].value);
    assert FieldNodes(inner, 1) == FieldNodes(inner, 0) + Nodes(Lit(Str(path)));
    assert FieldNodes(Shown(path), 1) == FieldNodes(Shown(path), 0) + Nodes(inner);
  }

  lemma ShownConverts(env: Env, data: Val, path: string)
    requires Converts(env)
    ensures OutcomeOf(Eval(env, data, Shown(path))).Result? <==> Textable(GetVar(env, data, path))
    ensures OutcomeOf(Eval(env, data, Shown(path))).Result? || OutcomeOf(Eval(env, data, Shown(path))) == Threw(Conversion)
  {
    var inner, e := CallOf("var", Lit(Str(path))), Shown(path);
    hide GetVar, Textable;
    assert Parts(inner) == [Lit(Str(path))] && Parts(e) == [inner];
    assert PathOf(env, Str(path)) == Some(path);
    assert EvalVar(env, data, inner) == Value(GetVar(env, data, path), 1);
    assert Eval(env, data, inner) == Value(GetVar(env, data, path), 2);
    assert EvalParts(env, data, e, 0) == Values([], 0);
    assert EvalParts(env, data, e, 1) == Values([] + [GetVar(env, data, path)], 2);
    assert [] + [GetVar(env, data, path)] == [GetVar(env, data, path)];
    assert Eval(env, data, e) == After(1, EvalCall(env, data, e));
    assert [GetVar(env, data, path)][0] == GetVar(env, data, path);
    assert AllTextable([GetVar(env, data, path)]) <==> Textable(GetVar(env, data, path));
  }

  /**
   * When nothing throws: every accepted expression of at most 1,000 nodes gives a result on the
   * data if and only if no path leads to an object with a field `toString` of its own, or to a
   * list that holds one.
   */
  lemma NeverThrowsExactly(env: Env, data: Val)
    requires Converts(env)
    ensures (forall e :: Plain(e) && Nodes(e) <= MAX_STEPS ==> Runs(env, data, e)) <==> AllReadable(env, data)
  {
    hide GetVar, Textable, Converts, TextableLits;
    if AllReadable(env, data) {
      forall e | Plain(e) && Nodes(e) <= MAX_STEPS ensures Runs(env, data, e) {
        EvalCalm(env, data, e);
        EvalBound(env, data, e);
      }
    }
    if forall e :: Plain(e) && Nodes(e) <= MAX_STEPS ==> Runs(env, data, e) {
      forall path ensures Textable(GetVar(env, data, path)) {
        ShownIsPlain(path);
        ShownConverts(env, data, path);
        assert Runs(env, data, Shown(path));
      }
    }
  }

  /** No object at any depth has a field `toString`. */
  predicate DeepTextable(v: Val) {
    match v
    case List(items) => forall i :: 0 <= i < |items| ==> DeepTextable(items[i])
    case Record(fields) => forall i :: 0 <= i < |fields| ==> fields[i].key != "toString" && DeepTextable(fields[i].value)
    case _ => true
  }

  lemma {:induction false} DeepWalk(env: Env, v: Val, keys: seq<string>)
    requires DeepTextable(v) && forall u, k :: DeepTextable(u) ==> DeepTextable(env.member(u, k))
    ensures DeepTextable(Walk(env, v, keys))
    decreases |keys|
  {
    if keys != [] {
      DeepWalk(env, Into(env, v, keys[0]), keys[1..]);
    }
  }

  lemma {:induction false} DeepIsTextable(v: Val)
    requires DeepTextable(v)
    ensures Textable(v)
  {
    if v.List? {
      forall i | 0 <= i < |v.items| ensures Textable(v.items[i]) {
        DeepIsTextable(v.items[i]);
      }
    }
  }

  /** Data in which no object has such a field is read without throwing. */
  lemma DeepDataIsReadable(env: Env, data: Val)
    requires DeepTextable(data) && forall u, k :: DeepTextable(u) ==> DeepTextable(env.member(u, k))
    ensures AllReadable(env, data)
  {
    forall path ensures Textable(GetVar(env, data, path)) {
      if path != "" {
        DeepWalk(env, data, Dots(path));
      }
      DeepIsTextable(GetVar(env, data, path));
    }
  }

  /** An object with a field `toString` makes an accepted expression of three nodes throw. */
  lemma ToStringThrows(env: Env)
    requires Converts(env)
    ensures var data := Record([Entry("toString", Num(1.0))]);
      OutcomeOf(Eval(env, data, Shown(""))) == Threw(Conversion) && !AllReadable(env, data) && !Total(env)
  {
    var data := Record([Entry("toString", Num(1.0))]);
    assert data.fields[0].key == "toString" && GetVar(env, data, "") == data;
    ShownConverts(env, data, "");
    assert env.text(data).None?;
  }

  /** Conversions of this kind exist. */
  lemma SomeConvert() returns (env: Env)
    ensures Converts(env)
  {
    env := Env((op, vs) => if AllTextable(vs) then Some(Null) else None,
               v => if !Textable(v) then None else if v.Str? then Some(v.s) else Some(""),
               (v, k) => Undef);
  }

  // --- What an expression reads -------------------------------------------------------------

  function VarName(p: Expr): set<string> {
    if p.Lit? && p.v.Str? && p.v.s != "" then {Dots(p.v.s)[0]} else {}
  }

  /** logicVars: the top-level segments of literal paths; default values are not looked into. */
  function LogicVars(e: Expr): set<string>
    decreases e, 1
  {
    match e
    case Lit(_) => {}
    case Arr(items) => set i, x | 0 <= i < |items| && x in LogicVars(items[i]) :: x
    case Obj(fields) => set i, x | 0 <= i < |fields| && x in FieldVars(e, i) :: x
  }

  function FieldVars(e: Expr, i: nat): set<string>
    requires e.Obj? && i < |e.fields|
    decreases e, 0
  {
    var f := e.fields[i];
    if f.key != "var" then LogicVars(f.value)
    else if !f.value.Arr? then VarName(f.value)
    else if f.value.items == [] then {}
    else VarName(f.value.items[0])
  }

  /** Every path an evaluation may look up is a literal below one of these segments. */
  ghost predicate Covered(e: Expr, vars: set<string>)
    decreases e
  {
    match e
    case Lit(_) => true
    case Arr(items) => forall i :: 0 <= i < |items| ==> Covered(items[i], vars)
    case Obj(fields) =>
      |fields| == 1 ==>
        if fields[0].key == "var" then
          var args := Parts(e);
          && args != [] && VarName(args[0]) != {} && VarName(args[0]) <= vars
          && (|args| > 1 ==> Covered(args[1], vars))
        else Covered(fields[0].value, vars)
  }

  /** Literal, non-empty paths whose default values look nothing up. */
  ghost predicate LiteralPaths(e: Expr)
    decreases e
  {
    match e
    case Lit(_) => true
    case Arr(items) => forall i :: 0 <= i < |items| ==> LiteralPaths(items[i])
    case Obj(fields) =>
      |fields| == 1 ==>
        if fields[0].key == "var" then
          var args := Parts(e);
          args != [] && VarName(args[0]) != {} && (|args| > 1 ==> Covered(args[1], {}))
        else LiteralPaths(fields[0].value)
  }

  ghost predicate Agree(env: Env, a: Val, b: Val, vars: set<string>) {
    forall k :: k in vars ==> Into(env, a, k) == Into(env, b, k)
  }

  ghost predicate TextOk(env: Env) {
    forall s :: env.text(Str(s)) == Some(s)
  }

  lemma SameVar(env: Env, a: Val, b: Val, vars: set<string>, path: string)
    requires Agree(env, a, b, vars) && path != "" && Dots(path)[0] in vars
    ensures GetVar(env, a, path) == GetVar(env, b, path)
  {
  }

  ghost predicate AllCovered(parts: seq<Expr>, vars: set<string>) {
    forall i :: 0 <= i < |parts| ==> Covered(parts[i], vars)
  }

  lemma CoveredAt(parts: seq<Expr>, vars: set<string>, i: nat)
    requires AllCovered(parts, vars) && i < |parts|
    ensures Covered(parts[i], vars)
  {
  }

  lemma {:induction false} CoveredParts(e: Expr, vars: set<string>)
    requires Covered(e, vars) && (e.Arr? || (IsCall(e) && e.fields[0].key != "var"))
    ensures AllCovered(Parts(e), vars)
  {
    if IsCall(e) {
      assert Covered(e.fields[0].value, vars);
    }
  }

  /** What an expression evaluates to depends only on the covered segments of the data. */
  lemma {:induction false} SameEval(env: Env, a: Val, b: Val, vars: set<string>, e: Expr)
    requires TextOk(env) && Agree(env, a, b, vars) && Covered(e, vars)
    ensures Eval(env, a, e) == Eval(env, b, e)
    decreases e, 1, 0
  {
    hide Agree, TextOk;
    if e.Arr? {
      CoveredParts(e, vars);
      hide Covered, AllCovered, EvalParts, EvalCall, Parts;
      SameParts(env, a, b, vars, e, |Parts(e)|);
    } else if IsCall(e) && e.fields[0].key in OPS {
      SameCall(env, a, b, vars, e);
      hide Covered, AllCovered, EvalParts, EvalCall, Parts, AsData;
    }
  }

  lemma {:induction false} SameCall(env: Env, a: Val, b: Val, vars: set<string>, e: Expr)
    requires TextOk(env) && Agree(env, a, b, vars) && Covered(e, vars) && IsCall(e)
    ensures EvalCall(env, a, e) == EvalCall(env, b, e)
    decreases e, 0, |Parts(e)| + 1
  {
    hide Agree, TextOk;
    if e.fields[0].key != "var" {
      CoveredParts(e, vars);
    }
    hide Covered, AllCovered, EvalParts, EvalVar, EvalIf, EvalUntil, Parts;
    if e.fields[0].key == "var" {
      SameVarCall(env, a, b, vars, e);
    } else if e.fields[0].key == "if" {
      SameIf(env, a, b, vars, e, 0);
    } else if e.fields[0].key == "and" {
      SameUntil(env, a, b, vars, e, false, Bool(true), 0);
    } else if e.fields[0].key == "or" {
      SameUntil(env, a, b, vars, e, true, Bool(false), 0);
    } else {
      SameParts(env, a, b, vars, e, |Parts(e)|);
    }
  }

  lemma {:induction false} SameVarCall(env: Env, a: Val, b: Val, vars: set<string>, e: Expr)
    requires TextOk(env) && Agree(env, a, b, vars) && Covered(e, vars) && IsCall(e) && e.fields[0].key == "var"
    ensures EvalVar(env, a, e) == EvalVar(env, b, e)
    decreases e, 0, 0
  {
    var args := Parts(e);
    var path := args[0].v.s;
    SameVar(env, a, b, vars, path);
    assert Eval(env, a, args[0]) == Eval(env, b, args[0]) == Value(Str(path), 1);
    assert PathOf(env, Str(path)) == Some(path);
    hide Agree, TextOk, GetVar;
    if |args| > 1 {
      SameEval(env, a, b, vars, args[1]);
    }
  }

  lemma {:induction false} SameParts(env: Env, a: Val, b: Val, vars: set<string>, e: Expr, n: nat)
    requires TextOk(env) && Agree(env, a, b, vars) && n <= |Parts(e)| && AllCovered(Parts(e), vars)
    ensures EvalParts(env, a, e, n) == EvalParts(env, b, e, n)
    decreases e, 0, n
  {
    hide Agree, TextOk, Covered, AllCovered, Eval, Parts;
    if n > 0 {
      SameParts(env, a, b, vars, e, n - 1);
      CoveredAt(Parts(e), vars, n - 1);
      SameEval(env, a, b, vars, Parts(e)[n - 1]);
    }
  }

  lemma {:induction false} SameIf(env: Env, a: Val, b: Val, vars: set<string>, e: Expr, i: nat)
    requires TextOk(env) && Agree(env, a, b, vars) && i <= |Parts(e)| && AllCovered(Parts(e), vars)
    ensures EvalIf(env, a, e, i) == EvalIf(env, b, e, i)
    decreases e, 0, |Parts(e)| - i
  {
    hide Agree, TextOk, Covered, AllCovered, Eval, Parts, Truthy;
    if i < |Parts(e)| {
      CoveredAt(Parts(e), vars, i);
      SameEval(env, a, b, vars, Parts(e)[i]);
      if i + 1 < |Parts(e)| {
        CoveredAt(Parts(e), vars, i + 1);
        SameEval(env, a, b, vars, Parts(e)[i + 1]);
        SameIf(env, a, b, vars, e, i + 2);
      }
    }
  }

  lemma {:induction false} SameUntil(env: Env, a: Val, b: Val, vars: set<string>, e: Expr, stop: bool, last: Val, i: nat)
    requires TextOk(env) && Agree(env, a, b, vars) && i <= |Parts(e)| && AllCovered(Parts(e), vars)
    ensures EvalUntil(env, a, e, stop, last, i) == EvalUntil(env, b, e, stop, last, i)
    decreases e, 0, |Parts(e)| - i
  {
    hide *;
    UntilStep(env, a, e, stop, last, i);
    UntilStep(env, b, e, stop, last, i);
    if i < |Parts(e)| {
      CoveredAt(Parts(e), vars, i);
      SameEval(env, a, b, vars, Parts(e)[i]);
      var r := Eval(env, a, Parts(e)[i]);
      if r.Value? {
        SameUntil(env, a, b, vars, e, stop, r.v, i + 1);
      }
    }
  }

  lemma UntilStep(env: Env, data: Val, e: Expr, stop: bool, last: Val, i: nat)
    requires i <= |Parts(e)|
    ensures EvalUntil(env, data, e, stop, last, i) ==
      if i == |Parts(e)| then Value(last, 0)
      else
        var r := Eval(env, data, Parts(e)[i]);
        if r.Value? && Truthy(r.v) != stop then After(r.cost, EvalUntil(env, data, e, stop, r.v, i + 1)) else r
  {
  }

  lemma {:induction false} CoveredMore(e: Expr, vars: set<string>, more: set<string>)
    requires Covered(e, vars) && vars <= more
    ensures Covered(e, more)
    decreases e
  {
    match e
    case Lit(_) =>
    case Arr(items) =>
      forall i | 0 <= i < |items| ensures Covered(items[i], more) {
        CoveredMore(items[i], vars, more);
      }
    case Obj(fields) =>
      if |fields| == 1 {
        if fields[0].key != "var" {
          CoveredMore(fields[0].value, vars, more);
        } else if |Parts(e)| > 1 {
          CoveredMore(Parts(e)[1], vars, more);
        }
      }
  }

  /** The listed segments cover every expression whose paths are literal. */
  lemma {:induction false} LogicVarsCover(e: Expr)
    requires LiteralPaths(e)
    ensures Covered(e, LogicVars(e))
    decreases e
  {
    match e
    case Lit(_) =>
    case Arr(items) =>
      forall i | 0 <= i < |items| ensures Covered(items[i], LogicVars(e)) {
        LogicVarsCover(items[i]);
        assert LogicVars(items[i]) <= LogicVars(e);
        CoveredMore(items[i], LogicVars(items[i]), LogicVars(e));
      }
    case Obj(fields) =>
      if |fields| == 1 {
        if fields[0].key != "var" {
          LogicVarsCover(fields[0].value);
          assert FieldVars(e, 0) <= LogicVars(e);
          CoveredMore(fields[0].value, LogicVars(fields[0].value), LogicVars(e));
        } else {
          assert FieldVars(e, 0) <= LogicVars(e);
          if |Parts(e)| > 1 {
            CoveredMore(Parts(e)[1], {}, LogicVars(e));
          }
        }
      }
  }

  /** With literal paths, the value depends only on the segments logicVars lists. */
  lemma LogicVarsSuffice(env: Env, a: Val, b: Val, e: Expr)
    requires TextOk(env) && LiteralPaths(e) && Agree(env, a, b, LogicVars(e))
    ensures Eval(env, a, e) == Eval(env, b, e)
  {
    LogicVarsCover(e);
    SameEval(env, a, b, LogicVars(e), e);
  }

  function CallOf(op: string, arg: Expr): Expr {
    Obj([Field(op, arg)])
  }

  lemma DotlessPath(path: string)
    requires '.' !in path
    ensures Dots(path) == [path]
  {
    if path != "" {
      DotlessPath(path[1..]);
      assert [path[0]] + path[1..] == path;
      assert Dots(path[1..])[1..] == [];
    }
  }

  /** Without literal paths it may not: the whole data, a default's path and a computed path are all missed. */
  lemma LogicVarsMiss(env: Env, data: Val)
    requires TextOk(env) && env.apply("cat", [Str("b")]) == Some(Str("b"))
    ensures var e := CallOf("var", Lit(Str("")));
      LogicVars(e) == {} && Eval(env, data, e) == Value(data, 2)
    ensures var e := CallOf("var", Arr([Lit(Str("a")), CallOf("var", Lit(Str("b")))]));
      LogicVars(e) == {"a"} && (Into(env, data, "a") == Undef ==> Eval(env, data, e) == Value(Into(env, data, "b"), 4))
    ensures var e := CallOf("var", CallOf("cat", Lit(Str("b"))));
      LogicVars(e) == {} && Eval(env, data, e) == Value(Into(env, data, "b"), 3)
  {
    DotlessPath("a");
    DotlessPath("b");
    MissWhole(env, data);
    MissDefault(env, data);
    MissComputed(env, data);
  }

  lemma MissWhole(env: Env, data: Val)
    requires TextOk(env)
    ensures var e := CallOf("var", Lit(Str("")));
      LogicVars(e) == {} && Eval(env, data, e) == Value(data, 2)
  {
    var e := CallOf("var", Lit(Str("")));
    assert Parts(e) == [Lit(Str(""))];
  }

  lemma LookUp(env: Env, data: Val, key: string)
    requires TextOk(env) && key != "" && Dots(key) == [key]
    ensures var e := CallOf("var", Lit(Str(key)));
      Eval(env, data, e) == Value(Into(env, data, key), 2) && GetVar(env, data, key) == Into(env, data, key)
  {
    var e := CallOf("var", Lit(Str(key)));
    assert Parts(e) == [Lit(Str(key))];
    assert Walk(env, data, [key]) == Walk(env, Into(env, data, key), [key][1..]);
    assert Eval(env, data, Parts(e)[0]) == Value(Str(key), 1);
    assert PathOf(env, Str(key)) == Some(key) && EvalVar(env, data, e) == Value(GetVar(env, data, key), 1);
    assert Eval(env, data, e) == After(1, EvalCall(env, data, e));
  }

  lemma MissDefault(env: Env, data: Val)
    requires TextOk(env) && Dots("a") == ["a"] && Dots("b") == ["b"]
    ensures var e := CallOf("var", Arr([Lit(Str("a")), CallOf("var", Lit(Str("b")))]));
      LogicVars(e) == {"a"} && (Into(env, data, "a") == Undef ==> Eval(env, data, e) == Value(Into(env, data, "b"), 4))
  {
    var inner := CallOf("var", Lit(Str("b")));
    var e := CallOf("var", Arr([Lit(Str("a")), inner]));
    assert Parts(e) == [Lit(Str("a")), inner];
    LookUp(env, data, "a");
    LookUp(env, data, "b");
    assert FieldVars(e, 0) == VarName(Lit(Str("a"))) == {"a"};
    assert LogicVars(e) == FieldVars(e, 0);
    assert Eval(env, data, Parts(e)[0]) == Value(Str("a"), 1);
    assert Eval(env, data, e) == After(1, EvalVar(env, data, e));
  }

  lemma MissComputed(env: Env, data: Val)
    requires TextOk(env) && env.apply("cat", [Str("b")]) == Some(Str("b")) && Dots("b") == ["b"]
    ensures var e := CallOf("var", CallOf("cat", Lit(Str("b"))));
      LogicVars(e) == {} && Eval(env, data, e) == Value(Into(env, data, "b"), 3)
  {
    var inner := CallOf("cat", Lit(Str("b")));
    var e := CallOf("var", inner);
    assert Parts(e) == [inner] && Parts(inner) == [Lit(Str("b"))];
    assert EvalParts(env, data, inner, 0) == Values([], 0);
    assert EvalParts(env, data, inner, 1) == Values([] + [Str("b")], 1);
    assert [] + [Str("b")] == [Str("b")];
    assert "cat" in OPS && EvalCall(env, data, inner) == Value(env.apply("cat", [Str("b")]).value, 1);
    assert Eval(env, data, inner) == After(1, EvalCall(env, data, inner));
    LookUp(env, data, "b");
    assert Eval(env, data, e) == After(1, EvalVar(env, data, e));
  }
}
