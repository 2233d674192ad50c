/** Statements without `goto` told by their whole effect instead of step by step, with nothing left to do
    written down anywhere; and that the step-by-step meaning of StmtMeaning gets to the same ends. */
module BigStep {
  import opened Wrappers
  import opened Bytes
  import opened Syntax
  import opened Execution
  import opened ExprMeaning
  import opened StmtMeaning
  import opened Behaviour

  /** How a statement ends: behind itself, by leaving the innermost loop, by starting its next round, by
      `halt`, for lack of input, at an undefined operation; or not within `fuel` rounds of a loop. */
  datatype Ending =
    | Through(st: Store, w: World) | Broken(st: Store, w: World) | Again(st: Store, w: World)
    | AtHalt(w: World) | Dry(w: World) | Wrong(w: World) | Unfinished

  predicate GotoFree(s: Stmt) {
    match s
    case Seq(a, b) => GotoFree(a) && GotoFree(b)
    case If(_, a) => GotoFree(a)
    case IfElse(_, a, b) => GotoFree(a) && GotoFree(b)
    case While(_, a) => GotoFree(a)
    case For(_, _, _, _) => false
    case Do(_, _) => false
    case Goto(_) => false
    case _ => true
  }

  function Effect(s: Stmt, st: Store, w: World, fuel: nat): Ending
    decreases fuel, s
  {
    match s
    case ExprStmt(e) =>
      (match Eval(e, st, w)
       case Done(_, st1, w1) => Through(st1, w1)
       case Waiting(w1) => Dry(w1)
       case Undefined(w1) => Wrong(w1))
    case Seq(a, b) =>
      (match Effect(a, st, w, fuel)
       case Through(st1, w1) => Effect(b, st1, w1, fuel)
       case r => r)
    case If(e, a) =>
      (match Eval(e, st, w)
       case Done(v, st1, w1) => if v != 0 then Effect(a, st1, w1, fuel) else Through(st1, w1)
       case Waiting(w1) => Dry(w1)
       case Undefined(w1) => Wrong(w1))
    case IfElse(e, a, b) =>
      (match Eval(e, st, w)
       case Done(v, st1, w1) => if v != 0 then Effect(a, st1, w1, fuel) else Effect(b, st1, w1, fuel)
       case Waiting(w1) => Dry(w1)
       case Undefined(w1) => Wrong(w1))
    case While(e, a) =>
      if fuel == 0 then Unfinished else
      (match Eval(e, st, w)
       case Waiting(w1) => Dry(w1)
       case Undefined(w1) => Wrong(w1)
       case Done(v, st1, w1) =>
         if v == 0 then Through(st1, w1) else
         match Effect(a, st1, w1, fuel - 1)
         case Through(st2, w2) => Effect(s, st2, w2, fuel - 1)
         case Again(st2, w2) => Effect(s, st2, w2, fuel - 1)
         case Broken(st2, w2) => Through(st2, w2)
         case r => r)
    case Break => Broken(st, w)
    case Continue => Again(st, w)
    case Halt => AtHalt(w)
    case _ => Through(st, w)
  }

  // ----- Both meanings agree -----

  /** After `n` steps from `x` the statement in front of `k` has come to the end `r`. */
  predicate ComesTo(body: Stmt, x: State, n: nat, k: Cont, r: Ending) {
    var y := SourceRun(body, x, n);
    y.Some? &&
    match r
    case Through(st, w) => y.value == Resume(body, k, st, w)
    case Broken(st, w) => y.value == Resume(body, AfterBreak(k), st, w)
    case Again(st, w) => y.value == Resume(body, Loop(k), st, w)
    case AtHalt(w) => SourceStep(body, y.value) == Halts && y.value.w == w
    case Dry(w) => SourceStep(body, y.value) == Waits(w)
    case Wrong(w) => SourceStep(body, y.value) == Fails(w)
    case Unfinished => true
  }

  lemma {:induction false} RunLonger(body: Stmt, x: State, n: nat, m: nat)
    requires SourceRun(body, x, n).Some?
    ensures SourceRun(body, x, n + m) == SourceRun(body, SourceRun(body, x, n).value, m)
    decreases n
  {
    hide SourceStep;
    if n > 0 {
      RunLonger(body, SourceStep(body, x).x, n - 1, m);
    }
  }

  /** One step, and then on. */
  lemma StepThen(body: Stmt, x: State, y: State, n: nat, k: Cont, r: Ending)
    requires SourceStep(body, x) == Goes(y) && ComesTo(body, y, n, k, r)
    ensures ComesTo(body, x, n + 1, k, r)
  {
    hide SourceStep;
    assert SourceRun(body, x, n + 1) == SourceRun(body, y, n);
  }

  /** From one end to the next. */
  lemma RunThen(body: Stmt, x: State, n: nat, y: State, m: nat, k: Cont, r: Ending)
    requires SourceRun(body, x, n) == Some(y) && ComesTo(body, y, m, k, r)
    ensures ComesTo(body, x, n + m, k, r)
  {
    hide SourceStep;
    RunLonger(body, x, n, m);
  }

  lemma AtOnce(body: Stmt, x: State)
    ensures SourceRun(body, x, 0) == Some(x)
  {
  }

  /** Behind an empty statement. */
  lemma SkipRun(body: Stmt, k: Cont, st: Store, w: World)
    ensures SourceRun(body, State(Skip, k, st, w), 1) == Some(Resume(body, k, st, w))
  {
    hide Resume;
    AtOnce(body, Resume(body, k, st, w));
  }

  lemma LeafEffect(body: Stmt, s: Stmt, k: Cont, st: Store, w: World, fuel: nat) returns (n: nat)
    requires GotoFree(s) && !s.Seq? && !s.If? && !s.IfElse? && !s.While?
    ensures ComesTo(body, State(s, k, st, w), n, k, Effect(s, st, w, fuel))
  {
    hide Eval, Resume, AfterBreak, Loop, SourceRun;
    var x, r := State(s, k, st, w), Effect(s, st, w, fuel);
    n := 0;
    AtOnce(body, x);
    if s.ExprStmt? || s.Break? {
      if r.Through? || r.Broken? {
        var k' := if s.Break? then AfterBreak(k) else k;
        var y := State(Skip, k', r.st, r.w);
        SkipRun(body, k', r.st, r.w);
        StepThen(body, x, y, 1, k, r);
        n := 2;
      }
    } else if !s.Halt? {
      var y := SourceStep(body, x).x;
      AtOnce(body, y);
      StepThen(body, x, y, 0, k, r);
      n := 1;
    }
  }

  lemma {:induction false} SeqEffect(body: Stmt, s: Stmt, k: Cont, st: Store, w: World, fuel: nat) returns (n: nat)
    requires s.Seq? && GotoFree(s)
    ensures ComesTo(body, State(s, k, st, w), n, k, Effect(s, st, w, fuel))
    decreases fuel, s, 0
  {
    hide Eval, SourceRun;
    var x := State(s, k, st, w);
    var y := State(s.first, KSeq(s.rest, k), st, w);
    var r := Effect(s.first, st, w, fuel);
    n := StepsReachEffect(body, s.first, KSeq(s.rest, k), st, w, fuel);
    if r.Through? {
      var m := StepsReachEffect(body, s.rest, k, r.st, r.w, fuel);
      RunThen(body, y, n, State(s.rest, k, r.st, r.w), m, k, Effect(s, st, w, fuel));
      n := n + m;
    }
    StepThen(body, x, y, n, k, Effect(s, st, w, fuel));
    n := n + 1;
  }

  /** `if` and `if`-`else`. */
  lemma {:induction false} ChoiceEffect(body: Stmt, s: Stmt, k: Cont, st: Store, w: World, fuel: nat) returns (n: nat)
    requires (s.If? || s.IfElse?) && GotoFree(s)
    ensures ComesTo(body, State(s, k, st, w), n, k, Effect(s, st, w, fuel))
    decreases fuel, s, 0
  {
    hide Eval, SourceRun;
    var x, r := State(s, k, st, w), Effect(s, st, w, fuel);
    n := 0;
    AtOnce(body, x);
    if Eval(s.e, st, w).Done? {
      var Done(v, st1, w1) := Eval(s.e, st, w);
      var k' := if s.IfElse? && v != 0 then KElse(s.else_, k) else k;
      var t := if v != 0 then s.then_ else if s.IfElse? then s.else_ else Skip;
      if s.If? && v == 0 {
        SkipRun(body, k', st1, w1);
        n := 1;
      } else {
        n := StepsReachEffect(body, t, k', st1, w1, fuel);
      }
      if k' != k && r.Through? {
        SkipRun(body, k, r.st, r.w);
        RunThen(body, State(t, k', st1, w1), n, State(Skip, k, r.st, r.w), 1, k, r);
        n := n + 1;
      }
      StepThen(body, x, State(t, k', st1, w1), n, k, r);
      n := n + 1;
    }
  }

  lemma {:induction false} LoopEffect(body: Stmt, s: Stmt, k: Cont, st: Store, w: World, fuel: nat) returns (n: nat)
    requires s.While? && GotoFree(s)
    ensures ComesTo(body, State(s, k, st, w), n, k, Effect(s, st, w, fuel))
    decreases fuel, s, 0
  {
    hide Eval, SourceRun;
    var x, r := State(s, k, st, w), Effect(s, st, w, fuel);
    n := 0;
    AtOnce(body, x);
    if fuel > 0 && Eval(s.e, st, w).Done? {
      var Done(v, st1, w1) := Eval(s.e, st, w);
      var y := if v != 0 then State(s.body, KLoop(s.e, s.body, k), st1, w1) else State(Skip, k, st1, w1);
      if v == 0 {
        SkipRun(body, k, st1, w1);
        n := 1;
      } else {
        n := RoundEffect(body, s, k, st1, w1, fuel - 1, r);
      }
      StepThen(body, x, y, n, k, r);
      n := n + 1;
    }
  }

  /** One round of a loop, and the rest of it. */
  lemma {:induction false} RoundEffect(body: Stmt, s: Stmt, k: Cont, st: Store, w: World, fuel: nat, r: Ending)
    returns (n: nat)
    requires s.While? && GotoFree(s)
    requires r == match Effect(s.body, st, w, fuel)
                  case Through(st2, w2) => Effect(s, st2, w2, fuel)
                  case Again(st2, w2) => Effect(s, st2, w2, fuel)
                  case Broken(st2, w2) => Through(st2, w2)
                  case q => q
    ensures ComesTo(body, State(s.body, KLoop(s.e, s.body, k), st, w), n, k, r)
    decreases fuel, s, 2
  {
    hide Eval, SourceRun;
    var q := Effect(s.body, st, w, fuel);
    var y := State(s.body, KLoop(s.e, s.body, k), st, w);
    n := StepsReachEffect(body, s.body, KLoop(s.e, s.body, k), st, w, fuel);
    if q.Through? || q.Again? {
      var m := LoopEffect(body, s, k, q.st, q.w, fuel);
      RunThen(body, y, n, State(s, k, q.st, q.w), m, k, r);
      n := n + m;
    }
  }

  /** Whatever a statement's effect is, its steps get there, in front of anything that is left to do. */
  lemma {:induction false} StepsReachEffect(body: Stmt, s: Stmt, k: Cont, st: Store, w: World, fuel: nat)
    returns (n: nat)
    requires GotoFree(s)
    ensures ComesTo(body, State(s, k, st, w), n, k, Effect(s, st, w, fuel))
    decreases fuel, s, 1
  {
    hide Eval, SourceRun, Resume;
    var x := State(s, k, st, w);
    match s {
      case Seq(a, b) => n := SeqEffect(body, s, k, st, w, fuel);
      case If(_, _) => n := ChoiceEffect(body, s, k, st, w, fuel);
      case IfElse(_, _, _) => n := ChoiceEffect(body, s, k, st, w, fuel);
      case While(_, _) => n := LoopEffect(body, s, k, st, w, fuel);
      case _ => n := LeafEffect(body, s, k, st, w, fuel);
    }
  }
}
