/**
 Running the intermediate representation and running stack code.

 What an instruction computes is a parameter, a `Semantics`: it answers with a value or a fault, and extends the
 history of what has happened so far. Everything proved about runs holds for every semantics.
 */
module Machine {
  import opened Options
  import opened Ir
  import opened Listings

  datatype Value = NullValue | BoolValue(b: bool) | IntValue(n: int) | TextValue(s: string) | RefValue(handle: nat)

  datatype Event = Event(kind: Kind, operands: seq<Value>)

  type History = seq<Event>

  datatype Reply = Reply(value: Value, history: History) | Fault(history: History)

  type Semantics = (Kind, seq<Value>, History) -> Reply

  // ----- the graph -----

  /** `pending` holds the arguments that parameters have not been bound to yet. */
  datatype State = State(temps: map<Temp, Value>, pending: seq<Value>, history: History)

  function Get(s: State, t: Temp): Value {
    if t in s.temps then s.temps[t] else NullValue
  }

  function GetAll(s: State, ts: seq<Temp>): (r: seq<Value>)
    ensures |r| == |ts| && forall i | 0 <= i < |ts| :: r[i] == Get(s, ts[i])
  {
    seq(|ts|, i requires 0 <= i < |ts| => Get(s, ts[i]))
  }

  function Put(s: State, t: Temp, v: Value): State { s.(temps := s.temps[t := v]) }

  datatype Next = Continue(state: State) | Enter(block: BlockId, state: State) | Stop(exit: Exit<State>)

  /** How a run ends. A fault is an operand of the wrong type, a failed assertion, or an error of a called function. */
  datatype Exit<+S> = Returned(value: Option<Value>, state: S) | Faulted(state: S) | Lost

  function Perform(sem: Semantics, insn: Insn, s: State): Next {
    match insn
    case Use(id, kind, sources) =>
      (match sem(kind, GetAll(s, sources), s.history)
       case Reply(v, h) => Continue((if HasResult(kind) then Put(s, id, v) else s).(history := h))
       case Fault(h) => Stop(Faulted(s.(history := h))))
    case Alloc(id, Some(t)) => Continue(Put(s, id, Get(s, t)))
    case Alloc(id, None) =>
      if s.pending == [] then Stop(Lost) else Continue(Put(s, id, s.pending[0]).(pending := s.pending[1..]))
    case Load(id, t) => Continue(Put(s, id, Get(s, t)))
    case Store(t, d) => Continue(Put(s, d, Get(s, t)))
    case Goto(t) => Enter(t, s)
    case Branch(c, t, n) =>
      if Get(s, c).BoolValue? then Enter(if Get(s, c).b then t else n, s) else Stop(Faulted(s))
    case Return(v) => Stop(Returned(if v.Some? then Some(Get(s, v.value)) else None, s))
  }

  datatype Run<+S, +P> = Ended(exit: Exit<S>) | Going(place: P, state: S)

  /** Runs the graph from instruction `i` of `b`, entering at most `fuel` further blocks. */
  function RunFrom(g: Graph, sem: Semantics, b: BlockId, i: nat, s: State, fuel: nat): Run<State, BlockId>
    decreases fuel, (if b < |g.blocks| then |g.blocks[b].insns| - i else 0), 1
  {
    if b >= |g.blocks| || i > |g.blocks[b].insns| then Ended(Lost)
    else if i == |g.blocks[b].insns| then
      if g.blocks[b].succ0.Some? then RunBlock(g, sem, g.blocks[b].succ0.value, s, fuel) else Ended(Lost)
    else match Perform(sem, g.blocks[b].insns[i], s)
      case Continue(s') => RunFrom(g, sem, b, i + 1, s', fuel)
      case Enter(t, s') => RunBlock(g, sem, t, s', fuel)
      case Stop(exit) => Ended(exit)
  }

  function RunBlock(g: Graph, sem: Semantics, b: BlockId, s: State, fuel: nat): Run<State, BlockId>
    decreases fuel, 0, 0
  {
    if fuel == 0 then Going(b, s) else RunFrom(g, sem, b, 0, s, fuel - 1)
  }

  /** Where such a run ends. */
  function EndSpot(g: Graph, sem: Semantics, b: BlockId, i: nat, s: State, fuel: nat): (BlockId, nat)
    decreases fuel, (if b < |g.blocks| then |g.blocks[b].insns| - i else 0), 1
  {
    if b >= |g.blocks| || i > |g.blocks[b].insns| then (b, i)
    else if i == |g.blocks[b].insns| then
      if g.blocks[b].succ0.Some? then EndSpotIn(g, sem, g.blocks[b].succ0.value, s, fuel) else (b, i)
    else match Perform(sem, g.blocks[b].insns[i], s)
      case Continue(s') => EndSpot(g, sem, b, i + 1, s', fuel)
      case Enter(t, s') => EndSpotIn(g, sem, t, s', fuel)
      case Stop(_) => (b, i)
  }

  function EndSpotIn(g: Graph, sem: Semantics, b: BlockId, s: State, fuel: nat): (BlockId, nat)
    decreases fuel, 0, 0
  {
    if fuel == 0 then (b, 0) else EndSpot(g, sem, b, 0, s, fuel - 1)
  }

  // ----- stack code -----

  /** One stack frame: its values, the parameters and locals first. */
  datatype Frame = Frame(stack: seq<Value>, history: History)

  /** Replaces the top `n` values. */
  function Replace(stack: seq<Value>, n: nat, values: seq<Value>): seq<Value>
    requires n <= |stack|
  {
    stack[..|stack| - n] + values
  }

  datatype After = Jumps(pc: nat, frame: Frame) | Ends(exit: Exit<Frame>)

  /**
   One instruction of stack code. A return takes the top value as the result if the frame holds more than the
   parameters; `else` takes a boolean and goes on behind itself when it is true.
   */
  function Execute(sem: Semantics, code: FlatCode, args: seq<Value>, pc: nat, f: Frame): After {
    if pc >= |code| then Ends(Lost)
    else
      var n := |f.stack|;
      match code[pc]
      case Plain(kind) =>
        if n < Arity(kind) then Ends(Lost)
        else (match sem(kind, f.stack[n - Arity(kind)..], f.history)
          case Reply(v, h) => Jumps(pc + 1, Frame(Replace(f.stack, Arity(kind), if HasResult(kind) then [v] else []),
            h))
          case Fault(h) => Ends(Faulted(Frame(Replace(f.stack, Arity(kind), []), h))))
      case LoadFrame(k) =>
        if 0 <= k < n then Jumps(pc + 1, f.(stack := f.stack + [f.stack[k]])) else Ends(Lost)
      case StoreFrame(k) =>
        if 0 <= k < n - 1 then Jumps(pc + 1, f.(stack := f.stack[..n - 1][k := f.stack[n - 1]])) else Ends(Lost)
      case Pop => if n == 0 then Ends(Lost) else Jumps(pc + 1, f.(stack := f.stack[..n - 1]))
      case Else(t) =>
        if n == 0 then Ends(Lost)
        else
          var f' := f.(stack := f.stack[..n - 1]);
          if !f.stack[n - 1].BoolValue? then Ends(Faulted(f'))
          else if f.stack[n - 1].b then Jumps(pc + 1, f')
          else if t.Some? then Jumps(t.value, f')
          else Ends(Lost)
      case Jump(t) => if t.Some? then Jumps(t.value, f) else Ends(Lost)
      case Ret => Ends(Returned(if n > |args| then Some(f.stack[n - 1]) else None, f))
      case Params(k) => if k == |args| then Jumps(pc + 1, f.(stack := f.stack + args)) else Ends(Lost)
  }

  function RunCode(sem: Semantics, code: FlatCode, args: seq<Value>, pc: nat, f: Frame, fuel: nat): Run<Frame, nat>
    decreases fuel
  {
    if fuel == 0 then Going(pc, f)
    else match Execute(sem, code, args, pc, f)
      case Jumps(pc', f') => RunCode(sem, code, args, pc', f', fuel - 1)
      case Ends(exit) => Ended(exit)
  }

  // ----- runs of stack code compose -----

  lemma {:induction false} RunCodeComposes(
      sem: Semantics, code: FlatCode, args: seq<Value>, pc: nat, f: Frame, k: nat, more: nat)
    requires RunCode(sem, code, args, pc, f, k).Going?
    ensures var r := RunCode(sem, code, args, pc, f, k);
            RunCode(sem, code, args, pc, f, k + more) == RunCode(sem, code, args, r.place, r.state, more)
    decreases k
  {
    if k > 0 {
      var a := Execute(sem, code, args, pc, f);
      RunCodeComposes(sem, code, args, a.pc, a.frame, k - 1, more);
    }
  }

  lemma {:induction false} RunCodeEnds(
      sem: Semantics, code: FlatCode, args: seq<Value>, pc: nat, f: Frame, k: nat, more: nat)
    requires RunCode(sem, code, args, pc, f, k).Ended?
    ensures RunCode(sem, code, args, pc, f, k + more) == RunCode(sem, code, args, pc, f, k)
    decreases k
  {
    var a := Execute(sem, code, args, pc, f);
    if a.Jumps? { RunCodeEnds(sem, code, args, a.pc, a.frame, k - 1, more); }
  }
}
