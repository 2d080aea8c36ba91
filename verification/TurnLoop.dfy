/** The turn loop and its steering handshake (agent/ollama_code/core.py), as a state machine.

    Two threads act: the worker that runs the turn, one shared access at a time, and the interface,
    which steers and interrupts at any moment. A run is any sequence of their actions. */
module TurnLoop {
  import opened Conversation

  /** Where the worker is. Between any two of these the interface may act. */
  datatype PC =
    | Idle                                // no turn
    | Opened                              // the steering window is open, the worker is dispatched
    | Head                                // the loop condition
    | Entered                             // the interrupt check
    | Drain                               // about to apply pending steers
    | Ask                                 // about to call the model
    | Answered                            // a reply without tool calls was stored
    | FinalSteers                         // about to apply late steers or close
    | Blocked                             // Just Chat refused the calls
    | CallCheck(calls: seq<Call>, k: nat)  // before call k: the interrupt check
    | CallSteer(calls: seq<Call>, k: nat)  // before call k: the steer check
    | CallRun(calls: seq<Call>, k: nat)    // running call k
    | CallDone(calls: seq<Call>, k: nat)   // after call k: the steer check
    | Steered                             // the remaining calls were answered for the user
    | AfterCalls                          // all calls were run
    | LastSteers                          // out of iterations: apply late steers or close
    | Closing                             // about to close the window
    | Wrapup                              // the window is closed

  datatype Reply =
    | Failed(partial: string)
    | Reply(content: string, calls: seq<Call>, weight: nat)

  datatype Limit = NoLimit | Calls(n: nat)

  datatype Action =
    | Begin
    | StartTurn(text: string, images: nat, allowTools: bool, limit: Limit)
    | Retry
    | Compact(system: string, summary: string)
    | Advance(choice: Choice)
    | Steer(text: string)
    | InterruptClears
    | InterruptSets

  /** What the worker's environment decides: the model's reply, the conversation after eviction, a
      tool's result, whether a screenshot is pending, whether a final answer is written. */
  datatype Choice = Choice(reply: Reply, trimmed: seq<Message>, result: string, screenshot: bool, answer: string)

  /** Shared with the interface: pending steers, the steer event, whether steers are accepted, and the
      interrupt flag. */
  datatype Steering = Steering(pending: seq<string>, event: bool, accepting: bool, interrupt: bool)

  datatype Turn = Turn(iteration: nat, limit: nat, hardLimit: Limit, allowTools: bool)

  /** The steers accepted since the window opened, where this turn's messages begin, and whether an
      interrupt or a stream error happened. */
  datatype Log = Log(accepted: seq<string>, start: nat, touched: bool, failed: bool)

  datatype State = State(
    pc: PC, messages: seq<Message>, steering: Steering, turn: Turn, log: Log, maxIterations: nat)

  const INTERRUPTED := "Not run: the user interrupted this turn."
  const STEERED_BEFORE := "Not run: the user steered this turn before the action began."
  const STEERED_AFTER := "Not run: the user steered this turn after the current action."
  const JUST_CHAT := "Not run: Just Chat has no tool or workspace access."
  const OBSERVATION := "Newest target-window screenshot from the native computer broker. Use it together with the Accessibility state above."

  function Steers(values: seq<string>): seq<Message>
  {
    seq(|values|, k requires 0 <= k < |values| => User(values[k], 0, false))
  }

  /** Takes the pending steers into the conversation (under the steering lock). */
  function TakeSteers(s: State, next: PC): State
  {
    s.(pc := next, messages := s.messages + Steers(s.steering.pending),
       steering := s.steering.(pending := [], event := false))
  }

  /** Late steers extend the turn; without any the window closes in the same critical section. */
  function TakeSteersOrClose(s: State, closed: PC): State
  {
    if s.steering.pending != [] then TakeSteers(s, Head).(turn := s.turn.(limit := s.turn.limit + 1))
    else s.(pc := closed, steering := s.steering.(event := false, accepting := false))
  }

  function Observe(s: State, screenshot: bool): State
  {
    if screenshot then s.(messages := s.messages + [User(OBSERVATION, 1, true)]) else s
  }

  function LastUser(ms: seq<Message>): (r: int)
    ensures -1 <= r < |ms| && (r >= 0 ==> ms[r].User?)
    ensures forall k :: r < k < |ms| ==> !ms[k].User?
  {
    if ms == [] then -1 else if ms[|ms| - 1].User? then |ms| - 1 else LastUser(ms[..|ms| - 1])
  }

  /** The conversation becomes the new turn's; the window is already open. */
  function EnterLoop(s: State, messages: seq<Message>, allowTools: bool, limit: Limit): State
  {
    s.(pc := Head, messages := messages,
       steering := s.steering.(interrupt := false),
       turn := Turn(0, s.maxIterations, limit, allowTools),
       log := s.log.(start := |messages|, failed := false))
  }

  predicate InCall(pc: PC) { pc.CallCheck? || pc.CallSteer? || pc.CallRun? || pc.CallDone? }

  predicate MayIterate(t: Turn)
  {
    t.iteration < t.limit && (t.hardLimit.Calls? ==> t.iteration < t.hardLimit.n)
  }

  /** The points where the worker only decides where to go next. */
  function Decide(s: State): State
  {
    match s.pc
    case Head =>
      if MayIterate(s.turn) then s.(pc := Entered, turn := s.turn.(iteration := s.turn.iteration + 1))
      else s.(pc := Closing)
    case Entered => s.(pc := if s.steering.interrupt then Closing else Drain)
    case Answered => s.(pc := if s.steering.interrupt then Closing else FinalSteers)
    case Blocked =>
      s.(pc := Head, turn := if s.steering.event then s.turn.(limit := s.turn.limit + 1) else s.turn)
    case Closing => s.(pc := Wrapup, steering := s.steering.(accepting := false))
    case _ => s
  }

  /** The points where pending steers are taken. */
  function Deliver(s: State): State
  {
    match s.pc
    case Drain => TakeSteers(s, Ask)
    case FinalSteers => TakeSteersOrClose(s, Closing)
    case LastSteers => TakeSteersOrClose(s, Head)
    case _ => s
  }

  function AskAppends(allowTools: bool, reply: Reply): seq<Message>
  {
    match reply
    case Failed(partial) => if partial == "" then [] else [Assistant(partial, [], 0)]
    case Reply(content, calls, weight) =>
      [Assistant(content, calls, weight)] + if allowTools then [] else Results(calls, JUST_CHAT)
  }

  /** The conversation is trimmed to fit, then the model is asked. */
  function AskModel(s: State, c: Choice): State
  {
    if !SameButResults(s.messages, c.trimmed) then s
    else
      var told := s.(messages := c.trimmed + AskAppends(s.turn.allowTools, c.reply));
      match c.reply
      case Failed(_) => told.(pc := Closing, log := s.log.(failed := true))
      case Reply(_, calls, _) =>
        told.(pc := if calls == [] then Answered else if !s.turn.allowTools then Blocked else CallCheck(calls, 0))
  }

  /** Where the worker goes from a point in a batch of calls, and what it appends: each call is checked
      for an interrupt, for a steer, run, and checked again. */
  function CallOutcome(pc: PC, interrupt: bool, steerEvent: bool, result: string): (PC, seq<Message>)
    requires InCall(pc)
  {
    var calls, k := pc.calls, pc.k;
    if k >= |calls| then (AfterCalls, [])
    else match pc
      case CallCheck(_, _) =>
        if interrupt then (Closing, Results(calls[k..], INTERRUPTED)) else (CallSteer(calls, k), [])
      case CallSteer(_, _) =>
        if steerEvent then (Steered, Results(calls[k..], STEERED_BEFORE)) else (CallRun(calls, k), [])
      case CallRun(_, _) => (CallDone(calls, k), [Tool(calls[k].name, calls[k].id, result)])
      case CallDone(_, _) =>
        if steerEvent then (Steered, Results(calls[k + 1..], STEERED_AFTER)) else (CallCheck(calls, k + 1), [])
  }

  function DoCall(s: State, result: string): State
    requires InCall(s.pc)
  {
    var (pc, more) := CallOutcome(s.pc, s.steering.interrupt, s.steering.event, result);
    s.(pc := pc, messages := s.messages + more)
  }

  /** After the calls, or the final answer pass after the turn. */
  function Conclude(s: State, c: Choice): State
  {
    match s.pc
    case Steered => Observe(s, c.screenshot).(pc := Head, turn := s.turn.(limit := s.turn.limit + 1))
    case AfterCalls =>
      Observe(s, c.screenshot).(pc := if s.turn.iteration >= s.turn.limit then LastSteers else Head)
    case Wrapup =>
      s.(pc := Idle, messages := if c.answer == "" then s.messages else s.messages + [Assistant(c.answer, [], 0)])
    case _ => s
  }

  function Worker(s: State, c: Choice): State
  {
    match s.pc
    case Ask => AskModel(s, c)
    case Drain => Deliver(s)
    case FinalSteers => Deliver(s)
    case LastSteers => Deliver(s)
    case Steered => Conclude(s, c)
    case AfterCalls => Conclude(s, c)
    case Wrapup => Conclude(s, c)
    case _ => if InCall(s.pc) then DoCall(s, c.result) else Decide(s)
  }

  function Step(s: State, a: Action): State
  {
    match a
    case Begin =>
      if !s.pc.Idle? then s
      else s.(pc := Opened, steering := Steering([], false, true, false), log := s.log.(accepted := [], touched := false))
    case StartTurn(text, images, allowTools, limit) =>
      if !s.pc.Opened? then s else EnterLoop(s, s.messages + [User(text, images, false)], allowTools, limit)
    case Retry =>
      if !s.pc.Opened? then s
      else
        var last := LastUser(s.messages);
        if last < 0 then s.(pc := Idle, steering := s.steering.(accepting := false))
        else EnterLoop(s, s.messages[..last + 1], s.turn.allowTools, NoLimit)
    case Compact(system, summary) =>
      if InTurn(s.pc) then s else s.(messages := [System(system), User(summary, 0, false)])
    case Advance(choice) => Worker(s, choice)
    case Steer(text) => if s.steering.accepting then Accept(s, text) else s
    case InterruptClears =>
      s.(steering := s.steering.(pending := [], event := false), log := s.log.(touched := true))
    case InterruptSets =>
      s.(steering := s.steering.(interrupt := true), log := s.log.(touched := true))
  }

  function Accept(s: State, text: string): State
  {
    s.(steering := s.steering.(pending := s.steering.pending + [text], event := true),
       log := s.log.(accepted := s.log.accepted + [text]))
  }

  predicate InTurn(pc: PC) { !pc.Idle? && !pc.Opened? }

  function Run(s: State, actions: seq<Action>): State
  {
    if actions == [] then s else Step(Run(s, actions[..|actions| - 1]), actions[|actions| - 1])
  }

  predicate Initial(s: State)
  {
    && s.pc == Idle && s.messages == [System("")] && s.maxIterations >= 1
    && s.steering == Steering([], false, false, false) && s.log == Log([], 0, false, false)
  }

  // ----- Tool calls and results -----

  predicate CallInRange(pc: PC)
  {
    match pc
    case CallCheck(calls, k) => k <= |calls|
    case CallSteer(calls, k) => k < |calls|
    case CallRun(calls, k) => k < |calls|
    case CallDone(calls, k) => k < |calls|
    case _ => true
  }

  /** The calls still to be answered. */
  function Awaited(pc: PC): seq<string>
    requires CallInRange(pc)
  {
    match pc
    case CallCheck(calls, k) => Ids(calls[k..])
    case CallSteer(calls, k) => Ids(calls[k..])
    case CallRun(calls, k) => Ids(calls[k..])
    case CallDone(calls, k) => Ids(calls[k + 1..])
    case _ => []
  }

  /** Inside a batch of calls the conversation owes exactly the calls not yet answered; everywhere
      else it owes nothing. */
  predicate PairingHolds(s: State)
  {
    CallInRange(s.pc) && OwedBy(s.messages) == Owes(Awaited(s.pc))
  }

  lemma ReplyOwes(ms: seq<Message>, trimmed: seq<Message>, content: string, calls: seq<Call>, weight: nat)
    requires Paired(ms) && SameButResults(ms, trimmed)
    ensures OwedBy(trimmed + [Assistant(content, calls, weight)]) == Owes(Ids(calls))
  {
    ResultContentsDoNotMatter(ms, trimmed);
    OwedByAppend(trimmed, Assistant(content, calls, weight));
  }

  lemma AskKeepsPairing(s: State, c: Choice)
    requires s.pc.Ask? && PairingHolds(s)
    ensures PairingHolds(AskModel(s, c))
  {
    hide OwedBy, Results;
    if SameButResults(s.messages, c.trimmed) {
      ResultContentsDoNotMatter(s.messages, c.trimmed);
      match c.reply {
        case Failed(partial) =>
          PlainMessagesKeepPaired(c.trimmed, AskAppends(s.turn.allowTools, c.reply));
        case Reply(content, calls, weight) =>
          var told := c.trimmed + [Assistant(content, calls, weight)];
          ReplyOwes(s.messages, c.trimmed, content, calls, weight);
          ResultsSettle(told, calls, JUST_CHAT);
          assert calls[0..] == calls;
          assert c.trimmed + AskAppends(true, c.reply) == told;
          assert c.trimmed + AskAppends(false, c.reply) == told + Results(calls, JUST_CHAT);
      }
    }
  }

  lemma RestSettles(ms: seq<Message>, calls: seq<Call>, k: nat, content: string)
    requires k <= |calls| && OwedBy(ms) == Owes(Ids(calls[k..]))
    ensures Paired(ms + Results(calls[k..], content))
    ensures k == |calls| ==> Paired(ms)
  {
    ResultsSettle(ms, calls[k..], content);
  }

  lemma ResultOwesRest(ms: seq<Message>, calls: seq<Call>, k: nat, content: string)
    requires k < |calls| && OwedBy(ms) == Owes(Ids(calls[k..]))
    ensures OwedBy(ms + [Tool(calls[k].name, calls[k].id, content)]) == Owes(Ids(calls[k + 1..]))
  {
    OwedByAppend(ms, Tool(calls[k].name, calls[k].id, content));
    assert Ids(calls[k..])[1..] == Ids(calls[k + 1..]);
  }

  lemma CallOutcomePairs(ms: seq<Message>, pc: PC, interrupt: bool, steerEvent: bool, result: string)
    requires InCall(pc) && CallInRange(pc) && OwedBy(ms) == Owes(Awaited(pc))
    ensures var (next, more) := CallOutcome(pc, interrupt, steerEvent, result);
            CallInRange(next) && OwedBy(ms + more) == Owes(Awaited(next))
  {
    hide OwedBy, Results, Ids;
    var calls, k := pc.calls, pc.k;
    assert ms + [] == ms;
    match pc {
      case CallCheck(_, _) => RestSettles(ms, calls, k, INTERRUPTED);
      case CallSteer(_, _) => RestSettles(ms, calls, k, STEERED_BEFORE);
      case CallRun(_, _) => ResultOwesRest(ms, calls, k, result);
      case CallDone(_, _) => RestSettles(ms, calls, k + 1, STEERED_AFTER);
    }
  }

  lemma DeliverKeepsPairing(s: State)
    requires !InCall(s.pc) && PairingHolds(s)
    ensures PairingHolds(Deliver(s))
  {
    hide OwedBy, Steers;
    SteersKeepPaired(s.messages, s.steering.pending);
  }

  lemma ConcludeKeepsPairing(s: State, c: Choice)
    requires !InCall(s.pc) && PairingHolds(s)
    ensures PairingHolds(Conclude(s, c))
  {
    hide OwedBy;
    PlainMessagesKeepPaired(s.messages, [User(OBSERVATION, 1, true)]);
    PlainMessagesKeepPaired(s.messages, [Assistant(c.answer, [], 0)]);
  }

  lemma DecideKeepsPairing(s: State)
    requires !InCall(s.pc) && PairingHolds(s)
    ensures PairingHolds(Decide(s))
  {
    hide OwedBy;
  }

  lemma CallKeepsPairing(s: State, result: string)
    requires InCall(s.pc) && PairingHolds(s)
    ensures PairingHolds(DoCall(s, result))
  {
    hide OwedBy, CallOutcome;
    CallOutcomePairs(s.messages, s.pc, s.steering.interrupt, s.steering.event, result);
  }

  lemma WorkerKeepsPairing(s: State, c: Choice)
    requires PairingHolds(s)
    ensures PairingHolds(Worker(s, c))
  {
    hide PairingHolds, AskModel, DoCall, Deliver, Conclude, Decide;
    if InCall(s.pc) {
      CallKeepsPairing(s, c.result);
    } else {
      DecideKeepsPairing(s);
      DeliverKeepsPairing(s);
      ConcludeKeepsPairing(s, c);
      if s.pc.Ask? { AskKeepsPairing(s, c); }
    }
  }

  lemma SteersKeepPaired(ms: seq<Message>, values: seq<string>)
    requires Paired(ms)
    ensures Paired(ms + Steers(values))
  {
    PlainMessagesKeepPaired(ms, Steers(values));
  }

  lemma StepKeepsPairing(s: State, a: Action)
    requires PairingHolds(s)
    ensures PairingHolds(Step(s, a))
  {
    match a
    case Advance(choice) => WorkerKeepsPairing(s, choice);
    case StartTurn(text, images, _, _) =>
      if s.pc.Opened? { PlainMessagesKeepPaired(s.messages, [User(text, images, false)]); }
    case Retry =>
      if s.pc.Opened? && LastUser(s.messages) >= 0 { CutAfterUser(s.messages, LastUser(s.messages) + 1); }
    case Compact(system, summary) =>
      PlainMessagesKeepPaired([], [System(system), User(summary, 0, false)]);
      assert [] + [System(system), User(summary, 0, false)] == [System(system), User(summary, 0, false)];
    case _ =>
  }

  // ----- Steering -----

  /** What the user asked for in a stretch of conversation: user messages that are not observations. */
  function Directions(ms: seq<Message>): seq<string>
  {
    if ms == [] then []
    else
      var m := ms[|ms| - 1];
      Directions(ms[..|ms| - 1]) + if m.User? && !m.observation then [m.content] else []
  }

  function TurnDirections(s: State): seq<string>
    requires s.log.start <= |s.messages|
  {
    Directions(s.messages[s.log.start..])
  }

  lemma {:induction false} DirectionsConcat(ms: seq<Message>, more: seq<Message>)
    ensures Directions(ms + more) == Directions(ms) + Directions(more)
    decreases |more|
  {
    if more == [] {
      assert ms + more == ms;
    } else {
      assert (ms + more)[..|ms + more| - 1] == ms + more[..|more| - 1];
      DirectionsConcat(ms, more[..|more| - 1]);
    }
  }

  lemma {:induction false} DirectionsOfSteers(values: seq<string>)
    ensures Directions(Steers(values)) == values
  {
    if values != [] {
      assert Steers(values)[..|values| - 1] == Steers(values[..|values| - 1]);
      DirectionsOfSteers(values[..|values| - 1]);
    }
  }

  lemma {:induction false} NoDirections(more: seq<Message>)
    requires forall k :: 0 <= k < |more| ==> more[k].User? ==> more[k].observation
    ensures Directions(more) == []
  {
    if more != [] { NoDirections(more[..|more| - 1]); }
  }

  lemma {:induction false} TrimmingKeepsDirections(ms: seq<Message>, ns: seq<Message>)
    requires SameButResults(ms, ns)
    ensures Directions(ms) == Directions(ns)
  {
    if ms != [] { TrimmingKeepsDirections(ms[..|ms| - 1], ns[..|ns| - 1]); }
  }

  /** Appending to the conversation of a turn appends its directions to the turn's. */
  lemma AppendDirections(s: State, more: seq<Message>)
    requires s.log.start <= |s.messages|
    ensures Directions((s.messages + more)[s.log.start..]) == TurnDirections(s) + Directions(more)
  {
    assert (s.messages + more)[s.log.start..] == s.messages[s.log.start..] + more;
    DirectionsConcat(s.messages[s.log.start..], more);
  }

  /** Every accepted steer is in the conversation or pending, in the order accepted. */
  predicate Accounted(s: State)
  {
    && (InTurn(s.pc) ==> s.log.start <= |s.messages|)
    && (!s.log.touched && InTurn(s.pc) ==> s.log.accepted == TurnDirections(s) + s.steering.pending)
    && (!s.log.touched && s.pc.Opened? ==> s.log.accepted == s.steering.pending)
  }

  /** Appending plain messages and leaving the steers alone keeps the account. */
  lemma AppendKeepsAccount(s: State, more: seq<Message>, t: State)
    requires Accounted(s) && InTurn(s.pc)
    requires t.messages == s.messages + more && t.log.start == s.log.start
    requires t.log.accepted == s.log.accepted && t.steering.pending == s.steering.pending && t.log.touched == s.log.touched
    requires !t.pc.Opened? && forall k :: 0 <= k < |more| ==> more[k].User? ==> more[k].observation
    ensures Accounted(t)
  {
    AppendDirections(s, more);
    NoDirections(more);
  }

  lemma DeliverKeepsAccount(s: State)
    requires Accounted(s) && InTurn(s.pc)
    ensures Accounted(Deliver(s))
  {
    hide Directions, Steers;
    AppendDirections(s, Steers(s.steering.pending));
    DirectionsOfSteers(s.steering.pending);
    assert TurnDirections(s) + s.steering.pending + [] == TurnDirections(s) + s.steering.pending;
  }

  lemma TrimKeepsAccount(s: State, trimmed: seq<Message>)
    requires Accounted(s) && InTurn(s.pc) && SameButResults(s.messages, trimmed)
    ensures Accounted(s.(messages := trimmed))
  {
    hide Directions;
    TrimmingKeepsDirections(s.messages[s.log.start..], trimmed[s.log.start..]);
  }

  lemma AskKeepsAccount(s: State, c: Choice)
    requires Accounted(s) && InTurn(s.pc)
    ensures Accounted(AskModel(s, c))
  {
    hide Accounted, Directions, AskAppends;
    if SameButResults(s.messages, c.trimmed) {
      TrimKeepsAccount(s, c.trimmed);
      AskAppendsNoUsers(s.turn.allowTools, c.reply);
      AppendKeepsAccount(s.(messages := c.trimmed), AskAppends(s.turn.allowTools, c.reply), AskModel(s, c));
    }
  }

  lemma AskAppendsNoUsers(allowTools: bool, reply: Reply)
    ensures forall k :: 0 <= k < |AskAppends(allowTools, reply)| ==> !AskAppends(allowTools, reply)[k].User?
  {
  }

  lemma CallKeepsAccount(s: State, result: string)
    requires Accounted(s) && InCall(s.pc)
    ensures Accounted(DoCall(s, result))
  {
    hide Directions, CallOutcome;
    var (_, more) := CallOutcome(s.pc, s.steering.interrupt, s.steering.event, result);
    CallsAppendNoUsers(s.pc, s.steering.interrupt, s.steering.event, result);
    AppendKeepsAccount(s, more, DoCall(s, result));
  }

  lemma DecideKeepsAccount(s: State)
    requires Accounted(s) && InTurn(s.pc)
    ensures Accounted(Decide(s))
  {
    hide Directions;
  }

  lemma WorkerKeepsAccount(s: State, c: Choice)
    requires Accounted(s) && InTurn(s.pc)
    ensures Accounted(Worker(s, c))
  {
    hide Accounted, AskModel, Deliver, DoCall, Decide, Conclude;
    DecideKeepsAccount(s);
    DeliverKeepsAccount(s);
    AskKeepsAccount(s, c);
    ConcludeKeepsAccount(s, c);
    if InCall(s.pc) { CallKeepsAccount(s, c.result); }
  }

  lemma IdleWorker(s: State, c: Choice)
    requires !InTurn(s.pc)
    ensures Worker(s, c) == s
  {
  }

  lemma CallsAppendNoUsers(pc: PC, interrupt: bool, steerEvent: bool, result: string)
    requires InCall(pc)
    ensures var (next, more) := CallOutcome(pc, interrupt, steerEvent, result);
            !next.Opened? && forall k :: 0 <= k < |more| ==> !more[k].User?
  {
  }

  lemma ConcludeKeepsAccount(s: State, c: Choice)
    requires Accounted(s) && InTurn(s.pc)
    ensures Accounted(Conclude(s, c))
  {
    hide Accounted;
    var t := Conclude(s, c);
    if |t.messages| == |s.messages| {
      assert s.messages + [] == s.messages;
      AppendKeepsAccount(s, [], t);
    } else {
      var more := [t.messages[|s.messages|]];
      assert t.messages == s.messages + more;
      AppendKeepsAccount(s, more, t);
    }
  }

  lemma EnterKeepsAccount(s: State, messages: seq<Message>, allowTools: bool, limit: Limit)
    requires Accounted(s) && s.pc.Opened?
    ensures Accounted(EnterLoop(s, messages, allowTools, limit))
  {
    assert messages[|messages|..] == [];
    assert [] + s.steering.pending == s.steering.pending;
  }

  lemma SteerKeepsAccount(s: State, text: string)
    requires Accounted(s)
    ensures Accounted(Step(s, Steer(text)))
  {
    hide Directions;
    if InTurn(s.pc) {
      assert TurnDirections(s) + (s.steering.pending + [text]) == TurnDirections(s) + s.steering.pending + [text];
    }
  }

  lemma StepKeepsAccount(s: State, a: Action)
    requires Accounted(s)
    ensures Accounted(Step(s, a))
  {
    match a {
      case Advance(choice) =>
        hide *;
        if InTurn(s.pc) { WorkerKeepsAccount(s, choice); } else { IdleWorker(s, choice); }
        StepIsWorker(s, choice);
      case Steer(text) => SteerKeepsAccount(s, text);
      case StartTurn(text, images, allowTools, limit) =>
        hide Directions, EnterLoop;
        if s.pc.Opened? { EnterKeepsAccount(s, s.messages + [User(text, images, false)], allowTools, limit); }
      case Retry =>
        hide Directions, EnterLoop;
        if s.pc.Opened? {
          EnterKeepsAccount(s, s.messages[..LastUser(s.messages) + 1], s.turn.allowTools, NoLimit);
        }
      case _ => hide Directions;
    }
  }

  lemma StepIsWorker(s: State, c: Choice)
    ensures Step(s, Advance(c)) == Worker(s, c)
  {
  }

  /** Whether pending steers were taken since the worker last passed the loop condition. */
  predicate Served(pc: PC)
  {
    pc.Ask? || pc.Answered? || pc.FinalSteers? || pc.Blocked? || InCall(pc) || pc.AfterCalls? || pc.LastSteers?
  }

  /** Iterations beyond the configured ones are paid for by accepted steers, each at most once. */
  predicate Budgeted(s: State)
  {
    && s.maxIterations >= 1 && |s.steering.pending| <= |s.log.accepted|
    && (s.steering.event <==> s.steering.pending != []) && (s.steering.interrupt ==> s.log.touched)
    && (InTurn(s.pc) ==>
          && s.turn.iteration <= s.turn.limit && s.maxIterations <= s.turn.limit
          && s.turn.limit + (if s.pc.Steered? then 1 else 0) <= s.maxIterations + |s.log.accepted|
          && (Served(s.pc) ==> s.turn.limit + |s.steering.pending| <= s.maxIterations + |s.log.accepted|))
  }

  predicate Undisturbed(s: State)
  {
    s.turn.allowTools && s.turn.hardLimit.NoLimit? && !s.log.touched && !s.log.failed
  }

  /** In an undisturbed turn the window is already closed, with nothing pending, when the worker leaves. */
  predicate ClosesInTime(s: State)
  {
    && (s.pc.Blocked? ==> !s.turn.allowTools)
    && (Undisturbed(s) && (s.pc.Closing? || s.pc.Wrapup? || (s.pc.Head? && s.turn.iteration >= s.turn.limit)) ==>
          s.steering.pending == [] && !s.steering.accepting)
  }

  predicate Controlled(s: State) { Budgeted(s) && ClosesInTime(s) }

  lemma DecideIsControlled(s: State)
    requires Controlled(s)
    ensures Controlled(Decide(s))
  {
  }

  lemma DeliverIsControlled(s: State)
    requires Controlled(s)
    ensures Controlled(Deliver(s))
  {
    hide Steers;
  }

  lemma AskIsControlled(s: State, c: Choice)
    requires Controlled(s) && s.pc.Ask?
    ensures Controlled(AskModel(s, c))
  {
    hide Results, SameButResults;
  }

  lemma CallIsControlled(s: State, result: string)
    requires Controlled(s) && InCall(s.pc)
    ensures Controlled(DoCall(s, result))
  {
    hide Results;
  }

  lemma ConcludeIsControlled(s: State, c: Choice)
    requires Controlled(s)
    ensures Controlled(Conclude(s, c))
  {
  }

  lemma WorkerIsControlled(s: State, c: Choice)
    requires Controlled(s)
    ensures Controlled(Worker(s, c))
  {
    hide Controlled, Decide, Deliver, AskModel, DoCall, Conclude;
    DecideIsControlled(s);
    DeliverIsControlled(s);
    ConcludeIsControlled(s, c);
    if s.pc.Ask? { AskIsControlled(s, c); }
    if InCall(s.pc) { CallIsControlled(s, c.result); }
  }

  lemma StepIsControlled(s: State, a: Action)
    requires Controlled(s)
    ensures Controlled(Step(s, a))
  {
    hide Worker;
    if a.Advance? { WorkerIsControlled(s, a.choice); }
  }

  // ----- Whole runs -----

  predicate Invariant(s: State) { PairingHolds(s) && Accounted(s) && Controlled(s) }

  lemma {:induction false} RunKeepsInvariant(s: State, actions: seq<Action>)
    requires Initial(s)
    ensures Invariant(Run(s, actions))
  {
    hide PairingHolds, Accounted, Controlled, Step;
    if actions == [] {
      InitialInvariant(s);
    } else {
      var before, a := Run(s, actions[..|actions| - 1]), actions[|actions| - 1];
      RunKeepsInvariant(s, actions[..|actions| - 1]);
      StepKeepsPairing(before, a);
      StepKeepsAccount(before, a);
      StepIsControlled(before, a);
    }
  }

  lemma InitialInvariant(s: State)
    requires Initial(s)
    ensures Invariant(s)
  {
    assert s.messages == [] + [System("")];
    OwedByAppend([], System(""));
  }

  /** In a tool-enabled turn with no interrupt, no stream error and no call limit, once the window is
      closed every steer it accepted is in the conversation of the turn, exactly once and in order,
      and no further steer is accepted. */
  lemma EverySteerIsDelivered(s: State, actions: seq<Action>)
    requires Initial(s)
    ensures var t := Run(s, actions);
            t.pc.Wrapup? && Undisturbed(t) ==>
              t.log.start <= |t.messages| && TurnDirections(t) == t.log.accepted && t.steering.pending == [] && !t.steering.accepting
  {
    RunKeepsInvariant(s, actions);
    var t := Run(s, actions);
    if t.pc.Wrapup? && Undisturbed(t) { assert TurnDirections(t) + [] == TurnDirections(t); }
  }

  /** In any turn, whatever the interleaving, the loop runs at most the configured number of iterations
      plus the number of accepted steers. */
  lemma IterationsAreBounded(s: State, actions: seq<Action>)
    requires Initial(s)
    ensures var t := Run(s, actions);
            InTurn(t.pc) ==> t.turn.iteration <= t.maxIterations + |t.log.accepted|
  {
    RunKeepsInvariant(s, actions);
  }

  /** Whenever no batch of calls is in progress, in particular at every loop head and at the end of a
      turn, each tool call is answered in place and nothing else is. */
  lemma CallsArePaired(s: State, actions: seq<Action>)
    requires Initial(s)
    ensures var t := Run(s, actions);
            !InCall(t.pc) ==> WellPaired(t.messages)
  {
    RunKeepsInvariant(s, actions);
    PairedIffWellPaired(Run(s, actions).messages);
  }

  // ----- Where a steer is lost -----

  lemma Then(s: State, actions: seq<Action>, t: State, a: Action) returns (more: seq<Action>, u: State)
    requires t == Run(s, actions)
    ensures u == Step(t, a) == Run(s, more)
  {
    more, u := actions + [a], Step(t, a);
    assert more[..|actions|] == actions;
  }

  lemma RunNothing(s: State)
    ensures Run(s, []) == s
  {
  }

  /** An undisturbed turn at the head of its loop after `k` iterations, with nothing pending. */
  predicate AtHead(t: State, allowTools: bool, limit: Limit, k: nat)
  {
    && t.pc.Head? && t.steering == Steering([], false, true, false) && !t.log.touched && !t.log.failed
    && t.turn.allowTools == allowTools && t.turn.hardLimit == limit && t.turn.iteration == k
  }

  function Go(t: State, reply: Reply): Action { Advance(Choice(reply, t.messages, "", false, "")) }

  lemma TurnBegins(s: State, allowTools: bool, limit: Limit) returns (actions: seq<Action>, t: State)
    requires Initial(s)
    ensures t == Run(s, actions) && AtHead(t, allowTools, limit, 0) && t.turn.limit == s.maxIterations
  {
    hide Run;
    RunNothing(s);
    actions, t := Then(s, [], s, Begin);
    actions, t := Then(s, actions, t, StartTurn("hi", 0, allowTools, limit));
  }

  /** From the head of a turn that may iterate to the question to the model. */
  lemma TurnAsks(s: State, before: seq<Action>, h: State, allowTools: bool, limit: Limit, k: nat)
    returns (actions: seq<Action>, t: State)
    requires h == Run(s, before) && AtHead(h, allowTools, limit, k) && MayIterate(h.turn)
    ensures t == Run(s, actions) && t.pc.Ask? && t.steering == h.steering && t.log == h.log
    ensures t.turn == h.turn.(iteration := k + 1)
  {
    hide Run, Steers;
    var go := Go(h, Failed(""));
    actions, t := Then(s, before, h, go);
    actions, t := Then(s, actions, t, go);
    actions, t := Then(s, actions, t, go);
  }

  /** A round with a plain answer and a steer that arrives in time: the turn goes on, its limit one higher. */
  lemma SteeredRound(s: State, before: seq<Action>, h: State, allowTools: bool, limit: Limit, k: nat)
    returns (actions: seq<Action>, t: State)
    requires h == Run(s, before) && AtHead(h, allowTools, limit, k) && MayIterate(h.turn)
    ensures t == Run(s, actions) && AtHead(t, allowTools, limit, k + 1) && t.turn.limit == h.turn.limit + 1
  {
    hide Run, Steers;
    actions, t := TurnAsks(s, before, h, allowTools, limit, k);
    actions, t := Then(s, actions, t, Go(t, Reply("", [], 0)));
    actions, t := Then(s, actions, t, Steer("more"));
    actions, t := Then(s, actions, t, Go(t, Failed("")));
    actions, t := Then(s, actions, t, Go(t, Failed("")));
  }

  /** A Just Chat round whose calls are refused. */
  lemma RefusedRound(s: State, before: seq<Action>, h: State, limit: Limit, k: nat) returns (actions: seq<Action>, t: State)
    requires h == Run(s, before) && AtHead(h, false, limit, k) && MayIterate(h.turn)
    ensures t == Run(s, actions) && AtHead(t, false, limit, k + 1) && t.turn.limit == h.turn.limit
  {
    hide Run, Steers, Results;
    actions, t := TurnAsks(s, before, h, false, limit, k);
    actions, t := Then(s, actions, t, Go(t, Reply("", [Call("1", "read")], 0)));
    actions, t := Then(s, actions, t, Go(t, Failed("")));
  }

  lemma {:induction false} LimitIsReached(s: State, allowTools: bool, n: nat, k: nat) returns (actions: seq<Action>, t: State)
    requires Initial(s) && k <= n
    ensures t == Run(s, actions) && AtHead(t, allowTools, Calls(n), k) && t.turn.limit == s.maxIterations + k
  {
    hide Run, AtHead;
    if k == 0 {
      actions, t := TurnBegins(s, allowTools, Calls(n));
    } else {
      actions, t := LimitIsReached(s, allowTools, n, k - 1);
      assert MayIterate(t.turn) by { HeadCounts(t, allowTools, Calls(n), k - 1); }
      actions, t := SteeredRound(s, actions, t, allowTools, Calls(n), k - 1);
    }
  }

  lemma {:induction false} RefusalsUseUpTheTurn(s: State, k: nat) returns (actions: seq<Action>, t: State)
    requires Initial(s) && k <= s.maxIterations
    ensures t == Run(s, actions) && AtHead(t, false, NoLimit, k) && t.turn.limit == s.maxIterations
  {
    hide Run, AtHead;
    if k == 0 {
      actions, t := TurnBegins(s, false, NoLimit);
    } else {
      actions, t := RefusalsUseUpTheTurn(s, k - 1);
      assert MayIterate(t.turn) by { HeadCounts(t, false, NoLimit, k - 1); }
      actions, t := RefusedRound(s, actions, t, NoLimit, k - 1);
    }
  }

  lemma HeadCounts(t: State, allowTools: bool, limit: Limit, k: nat)
    requires AtHead(t, allowTools, limit, k)
    ensures t.turn.iteration == k && t.turn.hardLimit == limit
  {
  }

  /** The window is closed, undisturbed but for the configuration, and an accepted steer is not in the conversation. */
  ghost predicate SteerIsLost(t: State, allowTools: bool, limit: Limit)
  {
    && t.pc.Wrapup? && t.turn.allowTools == allowTools && t.turn.hardLimit == limit && !t.log.touched && !t.log.failed
    && t.log.start <= |t.messages| && TurnDirections(t) != t.log.accepted
  }

  /** A steer that arrives at the head of a turn that may not iterate again is accepted and lost. */
  lemma LateSteerIsLost(s: State, before: seq<Action>, h: State, allowTools: bool, limit: Limit, k: nat)
    returns (actions: seq<Action>)
    requires Initial(s) && h == Run(s, before) && AtHead(h, allowTools, limit, k) && !MayIterate(h.turn)
    ensures SteerIsLost(Run(s, actions), allowTools, limit)
  {
    hide Run;
    var t;
    actions, t := Then(s, before, h, Steer("late"));
    actions, t := Then(s, actions, t, Go(t, Failed("")));
    actions, t := Then(s, actions, t, Go(t, Failed("")));
    RunKeepsInvariant(s, actions);
    assert t.steering.pending == ["late"];
    assert |t.log.accepted| == |TurnDirections(t)| + 1;
  }

  /** A turn with a limit on model calls can lose a steer, whatever the limit. */
  lemma CallLimitLosesASteer(s: State, allowTools: bool, n: nat) returns (actions: seq<Action>)
    requires Initial(s)
    ensures SteerIsLost(Run(s, actions), allowTools, Calls(n))
  {
    hide Run;
    var before, t := LimitIsReached(s, allowTools, n, n);
    actions := LateSteerIsLost(s, before, t, allowTools, Calls(n), n);
  }

  /** A Just Chat turn that spends its iterations on refused calls can lose a steer, whatever their number. */
  lemma JustChatLosesASteer(s: State) returns (actions: seq<Action>)
    requires Initial(s)
    ensures SteerIsLost(Run(s, actions), false, NoLimit)
  {
    hide Run;
    var before, t := RefusalsUseUpTheTurn(s, s.maxIterations);
    actions := LateSteerIsLost(s, before, t, false, NoLimit, s.maxIterations);
  }

  /** A retry that finds no user message closes the window without running the loop, and the steers accepted until
      then stay pending: here one, with neither interrupt nor stream error. */
  lemma EmptyRetryLosesASteer(s: State) returns (actions: seq<Action>)
    requires Initial(s)
    ensures var t := Run(s, actions);
            && t.pc.Idle? && !t.steering.accepting && !t.log.touched && !t.log.failed
            && t.log.accepted == t.steering.pending == ["early"] && t.messages == s.messages
  {
    hide Run;
    var t;
    RunNothing(s);
    actions, t := Then(s, [], s, Begin);
    actions, t := Then(s, actions, t, Steer("early"));
    assert LastUser(t.messages) < 0;
    actions, t := Then(s, actions, t, Retry);
  }

  /** No turn of this configuration that runs its loop to the end without interrupt or stream error loses a steer. */
  ghost predicate NeverLoses(maxIterations: nat, allowTools: bool, limit: Limit)
  {
    forall s, actions :: Initial(s) && s.maxIterations == maxIterations ==> !SteerIsLost(Run(s, actions), allowTools, limit)
  }

  /** Every accepted steer is delivered in every such turn that runs its loop exactly when tools are allowed and the
      number of model calls is not limited. */
  lemma SteersAreDeliveredIff(maxIterations: nat, allowTools: bool, limit: Limit)
    requires maxIterations >= 1
    ensures NeverLoses(maxIterations, allowTools, limit) <==> allowTools && limit.NoLimit?
  {
    if allowTools && limit.NoLimit? {
      forall s, actions | Initial(s) && s.maxIterations == maxIterations
        ensures !SteerIsLost(Run(s, actions), allowTools, limit)
      {
        EverySteerIsDelivered(s, actions);
      }
    } else {
      var s := State(Idle, [System("")], Steering([], false, false, false), Turn(0, 0, NoLimit, false),
                     Log([], 0, false, false), maxIterations);
      assert Initial(s) && s.maxIterations == maxIterations;
      hide Run, SteerIsLost;
      if limit.Calls? {
        var actions := CallLimitLosesASteer(s, allowTools, limit.n);
        assert !NeverLoses(maxIterations, allowTools, limit);
      } else {
        var actions := JustChatLosesASteer(s);
        assert !NeverLoses(maxIterations, allowTools, limit);
      }
    }
  }
}
