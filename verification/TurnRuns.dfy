/** What a user sees of whole runs of the turn loop (agent/ollama_code/core.py): what an interrupt and a steer
    stop, how each tool call is answered, when the steering window is open, and that every turn ends. */
module TurnRuns {
  import opened Conversation
  import opened TurnLoop

  // ----- Counting -----

  /** The worker runs a tool call at this step. */
  predicate RunsCall(s: State, a: Action) { a.Advance? && s.pc.CallRun? && s.pc.k < |s.pc.calls| }

  /** The worker asks the model at this step. */
  predicate AsksModel(s: State, a: Action)
  {
    a.Advance? && s.pc.Ask? && SameButResults(s.messages, a.choice.trimmed)
  }

  /** The outputs of the tool calls run along the actions, in order. */
  function Outputs(s: State, actions: seq<Action>): seq<string>
  {
    if actions == [] then []
    else
      var before, a := actions[..|actions| - 1], actions[|actions| - 1];
      Outputs(s, before) + if RunsCall(Run(s, before), a) then [a.choice.result] else []
  }

  /** How often the model is asked along the actions. */
  function Questions(s: State, actions: seq<Action>): nat
  {
    if actions == [] then 0
    else
      var before, a := actions[..|actions| - 1], actions[|actions| - 1];
      Questions(s, before) + if AsksModel(Run(s, before), a) then 1 else 0
  }

  /** No new turn is started, and the conversation is not compacted. */
  predicate SameTurn(actions: seq<Action>)
  {
    forall k :: 0 <= k < |actions| ==>
      actions[k].Advance? || actions[k].Steer? || actions[k].InterruptSets? || actions[k].InterruptClears?
  }

  // ----- What an interrupt stops -----

  /** A call that may still be run after an interrupt. */
  function CallUnderway(pc: PC): nat { if pc.CallSteer? || pc.CallRun? then 1 else 0 }

  /** A question that may still be asked after an interrupt. */
  function QuestionUnderway(pc: PC): nat { if pc.Drain? || pc.Ask? then 1 else 0 }

  lemma InterruptStep(s: State, a: Action)
    requires s.steering.interrupt && SameTurn([a])
    ensures var t := Step(s, a);
            && t.steering.interrupt
            && CallUnderway(t.pc) + (if RunsCall(s, a) then 1 else 0) <= CallUnderway(s.pc)
            && QuestionUnderway(t.pc) + (if AsksModel(s, a) then 1 else 0) <= QuestionUnderway(s.pc)
  {
    hide Results, Steers, AskAppends, SameButResults;
    assert SameTurn([a]) ==> [a][0] == a;
  }

  /** After an interrupt the turn runs at most the call and asks at most the question whose check is already
      past: none unless the worker stands between that check and the act. */
  lemma {:induction false} InterruptStops(s: State, actions: seq<Action>)
    requires s.steering.interrupt && SameTurn(actions)
    ensures var t := Run(s, actions);
            && t.steering.interrupt
            && |Outputs(s, actions)| + CallUnderway(t.pc) <= CallUnderway(s.pc)
            && Questions(s, actions) + QuestionUnderway(t.pc) <= QuestionUnderway(s.pc)
    decreases |actions|
  {
    if actions != [] {
      var before, a := actions[..|actions| - 1], actions[|actions| - 1];
      InterruptStops(s, before);
      InterruptStep(Run(s, before), a);
    }
  }

  /** From the moment the user interrupts, whatever comes after. */
  lemma InterruptEndsTheWork(s: State, actions: seq<Action>)
    requires SameTurn(actions)
    ensures var t := Step(s, InterruptSets);
            && t.pc == s.pc && t.messages == s.messages
            && |Outputs(t, actions)| <= CallUnderway(s.pc) && Questions(t, actions) <= QuestionUnderway(s.pc)
  {
    InterruptStops(Step(s, InterruptSets), actions);
  }

  // ----- What a steer stops -----

  /** A steer is waiting at every point of the run. */
  ghost predicate SteerWaits(s: State, actions: seq<Action>)
  {
    forall k :: 0 <= k <= |actions| ==> Run(s, actions[..k]).steering.event
  }

  lemma SteerLetsNoCallBegin(s: State, a: Action)
    requires s.steering.event && Step(s, a).steering.event && SameTurn([a])
    ensures Step(s, a).pc.CallRun? ==> s.pc.CallRun? && !RunsCall(s, a)
  {
    hide Results, Steers, AskAppends, SameButResults;
    assert SameTurn([a]) ==> [a][0] == a;
  }

  lemma SteerLetsNoQuestionBegin(s: State, a: Action)
    requires s.steering.event && Step(s, a).steering.event && SameTurn([a])
    ensures Step(s, a).pc.Ask? ==> s.pc.Ask? && !AsksModel(s, a)
  {
    hide Results, Steers, AskAppends, SameButResults;
    assert SameTurn([a]) ==> [a][0] == a;
  }

  /** While a steer waits to be taken into the conversation, the turn runs no call and asks no question but the
      one the worker is at when it arrives. */
  lemma {:induction false} SteerStops(s: State, actions: seq<Action>)
    requires SteerWaits(s, actions) && SameTurn(actions)
    ensures var t := Run(s, actions);
            && |Outputs(s, actions)| + (if t.pc.CallRun? then 1 else 0) <= (if s.pc.CallRun? then 1 else 0)
            && Questions(s, actions) + (if t.pc.Ask? then 1 else 0) <= (if s.pc.Ask? then 1 else 0)
    decreases |actions|
  {
    if actions != [] {
      var before, a := actions[..|actions| - 1], actions[|actions| - 1];
      forall k | 0 <= k <= |before| ensures Run(s, before[..k]).steering.event { assert before[..k] == actions[..k]; }
      assert actions[..|actions|] == actions;
      SteerStops(s, before);
      hide Step;
      SteerLetsNoCallBegin(Run(s, before), a);
      SteerLetsNoQuestionBegin(Run(s, before), a);
    }
  }

  // ----- Just Chat and the limit of model calls -----

  /** Calls are under way only where tools are allowed. */
  predicate CallsAreAllowed(s: State) { InCall(s.pc) ==> s.turn.allowTools }

  lemma AllowedStep(s: State, a: Action)
    requires CallsAreAllowed(s)
    ensures CallsAreAllowed(Step(s, a))
    ensures !a.StartTurn? ==> Step(s, a).turn.allowTools == s.turn.allowTools
  {
    hide Results, Steers, AskAppends, SameButResults;
  }

  /** In Just Chat no tool call is ever run: not in this turn, nor when it is retried. */
  lemma {:induction false} JustChatRunsNothing(s: State, actions: seq<Action>)
    requires CallsAreAllowed(s) && !s.turn.allowTools && forall k :: 0 <= k < |actions| ==> !actions[k].StartTurn?
    ensures var t := Run(s, actions);
            Outputs(s, actions) == [] && CallsAreAllowed(t) && !t.turn.allowTools
    decreases |actions|
  {
    hide Step;
    if actions != [] {
      var before, a := actions[..|actions| - 1], actions[|actions| - 1];
      JustChatRunsNothing(s, before);
      AllowedStep(Run(s, before), a);
    }
  }

  lemma {:induction false} CallsAreAllowedAlways(s: State, actions: seq<Action>)
    requires Initial(s)
    ensures CallsAreAllowed(Run(s, actions))
    decreases |actions|
  {
    hide Step;
    if actions != [] {
      CallsAreAllowedAlways(s, actions[..|actions| - 1]);
      AllowedStep(Run(s, actions[..|actions| - 1]), actions[|actions| - 1]);
    }
  }

  /** The worker has counted an iteration whose question is not asked yet. */
  function Counted(pc: PC): nat { if pc.Entered? || pc.Drain? || pc.Ask? then 1 else 0 }

  lemma QuestionStep(s: State, a: Action)
    requires SameTurn([a])
    ensures var t := Step(s, a);
            && (if AsksModel(s, a) then 1 else 0) + s.turn.iteration + Counted(t.pc) <= t.turn.iteration + Counted(s.pc)
            && t.turn.hardLimit == s.turn.hardLimit
            && (s.turn.hardLimit.Calls? ==> t.turn.iteration <= s.turn.iteration || t.turn.iteration <= s.turn.hardLimit.n)
  {
    hide Results, Steers, AskAppends, SameButResults;
    assert SameTurn([a]) ==> [a][0] == a;
  }

  /** Each question to the model is paid for by an iteration, and with a limit on model calls there are no more
      questions in a turn than the limit. */
  lemma {:induction false} QuestionsAreLimited(s: State, actions: seq<Action>)
    requires s.pc.Head? && s.turn.iteration == 0 && SameTurn(actions)
    ensures var t := Run(s, actions);
            && Questions(s, actions) + Counted(t.pc) <= t.turn.iteration && t.turn.hardLimit == s.turn.hardLimit
            && (s.turn.hardLimit.Calls? ==> t.turn.iteration <= s.turn.hardLimit.n)
    decreases |actions|
  {
    if actions != [] {
      var before, a := actions[..|actions| - 1], actions[|actions| - 1];
      QuestionsAreLimited(s, before);
      QuestionStep(Run(s, before), a);
    }
  }

  // ----- How a batch of calls is answered -----

  /** The first calls are answered with their outputs, the others with one and the same text. */
  ghost predicate Answered(ms: seq<Message>, base: seq<Message>, calls: seq<Call>, outputs: seq<string>, text: string)
  {
    && |outputs| <= |calls| && |ms| == |base| + |calls| && ms[..|base|] == base
    && forall j :: 0 <= j < |calls| ==>
         ms[|base| + j] == Tool(calls[j].name, calls[j].id, if j < |outputs| then outputs[j] else text)
  }

  /** The calls run so far are answered with their outputs. */
  ghost predicate Answering(s: State, base: seq<Message>, calls: seq<Call>, outputs: seq<string>)
  {
    && InCall(s.pc) && s.pc.calls == calls && |outputs| == s.pc.k + (if s.pc.CallDone? then 1 else 0) <= |calls|
    && |s.messages| == |base| + |outputs| && s.messages[..|base|] == base
    && forall j :: 0 <= j < |outputs| ==> s.messages[|base| + j] == Tool(calls[j].name, calls[j].id, outputs[j])
  }

  /** How the batch was left. */
  ghost predicate Left(before: State, t: State, base: seq<Message>, calls: seq<Call>, outputs: seq<string>)
  {
    || (t.pc.AfterCalls? && |outputs| == |calls| && Answered(t.messages, base, calls, outputs, ""))
    || (t.pc.Closing? && before.steering.interrupt && |outputs| < |calls|
        && Answered(t.messages, base, calls, outputs, "Not run: the user interrupted this turn."))
    || (t.pc.Steered? && before.steering.event && before.pc.CallSteer? && |outputs| < |calls|
        && Answered(t.messages, base, calls, outputs, "Not run: the user steered this turn before the action began."))
    || (t.pc.Steered? && before.steering.event && before.pc.CallDone?
        && Answered(t.messages, base, calls, outputs, "Not run: the user steered this turn after the current action."))
  }

  lemma BatchStep(s: State, a: Action, base: seq<Message>, calls: seq<Call>, outputs: seq<string>)
    requires Answering(s, base, calls, outputs)
    ensures var t := Step(s, a);
            var more := outputs + if RunsCall(s, a) then [a.choice.result] else [];
            if InCall(t.pc) then Answering(t, base, calls, more) else Left(s, t, base, calls, more)
  {
    if a.Advance? { BatchAdvance(s, a.choice, base, calls, outputs); } else { assert outputs + [] == outputs; }
  }

  lemma BatchAdvance(s: State, c: Choice, base: seq<Message>, calls: seq<Call>, outputs: seq<string>)
    requires Answering(s, base, calls, outputs)
    ensures var t := Step(s, Advance(c));
            var more := outputs + if RunsCall(s, Advance(c)) then [c.result] else [];
            if InCall(t.pc) then Answering(t, base, calls, more) else Left(s, t, base, calls, more)
  {
    assert outputs + [] == outputs && s.messages + [] == s.messages;
    if s.pc.CallRun? && s.pc.k < |calls| {
      BatchGrows(s, c, base, calls, outputs);
    } else if s.pc.k < |calls| && (if s.pc.CallCheck? then s.steering.interrupt else s.steering.event) {
      BatchIsCutShort(s, c, base, calls, outputs);
    } else {
      hide Results;
    }
  }

  lemma BatchGrows(s: State, c: Choice, base: seq<Message>, calls: seq<Call>, outputs: seq<string>)
    requires Answering(s, base, calls, outputs) && s.pc.CallRun? && s.pc.k < |calls|
    ensures Answering(Step(s, Advance(c)), base, calls, outputs + [c.result])
  {
    hide Results;
    var t := Step(s, Advance(c));
    assert t.messages == s.messages + [Tool(calls[s.pc.k].name, calls[s.pc.k].id, c.result)];
    assert t.messages[..|base|] == s.messages[..|base|];
  }

  lemma BatchIsCutShort(s: State, c: Choice, base: seq<Message>, calls: seq<Call>, outputs: seq<string>)
    requires Answering(s, base, calls, outputs) && s.pc.k < |calls| && !s.pc.CallRun?
    requires if s.pc.CallCheck? then s.steering.interrupt else s.steering.event
    ensures var t := Step(s, Advance(c)); !InCall(t.pc) && Left(s, t, base, calls, outputs)
  {
    var t := Step(s, Advance(c));
    assert t.messages[..|base|] == s.messages[..|base|];
  }

  lemma BatchBegins(s: State)
    requires s.pc.CallCheck? && s.pc.k == 0
    ensures Answering(s, s.messages, s.pc.calls, [])
  {
    assert s.messages[..|s.messages|] == s.messages;
  }

  /** The batch is under way at every point before the last. */
  ghost predicate InBatch(s: State, actions: seq<Action>)
  {
    forall k :: 0 <= k < |actions| ==> InCall(Run(s, actions[..k]).pc)
  }

  /** However the interface acts meanwhile, a batch of calls is answered in order: the calls that were run with
      their outputs, and the others, if an interrupt or a steer came, each with the text that says so. */
  lemma {:induction false} BatchIsAnswered(s: State, actions: seq<Action>)
    requires s.pc.CallCheck? && s.pc.k == 0 && InBatch(s, actions)
    ensures var t, calls, outputs := Run(s, actions), s.pc.calls, Outputs(s, actions);
            if InCall(t.pc) then Answering(t, s.messages, calls, outputs)
            else |actions| > 0 && Left(Run(s, actions[..|actions| - 1]), t, s.messages, calls, outputs)
    decreases |actions|
  {
    hide Step, Left, Answering, RunsCall;
    if actions == [] {
      BatchBegins(s);
    } else {
      var before, a := actions[..|actions| - 1], actions[|actions| - 1];
      forall k | 0 <= k < |before| ensures InCall(Run(s, before[..k]).pc) { assert before[..k] == actions[..k]; }
      BatchIsAnswered(s, before);
      assert InCall(Run(s, actions[..|actions| - 1]).pc);
      BatchStep(Run(s, before), a, s.messages, s.pc.calls, Outputs(s, before));
    }
  }

  function Result(text: string): Action { Advance(Choice(Failed(""), [], text, false, "")) }

  lemma OneMore(s: State, actions: seq<Action>, t: State, a: Action)
    requires t == Run(s, actions)
    ensures Run(s, actions + [a]) == Step(t, a)
    ensures Outputs(s, actions + [a]) == Outputs(s, actions) + if RunsCall(t, a) then [a.choice.result] else []
  {
    hide Step, RunsCall;
    assert (actions + [a])[..|actions|] == actions;
  }

  /** Between interrupt and steer checks that find nothing, one call is run. */
  lemma QuietCall(s: State, before: seq<Action>, t: State, result: string) returns (actions: seq<Action>, u: State)
    requires t == Run(s, before) && t.pc.CallCheck? && t.pc.k < |t.pc.calls| && !t.steering.interrupt && !t.steering.event
    ensures u == Run(s, actions) && u.pc == CallCheck(t.pc.calls, t.pc.k + 1) && u.steering == t.steering
    ensures Outputs(s, actions) == Outputs(s, before) + [result]
    ensures actions == before + [Result(result), Result(result), Result(result), Result(result)]
  {
    hide Run, Outputs, Results;
    var a := Result(result);
    OneMore(s, before, t, a);
    OneMore(s, before + [a], Step(t, a), a);
    OneMore(s, before + [a] + [a], Step(Step(t, a), a), a);
    OneMore(s, before + [a] + [a] + [a], Step(Step(Step(t, a), a), a), a);
    actions, u := before + [a] + [a] + [a] + [a], Step(Step(Step(Step(t, a), a), a), a);
    assert Outputs(s, before) + [] + [] + [result] + [] == Outputs(s, before) + [result];
  }

  /** When no interrupt and no steer comes, every call of the batch is run. */
  lemma {:induction false} QuietBatchRunsAll(s: State, results: seq<string>) returns (actions: seq<Action>)
    requires s.pc.CallCheck? && s.pc.k + |results| <= |s.pc.calls| && !s.steering.interrupt && !s.steering.event
    ensures forall k :: 0 <= k < |actions| ==> actions[k].Advance?
    ensures Outputs(s, actions) == results
    ensures var t := Run(s, actions); t.pc == CallCheck(s.pc.calls, s.pc.k + |results|) && t.steering == s.steering
    ensures s.pc.k + |results| == |s.pc.calls| ==> Run(s, actions + [Result("")]).pc.AfterCalls?
    decreases |results|
  {
    hide Step, RunsCall;
    if results == [] {
      actions := [];
    } else {
      var n := |results| - 1;
      actions := QuietBatchRunsAll(s, results[..n]);
      var t;
      actions, t := QuietCall(s, actions, Run(s, actions), results[n]);
    }
    BatchEnds(Run(s, actions));
    OneMore(s, actions, Run(s, actions), Result(""));
  }

  lemma BatchEnds(s: State)
    requires s.pc.CallCheck?
    ensures s.pc.k == |s.pc.calls| ==> Step(s, Result("")).pc.AfterCalls?
  {
  }

  // ----- The steering window -----

  /** The window is open for steers until the turn closes: it is shut early only when no iteration is left. */
  predicate WindowIsOpen(s: State)
  {
    && (s.pc.Opened? ==> s.steering.accepting) && (s.pc.LastSteers? ==> s.turn.iteration >= s.turn.limit)
    && (InTurn(s.pc) && !s.pc.Closing? && !s.pc.Wrapup? && !s.steering.accepting ==>
          s.pc.Head? && s.turn.iteration >= s.turn.limit)
  }

  lemma WindowStep(s: State, a: Action)
    requires WindowIsOpen(s)
    ensures WindowIsOpen(Step(s, a))
  {
    hide Results, Steers, AskAppends, SameButResults;
  }

  /** While a turn can go on, steers are accepted. */
  lemma {:induction false} SteersAreAccepted(s: State, actions: seq<Action>)
    requires Initial(s)
    ensures WindowIsOpen(Run(s, actions))
    decreases |actions|
  {
    hide Step;
    if actions == [] {
    } else {
      SteersAreAccepted(s, actions[..|actions| - 1]);
      WindowStep(Run(s, actions[..|actions| - 1]), actions[|actions| - 1]);
    }
  }

  // ----- The conversation of a turn -----

  /** What was in the conversation still is, except that the contents of results may have been stubbed. */
  ghost predicate Keeps(ms: seq<Message>, ns: seq<Message>) { |ms| <= |ns| && SameButResults(ms, ns[..|ms|]) }

  lemma KeepsTwice(ms: seq<Message>, ns: seq<Message>, ps: seq<Message>)
    requires Keeps(ms, ns) && Keeps(ns, ps)
    ensures Keeps(ms, ps)
  {
    forall k | 0 <= k < |ms| ensures ps[k] == if ms[k].Tool? && ps[k].Tool? then Tool(ms[k].name, ms[k].callId, ps[k].content) else ms[k] {
      assert ns[..|ms|][k] == ns[k] && ps[..|ns|][k] == ps[k] && ps[..|ms|][k] == ps[k];
    }
  }

  lemma KeepsWhatGrows(ms: seq<Message>, trimmed: seq<Message>, more: seq<Message>)
    requires SameButResults(ms, trimmed)
    ensures Keeps(ms, trimmed + more)
  {
    assert (trimmed + more)[..|ms|] == trimmed;
  }

  lemma StepKeepsMessages(s: State, a: Action)
    requires SameTurn([a])
    ensures Keeps(s.messages, Step(s, a).messages)
  {
    assert SameTurn([a]) ==> [a][0] == a;
    assert s.messages[..|s.messages|] == s.messages;
    hide Results, Steers, AskAppends, CallOutcome;
    if a.Advance? && s.pc.Ask? && SameButResults(s.messages, a.choice.trimmed) {
      KeepsWhatGrows(s.messages, a.choice.trimmed, AskAppends(s.turn.allowTools, a.choice.reply));
    } else {
      var t := Step(s, a);
      assert s.messages <= t.messages;
      KeepsWhatGrows(s.messages, s.messages, t.messages[|s.messages|..]);
      assert t.messages == s.messages + t.messages[|s.messages|..];
    }
  }

  /** A turn drops nothing from the conversation. */
  lemma {:induction false} TurnKeepsMessages(s: State, actions: seq<Action>)
    requires SameTurn(actions)
    ensures Keeps(s.messages, Run(s, actions).messages)
    decreases |actions|
  {
    if actions == [] {
      assert s.messages[..|s.messages|] == s.messages;
    } else {
      hide Step, Keeps;
      var before, a := actions[..|actions| - 1], actions[|actions| - 1];
      TurnKeepsMessages(s, before);
      StepKeepsMessages(Run(s, before), a);
      KeepsTwice(s.messages, Run(s, before).messages, Run(s, actions).messages);
    }
  }

  /** The reply of the model is stored as it came: a broken stream keeps what it brought, and in Just Chat each
      call is refused. */
  lemma ReplyIsStored(s: State, c: Choice)
    requires AsksModel(s, Advance(c))
    ensures var t := Step(s, Advance(c));
            match c.reply
            case Failed(partial) =>
              t.pc.Closing? && t.messages == if partial == "" then c.trimmed else c.trimmed + [Assistant(partial, [], 0)]
            case Reply(content, calls, weight) =>
              var told := c.trimmed + [Assistant(content, calls, weight)];
              if calls == [] then t.pc.Answered? && t.messages == told
              else if s.turn.allowTools then t.pc == CallCheck(calls, 0) && t.messages == told
              else
                t.pc.Blocked? && Answered(t.messages, told, calls, [], "Not run: Just Chat has no tool or workspace access.")
  {
    match c.reply
    case Failed(partial) =>
    case Reply(content, calls, weight) =>
      var told := c.trimmed + [Assistant(content, calls, weight)];
      assert (told + Results(calls, JUST_CHAT))[..|told|] == told;
      assert [Assistant(content, calls, weight)] + [] == [Assistant(content, calls, weight)];
      assert c.trimmed + ([Assistant(content, calls, weight)] + Results(calls, JUST_CHAT)) == told + Results(calls, JUST_CHAT);
  }

  /** Steers enter the conversation in the order they came, each as a message of the user. */
  lemma SteersAreStored(s: State, c: Choice)
    requires s.pc.Drain? || s.pc.FinalSteers? || s.pc.LastSteers?
    ensures var t, n := Step(s, Advance(c)), |s.messages|;
            && t.steering.pending == [] && |t.messages| == n + |s.steering.pending| && t.messages[..n] == s.messages
            && forall j :: 0 <= j < |s.steering.pending| ==> t.messages[n + j] == User(s.steering.pending[j], 0, false)
  {
    assert s.messages[..|s.messages|] == s.messages;
  }

  /** An answer the user interrupted ends the turn, and steers that came late are not taken. */
  lemma InterruptedAnswerEnds(s: State, c: Choice)
    requires s.pc.Answered?
    ensures var t := Step(s, Advance(c));
            t == s.(pc := t.pc) && (t.pc.Closing? <==> s.steering.interrupt) && (t.pc.FinalSteers? <==> !s.steering.interrupt)
  {
  }

  /** After the calls a pending screenshot is shown, and at the end a final answer is stored. */
  lemma LastWords(s: State, c: Choice)
    ensures s.pc.Steered? || s.pc.AfterCalls? ==>
              Step(s, Advance(c)).messages == if !c.screenshot then s.messages else s.messages + [User(OBSERVATION, 1, true)]
    ensures s.pc.Wrapup? ==>
              Step(s, Advance(c)).messages == if c.answer == "" then s.messages else s.messages + [Assistant(c.answer, [], 0)]
  {
  }

  /** A turn begins with the message of the user, and compaction, outside turns only, leaves the system message
      and the summary. */
  lemma FirstWords(s: State, text: string, images: nat, allowTools: bool, limit: Limit, system: string, summary: string)
    ensures var t := Step(s, StartTurn(text, images, allowTools, limit));
            if s.pc.Opened? then
              t.pc.Head? && t.messages == s.messages + [User(text, images, false)] && t.turn == Turn(0, s.maxIterations, limit, allowTools)
              && !t.steering.interrupt && t.steering.pending == s.steering.pending
            else t == s
    ensures var t := Step(s, Compact(system, summary));
            t.pc == s.pc
            && t.messages == if s.pc.Idle? || s.pc.Opened? then [System(system), User(summary, 0, false)] else s.messages
  {
  }

  /** A retry cuts the conversation after its last user message and answers it again with the same permission. */
  lemma RetryAnswersAgain(s: State, n: nat)
    requires s.pc.Opened? && n < |s.messages| && s.messages[n].User?
    requires forall k :: n < k < |s.messages| ==> !s.messages[k].User?
    ensures var t := Step(s, Retry);
            && t.pc.Head? && t.messages == s.messages[..n + 1] && t.turn == Turn(0, s.maxIterations, NoLimit, s.turn.allowTools)
            && !t.steering.interrupt && t.steering.pending == s.steering.pending
  {
    var last := LastUser(s.messages);
    assert last >= n;
  }

  // ----- Every turn ends -----

  /** The worker alone, for n steps. */
  ghost function Goes(s: State, env: State -> Choice, n: nat): State
    decreases n
  {
    if n == 0 then s else Goes(Step(s, Advance(env(s))), env, n - 1)
  }

  function Stage(pc: PC): nat
  {
    match pc
    case Entered => 12
    case Drain => 11
    case Ask => 10
    case Answered => 9
    case FinalSteers => 8
    case Blocked => 8
    case Steered => 6
    case AfterCalls => 6
    case LastSteers => 5
    case Head => 4
    case Closing => 3
    case Wrapup => 2
    case _ => if InCall(pc) then 7 else 0
  }

  function CallsLeft(pc: PC): nat
  {
    match pc
    case CallCheck(calls, k) => if k > |calls| then 0 else 4 * (|calls| - k) + 3
    case CallSteer(calls, k) => if k > |calls| then 0 else 4 * (|calls| - k) + 2
    case CallRun(calls, k) => if k > |calls| then 0 else 4 * (|calls| - k) + 1
    case CallDone(calls, k) => if k > |calls| then 0 else 4 * (|calls| - k)
    case _ => 0
  }

  function IterationsLeft(s: State): int { s.maxIterations + |s.log.accepted| - s.turn.iteration }

  /** Fewer iterations are left, or the worker is further in this one. */
  predicate Nearer(s: State, t: State)
  {
    || 0 <= IterationsLeft(t) < IterationsLeft(s)
    || (IterationsLeft(t) == IterationsLeft(s)
        && (Stage(t.pc) < Stage(s.pc) || (Stage(t.pc) == Stage(s.pc) && CallsLeft(t.pc) < CallsLeft(s.pc))))
  }

  lemma DecidesNearer(s: State)
    requires Controlled(s) && InTurn(s.pc) && (s.pc.Head? || s.pc.Entered? || s.pc.Answered? || s.pc.Blocked? || s.pc.Closing?)
    ensures Nearer(s, Decide(s)) && InTurn(Decide(s).pc)
  {
  }

  lemma DeliversNearer(s: State)
    requires s.pc.Drain? || s.pc.FinalSteers? || s.pc.LastSteers?
    ensures Nearer(s, Deliver(s)) && InTurn(Deliver(s).pc)
  {
    hide Steers;
  }

  lemma ConcludesNearer(s: State, c: Choice)
    requires s.pc.Steered? || s.pc.AfterCalls? || s.pc.Wrapup?
    ensures Nearer(s, Conclude(s, c)) && (InTurn(Conclude(s, c).pc) || Conclude(s, c).pc.Idle?)
  {
  }

  lemma CallsNearer(s: State, result: string)
    requires InCall(s.pc)
    ensures Nearer(s, DoCall(s, result)) && InTurn(DoCall(s, result).pc)
  {
    hide Results;
  }

  lemma AsksNearer(s: State, c: Choice)
    requires s.pc.Ask? && SameButResults(s.messages, c.trimmed)
    ensures Nearer(s, AskModel(s, c)) && InTurn(AskModel(s, c).pc)
  {
    hide AskAppends, SameButResults;
  }

  lemma WorkerMakesProgress(s: State, c: Choice)
    requires Controlled(s) && InTurn(s.pc) && SameButResults(s.messages, c.trimmed)
    ensures var t := Step(s, Advance(c)); Nearer(s, t) && (InTurn(t.pc) || t.pc.Idle?)
  {
    StepIsWorker(s, c);
    hide Nearer, Controlled, SameButResults, Step, Decide, Deliver, Conclude, DoCall, AskModel;
    match s.pc
    case Ask => AsksNearer(s, c);
    case Drain => DeliversNearer(s);
    case FinalSteers => DeliversNearer(s);
    case LastSteers => DeliversNearer(s);
    case Steered => ConcludesNearer(s, c);
    case AfterCalls => ConcludesNearer(s, c);
    case Wrapup => ConcludesNearer(s, c);
    case _ => if InCall(s.pc) { CallsNearer(s, c.result); } else { DecidesNearer(s); }
  }

  /** Unless the user steers for ever, a turn ends, whatever the model replies and however many calls it makes. */
  lemma {:induction false} TurnEnds(s: State, env: State -> Choice) returns (n: nat)
    requires Controlled(s) && InTurn(s.pc) && forall t: State :: SameButResults(t.messages, env(t).trimmed)
    ensures Goes(s, env, n).pc.Idle?
    decreases IterationsLeft(s), Stage(s.pc), CallsLeft(s.pc)
  {
    hide Step, Controlled, SameButResults;
    var a := Advance(env(s));
    WorkerMakesProgress(s, env(s));
    StepIsControlled(s, a);
    var t := Step(s, a);
    if t.pc.Idle? {
      n := 1;
      assert Goes(t, env, 0) == t;
    } else {
      var m := TurnEnds(t, env);
      n := m + 1;
    }
  }

  /** In a Just Chat round a steer that came while calls were refused is paid for with an iteration and delivered. */
  lemma RefusedRoundIsPaidFor(s: State, c: Choice)
    requires s.pc.Blocked? && s.steering.event && !s.steering.interrupt && s.turn.hardLimit.NoLimit?
    requires s.turn.iteration <= s.turn.limit
    ensures var t := Goes(s, _ => c, 4); t.pc.Ask? && t.messages == s.messages + Steers(s.steering.pending)
  {
    var env := (_: State) => c;
    var a := Advance(c);
    var t1 := Step(s, a);
    var t2 := Step(t1, a);
    var t3 := Step(t2, a);
    var t4 := Step(t3, a);
    assert Goes(t4, env, 0) == t4;
    assert Goes(t3, env, 1) == t4;
    assert Goes(t2, env, 2) == t4;
    assert Goes(t1, env, 3) == t4;
    assert Goes(s, env, 4) == t4;
  }
}
