/** brain/tool_loop.go: the worker object that runs the loop, updating the history, its
    counters and the progress tracker in place. */
module ToolLoopWorker {
  import opened Wrappers
  import opened Text
  import opened History
  import opened Progress
  import opened ToolLoop

  function Indices(n: nat): (r: set<nat>)
    ensures forall k: nat :: k in r <==> k < n
  {
    if n == 0 then {} else Indices(n - 1) + {n - 1}
  }

  class PipelineWorker {
    var buildProgress: BuildProgressTracker?
    var wrapUpSent: bool
    var pauseRequested: bool
    var checkpoint: Option<seq<Message>>

    constructor (progress: BuildProgressTracker?)
      ensures buildProgress == progress && !wrapUpSent && !pauseRequested && checkpoint == None
    {
      buildProgress, wrapUpSent, pauseRequested, checkpoint := progress, false, false, None;
    }

    function Tracking(): Option<Tracker>
      reads this, buildProgress
    {
      if buildProgress == null then None else Some(buildProgress.State())
    }

    /** The calls run concurrently and finish in any order, each storing its own result. */
    method RunCalls(calls: seq<ToolCall>, i: nat, w: World) returns (results: seq<Outcome>)
      ensures |results| == |calls| && forall k :: 0 <= k < |calls| ==> results[k] == w.outcome(i, k)
    {
      var slots := new Outcome[|calls|];
      var running := Indices(|calls|);
      while running != {}
        invariant running <= Indices(|calls|)
        invariant forall k: nat :: k < |calls| && k !in running ==> slots[k] == w.outcome(i, k)
        decreases running
      {
        var k :| k in running;
        slots[k] := w.outcome(i, k);
        running := running - {k};
      }
      results := slots[..];
    }

    method ExecuteToolCalls(calls: seq<ToolCall>, input: seq<Message>, i: nat, w: World)
      returns (messages: seq<Message>)
      modifies `pauseRequested, `checkpoint, buildProgress
      ensures Bench(messages, Tracking(), checkpoint, pauseRequested)
              == AfterCalls(Bench(input, old(Tracking()), old(checkpoint), old(pauseRequested)), calls,
                            (k: nat) => w.outcome(i, k))
    {
      var results := RunCalls(calls, i, w);
      messages := input;
      ghost var b := Bench(input, Tracking(), checkpoint, pauseRequested);
      ghost var outcome := (k: nat) => w.outcome(i, k);
      for k := 0 to |calls|
        invariant Bench(messages, Tracking(), checkpoint, pauseRequested) == AfterCalls(b, calls[..k], outcome)
      {
        assert Front(calls[..k + 1]) == calls[..k];
        AppendResult(calls[k], results[k], messages);
        messages := messages + [ResultMessage(calls[k], results[k])] + Injected(results[k]);
      }
      assert calls[..|calls|] == calls;
    }

    /** The bookkeeping for one result, after its message is appended. */
    method AppendResult(call: ToolCall, o: Outcome, before: seq<Message>)
      modifies `pauseRequested, `checkpoint, buildProgress
      ensures Bench(before + [ResultMessage(call, o)] + Injected(o), Tracking(), checkpoint, pauseRequested)
              == AfterCall(Bench(before, old(Tracking()), old(checkpoint), old(pauseRequested)), call, o)
    {
      if o.succeeded && buildProgress != null {
        buildProgress.TrackToolResult(call.name, o.args);
        if !buildProgress.checkpointed && InfrastructureComplete(buildProgress.State()) {
          buildProgress.checkpointed := true;
          checkpoint := Some(before + [ResultMessage(call, o)]);
        }
      }
      if o.succeeded && call.name == "manage_communication" {
        if o.args.action == "ask" && o.args.kind == "secret" {
          pauseRequested := true;
        }
      }
    }

    /** Counts the round in the grace window once the plan is complete; the reason to stop, if any. */
    method CheckGrace(calls: seq<ToolCall>, w: World, ghost l: Loop) returns (exit: Option<Exit>)
      requires l.progress == Tracking() && l.exit == None
      modifies buildProgress
      ensures l.(progress := Tracking(), exit := exit) == Grace(l, HasWrites(calls, w))
    {
      exit := None;
      if buildProgress != null && AllComplete(buildProgress.State()) {
        buildProgress.postCompletionIters := buildProgress.postCompletionIters + 1;
        var writes := false;
        for k := 0 to |calls|
          invariant writes <==> HasWrites(calls[..k], w)
        {
          if IsWrite(calls[k], w) {
            writes := true;
            assert IsWrite(calls[..k + 1][k], w);
          }
          assert forall j :: 0 <= j < k ==> calls[..k + 1][j] == calls[..k][j];
        }
        assert calls[..|calls|] == calls;
        if !writes {
          buildProgress.readOnlyGraceIters := buildProgress.readOnlyGraceIters + 1;
        } else {
          buildProgress.readOnlyGraceIters := 0;
        }
        if buildProgress.readOnlyGraceIters >= 2 {
          exit := Some(ReadOnlyGrace);
        } else if buildProgress.postCompletionIters > GRACE_LIMIT {
          exit := Some(GraceExhausted);
        }
      }
    }

    /** The reminder at three quarters of the iterations. */
    method CheckReminder(input: seq<Message>, i: nat, cfg: Config, ghost l: Loop) returns (messages: seq<Message>)
      requires l.progress == Tracking() && l.messages == input
      modifies buildProgress
      ensures l.(messages := messages, progress := Tracking()) == Remind(l, i, cfg)
    {
      messages := input;
      if buildProgress != null && !buildProgress.nudgeSent && i >= cfg.maxIter * 3 / 4 {
        var items := buildProgress.RemainingItems();
        if items != [] {
          buildProgress.nudgeSent := true;
          messages := messages + [UserMessage(REMINDER)];
        }
      }
    }

    method CheckPrune(input: seq<Message>, w: World, ghost l: Loop) returns (messages: seq<Message>)
      requires l.progress == Tracking() && l.messages == input
      ensures l.(messages := messages) == MaybePrune(l, w)
    {
      var recentWindow := 18;
      if buildProgress != null {
        var complexity := |buildProgress.plan.pages| + |buildProgress.plan.endpoints|;
        if complexity > 10 {
          recentWindow := 24;
        } else if complexity > 5 {
          recentWindow := 21;
        }
      }
      messages := input;
      if |messages| > recentWindow + PRUNE_SLACK {
        messages := PruneMessages(messages, recentWindow, w.summarize);
      }
    }

    /** The worker and the local variables of the loop, as the state of the specification. */
    function Snapshot(messages: seq<Message>, i: nat, tokens: nat, continuations: nat, toolCalls: nat, toolRounds: nat,
                      requests: seq<seq<Message>>, exit: Option<Exit>): Loop
      reads this, buildProgress
    {
      Loop(messages, i, tokens, continuations, toolCalls, toolRounds, wrapUpSent, Tracking(), checkpoint, requests,
           exit)
    }

    method AfterToolCalls(input: seq<Message>, i: nat, r: Reply, calls: seq<ToolCall>, cfg: Config, w: World,
                          ghost l: Loop)
      returns (messages: seq<Message>, exit: Option<Exit>)
      requires l.progress == Tracking() && l.messages == input && l.checkpoint == checkpoint && l.exit == None
      requires !pauseRequested
      modifies `pauseRequested, `checkpoint, buildProgress
      ensures !pauseRequested
      ensures l.(messages := messages, progress := Tracking(), checkpoint := checkpoint, exit := exit,
                 toolCalls := l.toolCalls + |calls|, toolRounds := l.toolRounds + 1)
              == AfterTools(l, i, r, calls, cfg, w)
    {
      exit := None;
      messages := ExecuteToolCalls(calls, input + [AssistantMessage(r, calls)], i, w);
      ghost var m := Executed(l, i, r, calls, w).0;
      assert m.messages == messages && m.progress == Tracking() && m.checkpoint == checkpoint;
      if pauseRequested {
        pauseRequested := false;
        checkpoint := Some(messages);
        exit := Some(Exit.Paused);
        return;
      }
      exit := CheckGrace(calls, w, m);
      ghost var g := Grace(m, HasWrites(calls, w));
      if exit.Some? {
        return;
      }
      messages := CheckReminder(messages, i, cfg, g);
      messages := CheckPrune(messages, w, Remind(g, i, cfg));
    }

    /** Token accounting: stop at the ceiling, ask once for a wrap-up at 90 percent of it. */
    method ChargeTokens(input: seq<Message>, totalTokens: nat, r: Reply, cfg: Config, ghost l: Loop)
      returns (messages: seq<Message>, exit: Option<Exit>)
      requires l.messages == input && l.tokens + r.tokens == totalTokens && l.wrapUpSent == wrapUpSent && l.exit == None
      modifies `wrapUpSent
      ensures l.(tokens := totalTokens, messages := messages, wrapUpSent := wrapUpSent, exit := exit)
              == Charged(l, r, cfg)
    {
      messages, exit := input, None;
      if cfg.costs.Some? && cfg.costs.value.budget > 0 {
        var projected := cfg.costs.value.spent + totalTokens;
        if projected >= cfg.costs.value.budget {
          exit := Some(BudgetExhausted);
          return;
        }
        if !wrapUpSent && projected >= cfg.costs.value.budget * 9 / 10 {
          wrapUpSent := true;
          messages := messages + [UserMessage(WRAP_UP)];
        }
      }
    }

    /** A reply without calls. */
    method HandleText(input: seq<Message>, continuations: nat, r: Reply, ghost l: Loop)
      returns (messages: seq<Message>, newContinuations: nat, exit: Option<Exit>)
      requires l.messages == input && l.continuations == continuations && l.progress == Tracking() && l.exit == None
      ensures l.(messages := messages, continuations := newContinuations, exit := exit) == AfterText(l, r)
    {
      messages, newContinuations, exit := input, continuations, None;
      if !r.hitLimit {
        exit := Some(Finished);
        return;
      }
      newContinuations := continuations + 1;
      if newContinuations >= MAX_CONTINUATIONS {
        exit := Some(OutputLimit);
        return;
      }
      var text := CONTINUE;
      if buildProgress != null {
        var items := buildProgress.RemainingItems();
        text := text + Reminder(items);
      }
      messages := messages + [AssistantMessage(r, [])];
      messages := messages + [UserMessage(text)];
    }

    /** One reply: charge it, and answer its text or execute its calls. */
    method HandleReply(input: seq<Message>, i: nat, tokens: nat, continuations: nat, toolCalls: nat, toolRounds: nat,
                       r: Reply, cfg: Config, w: World, ghost l: Loop)
      returns (messages: seq<Message>, newContinuations: nat, newToolCalls: nat, newToolRounds: nat, exit: Option<Exit>)
      requires !pauseRequested
      requires l == Snapshot(input, i + 1, tokens, continuations, toolCalls, toolRounds, l.requests, None)
      modifies this, buildProgress
      ensures !pauseRequested && buildProgress == old(buildProgress)
      ensures Snapshot(messages, i + 1, tokens + r.tokens, newContinuations, newToolCalls, newToolRounds,
                       l.requests, exit)
              == AfterReply(l, i, r, cfg, w)
    {
      newContinuations, newToolCalls, newToolRounds := continuations, toolCalls, toolRounds;
      messages, exit := ChargeTokens(input, tokens + r.tokens, r, cfg, l);
      ghost var c := Charged(l, r, cfg);
      if exit.Some? {
        return;
      }
      if r.calls == [] {
        messages, newContinuations, exit := HandleText(messages, continuations, r, c);
        return;
      }
      var calls := r.calls;
      if r.hitLimit && w.parsed(Last(calls).arguments).None? {
        calls := calls[..|calls| - 1];
      }
      assert calls == KeptCalls(r, w);
      if |calls| == 0 {
        newContinuations := continuations + 1;
        messages := messages + [AssistantMessage(r, [])];
        messages := messages + [UserMessage(RETRY_CALL + Last(r.calls).name)];
        return;
      }
      messages, exit := AfterToolCalls(messages, i, r, calls, cfg, w, c);
      newToolCalls := toolCalls + |calls|;
      newToolRounds := toolRounds + 1;
    }

    method RunToolLoop(input: seq<Message>, cfg: Config, w: World)
      returns (messages: seq<Message>, requests: seq<seq<Message>>, totalTokens: nat, totalToolCalls: nat,
               exit: Option<Exit>)
      requires !pauseRequested
      modifies this, buildProgress
      ensures !pauseRequested && buildProgress == old(buildProgress)
      ensures
        var final := RunFrom(Start(input, old(wrapUpSent), old(Tracking())).(checkpoint := old(checkpoint)), cfg, w);
        && messages == final.messages && requests == final.requests
        && totalTokens == final.tokens && totalToolCalls == final.toolCalls && exit == final.exit
        && wrapUpSent == final.wrapUpSent && Tracking() == final.progress && checkpoint == final.checkpoint
    {
      messages, requests, totalTokens, totalToolCalls, exit := input, [], 0, 0, None;
      var continuations, toolRounds, i := 0, 0, 0;
      ghost var final := RunFrom(Start(input, wrapUpSent, Tracking()).(checkpoint := checkpoint), cfg, w);
      while i < cfg.maxIter && exit.None?
        invariant !pauseRequested && buildProgress == old(buildProgress)
        invariant final == RunFrom(Snapshot(messages, i, totalTokens, continuations, totalToolCalls, toolRounds,
                                            requests, exit), cfg, w)
        decreases cfg.maxIter - i
      {
        ghost var l := Snapshot(messages, i, totalTokens, continuations, totalToolCalls, toolRounds, requests, exit);
        requests := requests + [messages];
        var response := w.reply(i);
        if response.None? {
          exit := Some(ModelFailed);
        } else {
          messages, continuations, totalToolCalls, toolRounds, exit :=
            HandleReply(messages, i, totalTokens, continuations, totalToolCalls, toolRounds, response.value, cfg, w,
                        Sent(l));
          totalTokens := totalTokens + response.value.tokens;
        }
        i := i + 1;
        assert Snapshot(messages, i, totalTokens, continuations, totalToolCalls, toolRounds, requests, exit) ==
            Iterate(l, cfg, w);
      }
    }
  }
}
