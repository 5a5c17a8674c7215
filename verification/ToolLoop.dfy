/** brain/tool_loop.go: the bounded conversation between model and tools. One
    iteration of the loop as a function of its state, and what it keeps. */
module ToolLoop {
  import opened Wrappers
  import opened Text
  import opened History
  import opened Progress

  datatype Reply = Reply(content: string, calls: seq<ToolCall>, hitLimit: bool, tokens: nat)

  /** What executing one call gave: its result text, and when it succeeded the arguments it
      was called with and the context messages injected after it. */
  datatype Outcome = Outcome(result: string, succeeded: bool, args: Args, injected: seq<string>)

  /** Everything the loop receives from outside. */
  datatype World = World(
    reply: nat -> Option<Reply>,      // by iteration; None when the model call fails
    outcome: (nat, nat) -> Outcome,   // by iteration and index of the call
    parsed: string -> Option<Args>,   // arguments that are a JSON object
    summarize: Summarizer)

  datatype Exit = ModelFailed | BudgetExhausted | OutputLimit | Finished | Paused | ReadOnlyGrace | GraceExhausted

  /** Token accounting of the build: spent before this loop, and the ceiling (0 for none). */
  datatype Costs = Costs(spent: nat, budget: nat)

  datatype Config = Config(maxIter: nat, costs: Option<Costs>)

  datatype Loop = Loop(
    messages: seq<Message>,
    i: nat,
    tokens: nat,
    continuations: nat,
    toolCalls: nat,
    toolRounds: nat,                      // iterations that executed tools
    wrapUpSent: bool,
    progress: Option<Tracker>,
    checkpoint: Option<seq<Message>>,
    requests: seq<seq<Message>>,          // the histories sent to the model
    exit: Option<Exit>)

  const MAX_CONTINUATIONS := 5
  const GRACE_LIMIT := 2
  const PRUNE_SLACK := 8
  const READ_ACTIONS := {"get", "list", "describe", "search", "history"}
  const WRAP_UP := "IMPORTANT: wrap up"
  const CONTINUE := "Continue. "
  const RETRY_CALL := "Call again: "
  const REMINDER := "REMINDER"

  // ------------------------------------------------------- executing the calls

  /** What appending the results of one reply builds up. */
  datatype Bench = Bench(
    messages: seq<Message>, progress: Option<Tracker>, checkpoint: Option<seq<Message>>, pause: bool)

  function Users(contents: seq<string>): seq<Message> {
    if contents == [] then [] else Users(Front(contents)) + [UserMessage(Last(contents))]
  }

  function Injected(o: Outcome): seq<Message> { if o.succeeded then Users(o.injected) else [] }

  predicate AsksForSecret(call: ToolCall, o: Outcome) {
    o.succeeded && call.name == "manage_communication" && o.args.action == "ask" && o.args.kind == "secret"
  }

  function ResultMessage(call: ToolCall, o: Outcome): Message { Message(Tool, o.result, [], call.id) }

  function AfterCall(b: Bench, call: ToolCall, o: Outcome): Bench {
    var ms := b.messages + [ResultMessage(call, o)];
    var tracked := if o.succeeded && b.progress.Some? then Some(Tracked(b.progress.value, call.name, o.args))
                   else b.progress;
    var saves := o.succeeded && tracked.Some? && !tracked.value.checkpointed && InfrastructureComplete(tracked.value);
    Bench(
      ms + Injected(o),
      if saves then Some(tracked.value.(checkpointed := true)) else tracked,
      if saves then Some(ms) else b.checkpoint,
      b.pause || AsksForSecret(call, o))
  }

  function AfterCalls(b: Bench, calls: seq<ToolCall>, outcome: nat -> Outcome): Bench {
    if calls == [] then b else AfterCall(AfterCalls(b, Front(calls), outcome), Last(calls), outcome(|calls| - 1))
  }

  // --------------------------------------------------------- one iteration

  function Projected(l: Loop, costs: Costs): nat { costs.spent + l.tokens }

  predicate OverBudget(l: Loop, cfg: Config) {
    cfg.costs.Some? && cfg.costs.value.budget > 0 && Projected(l, cfg.costs.value) >= cfg.costs.value.budget
  }

  predicate WrapUpDue(l: Loop, cfg: Config) {
    && cfg.costs.Some? && cfg.costs.value.budget > 0 && !l.wrapUpSent
    && Projected(l, cfg.costs.value) >= cfg.costs.value.budget * 9 / 10
  }

  function Say(l: Loop, content: string): Loop { l.(messages := l.messages + [UserMessage(content)]) }

  function Reminder(items: seq<Item>): string { if items == [] then "" else REMINDER }

  function ContinueText(l: Loop): string {
    if l.progress.Some? then CONTINUE + Reminder(Remaining(l.progress.value)) else CONTINUE
  }

  function AssistantMessage(r: Reply, calls: seq<ToolCall>): Message { Message(Assistant, r.content, calls, "") }

  /** A reply without tool calls ends the loop, unless it was cut off by the output limit. */
  function AfterText(l: Loop, r: Reply): (l': Loop)
    ensures l'.i == l.i && l'.requests == l.requests
  {
    if !r.hitLimit then l.(exit := Some(Finished))
    else
      var l := l.(continuations := l.continuations + 1);
      if l.continuations >= MAX_CONTINUATIONS then l.(exit := Some(OutputLimit))
      else Say(l.(messages := l.messages + [AssistantMessage(r, [])]), ContinueText(l))
  }

  /** The output limit cut the last call off in the middle of its arguments. */
  predicate LastCallTruncated(r: Reply, w: World) {
    r.hitLimit && r.calls != [] && w.parsed(Last(r.calls).arguments).None?
  }

  /** The calls of a reply that are kept and executed. */
  function KeptCalls(r: Reply, w: World): seq<ToolCall> {
    if LastCallTruncated(r, w) then Front(r.calls) else r.calls
  }

  predicate IsWrite(call: ToolCall, w: World) {
    var args := w.parsed(call.arguments);
    args.Some? && args.value.action !in READ_ACTIONS
  }

  predicate HasWrites(calls: seq<ToolCall>, w: World) {
    exists k :: 0 <= k < |calls| && IsWrite(calls[k], w)
  }

  /** Once every plan item is built: count the round, and stop after two read-only rounds in
      a row or when the grace window is used up. */
  function Grace(l: Loop, writes: bool): (l': Loop)
    ensures l'.i == l.i && l'.requests == l.requests
  {
    if l.progress.None? || !AllComplete(l.progress.value) then l
    else
      var t := l.progress.value;
      var t := t.(postIters := t.postIters + 1, readOnlyIters := if writes then 0 else t.readOnlyIters + 1);
      var l := l.(progress := Some(t));
      if t.readOnlyIters >= 2 then l.(exit := Some(ReadOnlyGrace))
      else if t.postIters > GRACE_LIMIT then l.(exit := Some(GraceExhausted))
      else l
  }

  /** At three quarters of the iterations, one reminder of what is missing. */
  function Remind(l: Loop, i: nat, cfg: Config): (l': Loop)
    ensures l'.i == l.i && l'.requests == l.requests
  {
    if && l.progress.Some? && !l.progress.value.nudgeSent && i >= cfg.maxIter * 3 / 4
       && Remaining(l.progress.value) != []
    then
      Say(l.(progress := Some(l.progress.value.(nudgeSent := true))), REMINDER)
    else l
  }

  function RecentWindow(progress: Option<Tracker>): (n: nat)
    ensures n in {18, 21, 24}
  {
    if progress.None? then 18
    else
      var complexity := |progress.value.plan.pages| + |progress.value.plan.endpoints|;
      if complexity > 10 then 24 else if complexity > 5 then 21 else 18
  }

  function MaybePrune(l: Loop, w: World): (l': Loop)
    ensures l'.i == l.i && l'.requests == l.requests
  {
    var window := RecentWindow(l.progress);
    if |l.messages| > window + PRUNE_SLACK then l.(messages := Pruned(l.messages, window, w.summarize)) else l
  }

  /** The state after the kept calls of a reply were executed and answered. */
  function Executed(l: Loop, i: nat, r: Reply, calls: seq<ToolCall>, w: World): (r': (Loop, bool))
    ensures r'.0.i == l.i && r'.0.requests == l.requests
  {
    var b := AfterCalls(Bench(l.messages + [AssistantMessage(r, calls)], l.progress, l.checkpoint, false), calls,
                        (k: nat) => w.outcome(i, k));
    (l.(messages := b.messages, progress := b.progress, checkpoint := b.checkpoint,
        toolCalls := l.toolCalls + |calls|, toolRounds := l.toolRounds + 1), b.pause)
  }

  /** What follows the results: a pause, the grace window, the reminder, and a prune. */
  function AfterTools(l: Loop, i: nat, r: Reply, calls: seq<ToolCall>, cfg: Config, w: World): (l': Loop)
    ensures l'.i == l.i && l'.requests == l.requests
  {
    var (l, pause) := Executed(l, i, r, calls, w);
    if pause then l.(checkpoint := Some(l.messages), exit := Some(Paused))
    else
      var l := Grace(l, HasWrites(calls, w));
      if l.exit.Some? then l else MaybePrune(Remind(l, i, cfg), w)
  }

  /** The token accounting of a reply. */
  function Charged(l: Loop, r: Reply, cfg: Config): (l': Loop)
    ensures l'.i == l.i && l'.requests == l.requests
  {
    var l := l.(tokens := l.tokens + r.tokens);
    if OverBudget(l, cfg) then l.(exit := Some(BudgetExhausted))
    else if WrapUpDue(l, cfg) then Say(l.(wrapUpSent := true), WRAP_UP)
    else l
  }

  /** No call survived the truncation: ask for the last one again. */
  function AskAgain(l: Loop, r: Reply, name: string): (l': Loop)
    ensures l'.i == l.i && l'.requests == l.requests
  {
    Say(l.(continuations := l.continuations + 1, messages := l.messages + [AssistantMessage(r, [])]), RETRY_CALL + name)
  }

  function AfterReply(l: Loop, i: nat, r: Reply, cfg: Config, w: World): (l': Loop)
    ensures l'.i == l.i && l'.requests == l.requests
  {
    var l := Charged(l, r, cfg);
    if l.exit.Some? then l
    else if r.calls == [] then AfterText(l, r)
    else if KeptCalls(r, w) == [] then AskAgain(l, r, Last(r.calls).name)
    else AfterTools(l, i, r, KeptCalls(r, w), cfg, w)
  }

  /** The request is sent: its history is logged. */
  function Sent(l: Loop): Loop { l.(i := l.i + 1, requests := l.requests + [l.messages]) }

  function Iterate(l: Loop, cfg: Config, w: World): (l': Loop)
    ensures l'.i == l.i + 1 && l'.requests == l.requests + [l.messages]
  {
    match w.reply(l.i)
    case None => Sent(l).(exit := Some(ModelFailed))
    case Some(r) => AfterReply(Sent(l), l.i, r, cfg, w)
  }

  /** The state when the loop is left. */
  function RunFrom(l: Loop, cfg: Config, w: World): Loop
    decreases cfg.maxIter - l.i
  {
    if l.exit.Some? || l.i >= cfg.maxIter then l else RunFrom(Iterate(l, cfg, w), cfg, w)
  }

  function Start(messages: seq<Message>, wrapUpSent: bool, progress: Option<Tracker>): Loop {
    Loop(messages, 0, 0, 0, 0, 0, wrapUpSent, progress, None, [], None)
  }

  // ------------------------------------------- the group of a reply is answered

  lemma {:induction false} IdsAt(calls: seq<ToolCall>)
    ensures |Ids(calls)| == |calls| && forall k :: 0 <= k < |calls| ==> Ids(calls)[k] == calls[k].id
    decreases |calls|
  {
    if calls != [] {
      IdsAt(Front(calls));
    }
  }

  lemma {:induction false} UsersAreUsers(contents: seq<string>)
    ensures AllUser(Users(contents)) && |Users(contents)| == |contents|
    decreases |contents|
  {
    if contents != [] {
      UsersAreUsers(Front(contents));
    }
  }

  lemma {:induction false} UsersFeed(p: Option<seq<string>>, ms: seq<Message>, tight: bool)
    requires AllUser(ms) && (tight && ms != [] ==> p == NOTHING)
    ensures FeedAll(p, ms, tight) == p
    decreases |ms|
  {
    if ms != [] {
      UsersFeed(p, Front(ms), tight);
    }
  }

  /** Nothing is injected between two results of the same reply. */
  ghost predicate InjectsLast(calls: seq<ToolCall>, outcome: nat -> Outcome) {
    forall k: nat :: k < |calls| - 1 ==> Injected(outcome(k)) == []
  }

  /** After the first k results of a reply exactly its other calls are open. */
  lemma {:induction false} ResultsClose(b: Bench, calls: seq<ToolCall>, outcome: nat -> Outcome, k: nat, tight: bool)
    requires k <= |calls| && FeedAll(NOTHING, b.messages, tight) == Some(Ids(calls))
    requires tight ==> InjectsLast(calls, outcome)
    ensures FeedAll(NOTHING, AfterCalls(b, calls[..k], outcome).messages, tight) == Some(Ids(calls)[k..])
    decreases k
  {
    if k == 0 {
      assert calls[..0] == [];
    } else {
      ResultsClose(b, calls, outcome, k - 1, tight);
      assert Front(calls[..k]) == calls[..k - 1];
      IdsAt(calls);
      OneResultCloses(AfterCalls(b, calls[..k - 1], outcome), calls[k - 1], outcome(k - 1), Ids(calls)[k - 1..], tight);
      assert Ids(calls)[k - 1..][1..] == Ids(calls)[k..];
    }
  }

  lemma OneResultCloses(b: Bench, call: ToolCall, o: Outcome, open: seq<string>, tight: bool)
    requires open != [] && open[0] == call.id && FeedAll(NOTHING, b.messages, tight) == Some(open)
    requires tight && |open| > 1 ==> Injected(o) == []
    ensures FeedAll(NOTHING, AfterCall(b, call, o).messages, tight) == Some(open[1..])
  {
    var ms := b.messages + [ResultMessage(call, o)];
    FeedSnoc(NOTHING, b.messages, ResultMessage(call, o), tight);
    UsersAreUsers(o.injected);
    FeedConcat(NOTHING, ms, Injected(o), tight);
    assert |open| == 1 ==> open[1..] == [];
    UsersFeed(Some(open[1..]), Injected(o), tight);
  }

  lemma OpenCalls(calls: seq<ToolCall>, k: nat)
    requires 1 <= k <= |calls|
    ensures |Ids(calls)| == |calls| && Ids(calls)[k - 1..] != [] && Ids(calls)[k - 1..][0] == calls[k - 1].id
    ensures Ids(calls)[k - 1..][1..] == Ids(calls)[k..]
    ensures Ids(calls)[k..] == [] <==> k == |calls|
  {
    IdsAt(calls);
  }

  lemma ResultFeeds(ms: seq<Message>, call: ToolCall, o: Outcome, open: seq<string>)
    requires open != [] && open[0] == call.id && FeedAll(NOTHING, ms, false) == Some(open)
    ensures FeedAll(NOTHING, ms + [ResultMessage(call, o)], false) == Some(open[1..])
  {
    FeedSnoc(NOTHING, ms, ResultMessage(call, o), false);
  }

  /** With result k of n appended, before or after what is injected behind it, the history is
      well-formed exactly when that was the last result. */
  lemma PartialResultsWellFormedIff(b: Bench, calls: seq<ToolCall>, outcome: nat -> Outcome, k: nat)
    requires 1 <= k <= |calls| && FeedAll(NOTHING, b.messages, false) == Some(Ids(calls))
    ensures
      var before := AfterCalls(b, calls[..k - 1], outcome);
      WellFormed(before.messages + [ResultMessage(calls[k - 1], outcome(k - 1))]) <==> k == |calls|
    ensures WellFormed(AfterCalls(b, calls[..k], outcome).messages) <==> k == |calls|
  {
    OpenCalls(calls, k);
    ResultsClose(b, calls, outcome, k, false);
    ResultsClose(b, calls, outcome, k - 1, false);
    var before := AfterCalls(b, calls[..k - 1], outcome).messages;
    ResultFeeds(before, calls[k - 1], outcome(k - 1), Ids(calls)[k - 1..]);
  }

  /** The checkpoint is saved between a result and what is injected behind it: one saved at
      result k of n is a well-formed history exactly when that was the last result. */
  lemma CheckpointWellFormedIff(b: Bench, calls: seq<ToolCall>, outcome: nat -> Outcome, k: nat)
    requires 1 <= k <= |calls| && FeedAll(NOTHING, b.messages, false) == Some(Ids(calls))
    requires AfterCalls(b, calls[..k], outcome).checkpoint != AfterCalls(b, calls[..k - 1], outcome).checkpoint
    ensures
      var saved := AfterCalls(b, calls[..k], outcome).checkpoint;
      saved.Some? && (WellFormed(saved.value) <==> k == |calls|)
  {
    assert Front(calls[..k]) == calls[..k - 1];
    PartialResultsWellFormedIff(b, calls, outcome, k);
  }

  lemma {:induction false} CallsKeepPrefix(b: Bench, calls: seq<ToolCall>, outcome: nat -> Outcome)
    ensures b.messages <= AfterCalls(b, calls, outcome).messages
    decreases |calls|
  {
    if calls != [] {
      CallsKeepPrefix(b, Front(calls), outcome);
    }
  }

  // -------------------------------------------------- invariant of the loop

  /** The history begins with the given message, is answered, and can be pruned safely. */
  ghost predicate Sound(ms: seq<Message>, first: Message) {
    PlainStart(ms) && ms[0] == first && Tight(ms)
  }

  lemma SayKeepsSound(l: Loop, content: string, first: Message)
    requires Sound(l.messages, first)
    ensures Sound(Say(l, content).messages, first)
  {
    FeedSnoc(NOTHING, l.messages, UserMessage(content), true);
  }

  lemma TextKeepsSound(l: Loop, r: Reply, content: string, first: Message)
    requires Sound(l.messages, first)
    ensures Sound(Say(l.(messages := l.messages + [AssistantMessage(r, [])]), content).messages, first)
  {
    FeedSnoc(NOTHING, l.messages, AssistantMessage(r, []), true);
    SayKeepsSound(l.(messages := l.messages + [AssistantMessage(r, [])]), content, first);
  }

  lemma ChargingKeepsSound(l: Loop, r: Reply, cfg: Config, first: Message)
    requires Sound(l.messages, first)
    ensures Sound(Charged(l, r, cfg).messages, first)
  {
    SayKeepsSound(l, WRAP_UP, first);
  }

  lemma ExecutionKeepsSound(ms: seq<Message>, r: Reply, calls: seq<ToolCall>, b: Bench, outcome: nat -> Outcome,
                            first: Message)
    requires Sound(ms, first) && b.messages == ms + [AssistantMessage(r, calls)] && InjectsLast(calls, outcome)
    ensures Sound(AfterCalls(b, calls, outcome).messages, first)
  {
    FeedSnoc(NOTHING, ms, AssistantMessage(r, calls), true);
    ResultsClose(b, calls, outcome, |calls|, true);
    IdsAt(calls);
    assert calls[..|calls|] == calls && Ids(calls)[|calls|..] == [];
    CallsKeepPrefix(b, calls, outcome);
    assert ms[0] == b.messages[0];
  }

  lemma PruneKeepsSound(l: Loop, w: World, first: Message)
    requires Sound(l.messages, first)
    ensures Sound(MaybePrune(l, w).messages, first)
  {
    var window := RecentWindow(l.progress);
    PruneKeepsTight(l.messages, window, w.summarize);
    PruneKeepsFirst(l.messages, window, w.summarize);
  }

  /** In no reply is a context message injected between two results. This holds in
      particular when every reply carries one call. */
  ghost predicate NeverSplits(w: World) {
    forall i: nat :: w.reply(i).Some? ==> SplitsNot(w, i, KeptCalls(w.reply(i).value, w))
  }

  ghost predicate SplitsNot(w: World, i: nat, calls: seq<ToolCall>) {
    InjectsLast(calls, (k: nat) => w.outcome(i, k))
  }

  lemma OneCallNeverSplits(w: World)
    requires forall i: nat :: w.reply(i).Some? ==> |w.reply(i).value.calls| <= 1
    ensures NeverSplits(w)
  {
    forall i: nat | w.reply(i).Some? ensures SplitsNot(w, i, KeptCalls(w.reply(i).value, w)) {
      assert |w.reply(i).value.calls| <= 1;
    }
  }

  lemma ToolsKeepSound(l: Loop, i: nat, r: Reply, calls: seq<ToolCall>, cfg: Config, w: World, first: Message)
    requires Sound(l.messages, first) && SplitsNot(w, i, calls)
    ensures Sound(AfterTools(l, i, r, calls, cfg, w).messages, first)
  {
    var b := Bench(l.messages + [AssistantMessage(r, calls)], l.progress, l.checkpoint, false);
    ExecutionKeepsSound(l.messages, r, calls, b, (k: nat) => w.outcome(i, k), first);
    var (m, pause) := Executed(l, i, r, calls, w);
    assert Sound(m.messages, first);
    var g := Grace(m, HasWrites(calls, w));
    assert g.messages == m.messages;
    SayKeepsSound(g, REMINDER, first);
    assert Sound(Remind(g, i, cfg).messages, first);
    PruneKeepsSound(Remind(g, i, cfg), w, first);
  }

  lemma AfterTextKeepsSound(l: Loop, r: Reply, first: Message)
    requires Sound(l.messages, first)
    ensures Sound(AfterText(l, r).messages, first)
  {
    var l' := l.(continuations := l.continuations + 1);
    TextKeepsSound(l', r, ContinueText(l'), first);
  }

  lemma ReplyKeepsSound(l: Loop, i: nat, r: Reply, cfg: Config, w: World, first: Message)
    requires Sound(l.messages, first) && SplitsNot(w, i, KeptCalls(r, w))
    ensures Sound(AfterReply(l, i, r, cfg, w).messages, first)
  {
    ChargingKeepsSound(l, r, cfg, first);
    var l := Charged(l, r, cfg);
    if l.exit.Some? {
    } else if r.calls == [] {
      AfterTextKeepsSound(l, r, first);
    } else if KeptCalls(r, w) == [] {
      TextKeepsSound(l, r, RETRY_CALL + Last(r.calls).name, first);
    } else {
      ToolsKeepSound(l, i, r, KeptCalls(r, w), cfg, w, first);
    }
  }

  lemma IterationKeepsSound(l: Loop, cfg: Config, w: World, first: Message)
    requires Sound(l.messages, first) && NeverSplits(w)
    ensures Sound(Iterate(l, cfg, w).messages, first)
  {
    var sent := Sent(l);
    assert sent.messages == l.messages;
    match w.reply(l.i) {
      case None =>
      case Some(r) =>
        assert SplitsNot(w, l.i, KeptCalls(r, w));
        ReplyKeepsSound(sent, l.i, r, cfg, w, first);
    }
  }

  ghost predicate AllSound(requests: seq<seq<Message>>, first: Message) {
    forall k :: 0 <= k < |requests| ==> Sound(requests[k], first)
  }

  lemma AllSoundSnoc(requests: seq<seq<Message>>, ms: seq<Message>, first: Message)
    requires AllSound(requests, first) && Sound(ms, first)
    ensures AllSound(requests + [ms], first)
  {}

  /** Over the whole run, through any number of prunes: every history sent to the model, and
      the final one, begins with the original first message and has every call answered. */
  lemma {:induction false} EveryRequestIsSound(l: Loop, cfg: Config, w: World, first: Message)
    requires Sound(l.messages, first) && AllSound(l.requests, first) && NeverSplits(w)
    ensures AllSound(RunFrom(l, cfg, w).requests, first)
    ensures Sound(RunFrom(l, cfg, w).messages, first)
    decreases cfg.maxIter - l.i
  {
    if !(l.exit.Some? || l.i >= cfg.maxIter) {
      IterationKeepsSound(l, cfg, w, first);
      AllSoundSnoc(l.requests, l.messages, first);
      EveryRequestIsSound(Iterate(l, cfg, w), cfg, w, first);
    }
  }

  lemma {:induction false} RequestsAreBounded(l: Loop, cfg: Config, w: World)
    requires l.i <= cfg.maxIter
    ensures |RunFrom(l, cfg, w).requests| - |l.requests| <= cfg.maxIter - l.i
    decreases cfg.maxIter - l.i
  {
    if !(l.exit.Some? || l.i >= cfg.maxIter) {
      RequestsAreBounded(Iterate(l, cfg, w), cfg, w);
    }
  }

  // ------------------------------------------------------- the grace window

  /** Executing calls keeps the plan, never undoes progress, and leaves the counters alone. */
  ghost predicate Progressed(p: Option<Tracker>, q: Option<Tracker>) {
    && (p.Some? <==> q.Some?)
    && (p.Some? ==> Grown(p.value, q.value) && q.value.postIters == p.value.postIters)
  }

  lemma {:induction false} CallsProgress(b: Bench, calls: seq<ToolCall>, outcome: nat -> Outcome)
    ensures Progressed(b.progress, AfterCalls(b, calls, outcome).progress)
    decreases |calls|
  {
    if calls != [] {
      CallsProgress(b, Front(calls), outcome);
      var o := outcome(|calls| - 1);
      var before := AfterCalls(b, Front(calls), outcome);
      if before.progress.Some? {
        TrackingGrows(before.progress.value, Last(calls).name, o.args);
      }
    }
  }

  predicate Complete(l: Loop) { l.progress.Some? && AllComplete(l.progress.value) }

  /** How many more rounds of tools the grace window allows. */
  function RoundsLeft(l: Loop): nat
    requires l.progress.Some?
  {
    if l.exit.Some? then 0
    else if l.progress.value.postIters >= GRACE_LIMIT then 1
    else GRACE_LIMIT + 1 - l.progress.value.postIters
  }

  /** One round costs one of the remaining rounds. */
  ghost predicate Spends(l: Loop, l': Loop) {
    && l'.progress.Some? && Complete(l')
    && l'.toolRounds + RoundsLeft(l') <= l.toolRounds + (if l.progress.Some? then RoundsLeft(l) else 0)
  }

  /** The calls of a round leave a complete tracker complete and its window alone. */
  lemma ExecutedSpends(l: Loop, i: nat, r: Reply, calls: seq<ToolCall>, w: World)
    requires Complete(l) && l.exit.None?
    ensures
      var m := Executed(l, i, r, calls, w).0;
      && Complete(m) && m.exit.None? && m.toolRounds == l.toolRounds + 1
      && m.progress.value.postIters == l.progress.value.postIters
  {
    var b := Bench(l.messages + [AssistantMessage(r, calls)], l.progress, l.checkpoint, false);
    CallsProgress(b, calls, (k: nat) => w.outcome(i, k));
    CompletionIsStable(l.progress.value, Executed(l, i, r, calls, w).0.progress.value);
  }

  lemma ToolsSpend(l: Loop, i: nat, r: Reply, calls: seq<ToolCall>, cfg: Config, w: World)
    requires Complete(l) && l.exit.None?
    ensures Spends(l, AfterTools(l, i, r, calls, cfg, w))
  {
    ExecutedSpends(l, i, r, calls, w);
    var m := Executed(l, i, r, calls, w).0;
    GraceSpends(l, m, HasWrites(calls, w));
    var g := Grace(m, HasWrites(calls, w));
    RemindKeeps(g, i, cfg);
  }

  lemma GraceSpends(l: Loop, m: Loop, writes: bool)
    requires Complete(l) && Complete(m) && l.exit.None? && m.exit.None?
    requires m.toolRounds == l.toolRounds + 1 && m.progress.value.postIters == l.progress.value.postIters
    ensures Spends(l, Grace(m, writes)) && Spends(l, m.(exit := Some(Paused)))
    ensures Grace(m, writes).progress.value.postIters >= 1
  {}

  lemma RemindKeeps(l: Loop, i: nat, cfg: Config)
    ensures
      var l' := Remind(l, i, cfg);
      && (Complete(l') <==> Complete(l)) && l'.toolRounds == l.toolRounds && l'.exit == l.exit
      && (Complete(l) ==> l'.progress.value.postIters == l.progress.value.postIters)
  {}

  lemma ReplySpends(l: Loop, i: nat, r: Reply, cfg: Config, w: World)
    requires Complete(l) && l.exit.None?
    ensures Spends(l, AfterReply(l, i, r, cfg, w))
  {
    var c := Charged(l, r, cfg);
    if c.exit.None? && r.calls != [] && KeptCalls(r, w) != [] {
      ToolsSpend(c, i, r, KeptCalls(r, w), cfg, w);
    }
  }

  lemma {:induction false} GraceBoundsRounds(l: Loop, cfg: Config, w: World)
    requires Complete(l)
    ensures RunFrom(l, cfg, w).toolRounds <= l.toolRounds + RoundsLeft(l)
    decreases cfg.maxIter - l.i
  {
    if !(l.exit.Some? || l.i >= cfg.maxIter) {
      match w.reply(l.i) {
        case None =>
        case Some(r) => ReplySpends(Sent(l), l.i, r, cfg, w);
      }
      GraceBoundsRounds(Iterate(l, cfg, w), cfg, w);
    }
  }

  lemma GraceOpens(m: Loop, writes: bool)
    ensures Complete(Grace(m, writes)) ==> Grace(m, writes).progress.value.postIters >= 1
  {}

  /** An iteration that executed tools and left the plan complete has opened the grace window. */
  lemma CompletingRoundOpensGrace(l: Loop, i: nat, r: Reply, calls: seq<ToolCall>, cfg: Config, w: World)
    requires AfterTools(l, i, r, calls, cfg, w).exit.None? && Complete(AfterTools(l, i, r, calls, cfg, w))
    ensures AfterTools(l, i, r, calls, cfg, w).progress.value.postIters >= 1
  {
    var m := Executed(l, i, r, calls, w).0;
    GraceOpens(m, HasWrites(calls, w));
    RemindKeeps(Grace(m, HasWrites(calls, w)), i, cfg);
  }

  /** After the round that completes the plan, tools are executed in at most two more rounds. */
  lemma AtMostTwoRoundsAfterCompletion(l: Loop, cfg: Config, w: World, r: Reply)
    requires l.exit.None? && w.reply(l.i) == Some(r)
    requires Iterate(l, cfg, w).toolRounds == l.toolRounds + 1 && Complete(Iterate(l, cfg, w))
    ensures RunFrom(Iterate(l, cfg, w), cfg, w).toolRounds <= Iterate(l, cfg, w).toolRounds + 2
  {
    var l' := Iterate(l, cfg, w);
    GraceBoundsRounds(l', cfg, w);
    if l'.exit.None? {
      var c := Charged(Sent(l), r, cfg);
      CompletingRoundOpensGrace(c, l.i, r, KeptCalls(r, w), cfg, w);
    }
  }

  // ------------------------------------------- what the end of the grace means

  predicate GraceEnded(l: Loop) { l.exit == Some(ReadOnlyGrace) || l.exit == Some(GraceExhausted) }

  lemma GraceEndsComplete(m: Loop, writes: bool)
    requires m.exit.None?
    ensures GraceEnded(Grace(m, writes)) ==> Complete(Grace(m, writes))
  {}

  lemma ToolsEndComplete(l: Loop, i: nat, r: Reply, calls: seq<ToolCall>, cfg: Config, w: World)
    requires l.exit.None?
    ensures GraceEnded(AfterTools(l, i, r, calls, cfg, w)) ==> Complete(AfterTools(l, i, r, calls, cfg, w))
  {
    var m := Executed(l, i, r, calls, w).0;
    var g := Grace(m, HasWrites(calls, w));
    GraceEndsComplete(m, HasWrites(calls, w));
    RemindKeeps(g, i, cfg);
  }

  lemma ReplyEndsComplete(l: Loop, i: nat, r: Reply, cfg: Config, w: World)
    requires l.exit.None?
    ensures GraceEnded(AfterReply(l, i, r, cfg, w)) ==> Complete(AfterReply(l, i, r, cfg, w))
  {
    var c := Charged(l, r, cfg);
    if c.exit.None? {
      ToolsEndComplete(c, i, r, KeptCalls(r, w), cfg, w);
    }
  }

  /** A run that ends by its grace window leaves plan items missing only where items outside
      the plan made up for them in the count. */
  lemma {:induction false} GraceEndMissesOnlyMadeUp(l: Loop, cfg: Config, w: World)
    requires GraceEnded(l) ==> Complete(l)
    ensures
      var end := RunFrom(l, cfg, w);
      GraceEnded(end) ==>
        && end.progress.Some? && MadeUp(end.progress.value)
        && (Remaining(end.progress.value) != [] <==> SomeMissing(end.progress.value))
    decreases cfg.maxIter - l.i
  {
    if l.exit.Some? || l.i >= cfg.maxIter {
      if GraceEnded(l) {
        TestsMean(l.progress.value);
      }
    } else {
      match w.reply(l.i) {
        case None =>
        case Some(r) => ReplyEndsComplete(Sent(l), l.i, r, cfg, w);
      }
      GraceEndMissesOnlyMadeUp(Iterate(l, cfg, w), cfg, w);
    }
  }
}
