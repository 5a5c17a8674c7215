/** brain/tool_loop.go: what each iteration says to the model, and so every history that is
    sent, told from the replies and results alone; and when a checkpoint is saved. */
module ToolLoopTurns {
  import opened Wrappers
  import opened Text
  import opened History
  import opened Progress
  import opened ToolLoop
  import opened ToolLoopEnds

  function ToModel(content: string): Message { Message(User, content, [], "") }

  /** Each result answers its call, in call order, and is followed by what it injects. */
  function Answers(calls: seq<ToolCall>, outcome: nat -> Outcome, k: nat): seq<Message>
    requires k <= |calls|
  {
    if k == 0 then []
    else
      var call, o := calls[k - 1], outcome(k - 1);
      Answers(calls, outcome, k - 1) +
      ([Message(Tool, o.result, [], call.id)] +
       if o.succeeded then seq(|o.injected|, j requires 0 <= j < |o.injected| => ToModel(o.injected[j])) else [])
  }

  /** Once, when a reply that can be paid for brings the build to nine tenths of its budget. */
  function Notice(wrapUpSent: bool, cfg: Config, w: World, n: nat): seq<Message> {
    if !wrapUpSent && NearlySpent(cfg, w, n + 1) && !(n > 0 && NearlySpent(cfg, w, n))
    then [ToModel("IMPORTANT: wrap up")] else []
  }

  /** The reply as it is kept: without a call cut off in the middle. */
  function Spoken(w: World, n: nat): Message
    requires w.reply(n).Some?
  {
    Message(Assistant, w.reply(n).value.content, Whole(w, n), "")
  }

  /** Once, after a round of tools in the last quarter with plan items missing. */
  function LateReminder(p: Option<Tracker>, cfg: Config, w: World, n: nat): seq<Message> {
    if p.Some? && RemindsAt(p.value, cfg, w, n) && !Reminded(p.value, cfg, w, n) then [ToModel("REMINDER")] else []
  }

  /** How many recent messages a prune keeps. */
  function Window(p: Option<Tracker>): nat {
    if p.None? then 18
    else
      var items := |p.value.plan.pages| + |p.value.plan.endpoints|;
      if items <= 5 then 18 else if items <= 10 then 21 else 24
  }

  /** A reply cut short is kept and the model asked to go on, or to make the call again. */
  function AskedToGoOn(p: Option<Tracker>, w: World, n: nat): Message
    requires w.reply(n).Some?
  {
    var calls := w.reply(n).value.calls;
    if calls != [] then ToModel("Call again: " + calls[|calls| - 1].name)
    else if p.Some? && Unfinished(p.value, w, n) then ToModel("Continue. REMINDER")
    else ToModel("Continue. ")
  }

  /** A round of tools, and a prune when the history is longer than the window and eight. */
  function RoundSaid(m: seq<Message>, p: Option<Tracker>, cfg: Config, w: World, n: nat): seq<Message>
    requires w.reply(n).Some?
  {
    var calls := Whole(w, n);
    var answered := m + [Spoken(w, n)] + Answers(calls, (k: nat) => w.outcome(n, k), |calls|);
    if Verdict(p, cfg, w, n).Some? then answered
    else
      var all := answered + LateReminder(p, cfg, w, n);
      if |all| > Window(p) + 8 then Pruned(all, Window(p), w.summarize) else all
  }

  /** The history after iteration n. */
  function Said(m: seq<Message>, wrapUpSent: bool, p: Option<Tracker>, cfg: Config, w: World, n: nat): seq<Message> {
    if w.reply(n).None? || SpentUp(cfg, w, n + 1) then m
    else
      var noticed := m + Notice(wrapUpSent, cfg, w, n);
      if Whole(w, n) != [] then RoundSaid(noticed, p, cfg, w, n)
      else if Verdict(p, cfg, w, n).Some? then noticed
      else noticed + [Spoken(w, n), AskedToGoOn(p, w, n)]
  }

  /** The history before iteration n. */
  function HistoryAt(m: seq<Message>, wrapUpSent: bool, p: Option<Tracker>, cfg: Config, w: World, n: nat): seq<Message> {
    if n == 0 then m
    else Said(HistoryAt(m, wrapUpSent, p, cfg, w, n - 1), wrapUpSent, p, cfg, w, n - 1)
  }

  // ------------------------------------------------------------- one iteration

  lemma {:induction false} UsersAre(contents: seq<string>)
    ensures Users(contents) == seq(|contents|, j requires 0 <= j < |contents| => ToModel(contents[j]))
    decreases |contents|
  {
    if contents != [] {
      UsersAre(Front(contents));
    }
  }

  lemma {:induction false} AnswersAre(b: Bench, calls: seq<ToolCall>, outcome: nat -> Outcome, k: nat)
    requires k <= |calls|
    ensures AfterCalls(b, calls[..k], outcome).messages == b.messages + Answers(calls, outcome, k)
    decreases k
  {
    if k == 0 {
      assert calls[..0] == [];
    } else {
      AnswersAre(b, calls, outcome, k - 1);
      assert Front(calls[..k]) == calls[..k - 1];
      AnswerIs(AfterCalls(b, calls[..k - 1], outcome), calls[k - 1], outcome(k - 1));
    }
  }

  lemma AnswerIs(b: Bench, call: ToolCall, o: Outcome)
    ensures
      AfterCall(b, call, o).messages
      == b.messages + ([Message(Tool, o.result, [], call.id)] +
                       if o.succeeded then seq(|o.injected|, j requires 0 <= j < |o.injected| => ToModel(o.injected[j])) else [])
  {
    UsersAre(o.injected);
  }

  lemma ExecutedSays(c: Loop, n: nat, w: World)
    requires w.reply(n).Some?
    ensures Executed(c, n, w.reply(n).value, Whole(w, n), w).0.messages
            == c.messages + [Spoken(w, n)] + Answers(Whole(w, n), (k: nat) => w.outcome(n, k), |Whole(w, n)|)
  {
    var calls := Whole(w, n);
    var b := Bench(c.messages + [AssistantMessage(w.reply(n).value, calls)], c.progress, c.checkpoint, false);
    AnswersAre(b, calls, (k: nat) => w.outcome(n, k), |calls|);
    assert calls[..|calls|] == calls;
  }

  lemma WindowIs(q: Option<Tracker>, p: Option<Tracker>)
    requires (q.Some? <==> p.Some?) && (p.Some? ==> q.value.plan == p.value.plan)
    ensures RecentWindow(q) == Window(p)
  {}

  /** What follows the results, for a tracker that holds what is told. */
  lemma BehindSays(m: Loop, p: Tracker, told: Told, n: nat, writes: bool, cfg: Config, w: World)
    requires m.exit.None? && m.progress.Some? && Holds(m.progress.value, p, told)
    ensures
      var l := Behind(m, n, writes, cfg, w);
      var due := !told.reminded && n >= cfg.maxIter * 3 / 4 && SomethingLacks(p, told);
      var all := m.messages + if due then [ToModel("REMINDER")] else [];
      l.messages == if l.exit.Some? then m.messages
                    else if |all| > Window(Some(p)) + 8 then Pruned(all, Window(Some(p)), w.summarize) else all
  {
    GraceTells(m, p, told, writes);
    var g := Grace(m, writes);
    var graced := if Counts(p, told) then told.(rounds := told.rounds + [writes]) else told;
    RemindTells(g, p, graced, n, cfg);
    WindowIs(Remind(g, n, cfg).progress, Some(p));
    assert SomethingLacks(p, graced) == SomethingLacks(p, told);
  }

  lemma BehindWithout(m: Loop, n: nat, writes: bool, cfg: Config, w: World)
    requires m.exit.None? && m.progress.None?
    ensures Behind(m, n, writes, cfg, w).messages ==
            if |m.messages| > 18 + 8 then Pruned(m.messages, 18, w.summarize) else m.messages
    ensures Behind(m, n, writes, cfg, w).exit.None?
  {}

  lemma ReminderIs(p: Tracker, cfg: Config, w: World, n: nat, after: Told)
    requires Whole(w, n) != []
    requires after == ToldBy(ToldAt(p, cfg, w, n), Whole(w, n), (k: nat) => w.outcome(n, k), |Whole(w, n)|)
    ensures LateReminder(Some(p), cfg, w, n) ==
            if !after.reminded && n >= cfg.maxIter * 3 / 4 && SomethingLacks(p, after) then [ToModel("REMINDER")] else []
  {
    ToldNext(p, cfg, w, n);
  }

  lemma RoundSays(c: Loop, s: Loop, cfg: Config, w: World, n: nat)
    requires Afforded(c, s, cfg, w, n) && Whole(w, n) != []
    ensures AfterTools(c, n, w.reply(n).value, Whole(w, n), cfg, w).messages
            == RoundSaid(c.messages, s.progress, cfg, w, n)
  {
    var r := w.reply(n).value;
    ExecutedSays(c, n, w);
    ExecutedPauses(c, n, r, w);
    AfterToolsIs(c, n, r, cfg, w);
    AffordedRound(c, s, cfg, w, n);
    var m := Executed(c, n, r, Whole(w, n), w).0;
    if AsksOwner(w, n) {
      assert AfterTools(c, n, r, Whole(w, n), cfg, w).exit == Some(Paused);
    } else {
      BehindIsSaid(c, s, cfg, w, n, m, HasWrites(Whole(w, n), w));
    }
  }

  lemma BehindIsSaid(c: Loop, s: Loop, cfg: Config, w: World, n: nat, m: Loop, writes: bool)
    requires Afforded(c, s, cfg, w, n) && Whole(w, n) != [] && m == Executed(c, n, w.reply(n).value, Whole(w, n), w).0
    requires m.exit.None? && (c.progress.None? ==> m.progress.None?)
    requires m.messages == c.messages + [Spoken(w, n)] + Answers(Whole(w, n), (k: nat) => w.outcome(n, k), |Whole(w, n)|)
    requires Behind(m, n, writes, cfg, w).exit == Verdict(s.progress, cfg, w, n)
    ensures Behind(m, n, writes, cfg, w).messages == RoundSaid(c.messages, s.progress, cfg, w, n)
  {
    if s.progress.None? {
      BehindWithout(m, n, writes, cfg, w);
      assert m.messages + [] == m.messages;
    } else {
      var p, calls := s.progress.value, Whole(w, n);
      var told := ToldAt(p, cfg, w, n);
      ExecutedTells(c, p, told, n, w.reply(n).value, calls, w);
      var after := ToldBy(told, calls, (k: nat) => w.outcome(n, k), |calls|);
      BehindSays(m, p, after, n, writes, cfg, w);
      ReminderIs(p, cfg, w, n, after);
    }
  }

  lemma GoOnText(l: Loop)
    ensures ContinueText(l) ==
            if l.progress.Some? && Remaining(l.progress.value) != [] then "Continue. REMINDER" else "Continue. "
  {
    assert CONTINUE + REMINDER == "Continue. REMINDER";
    assert CONTINUE + "" == CONTINUE;
  }

  lemma GoOnIs(c: Loop, s: Loop, cfg: Config, w: World, n: nat)
    requires w.reply(n).Some? && w.reply(n).value.calls == []
    requires (c.progress.Some? <==> s.progress.Some?)
    requires s.progress.Some? ==> Holds(c.progress.value, s.progress.value, ToldAt(s.progress.value, cfg, w, n))
    ensures ToModel(ContinueText(c)) == AskedToGoOn(s.progress, w, n)
  {
    GoOnText(c);
    if s.progress.Some? {
      var told := ToldAt(s.progress.value, cfg, w, n);
      RemainsIff(c.progress.value, s.progress.value, told);
      UnfinishedIs(s.progress.value, cfg, w, n, told);
    }
  }

  lemma UnfinishedIs(p: Tracker, cfg: Config, w: World, n: nat, told: Told)
    requires told == ToldAt(p, cfg, w, n)
    ensures Unfinished(p, w, n) <==> SomethingLacks(p, told)
  {}

  lemma TextSays(c: Loop, s: Loop, cfg: Config, w: World, n: nat)
    requires Afforded(c, s, cfg, w, n) && Whole(w, n) == []
    ensures ToolLoopEnds.Answered(c, cfg, w, n).messages ==
            if Verdict(s.progress, cfg, w, n).Some? then c.messages
            else c.messages + [Spoken(w, n), AskedToGoOn(s.progress, w, n)]
  {
    var r := w.reply(n).value;
    AffordedText(c, s, cfg, w, n);
    if r.calls == [] {
      GoOnIs(c.(continuations := c.continuations + 1), s, cfg, w, n);
    }
  }

  lemma ChargedSays(l: Loop, s: Loop, cfg: Config, w: World, n: nat)
    requires IsAt(l, s, cfg, w, n) && w.reply(n).Some?
    ensures Charged(Sent(l), w.reply(n).value, cfg).messages ==
            if SpentUp(cfg, w, n + 1) then l.messages else l.messages + Notice(s.wrapUpSent, cfg, w, n)
  {
    SpendNext(cfg, w, s.progress, n);
  }

  /** Every iteration logs the history it sends, and continues it as told. */
  lemma IterationSays(l: Loop, s: Loop, cfg: Config, w: World, n: nat)
    requires IsAt(l, s, cfg, w, n)
    ensures
      var next := Iterate(l, cfg, w);
      && next.messages == Said(l.messages, s.wrapUpSent, s.progress, cfg, w, n)
      && next.requests == l.requests + [l.messages]
  {
    if w.reply(n).Some? {
      var r := w.reply(n).value;
      ChargedSays(l, s, cfg, w, n);
      SpendNext(cfg, w, s.progress, n);
      ChargedStands(l, s, n, SumsAt(s.progress, cfg, w, n), r, cfg);
      WholeIsKept(w, n);
      if !SpentUp(cfg, w, n + 1) {
        var c := Charged(Sent(l), r, cfg);
        assert Iterate(l, cfg, w) == ToolLoopEnds.Answered(c, cfg, w, n);
        if Whole(w, n) == [] {
          TextSays(c, s, cfg, w, n);
        } else {
          RoundSays(c, s, cfg, w, n);
        }
      }
    }
  }

  // ------------------------------------------------------------------ whole runs

  /** The requests are the histories before the iterations, the first n of them. */
  ghost predicate Logged(requests: seq<seq<Message>>, s: Loop, cfg: Config, w: World) {
    Agrees(requests, Histories(s, cfg, w))
  }

  ghost predicate Agrees<T>(s: seq<T>, f: nat -> T) { forall k: nat :: k < |s| ==> s[k] == f(k) }

  function Histories(s: Loop, cfg: Config, w: World): nat -> seq<Message> {
    (k: nat) => HistoryAt(s.messages, s.wrapUpSent, s.progress, cfg, w, k)
  }

  lemma {:induction false} RunSays(l: Loop, s: Loop, cfg: Config, w: World, n: nat)
    requires IsAt(l, s, cfg, w, n) && Logged(l.requests, s, cfg, w)
    requires l.messages == HistoryAt(s.messages, s.wrapUpSent, s.progress, cfg, w, n)
    ensures
      var end := RunFrom(l, cfg, w);
      && Logged(end.requests, s, cfg, w)
      && end.messages == HistoryAt(s.messages, s.wrapUpSent, s.progress, cfg, w, |end.requests|)
    decreases cfg.maxIter - n
  {
    if n < cfg.maxIter {
      IterationIs(l, s, cfg, w, n);
      NextSays(l, s, cfg, w, n);
      var next := Iterate(l, cfg, w);
      if next.exit.None? {
        RunSays(next, s, cfg, w, n + 1);
      }
    }
  }

  lemma NextSays(l: Loop, s: Loop, cfg: Config, w: World, n: nat)
    requires IsAt(l, s, cfg, w, n) && Logged(l.requests, s, cfg, w)
    requires l.messages == HistoryAt(s.messages, s.wrapUpSent, s.progress, cfg, w, n)
    ensures
      var next := Iterate(l, cfg, w);
      && Logged(next.requests, s, cfg, w) && |next.requests| == n + 1
      && next.messages == HistoryAt(s.messages, s.wrapUpSent, s.progress, cfg, w, n + 1)
  {
    IterationSays(l, s, cfg, w, n);
    LoggedSnoc(l.requests, s, cfg, w);
    HistoryNext(s.messages, s.wrapUpSent, s.progress, cfg, w, n);
  }

  lemma HistoryNext(m: seq<Message>, wrapUpSent: bool, p: Option<Tracker>, cfg: Config, w: World, n: nat)
    ensures HistoryAt(m, wrapUpSent, p, cfg, w, n + 1)
            == Said(HistoryAt(m, wrapUpSent, p, cfg, w, n), wrapUpSent, p, cfg, w, n)
  {}

  lemma LoggedSnoc(requests: seq<seq<Message>>, s: Loop, cfg: Config, w: World)
    requires Logged(requests, s, cfg, w)
    ensures Logged(requests + [HistoryAt(s.messages, s.wrapUpSent, s.progress, cfg, w, |requests|)], s, cfg, w)
  {
    AgreesSnoc(requests, Histories(s, cfg, w));
  }

  lemma AgreesSnoc<T>(s: seq<T>, f: nat -> T)
    requires Agrees(s, f)
    ensures Agrees(s + [f(|s|)], f)
  {}

  /** Every history a run sends, and the one it leaves. */
  lemma HistoriesAre(s: Loop, cfg: Config, w: World)
    requires Fresh(s)
    ensures
      var end := RunFrom(s, cfg, w);
      && Logged(end.requests, s, cfg, w)
      && end.messages == HistoryAt(s.messages, s.wrapUpSent, s.progress, cfg, w, |end.requests|)
  {
    FreshIsAt(s, cfg, w);
    RunSays(s, s, cfg, w, 0);
  }

  // ---------------------------------------------------------------- checkpoints

  /** Result k is a success after which, by count, all tables and endpoints are done and not
      all pages. */
  predicate CompletesInfrastructure(t: Tracker, calls: seq<ToolCall>, outcome: nat -> Outcome, k: nat)
    requires k < |calls|
  {
    && outcome(k).succeeded
    && |t.tables + CreatedBy(calls, outcome, k + 1, Tables)| >= |t.plan.tables|
    && |t.endpoints + CreatedBy(calls, outcome, k + 1, Endpoints)| >= |t.plan.endpoints|
    && |t.pages + CreatedBy(calls, outcome, k + 1, Pages)| < |t.plan.pages|
  }

  /** The first of the first k results that does. */
  function FirstCompleting(t: Tracker, calls: seq<ToolCall>, outcome: nat -> Outcome, k: nat): (r: Option<nat>)
    requires k <= |calls|
    ensures r.Some? ==> r.value < k && CompletesInfrastructure(t, calls, outcome, r.value)
    ensures forall j: nat :: j < k && CompletesInfrastructure(t, calls, outcome, j) ==> r.Some? && r.value <= j
  {
    var completes := (j: nat) => j < |calls| && CompletesInfrastructure(t, calls, outcome, j);
    assert forall j: nat :: j < k && CompletesInfrastructure(t, calls, outcome, j) ==> completes(j);
    First(completes, k)
  }

  function First(p: nat -> bool, k: nat): (r: Option<nat>)
    ensures r.Some? ==> r.value < k && p(r.value)
    ensures forall j: nat :: j < k && p(j) ==> r.Some? && r.value <= j
  {
    if k == 0 then None
    else
      var before := First(p, k - 1);
      if before.Some? then before else if p(k - 1) then Some(k - 1) else None
  }

  lemma {:induction false} CreatedAdds(b: Bench, calls: seq<ToolCall>, outcome: nat -> Outcome, k: nat)
    requires k <= |calls| && b.progress.Some?
    ensures
      var q := AfterCalls(b, calls[..k], outcome).progress;
      && q.Some? && q.value.plan == b.progress.value.plan
      && q.value.tables == b.progress.value.tables + CreatedBy(calls, outcome, k, Tables)
      && q.value.endpoints == b.progress.value.endpoints + CreatedBy(calls, outcome, k, Endpoints)
      && q.value.pages == b.progress.value.pages + CreatedBy(calls, outcome, k, Pages)
    decreases k
  {
    if k == 0 {
      assert calls[..0] == [];
    } else {
      CreatedAdds(b, calls, outcome, k - 1);
      assert Front(calls[..k]) == calls[..k - 1];
      OneMoreCreated(AfterCalls(b, calls[..k - 1], outcome), calls[k - 1], outcome(k - 1));
    }
  }

  lemma OneMoreCreated(before: Bench, call: ToolCall, o: Outcome)
    requires before.progress.Some?
    ensures
      var t, q := before.progress.value, AfterCall(before, call, o).progress;
      && q.Some? && q.value.plan == t.plan
      && q.value.tables == t.tables + Created(call, o, Tables)
      && q.value.endpoints == t.endpoints + Created(call, o, Endpoints)
      && q.value.pages == t.pages + Created(call, o, Pages)
  {
    AfterCallProgress(before, call, o);
    if o.succeeded {
      TrackedSets(before.progress.value, call, o);
    } else {
      NothingCreated(call, o);
    }
  }

  lemma OneCallSaves(before: Bench, call: ToolCall, o: Outcome)
    requires before.progress.Some?
    ensures
      var after := AfterCall(before, call, o);
      var t := after.progress.value;
      var saves := o.succeeded && !before.progress.value.checkpointed && |t.tables| >= |t.plan.tables| &&
                   |t.endpoints| >= |t.plan.endpoints| && |t.pages| < |t.plan.pages|;
      && t.checkpointed == (before.progress.value.checkpointed || saves)
      && after.checkpoint == if saves then Some(before.messages + [Message(Tool, o.result, [], call.id)])
                             else before.checkpoint
  {}

  /** Among the results of a reply: a checkpoint is saved at the first that completes the
      infrastructure, if none was saved before, with the history up to that result; the later
      ones do not replace it. */
  lemma {:induction false} CheckpointIs(b: Bench, calls: seq<ToolCall>, outcome: nat -> Outcome, k: nat)
    requires k <= |calls| && b.progress.Some?
    ensures
      var t, after := b.progress.value, AfterCalls(b, calls[..k], outcome);
      var first := FirstCompleting(t, calls, outcome, k);
      && after.progress.Some?
      && (after.progress.value.checkpointed <==> t.checkpointed || first.Some?)
      && after.checkpoint ==
         if t.checkpointed || first.None? then b.checkpoint
         else Some(b.messages + Answers(calls, outcome, first.value)
                   + [Message(Tool, outcome(first.value).result, [], calls[first.value].id)])
    decreases k
  {
    if k == 0 {
      assert calls[..0] == [];
    } else {
      CheckpointIs(b, calls, outcome, k - 1);
      CallSavesIff(b, calls, outcome, k - 1);
    }
  }

  lemma CallSavesIff(b: Bench, calls: seq<ToolCall>, outcome: nat -> Outcome, k: nat)
    requires k < |calls| && b.progress.Some? && AfterCalls(b, calls[..k], outcome).progress.Some?
    ensures
      var before, after := AfterCalls(b, calls[..k], outcome), AfterCalls(b, calls[..k + 1], outcome);
      var saves := !before.progress.value.checkpointed && CompletesInfrastructure(b.progress.value, calls, outcome, k);
      && after.progress.Some?
      && after.progress.value.checkpointed == (before.progress.value.checkpointed || saves)
      && after.checkpoint == if saves then Some(b.messages + Answers(calls, outcome, k)
                                                + [Message(Tool, outcome(k).result, [], calls[k].id)])
                             else before.checkpoint
  {
    assert Front(calls[..k + 1]) == calls[..k];
    OneCallSaves(AfterCalls(b, calls[..k], outcome), calls[k], outcome(k));
    CreatedAdds(b, calls, outcome, k + 1);
    AnswersAre(b, calls, outcome, k);
  }

  /** A run that pauses leaves its whole history as the checkpoint. */
  lemma {:induction false} PauseIsSaved(l: Loop, cfg: Config, w: World)
    requires l.exit.None?
    ensures var end := RunFrom(l, cfg, w); end.exit == Some(Paused) ==> end.checkpoint == Some(end.messages)
    decreases cfg.maxIter - l.i
  {
    if l.i < cfg.maxIter {
      IterationSaves(l, cfg, w);
      var next := Iterate(l, cfg, w);
      if next.exit.None? {
        PauseIsSaved(next, cfg, w);
      }
    }
  }

  lemma IterationSaves(l: Loop, cfg: Config, w: World)
    requires l.exit.None?
    ensures var next := Iterate(l, cfg, w); next.exit == Some(Paused) ==> next.checkpoint == Some(next.messages)
  {}
}
