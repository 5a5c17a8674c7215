/** brain/anchors.go puts a context message behind a result. A run of the tool loop in which
    that makes a prune cut inside a reply. */
module SplitReplies {
  import opened Wrappers
  import opened Text
  import opened History
  import opened HistoryShape
  import opened Progress
  import opened ToolLoop
  import opened ToolLoopRuns

  /** A state the loop prunes when it holds a split reply right where the window begins. */
  lemma SplitReplyIsCut(l: Loop, head: seq<Message>, group: seq<Message>, tail: seq<Message>)
    requires l.messages == head + group + tail
    requires head != [] && WellFormed(head) && SplitReply(group) && NoPageCtx(l.messages)
    requires |tail| + 1 <= RecentWindow(l.progress) <= |tail| + 2
    requires |head| >= 7 || (|head| == 6 && RecentWindow(l.progress) == |tail| + 1)
    ensures CutsOpenGroup(l)
  {
    CutInsideGroup(head, group, tail, RecentWindow(l.progress));
  }

  /** Reply i has two calls, and a context message follows the result of the first. */
  predicate SplitsReply(w: World, i: nat) {
    && w.reply(i).Some?
    && var r, o0, o1 := w.reply(i).value, w.outcome(i, 0), w.outcome(i, 1);
    && |r.calls| == 2 && !r.hitLimit
    && o0.succeeded && |o0.injected| == 1 && ANCHOR <= o0.injected[0] && Injected(o1) == []
    && !AsksForSecret(r.calls[0], o0) && !AsksForSecret(r.calls[1], o1)
  }

  function Group(w: World, i: nat): (group: seq<Message>)
    requires SplitsReply(w, i)
    ensures |group| == 4
  {
    var r := w.reply(i).value;
    [AssistantMessage(r, r.calls), ResultMessage(r.calls[0], w.outcome(i, 0)),
     UserMessage(w.outcome(i, 0).injected[0]), ResultMessage(r.calls[1], w.outcome(i, 1))]
  }

  lemma GroupIsSplit(w: World, i: nat)
    requires SplitsReply(w, i)
    ensures SplitReply(Group(w, i)) && NoPageCtx(Group(w, i))
  {
    IdsAt(w.reply(i).value.calls);
    var anchor := w.outcome(i, 0).injected[0];
    assert anchor[1] == 'A' && PAGE_CTX[1] == 'P';
  }

  /** Neither a budget nor a plan to track. */
  predicate Bare(l: Loop, cfg: Config) { l.exit.None? && l.progress.None? && cfg.costs.None? }

  lemma TwoCallsExecuted(b: Bench, r: Reply, outcome: nat -> Outcome, injected: Message)
    requires |r.calls| == 2 && b.progress.None? && !b.pause
    requires Injected(outcome(0)) == [injected] && Injected(outcome(1)) == []
    requires !AsksForSecret(r.calls[0], outcome(0)) && !AsksForSecret(r.calls[1], outcome(1))
    ensures
      var t := AfterCalls(b, r.calls, outcome);
      && t.progress.None? && !t.pause
      && t.messages == b.messages
           + [ResultMessage(r.calls[0], outcome(0)), injected, ResultMessage(r.calls[1], outcome(1))]
  {
    var one := [r.calls[0]];
    assert Front(r.calls) == one && Front(one) == [];
    assert AfterCalls(b, [], outcome) == b;
    assert AfterCalls(b, one, outcome) == AfterCall(b, r.calls[0], outcome(0));
  }

  lemma OneInjected(o: Outcome)
    requires o.succeeded && |o.injected| == 1
    ensures Injected(o) == [UserMessage(o.injected[0])]
  {
    assert Front(o.injected) == [];
    assert Users([]) == [];
  }

  /** An iteration appends the group of its reply, and then may prune. */
  lemma ReplyAppendsGroup(l: Loop, cfg: Config, w: World)
    requires Bare(l, cfg) && SplitsReply(w, l.i)
    ensures
      var p := ReachedPrune(l, cfg, w);
      && p.Some? && p.value.messages == l.messages + Group(w, l.i) && p.value.progress.None?
      && Iterate(l, cfg, w) == MaybePrune(p.value, w) && Bare(Iterate(l, cfg, w), cfg)
  {
    var r := w.reply(l.i).value;
    var b := Bench(l.messages + [AssistantMessage(r, r.calls)], None, l.checkpoint, false);
    OneInjected(w.outcome(l.i, 0));
    TwoCallsExecuted(b, r, (k: nat) => w.outcome(l.i, k), UserMessage(w.outcome(l.i, 0).injected[0]));
    assert KeptCalls(r, w) == r.calls;
  }

  ghost predicate AlwaysSplits(w: World) { forall i: nat :: SplitsReply(w, i) }

  /** A well-formed history of the given length, before iteration i. */
  ghost predicate At(l: Loop, cfg: Config, i: nat, length: nat) {
    Bare(l, cfg) && l.i == i && |l.messages| == length && NoPageCtx(l.messages) && WellFormed(l.messages)
  }

  lemma NoPageCtxJoins(a: seq<Message>, b: seq<Message>)
    requires NoPageCtx(a) && NoPageCtx(b)
    ensures NoPageCtx(a + b)
  {}

  /** While the history is too short to be pruned an iteration appends a group. */
  lemma StepGrows(l: Loop, cfg: Config, w: World, i: nat, length: nat)
    requires At(l, cfg, i, length) && SplitsReply(w, i) && length + 4 <= 18 + PRUNE_SLACK
    ensures At(Iterate(l, cfg, w), cfg, i + 1, length + 4)
    ensures Iterate(l, cfg, w).messages == l.messages + Group(w, i)
  {
    ReplyAppendsGroup(l, cfg, w);
    GroupIsSplit(w, i);
    NoPageCtxJoins(l.messages, Group(w, i));
    SplitReplyFeeds(l.messages, Group(w, i));
  }

  lemma {:induction false} HistoryGrows(l: Loop, cfg: Config, w: World, n: nat)
    requires At(l, cfg, 0, 1) && AlwaysSplits(w) && n <= 6
    ensures At(After(l, cfg, w, n), cfg, n, 1 + 4 * n)
    ensures n > 0 ==> After(l, cfg, w, n).messages == After(l, cfg, w, n - 1).messages + Group(w, n - 1)
    decreases n
  {
    if n > 0 {
      HistoryGrows(l, cfg, w, n - 1);
      assert SplitsReply(w, n - 1);
      StepGrows(After(l, cfg, w, n - 1), cfg, w, n - 1, 4 * n - 3);
    }
  }

  lemma {:induction false} LaterExtends(l: Loop, cfg: Config, w: World, m: nat, n: nat)
    requires At(l, cfg, 0, 1) && AlwaysSplits(w) && m <= n <= 6
    ensures After(l, cfg, w, m).messages <= After(l, cfg, w, n).messages
    decreases n
  {
    if m < n {
      LaterExtends(l, cfg, w, m, n - 1);
      HistoryGrows(l, cfg, w, n);
      PrefixExtends(After(l, cfg, w, m).messages, After(l, cfg, w, n - 1).messages, Group(w, n - 1));
    }
  }

  lemma PrefixExtends(a: seq<Message>, b: seq<Message>, c: seq<Message>)
    requires a <= b
    ensures a <= b + c
  {}

  /** The seventh of such replies makes 29 messages, which are cut at the eleventh: inside the
      third reply, between its two results. */
  lemma SeventhReplyIsCut(first: Message, cfg: Config, w: World)
    requires PlainStart([first]) && cfg.costs.None? && AlwaysSplits(w)
    ensures At(Start([first], false, None), cfg, 0, 1)
    ensures Cuts(After(Start([first], false, None), cfg, w, 6), cfg, w)
  {
    var l := Start([first], false, None);
    FeedOne(NOTHING, first, false);
    HistoryGrows(l, cfg, w, 2);
    HistoryGrows(l, cfg, w, 3);
    HistoryGrows(l, cfg, w, 6);
    LaterExtends(l, cfg, w, 3, 6);
    assert SplitsReply(w, 2) && SplitsReply(w, 6);
    CutIsInside(After(l, cfg, w, 6), After(l, cfg, w, 2).messages, cfg, w);
  }

  lemma CutIsInside(l: Loop, head: seq<Message>, cfg: Config, w: World)
    requires At(l, cfg, 6, 25) && SplitsReply(w, 2) && SplitsReply(w, 6)
    requires |head| == 9 && WellFormed(head) && head + Group(w, 2) <= l.messages
    ensures Cuts(l, cfg, w)
  {
    ReplyAppendsGroup(l, cfg, w);
    GroupIsSplit(w, 2);
    GroupIsSplit(w, 6);
    NoPageCtxJoins(l.messages, Group(w, 6));
    var p := ReachedPrune(l, cfg, w).value;
    assert p.messages[..13] == head + Group(w, 2);
    assert p.messages == head + Group(w, 2) + p.messages[13..];
    SplitReplyIsCut(p, head, Group(w, 2), p.messages[13..]);
  }

  /** In such a run, well-formed at first, some history is sent, or left at the end, in which a
      result has lost its call. */
  lemma SplitRepliesBreakTheRun(first: Message, cfg: Config, w: World)
    requires PlainStart([first]) && cfg.costs.None? && cfg.maxIter >= 7 && AlwaysSplits(w)
    ensures
      var end := RunFrom(Start([first], false, None), cfg, w);
      !((forall k :: 0 <= k < |end.requests| ==> Answered(end.requests[k], first)) && Answered(end.messages, first))
  {
    var l := Start([first], false, None);
    SeventhReplyIsCut(first, cfg, w);
    EveryRequestIsPairedIff([first], false, None, cfg, w);
    forall j: nat | j <= 6 ensures GoesOn(After(l, cfg, w, j), cfg) {
      HistoryGrows(l, cfg, w, j);
    }
    assert Reaches(l, cfg, w, 6);
  }

  // --------------------------------------------------------- such runs exist

  /** A reply of the sample creates a table, each time another one, and asks for one more
      without naming it, which fails. */
  function TableName(i: nat): string { "t" + seq(i, _ => 'x') }

  const BEFORE_NAME := @"{""action"":""create"",""columns"":{""title"":""TEXT""},""table_name"":"""
  const AFTER_NAME := @"""}"
  const NO_NAME := @"{""action"":""create""}"

  function CreateArguments(name: string): string { BEFORE_NAME + (name + AFTER_NAME) }

  function CreateResult(name: string): string {
    @"{""success"":true,""data"":{""columns"":{""title"":""TEXT""},""secure_columns"":{},""table"":""" + name + @"""}}"
  }

  const NO_NAME_RESULT := @"{""success"":false,""error"":""table_name and columns are required""}"

  /** buildSchemaAnchor of such a call; its columns are not given as a list, and not named. */
  function SchemaAnchor(name: string): string {
    ANCHOR + (" Table '" + (name + "': id (auto), , created_at (auto)."))
  }

  predicate IsName(name: string) { name != "" && forall k :: 0 <= k < |name| ==> 'a' <= name[k] <= 'z' }

  /** The two kinds of arguments the sample uses, read back. */
  function ReadArguments(arguments: string): Option<Args> {
    var n, m := |BEFORE_NAME|, |AFTER_NAME|;
    if arguments == NO_NAME then Some(Args("create", "", "", ""))
    else if |arguments| >= n + m && IsName(arguments[n..|arguments| - m]) &&
            arguments == CreateArguments(arguments[n..|arguments| - m])
    then Some(Args("create", arguments[n..|arguments| - m], "", ""))
    else None
  }

  lemma CreateIsRead(name: string)
    requires IsName(name)
    ensures ReadArguments(CreateArguments(name)) == Some(Args("create", name, "", ""))
  {
    var arguments := CreateArguments(name);
    assert arguments[|BEFORE_NAME|..|arguments| - |AFTER_NAME|] == name;
    assert |arguments| > |NO_NAME|;
  }

  function SampleReply(i: nat): Reply {
    Reply("", [ToolCall(TableName(i) + "_1", "manage_schema", CreateArguments(TableName(i))),
               ToolCall(TableName(i) + "_2", "manage_schema", NO_NAME)], false, 0)
  }

  function SampleOutcome(i: nat, k: nat): Outcome {
    if k == 0 then
      Outcome(CreateResult(TableName(i)), true, Args("create", TableName(i), "", ""), [SchemaAnchor(TableName(i))])
    else Outcome(NO_NAME_RESULT, false, Args("create", "", "", ""), [])
  }

  function SampleWorld(): World {
    World((i: nat) => Some(SampleReply(i)), (i: nat, k: nat) => SampleOutcome(i, k), ReadArguments,
          (call: ToolCall) => "")
  }

  lemma AnchorNames(a: string, b: string)
    requires SchemaAnchor(a) == SchemaAnchor(b)
    ensures |a| == |b|
  {}

  /** There are such runs: every call's arguments are what it is executed with, the name of the
      table is given, and the anchor is new. */
  lemma SampleSplits(i: nat)
    ensures SplitsReply(SampleWorld(), i)
    ensures
      var w := SampleWorld();
      var calls, created := w.reply(i).value.calls, w.outcome(i, 0);
      && w.parsed(calls[0].arguments) == Some(created.args)
      && w.parsed(calls[1].arguments) == Some(w.outcome(i, 1).args)
      && IsName(created.args.tableName) && created.injected == [SchemaAnchor(created.args.tableName)]
      && forall j: nat :: j != i ==> w.outcome(j, 0).injected != created.injected
  {
    var name := TableName(i);
    assert IsName(name);
    CreateIsRead(name);
    assert ANCHOR <= SchemaAnchor(name);
    forall j: nat | j != i ensures SampleOutcome(j, 0).injected != SampleOutcome(i, 0).injected {
      assert SampleOutcome(j, 0).injected[0] == SchemaAnchor(TableName(j));
      if SchemaAnchor(TableName(j)) == SchemaAnchor(name) {
        AnchorNames(TableName(j), name);
      }
    }
  }
}
