/** brain/tool_loop.go over whole runs: exactly when the histories sent to the model stay
    answered through all prunes, for any replies and any context messages injected. */
module ToolLoopRuns {
  import opened Wrappers
  import opened Text
  import opened History
  import opened HistoryShape
  import opened Progress
  import opened ToolLoop

  /** The history begins with the given message and has every call answered. */
  ghost predicate Good(ms: seq<Message>, first: Message) { PlainStart(ms) && ms[0] == first && WellFormed(ms) }

  /** The state an iteration hands to the prune; None when it ends before that. */
  function BeforePrune(l: Loop, i: nat, r: Reply, calls: seq<ToolCall>, cfg: Config, w: World): Option<Loop> {
    var (m, pause) := Executed(l, i, r, calls, w);
    if pause then None
    else
      var g := Grace(m, HasWrites(calls, w));
      if g.exit.Some? then None else Some(Remind(g, i, cfg))
  }

  function ReachedPrune(l: Loop, cfg: Config, w: World): Option<Loop> {
    match w.reply(l.i)
    case None => None
    case Some(r) =>
      var c := Charged(Sent(l), r, cfg);
      if c.exit.Some? || KeptCalls(r, w) == [] then None else BeforePrune(c, l.i, r, KeptCalls(r, w), cfg, w)
  }

  /** The loop prunes this state, and cuts the history where a reply still waits for results. */
  predicate CutsOpenGroup(l: Loop) {
    var window := RecentWindow(l.progress);
    && |l.messages| > window + PRUNE_SLACK && Prunes(l.messages, window)
    && OpenAtCut(Cleaned(l.messages), window, false) != NOTHING
  }

  predicate Cuts(l: Loop, cfg: Config, w: World) {
    var p := ReachedPrune(l, cfg, w);
    p.Some? && CutsOpenGroup(p.value)
  }

  /** The state after n iterations. */
  function After(l: Loop, cfg: Config, w: World, n: nat): Loop {
    if n == 0 then l else Iterate(After(l, cfg, w, n - 1), cfg, w)
  }

  /** The loop takes another iteration. */
  predicate GoesOn(l: Loop, cfg: Config) { l.exit.None? && l.i < cfg.maxIter }

  /** The run has an iteration number n. */
  ghost predicate Reaches(l: Loop, cfg: Config, w: World, n: nat) {
    forall j: nat :: j <= n ==> GoesOn(After(l, cfg, w, j), cfg)
  }

  /** No iteration of the run cuts an open group. */
  ghost predicate NeverCuts(l: Loop, cfg: Config, w: World) {
    forall n: nat :: Reaches(l, cfg, w, n) ==> !Cuts(After(l, cfg, w, n), cfg, w)
  }

  // ------------------------------------------------------- a single iteration

  lemma SayKeepsGood(ms: seq<Message>, content: string, first: Message)
    requires Good(ms, first)
    ensures Good(ms + [UserMessage(content)], first)
  {
    FeedSnoc(NOTHING, ms, UserMessage(content), false);
  }

  lemma TextKeepsGood(ms: seq<Message>, r: Reply, content: string, first: Message)
    requires Good(ms, first)
    ensures Good(ms + [AssistantMessage(r, [])] + [UserMessage(content)], first)
  {
    FeedSnoc(NOTHING, ms, AssistantMessage(r, []), false);
    SayKeepsGood(ms + [AssistantMessage(r, [])], content, first);
  }

  /** All results of a reply are appended, whatever is injected between them. */
  lemma ExecutionKeepsGood(l: Loop, i: nat, r: Reply, calls: seq<ToolCall>, w: World, first: Message)
    requires Good(l.messages, first)
    ensures Good(Executed(l, i, r, calls, w).0.messages, first)
  {
    var b := Bench(l.messages + [AssistantMessage(r, calls)], l.progress, l.checkpoint, false);
    var outcome: nat -> Outcome := (k: nat) => w.outcome(i, k);
    FeedSnoc(NOTHING, l.messages, AssistantMessage(r, calls), false);
    ResultsClose(b, calls, outcome, |calls|, false);
    assert calls[..|calls|] == calls && Ids(calls)[|calls|..] == [];
    CallsKeepPrefix(b, calls, outcome);
    assert AfterCalls(b, calls, outcome).messages[0] == b.messages[0] == l.messages[0];
  }

  lemma PruneIsGoodIff(l: Loop, w: World, first: Message)
    requires Good(l.messages, first)
    ensures Good(MaybePrune(l, w).messages, first) <==> !CutsOpenGroup(l)
  {
    var window := RecentWindow(l.progress);
    PruneKeepsWellFormedIff(l.messages, window, w.summarize);
    PruneKeepsFirst(l.messages, window, w.summarize);
  }

  lemma ToolsAreGoodIff(l: Loop, i: nat, r: Reply, calls: seq<ToolCall>, cfg: Config, w: World, first: Message)
    requires Good(l.messages, first)
    ensures
      var p := BeforePrune(l, i, r, calls, cfg, w);
      && (p.Some? ==> Good(p.value.messages, first))
      && (Good(AfterTools(l, i, r, calls, cfg, w).messages, first) <==> p.None? || !CutsOpenGroup(p.value))
  {
    ExecutionKeepsGood(l, i, r, calls, w, first);
    var m := Executed(l, i, r, calls, w).0;
    SayKeepsGood(m.messages, REMINDER, first);
    var p := BeforePrune(l, i, r, calls, cfg, w);
    if p.Some? {
      PruneIsGoodIff(p.value, w, first);
    }
  }

  /** One iteration keeps the history good exactly when it does not cut an open group. */
  lemma IterationIsGoodIff(l: Loop, cfg: Config, w: World, first: Message)
    requires Good(l.messages, first)
    ensures Good(Iterate(l, cfg, w).messages, first) <==> !Cuts(l, cfg, w)
  {
    match w.reply(l.i)
    case None =>
    case Some(r) =>
      SayKeepsGood(l.messages, WRAP_UP, first);
      var c := Charged(Sent(l), r, cfg);
      if c.exit.None? {
        if KeptCalls(r, w) != [] {
          ToolsAreGoodIff(c, l.i, r, KeptCalls(r, w), cfg, w, first);
        } else if r.calls != [] {
          TextKeepsGood(c.messages, r, RETRY_CALL + Last(r.calls).name, first);
        } else {
          TextKeepsGood(c.messages, r, ContinueText(c), first);
        }
      }
  }

  // ------------------------------------------------------ one after the other

  lemma {:induction false} AfterFirst(l: Loop, cfg: Config, w: World, n: nat)
    ensures After(l, cfg, w, n + 1) == After(Iterate(l, cfg, w), cfg, w, n)
    decreases n
  {
    if n > 0 {
      AfterFirst(l, cfg, w, n - 1);
    } else {
      assert After(l, cfg, w, 0) == l;
    }
  }

  lemma ReachesFirst(l: Loop, cfg: Config, w: World, n: nat)
    ensures Reaches(l, cfg, w, n + 1) <==> GoesOn(l, cfg) && Reaches(Iterate(l, cfg, w), cfg, w, n)
  {
    var m := Iterate(l, cfg, w);
    forall j: nat ensures After(l, cfg, w, j + 1) == After(m, cfg, w, j) {
      AfterFirst(l, cfg, w, j);
    }
    if Reaches(l, cfg, w, n + 1) {
      assert GoesOn(After(l, cfg, w, 0), cfg);
      forall j: nat | j <= n ensures GoesOn(After(m, cfg, w, j), cfg) {
        assert GoesOn(After(l, cfg, w, j + 1), cfg);
      }
    }
    if GoesOn(l, cfg) && Reaches(m, cfg, w, n) {
      forall j: nat | j <= n + 1 ensures GoesOn(After(l, cfg, w, j), cfg) {
        if j > 0 {
          assert GoesOn(After(m, cfg, w, j - 1), cfg);
        }
      }
    }
  }

  lemma NeverCutsFirst(l: Loop, cfg: Config, w: World)
    ensures !GoesOn(l, cfg) ==> NeverCuts(l, cfg, w)
    ensures GoesOn(l, cfg) ==> (NeverCuts(l, cfg, w) <==> !Cuts(l, cfg, w) && NeverCuts(Iterate(l, cfg, w), cfg, w))
  {
    var m := Iterate(l, cfg, w);
    assert After(l, cfg, w, 0) == l;
    if !GoesOn(l, cfg) {
      forall n: nat ensures !Reaches(l, cfg, w, n) {
        assert !GoesOn(After(l, cfg, w, 0), cfg);
      }
    } else {
      assert Reaches(l, cfg, w, 0);
      if NeverCuts(l, cfg, w) {
        forall n: nat | Reaches(m, cfg, w, n) ensures !Cuts(After(m, cfg, w, n), cfg, w) {
          ReachesFirst(l, cfg, w, n);
          AfterFirst(l, cfg, w, n);
        }
      }
      if !Cuts(l, cfg, w) && NeverCuts(m, cfg, w) {
        forall n: nat | Reaches(l, cfg, w, n) ensures !Cuts(After(l, cfg, w, n), cfg, w) {
          if n > 0 {
            ReachesFirst(l, cfg, w, n - 1);
            AfterFirst(l, cfg, w, n - 1);
          }
        }
      }
    }
  }

  // ------------------------------------------------------------ whole runs

  ghost predicate AllGood(requests: seq<seq<Message>>, first: Message) {
    forall k :: 0 <= k < |requests| ==> Good(requests[k], first)
  }

  /** A run only adds requests, and begins with the history it starts from. */
  lemma {:induction false} RunSends(l: Loop, cfg: Config, w: World)
    ensures l.requests <= RunFrom(l, cfg, w).requests
    ensures if !GoesOn(l, cfg) then RunFrom(l, cfg, w).messages == l.messages
            else l.requests + [l.messages] <= RunFrom(l, cfg, w).requests
    decreases cfg.maxIter - l.i
  {
    if GoesOn(l, cfg) {
      RunSends(Iterate(l, cfg, w), cfg, w);
    }
  }

  /** A history that is not good shows, as a request or at the end. */
  lemma BadShows(l: Loop, cfg: Config, w: World, first: Message)
    requires !Good(l.messages, first)
    ensures !AllGood(RunFrom(l, cfg, w).requests, first) || !Good(RunFrom(l, cfg, w).messages, first)
  {
    RunSends(l, cfg, w);
    if GoesOn(l, cfg) {
      assert RunFrom(l, cfg, w).requests[|l.requests|] == l.messages;
    }
  }

  /** For every model, every tool and every injection: all histories sent, and the final one,
      begin with the original first message and have every call answered, exactly when no
      prune of the run cuts where a reply still waits for results. */
  lemma {:induction false} EveryRequestIsGoodIff(l: Loop, cfg: Config, w: World, first: Message)
    requires Good(l.messages, first) && AllGood(l.requests, first)
    ensures AllGood(RunFrom(l, cfg, w).requests, first) && Good(RunFrom(l, cfg, w).messages, first)
            <==> NeverCuts(l, cfg, w)
    decreases cfg.maxIter - l.i
  {
    NeverCutsFirst(l, cfg, w);
    if GoesOn(l, cfg) {
      IterationIsGoodIff(l, cfg, w, first);
      var next := Iterate(l, cfg, w);
      if Cuts(l, cfg, w) {
        BadShows(next, cfg, w, first);
      } else {
        EveryRequestIsGoodIff(next, cfg, w, first);
      }
    }
  }

  /** The results answer the calls one to one in call order. */
  ghost predicate Answered(ms: seq<Message>, first: Message) {
    ms != [] && ms[0] == first && Paired(ms) && CallIds(ms) == ResultIds(ms)
  }

  lemma GoodIsAnswered(ms: seq<Message>, first: Message)
    requires PlainStart([first])
    ensures Good(ms, first) <==> Answered(ms, first)
  {
    WellFormedIffPaired(ms);
  }

  /** The same in terms of pairing, for a conversation from its beginning. */
  lemma EveryRequestIsPairedIff(messages: seq<Message>, wrapUpSent: bool, progress: Option<Tracker>, cfg: Config,
                                w: World)
    requires PlainStart(messages) && WellFormed(messages)
    ensures
      var start := Start(messages, wrapUpSent, progress);
      var end := RunFrom(start, cfg, w);
      (forall k :: 0 <= k < |end.requests| ==> Answered(end.requests[k], messages[0])) &&
      Answered(end.messages, messages[0])
      <==> NeverCuts(start, cfg, w)
  {
    var start, first := Start(messages, wrapUpSent, progress), messages[0];
    var end := RunFrom(start, cfg, w);
    EveryRequestIsGoodIff(start, cfg, w, first);
    GoodIsAnswered(end.messages, first);
    forall k | 0 <= k < |end.requests| ensures Good(end.requests[k], first) <==> Answered(end.requests[k], first) {
      GoodIsAnswered(end.requests[k], first);
    }
  }

  // ------------------------------------ replies that are never split do not cut

  lemma TightIsNotCut(l: Loop, first: Message)
    requires Sound(l.messages, first)
    ensures !CutsOpenGroup(l)
  {
    var window := RecentWindow(l.progress);
    if Prunes(l.messages, window) {
      CleaningFeedsSame(l.messages, true);
      CleanedKeepsFirst(l.messages);
      var c := Cleaned(l.messages);
      TightCutIsClean(c, window);
      TightIsLoose(NOTHING, c[..CutStart(c, |c| - window)]);
    }
  }

  lemma SoundBeforePrune(l: Loop, i: nat, r: Reply, calls: seq<ToolCall>, cfg: Config, w: World, first: Message)
    requires Sound(l.messages, first) && SplitsNot(w, i, calls)
    ensures var p := BeforePrune(l, i, r, calls, cfg, w); p.Some? ==> Sound(p.value.messages, first)
  {
    var b := Bench(l.messages + [AssistantMessage(r, calls)], l.progress, l.checkpoint, false);
    ExecutionKeepsSound(l.messages, r, calls, b, (k: nat) => w.outcome(i, k), first);
    var m := Executed(l, i, r, calls, w).0;
    SayKeepsSound(m, REMINDER, first);
  }

  lemma SoundNeverCuts(l: Loop, cfg: Config, w: World, first: Message)
    requires Sound(l.messages, first) && NeverSplits(w)
    ensures !Cuts(l, cfg, w)
  {
    if w.reply(l.i).Some? {
      var r := w.reply(l.i).value;
      assert SplitsNot(w, l.i, KeptCalls(r, w));
      ChargingKeepsSound(Sent(l), r, cfg, first);
      SoundBeforePrune(Charged(Sent(l), r, cfg), l.i, r, KeptCalls(r, w), cfg, w, first);
      var p := ReachedPrune(l, cfg, w);
      if p.Some? {
        TightIsNotCut(p.value, first);
      }
    }
  }

  /** When no context message is injected between two results of a reply, nothing is cut. */
  lemma {:induction false} NeverSplitsNeverCuts(l: Loop, cfg: Config, w: World, first: Message)
    requires Sound(l.messages, first) && NeverSplits(w)
    ensures NeverCuts(l, cfg, w)
    decreases cfg.maxIter - l.i
  {
    NeverCutsFirst(l, cfg, w);
    if GoesOn(l, cfg) {
      SoundNeverCuts(l, cfg, w, first);
      IterationKeepsSound(l, cfg, w, first);
      NeverSplitsNeverCuts(Iterate(l, cfg, w), cfg, w, first);
    }
  }

  /** So in particular when every reply carries one call: each request is paired. */
  lemma EveryRequestIsPaired(messages: seq<Message>, wrapUpSent: bool, progress: Option<Tracker>, cfg: Config,
                             w: World, k: nat)
    requires PlainStart(messages) && Tight(messages) && NeverSplits(w)
    requires k < |RunFrom(Start(messages, wrapUpSent, progress), cfg, w).requests|
    ensures Answered(RunFrom(Start(messages, wrapUpSent, progress), cfg, w).requests[k], messages[0])
  {
    var start := Start(messages, wrapUpSent, progress);
    TightIsWellFormed(messages);
    NeverSplitsNeverCuts(start, cfg, w, messages[0]);
    EveryRequestIsPairedIff(messages, wrapUpSent, progress, cfg, w);
  }
}
