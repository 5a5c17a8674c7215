/** brain/tool_loop.go: how a run of the tool loop ends, and after which reply, told from the
    replies of the model and the results of the tools alone. */
module ToolLoopEnds {
  import opened Wrappers
  import opened Text
  import opened History
  import opened Progress
  import opened ToolLoop

  // ------------------------------------------------------------ the replies

  /** The calls of reply i that can be executed: the output limit may have cut off the last of
      them in the middle of its arguments. */
  function Whole(w: World, i: nat): seq<ToolCall> {
    if w.reply(i).None? then []
    else
      var r := w.reply(i).value;
      var n := |r.calls|;
      if n > 0 && r.hitLimit && w.parsed(r.calls[n - 1].arguments).None? then r.calls[..n - 1] else r.calls
  }

  /** The tokens of the first n replies. */
  function Spend(w: World, n: nat): nat {
    if n == 0 then 0 else Spend(w, n - 1) + if w.reply(n - 1).Some? then w.reply(n - 1).value.tokens else 0
  }

  predicate Limited(cfg: Config) { cfg.costs.Some? && cfg.costs.value.budget > 0 }

  /** With the first n replies the build has reached its budget, or nine tenths of it. */
  predicate SpentUp(cfg: Config, w: World, n: nat) {
    Limited(cfg) && cfg.costs.value.spent + Spend(w, n) >= cfg.costs.value.budget
  }

  predicate NearlySpent(cfg: Config, w: World, n: nat) {
    Limited(cfg) && cfg.costs.value.spent + Spend(w, n) >= cfg.costs.value.budget * 9 / 10
  }

  /** Reply i was cut off before a whole call, so that the model is asked to go on. */
  predicate CutShort(w: World, i: nat) { w.reply(i).Some? && w.reply(i).value.hitLimit && Whole(w, i) == [] }

  function CutShorts(w: World, n: nat): nat {
    if n == 0 then 0 else CutShorts(w, n - 1) + if CutShort(w, n - 1) then 1 else 0
  }

  function Executions(w: World, n: nat): nat { if n == 0 then 0 else Executions(w, n - 1) + |Whole(w, n - 1)| }

  /** The calls executed up to and with reply n: those of a reply that uses up the budget are not. */
  function CallsUpTo(cfg: Config, w: World, n: nat): nat {
    if SpentUp(cfg, w, n + 1) then Executions(w, n) else Executions(w, n + 1)
  }

  // ------------------------------------------------------------- the plan items

  datatype Kind = Tables | Endpoints | Pages

  function Planned(t: Tracker, kind: Kind): seq<string> {
    match kind
    case Tables => TableKeys(t.plan)
    case Endpoints => EndpointKeys(t.plan)
    case Pages => PageKeys(t.plan)
  }

  function DoneOf(t: Tracker, kind: Kind): set<string> {
    match kind
    case Tables => t.tables
    case Endpoints => t.endpoints
    case Pages => t.pages
  }

  /** The item of this kind that a call has created, if it succeeded and did. */
  function Created(call: ToolCall, o: Outcome, kind: Kind): set<string> {
    match kind
    case Tables =>
      if o.succeeded && call.name == "manage_schema" && o.args.action == "create" && o.args.tableName != ""
      then {o.args.tableName} else {}
    case Endpoints =>
      if o.succeeded && call.name == "manage_endpoints" && "create_" <= o.args.action && o.args.path != ""
      then {o.args.action + ":" + o.args.path} else {}
    case Pages =>
      if o.succeeded && call.name == "manage_pages" && o.args.action in {"save", ""} && o.args.path != ""
      then {o.args.path} else {}
  }

  /** What the first k of these calls created. */
  function CreatedBy(calls: seq<ToolCall>, outcome: nat -> Outcome, k: nat, kind: Kind): set<string>
    requires k <= |calls|
  {
    if k == 0 then {} else CreatedBy(calls, outcome, k - 1, kind) + Created(calls[k - 1], outcome(k - 1), kind)
  }

  /** What is done after the replies before n. */
  function DoneAfter(t: Tracker, w: World, n: nat, kind: Kind): set<string> {
    if n == 0 then DoneOf(t, kind)
    else
      var calls := Whole(w, n - 1);
      DoneAfter(t, w, n - 1, kind) + CreatedBy(calls, (k: nat) => w.outcome(n - 1, k), |calls|, kind)
  }

  /** By count all items are done. */
  predicate Enough(t: Tracker, w: World, n: nat) {
    && |DoneAfter(t, w, n, Tables)| >= |t.plan.tables|
    && |DoneAfter(t, w, n, Endpoints)| >= |t.plan.endpoints|
    && |DoneAfter(t, w, n, Pages)| >= |t.plan.pages|
  }

  predicate Lacks(keys: seq<string>, done: set<string>) { exists i :: 0 <= i < |keys| && keys[i] !in done }

  /** Item by item, some plan item is missing. */
  predicate Unfinished(t: Tracker, w: World, n: nat) {
    || Lacks(Planned(t, Tables), DoneAfter(t, w, n, Tables))
    || Lacks(Planned(t, Endpoints), DoneAfter(t, w, n, Endpoints))
    || Lacks(Planned(t, Pages), DoneAfter(t, w, n, Pages))
  }

  // ------------------------------------------------------------ the grace window

  /** Some call of reply i, as far as its arguments can be parsed, is not a reading one. */
  predicate Writes(w: World, i: nat) {
    exists k :: 0 <= k < |Whole(w, i)| &&
      var args := w.parsed(Whole(w, i)[k].arguments);
      args.Some? && args.value.action !in {"get", "list", "describe", "search", "history"}
  }

  /** The rounds of tools, of those before n, that left all items done; true where one wrote. */
  function Rounds(t: Tracker, w: World, n: nat): seq<bool> {
    if n == 0 then []
    else Rounds(t, w, n - 1) + if Whole(w, n - 1) != [] && Enough(t, w, n) then [Writes(w, n - 1)] else []
  }

  /** How many rounds at the end only read. */
  function Reads(rounds: seq<bool>): nat { if rounds == [] || Last(rounds) then 0 else 1 + Reads(Front(rounds)) }

  /** A secret is asked for in round i. */
  predicate AsksOwner(w: World, i: nat) {
    exists k: nat :: k < |Whole(w, i)| && Whole(w, i)[k].name == "manage_communication" &&
      var o := w.outcome(i, k);
      o.succeeded && o.args.action == "ask" && o.args.kind == "secret"
  }

  // -------------------------------------------------------------------- reasons

  /** Why a round of tools ends the run: a pause, two rounds in a row that only read, or the
      third round with all items done. */
  function RoundVerdict(asks: bool, enough: bool, rounds: seq<bool>): Option<Exit> {
    if asks then Some(Paused)
    else if !enough then None
    else if Reads(rounds) >= 2 then Some(ReadOnlyGrace)
    else if |rounds| >= 3 then Some(GraceExhausted)
    else None
  }

  /** Why a reply without calls ends the run: it is complete, or cut off and the fifth so. */
  function TextVerdict(r: Reply, cutShorts: nat): Option<Exit> {
    if !r.hitLimit then Some(Finished) else if cutShorts >= 4 then Some(OutputLimit) else None
  }

  /** Why iteration n ends the run, if it does. */
  function Verdict(p: Option<Tracker>, cfg: Config, w: World, n: nat): Option<Exit> {
    if w.reply(n).None? then Some(ModelFailed)
    else if SpentUp(cfg, w, n + 1) then Some(BudgetExhausted)
    else if w.reply(n).value.calls == [] then TextVerdict(w.reply(n).value, CutShorts(w, n))
    else if Whole(w, n) == [] then None
    else if p.None? then RoundVerdict(AsksOwner(w, n), false, [])
    else RoundVerdict(AsksOwner(w, n), Enough(p.value, w, n + 1), Rounds(p.value, w, n + 1))
  }

  // ------------------------------------------------------------ the reminder

  predicate RemindsAt(t: Tracker, cfg: Config, w: World, n: nat) {
    Whole(w, n) != [] && n >= cfg.maxIter * 3 / 4 && Unfinished(t, w, n + 1)
  }

  predicate Reminded(t: Tracker, cfg: Config, w: World, n: nat) {
    t.nudgeSent || exists j: nat :: j < n && RemindsAt(t, cfg, w, j)
  }

  // --------------------------------------------- the state of the loop, told so

  /** What the tracker of a loop holds: items done, rounds of the grace window, reminder sent. */
  datatype Told = Told(tables: set<string>, endpoints: set<string>, pages: set<string>, rounds: seq<bool>,
                       reminded: bool)

  function ToldAt(t: Tracker, cfg: Config, w: World, n: nat): Told {
    Told(DoneAfter(t, w, n, Tables), DoneAfter(t, w, n, Endpoints), DoneAfter(t, w, n, Pages), Rounds(t, w, n),
         Reminded(t, cfg, w, n))
  }

  predicate Holds(q: Tracker, p: Tracker, told: Told) {
    && q.plan == p.plan && q.tables == told.tables && q.endpoints == told.endpoints && q.pages == told.pages
    && q.postIters == |told.rounds| && q.readOnlyIters == Reads(told.rounds) && q.nudgeSent == told.reminded
  }

  /** The replies before some iteration, in numbers. */
  datatype Sums = Sums(spend: nat, cutShorts: nat, executions: nat, nearlySpent: bool, told: Option<Told>)

  function NumbersAt(cfg: Config, w: World, n: nat): Sums {
    Sums(Spend(w, n), CutShorts(w, n), Executions(w, n), n > 0 && NearlySpent(cfg, w, n), None)
  }

  function SumsAt(p: Option<Tracker>, cfg: Config, w: World, n: nat): Sums {
    NumbersAt(cfg, w, n).(told := if p.Some? then Some(ToldAt(p.value, cfg, w, n)) else None)
  }

  /** The loop s has come to iteration n, and the replies so far sum up to this. */
  ghost predicate Stands(l: Loop, s: Loop, n: nat, sums: Sums) {
    && l.i == n && |l.requests| == n && l.exit.None?
    && l.tokens == sums.spend && l.continuations == sums.cutShorts && l.toolCalls == sums.executions
    && l.wrapUpSent == (s.wrapUpSent || sums.nearlySpent)
    && (l.progress.Some? <==> s.progress.Some?) && (s.progress.Some? <==> sums.told.Some?)
    && (s.progress.Some? ==> Holds(l.progress.value, s.progress.value, sums.told.value))
  }

  /** The state at the head of iteration n. */
  ghost predicate IsAt(l: Loop, s: Loop, cfg: Config, w: World, n: nat) {
    Stands(l, s, n, SumsAt(s.progress, cfg, w, n))
  }

  /** A run at its beginning. */
  ghost predicate Fresh(s: Loop) {
    && s.i == 0 && s.requests == [] && s.exit.None? && s.tokens == 0 && s.continuations == 0 && s.toolCalls == 0
    && (s.progress.Some? ==> s.progress.value.postIters == 0 && s.progress.value.readOnlyIters == 0)
  }

  lemma FreshIsAt(s: Loop, cfg: Config, w: World)
    requires Fresh(s)
    ensures IsAt(s, s, cfg, w, 0)
  {}

  // ------------------------------------------------------------------- a round

  /** The items and the rest of the tracker after the first k calls of a round. */
  function ToldBy(told: Told, calls: seq<ToolCall>, outcome: nat -> Outcome, k: nat): Told
    requires k <= |calls|
  {
    told.(tables := told.tables + CreatedBy(calls, outcome, k, Tables),
          endpoints := told.endpoints + CreatedBy(calls, outcome, k, Endpoints),
          pages := told.pages + CreatedBy(calls, outcome, k, Pages))
  }

  lemma TrackedSets(t: Tracker, call: ToolCall, o: Outcome)
    requires o.succeeded
    ensures
      var q := Tracked(t, call.name, o.args);
      && q.tables == t.tables + Created(call, o, Tables)
      && q.endpoints == t.endpoints + Created(call, o, Endpoints)
      && q.pages == t.pages + Created(call, o, Pages)
      && q == t.(seen := q.seen, tables := q.tables, endpoints := q.endpoints, pages := q.pages)
  {}

  lemma NothingCreated(call: ToolCall, o: Outcome)
    requires !o.succeeded
    ensures forall kind :: Created(call, o, kind) == {}
  {}

  lemma AfterCallProgress(b: Bench, call: ToolCall, o: Outcome)
    requires b.progress.Some?
    ensures
      var q := AfterCall(b, call, o).progress;
      var t := if o.succeeded then Tracked(b.progress.value, call.name, o.args) else b.progress.value;
      q.Some? && q.value == t.(checkpointed := q.value.checkpointed)
  {}

  lemma CallTold(b: Bench, p: Tracker, told: Told, call: ToolCall, o: Outcome)
    requires b.progress.Some? && Holds(b.progress.value, p, told)
    ensures
      var q := AfterCall(b, call, o).progress;
      q.Some? && Holds(q.value, p, told.(tables := told.tables + Created(call, o, Tables),
                                         endpoints := told.endpoints + Created(call, o, Endpoints),
                                         pages := told.pages + Created(call, o, Pages)))
  {
    AfterCallProgress(b, call, o);
    if o.succeeded {
      TrackedSets(b.progress.value, call, o);
    } else {
      NothingCreated(call, o);
    }
  }

  lemma {:induction false} CallsTold(b: Bench, p: Tracker, told: Told, calls: seq<ToolCall>, outcome: nat -> Outcome,
                                     k: nat)
    requires k <= |calls| && b.progress.Some? && Holds(b.progress.value, p, told)
    ensures
      var q := AfterCalls(b, calls[..k], outcome).progress;
      q.Some? && Holds(q.value, p, ToldBy(told, calls, outcome, k))
    decreases k
  {
    if k == 0 {
      assert calls[..0] == [];
      assert ToldBy(told, calls, outcome, 0) == told;
    } else {
      CallsTold(b, p, told, calls, outcome, k - 1);
      assert Front(calls[..k]) == calls[..k - 1];
      var before := AfterCalls(b, calls[..k - 1], outcome);
      CallTold(before, p, ToldBy(told, calls, outcome, k - 1), calls[k - 1], outcome(k - 1));
      MoreCreated(told, calls, outcome, k);
    }
  }

  lemma MoreCreated(told: Told, calls: seq<ToolCall>, outcome: nat -> Outcome, k: nat)
    requires 0 < k <= |calls|
    ensures
      var before, call, o := ToldBy(told, calls, outcome, k - 1), calls[k - 1], outcome(k - 1);
      ToldBy(told, calls, outcome, k)
      == before.(tables := before.tables + Created(call, o, Tables),
                 endpoints := before.endpoints + Created(call, o, Endpoints),
                 pages := before.pages + Created(call, o, Pages))
  {
    var call, o := calls[k - 1], outcome(k - 1);
    assert told.tables + (CreatedBy(calls, outcome, k - 1, Tables) + Created(call, o, Tables))
        == (told.tables + CreatedBy(calls, outcome, k - 1, Tables)) + Created(call, o, Tables);
    assert told.endpoints + (CreatedBy(calls, outcome, k - 1, Endpoints) + Created(call, o, Endpoints))
        == (told.endpoints + CreatedBy(calls, outcome, k - 1, Endpoints)) + Created(call, o, Endpoints);
    assert told.pages + (CreatedBy(calls, outcome, k - 1, Pages) + Created(call, o, Pages))
        == (told.pages + CreatedBy(calls, outcome, k - 1, Pages)) + Created(call, o, Pages);
  }

  lemma {:induction false} NoTracker(b: Bench, calls: seq<ToolCall>, outcome: nat -> Outcome)
    requires b.progress.None?
    ensures AfterCalls(b, calls, outcome).progress.None?
    decreases |calls|
  {
    if calls != [] {
      NoTracker(b, Front(calls), outcome);
    }
  }

  predicate AskedAmong(calls: seq<ToolCall>, outcome: nat -> Outcome) {
    exists k: nat :: k < |calls| && AsksForSecret(calls[k], outcome(k))
  }

  lemma {:induction false} PauseIsAsked(b: Bench, calls: seq<ToolCall>, outcome: nat -> Outcome)
    ensures AfterCalls(b, calls, outcome).pause <==> b.pause || AskedAmong(calls, outcome)
    decreases |calls|
  {
    if calls != [] {
      PauseIsAsked(b, Front(calls), outcome);
      AskedSnoc(Front(calls), Last(calls), outcome);
      assert calls == Front(calls) + [Last(calls)];
    }
  }

  lemma AskedSnoc(calls: seq<ToolCall>, call: ToolCall, outcome: nat -> Outcome)
    ensures AskedAmong(calls + [call], outcome) <==> AskedAmong(calls, outcome) || AsksForSecret(call, outcome(|calls|))
  {
    var all := calls + [call];
    if AskedAmong(calls, outcome) {
      var k: nat :| k < |calls| && AsksForSecret(calls[k], outcome(k));
      assert all[k] == calls[k];
    }
    if AskedAmong(all, outcome) {
      var k: nat :| k < |all| && AsksForSecret(all[k], outcome(k));
      assert k < |calls| ==> calls[k] == all[k];
    }
    assert all[|calls|] == call;
  }

  lemma AskedIs(w: World, n: nat)
    ensures AskedAmong(Whole(w, n), (k: nat) => w.outcome(n, k)) <==> AsksOwner(w, n)
  {
    var calls, outcome: nat -> Outcome := Whole(w, n), (k: nat) => w.outcome(n, k);
    if AskedAmong(calls, outcome) {
      var k: nat :| k < |calls| && AsksForSecret(calls[k], outcome(k));
      assert outcome(k) == w.outcome(n, k);
    }
    if AsksOwner(w, n) {
      var k: nat :| k < |calls| && calls[k].name == "manage_communication" &&
        var o := w.outcome(n, k); o.succeeded && o.args.action == "ask" && o.args.kind == "secret";
      assert AsksForSecret(calls[k], outcome(k));
    }
  }

  lemma WholeIsKept(w: World, i: nat)
    requires w.reply(i).Some?
    ensures KeptCalls(w.reply(i).value, w) == Whole(w, i)
  {}

  /** The state between the results of a round and the grace window. */
  lemma ExecutedTells(c: Loop, p: Tracker, told: Told, n: nat, r: Reply, calls: seq<ToolCall>, w: World)
    requires c.progress.Some? && Holds(c.progress.value, p, told)
    ensures
      var m := Executed(c, n, r, calls, w).0;
      m.progress.Some? && Holds(m.progress.value, p, ToldBy(told, calls, (k: nat) => w.outcome(n, k), |calls|))
  {
    var b := Bench(c.messages + [AssistantMessage(r, calls)], c.progress, c.checkpoint, false);
    CallsTold(b, p, told, calls, (k: nat) => w.outcome(n, k), |calls|);
    assert calls[..|calls|] == calls;
  }

  lemma ExecutedPauses(c: Loop, n: nat, r: Reply, w: World)
    ensures
      var (m, pause) := Executed(c, n, r, Whole(w, n), w);
      && (pause <==> AsksOwner(w, n)) && (c.progress.None? ==> m.progress.None?)
      && m.exit == c.exit && m.tokens == c.tokens && m.continuations == c.continuations && m.wrapUpSent == c.wrapUpSent
      && m.toolCalls == c.toolCalls + |Whole(w, n)|
  {
    var calls := Whole(w, n);
    var b := Bench(c.messages + [AssistantMessage(r, calls)], c.progress, c.checkpoint, false);
    PauseIsAsked(b, calls, (k: nat) => w.outcome(n, k));
    AskedIs(w, n);
    if c.progress.None? {
      NoTracker(b, calls, (k: nat) => w.outcome(n, k));
    }
  }

  lemma WritesAre(w: World, n: nat)
    ensures HasWrites(Whole(w, n), w) <==> Writes(w, n)
  {
    assert READ_ACTIONS == {"get", "list", "describe", "search", "history"};
    var calls := Whole(w, n);
    if HasWrites(calls, w) {
      var k :| 0 <= k < |calls| && IsWrite(calls[k], w);
    }
    if Writes(w, n) {
      var k :| 0 <= k < |calls| && var args := w.parsed(calls[k].arguments);
        args.Some? && args.value.action !in {"get", "list", "describe", "search", "history"};
      assert IsWrite(calls[k], w);
    }
  }

  lemma ReadsSnoc(rounds: seq<bool>, writes: bool)
    ensures Reads(rounds + [writes]) == if writes then 0 else Reads(rounds) + 1
  {
    assert Front(rounds + [writes]) == rounds;
  }

  /** By count all items are done. */
  predicate Counts(t: Tracker, told: Told) {
    |told.tables| >= |t.plan.tables| && |told.endpoints| >= |t.plan.endpoints| && |told.pages| >= |t.plan.pages|
  }

  /** The grace window counts the round, and may end the run. */
  lemma GraceTells(m: Loop, p: Tracker, told: Told, writes: bool)
    requires m.exit.None? && m.progress.Some? && Holds(m.progress.value, p, told)
    ensures
      var g := Grace(m, writes);
      var after := if Counts(p, told) then told.(rounds := told.rounds + [writes]) else told;
      && g.progress.Some? && Holds(g.progress.value, p, after)
      && g == m.(progress := g.progress, exit := g.exit)
      && g.exit == if !Counts(p, told) then None
                   else if Reads(after.rounds) >= 2 then Some(ReadOnlyGrace)
                   else if |after.rounds| >= 3 then Some(GraceExhausted) else None
  {
    ReadsSnoc(told.rounds, writes);
  }

  lemma LacksIff(keys: seq<string>, done: set<string>)
    ensures Lacks(keys, done) <==> !(Elements(keys) <= done)
  {
    if !(Elements(keys) <= done) {
      var x :| x in Elements(keys) && x !in done;
      var i :| 0 <= i < |keys| && keys[i] == x;
    }
    if Lacks(keys, done) {
      var i :| 0 <= i < |keys| && keys[i] !in done;
      assert keys[i] in Elements(keys);
    }
  }

  predicate SomethingLacks(t: Tracker, told: Told) {
    || Lacks(Planned(t, Tables), told.tables)
    || Lacks(Planned(t, Endpoints), told.endpoints)
    || Lacks(Planned(t, Pages), told.pages)
  }

  lemma RemainsIff(q: Tracker, p: Tracker, told: Told)
    requires Holds(q, p, told)
    ensures Remaining(q) != [] <==> SomethingLacks(p, told)
  {
    NothingRemainsIff(q);
    LacksIff(TableKeys(p.plan), q.tables);
    LacksIff(EndpointKeys(p.plan), q.endpoints);
    LacksIff(PageKeys(p.plan), q.pages);
  }

  /** The reminder behind a round. */
  lemma RemindTells(g: Loop, p: Tracker, told: Told, n: nat, cfg: Config)
    requires g.progress.Some? && Holds(g.progress.value, p, told)
    ensures
      var due := !told.reminded && n >= cfg.maxIter * 3 / 4 && SomethingLacks(p, told);
      var l := Remind(g, n, cfg);
      && l.messages == g.messages + (if due then [UserMessage(REMINDER)] else [])
      && l == g.(messages := l.messages, progress := l.progress)
      && l.progress.Some? && Holds(l.progress.value, p, told.(reminded := told.reminded || due))
  {
    RemainsIff(g.progress.value, p, told);
  }

  // --------------------------------------------------- what is told, reply by reply

  /** What reply n adds, when it is a round of tools. */
  lemma ToldNext(t: Tracker, cfg: Config, w: World, n: nat)
    ensures
      var calls := Whole(w, n);
      var done := ToldBy(ToldAt(t, cfg, w, n), calls, (k: nat) => w.outcome(n, k), |calls|);
      && Enough(t, w, n + 1) == Counts(t, done) && Unfinished(t, w, n + 1) == SomethingLacks(t, done)
      && ToldAt(t, cfg, w, n + 1)
         == done.(rounds := done.rounds + (if calls != [] && Counts(t, done) then [Writes(w, n)] else []),
                  reminded := done.reminded ||
                              (calls != [] && n >= cfg.maxIter * 3 / 4 && SomethingLacks(t, done)))
  {
    RemindedNext(t, cfg, w, n);
  }

  lemma RemindedNext(t: Tracker, cfg: Config, w: World, n: nat)
    ensures Reminded(t, cfg, w, n + 1) <==> Reminded(t, cfg, w, n) || RemindsAt(t, cfg, w, n)
  {}

  /** Iteration n sums up one more reply. */
  function Charging(sums: Sums, r: Reply, cfg: Config): Sums {
    var spend := sums.spend + r.tokens;
    sums.(spend := spend,
          nearlySpent := Limited(cfg) && cfg.costs.value.spent + spend >= cfg.costs.value.budget * 9 / 10)
  }

  predicate UsesUp(sums: Sums, r: Reply, cfg: Config) {
    Limited(cfg) && cfg.costs.value.spent + sums.spend + r.tokens >= cfg.costs.value.budget
  }

  lemma ChargedStands(l: Loop, s: Loop, n: nat, sums: Sums, r: Reply, cfg: Config)
    requires Stands(l, s, n, sums) && (sums.nearlySpent ==> Charging(sums, r, cfg).nearlySpent)
    ensures
      var c := Charged(Sent(l), r, cfg);
      && c.tokens == sums.spend + r.tokens && c.toolCalls == sums.executions
      && if UsesUp(sums, r, cfg) then c.exit == Some(BudgetExhausted) && c.i == n + 1 && |c.requests| == n + 1
         else Stands(c, s, n + 1, Charging(sums, r, cfg))
  {}

  lemma PruneOnlyMessages(l: Loop, w: World)
    ensures MaybePrune(l, w) == l.(messages := MaybePrune(l, w).messages)
  {}

  /** What follows the results of a round. */
  function Behind(m: Loop, n: nat, writes: bool, cfg: Config, w: World): Loop {
    var g := Grace(m, writes);
    if g.exit.Some? then g else MaybePrune(Remind(g, n, cfg), w)
  }

  lemma BehindTells(m: Loop, p: Tracker, told: Told, n: nat, writes: bool, cfg: Config, w: World)
    requires m.exit.None? && m.progress.Some? && Holds(m.progress.value, p, told)
    ensures
      var l := Behind(m, n, writes, cfg, w);
      var graced := if Counts(p, told) then told.(rounds := told.rounds + [writes]) else told;
      && l.exit == RoundVerdict(false, Counts(p, told), graced.rounds)
      && (l.exit.None? ==>
            && l.progress.Some?
            && Holds(l.progress.value, p,
                     graced.(reminded := told.reminded || (n >= cfg.maxIter * 3 / 4 && SomethingLacks(p, told)))))
      && l == m.(messages := l.messages, progress := l.progress, exit := l.exit)
  {
    GraceTells(m, p, told, writes);
    var g := Grace(m, writes);
    var graced := if Counts(p, told) then told.(rounds := told.rounds + [writes]) else told;
    RemindTells(g, p, graced, n, cfg);
    PruneOnlyMessages(Remind(g, n, cfg), w);
    assert SomethingLacks(p, graced) == SomethingLacks(p, told);
  }

  lemma AfterToolsIs(c: Loop, n: nat, r: Reply, cfg: Config, w: World)
    ensures
      var (m, pause) := Executed(c, n, r, Whole(w, n), w);
      AfterTools(c, n, r, Whole(w, n), cfg, w)
      == if pause then m.(checkpoint := Some(m.messages), exit := Some(Paused))
         else Behind(m, n, HasWrites(Whole(w, n), w), cfg, w)
  {}

  /** A round of tools. */
  lemma ToolsTell(c: Loop, p: Tracker, told: Told, after: Told, cfg: Config, w: World, n: nat, r: Reply)
    requires c.exit.None? && c.progress.Some? && Holds(c.progress.value, p, told)
    requires after == ToldBy(told, Whole(w, n), (k: nat) => w.outcome(n, k), |Whole(w, n)|)
    ensures
      var l := AfterTools(c, n, r, Whole(w, n), cfg, w);
      var graced := if Counts(p, after) then after.(rounds := after.rounds + [Writes(w, n)]) else after;
      && l.exit == RoundVerdict(AsksOwner(w, n), Counts(p, after), graced.rounds)
      && (l.exit.None? ==>
            && l.progress.Some?
            && Holds(l.progress.value, p,
                     graced.(reminded := after.reminded || (n >= cfg.maxIter * 3 / 4 && SomethingLacks(p, after)))))
      && l.tokens == c.tokens && l.continuations == c.continuations && l.wrapUpSent == c.wrapUpSent
      && l.toolCalls == c.toolCalls + |Whole(w, n)|
  {
    ExecutedPauses(c, n, r, w);
    ExecutedTells(c, p, told, n, r, Whole(w, n), w);
    WritesAre(w, n);
    AfterToolsIs(c, n, r, cfg, w);
    var m := Executed(c, n, r, Whole(w, n), w).0;
    BehindTells(m, p, after, n, Writes(w, n), cfg, w);
  }

  lemma ToolsWithoutTracker(c: Loop, cfg: Config, w: World, n: nat, r: Reply)
    requires c.exit.None? && c.progress.None?
    ensures
      var l := AfterTools(c, n, r, Whole(w, n), cfg, w);
      && l.exit == (if AsksOwner(w, n) then Some(Paused) else None) && l.progress.None?
      && l.tokens == c.tokens && l.continuations == c.continuations && l.wrapUpSent == c.wrapUpSent
      && l.toolCalls == c.toolCalls + |Whole(w, n)|
  {
    ExecutedPauses(c, n, r, w);
  }

  /** A round of tools, in sums. */
  function AfterRound(p: Tracker, told: Told, calls: seq<ToolCall>, outcome: nat -> Outcome, writes: bool, late: bool): Told {
    var done := ToldBy(told, calls, outcome, |calls|);
    done.(rounds := if Counts(p, done) then done.rounds + [writes] else done.rounds,
          reminded := done.reminded || (late && SomethingLacks(p, done)))
  }

  lemma RoundStands(c: Loop, s: Loop, sums: Sums, cfg: Config, w: World, n: nat, r: Reply, told: Told)
    requires Stands(c, s, n + 1, sums) && s.progress.Some?
    requires told == AfterRound(s.progress.value, sums.told.value, Whole(w, n), (k: nat) => w.outcome(n, k), Writes(w, n),
                                n >= cfg.maxIter * 3 / 4)
    ensures
      var l := AfterTools(c, n, r, Whole(w, n), cfg, w);
      && l.exit == RoundVerdict(AsksOwner(w, n), Counts(s.progress.value, told), told.rounds)
      && (l.exit.None? ==>
            Stands(l, s, n + 1, sums.(executions := sums.executions + |Whole(w, n)|, told := Some(told))))
      && l.i == c.i && l.requests == c.requests && l.tokens == c.tokens
      && l.toolCalls == c.toolCalls + |Whole(w, n)|
  {
    var p := s.progress.value;
    var after := ToldBy(sums.told.value, Whole(w, n), (k: nat) => w.outcome(n, k), |Whole(w, n)|);
    ToolsTell(c, p, sums.told.value, after, cfg, w, n, r);
    assert Counts(p, told) == Counts(p, after);
  }

  lemma RoundWithoutTracker(c: Loop, s: Loop, sums: Sums, cfg: Config, w: World, n: nat, r: Reply)
    requires Stands(c, s, n + 1, sums) && s.progress.None?
    ensures
      var l := AfterTools(c, n, r, Whole(w, n), cfg, w);
      && l.exit == RoundVerdict(AsksOwner(w, n), false, [])
      && (l.exit.None? ==> Stands(l, s, n + 1, sums.(executions := sums.executions + |Whole(w, n)|)))
      && l.i == c.i && l.requests == c.requests && l.tokens == c.tokens
      && l.toolCalls == c.toolCalls + |Whole(w, n)|
  {
    ToolsWithoutTracker(c, cfg, w, n, r);
  }

  lemma ShortStands(c: Loop, s: Loop, sums: Sums, n: nat, r: Reply, name: string)
    requires Stands(c, s, n + 1, sums)
    ensures Stands(AskAgain(c, r, name), s, n + 1, sums.(cutShorts := sums.cutShorts + 1))
    ensures
      var l := AfterText(c, r);
      && l.exit == TextVerdict(r, sums.cutShorts) && l.tokens == c.tokens && l.toolCalls == c.toolCalls
      && (l.exit.None? ==> r.hitLimit && Stands(l, s, n + 1, sums.(cutShorts := sums.cutShorts + 1)))
  {}

  /** One more reply without a whole call, and one more round, in the sums. */
  lemma NothingTold(t: Tracker, cfg: Config, w: World, n: nat)
    requires Whole(w, n) == []
    ensures ToldAt(t, cfg, w, n + 1) == ToldAt(t, cfg, w, n)
  {
    NothingDone(t, w, n, Tables);
    NothingDone(t, w, n, Endpoints);
    NothingDone(t, w, n, Pages);
    assert Rounds(t, w, n + 1) == Rounds(t, w, n);
    RemindedNext(t, cfg, w, n);
  }

  lemma NothingDone(t: Tracker, w: World, n: nat, kind: Kind)
    requires Whole(w, n) == []
    ensures DoneAfter(t, w, n + 1, kind) == DoneAfter(t, w, n, kind)
  {
    assert CreatedBy([], (k: nat) => w.outcome(n, k), 0, kind) == {};
  }

  lemma SumsWithout(p: Option<Tracker>, cfg: Config, w: World, n: nat)
    requires w.reply(n).Some? && Whole(w, n) == []
    ensures
      var before := Charging(SumsAt(p, cfg, w, n), w.reply(n).value, cfg);
      SumsAt(p, cfg, w, n + 1) ==
      before.(cutShorts := before.cutShorts + if w.reply(n).value.hitLimit then 1 else 0)
  {
    if p.Some? {
      NothingTold(p.value, cfg, w, n);
    }
    NumbersWithout(cfg, w, n);
  }

  lemma NumbersWithout(cfg: Config, w: World, n: nat)
    requires w.reply(n).Some? && Whole(w, n) == []
    ensures
      var before := Charging(NumbersAt(cfg, w, n), w.reply(n).value, cfg);
      NumbersAt(cfg, w, n + 1) ==
      before.(cutShorts := before.cutShorts + if w.reply(n).value.hitLimit then 1 else 0)
  {}

  lemma RoundTold(t: Tracker, cfg: Config, w: World, n: nat)
    requires Whole(w, n) != []
    ensures ToldAt(t, cfg, w, n + 1) ==
            AfterRound(t, ToldAt(t, cfg, w, n), Whole(w, n), (k: nat) => w.outcome(n, k), Writes(w, n),
                       n >= cfg.maxIter * 3 / 4)
  {
    ToldNext(t, cfg, w, n);
    var done := ToldBy(ToldAt(t, cfg, w, n), Whole(w, n), (k: nat) => w.outcome(n, k), |Whole(w, n)|);
    assert done.rounds + [] == done.rounds;
  }

  lemma SumsWith(p: Option<Tracker>, cfg: Config, w: World, n: nat)
    requires w.reply(n).Some? && Whole(w, n) != []
    ensures
      var before, after := Charging(SumsAt(p, cfg, w, n), w.reply(n).value, cfg), SumsAt(p, cfg, w, n + 1);
      && after == before.(executions := before.executions + |Whole(w, n)|, told := after.told)
      && (p.Some? ==> after.told == Some(ToldAt(p.value, cfg, w, n + 1)))
      && (p.Some? ==> before.told == Some(ToldAt(p.value, cfg, w, n)))
      && (p.None? ==> after.told.None?)
  {}

  lemma EnoughCounts(p: Tracker, cfg: Config, w: World, n: nat)
    ensures Enough(p, w, n) == Counts(p, ToldAt(p, cfg, w, n)) && ToldAt(p, cfg, w, n).rounds == Rounds(p, w, n)
  {}

  lemma SpendNext(cfg: Config, w: World, p: Option<Tracker>, n: nat)
    requires w.reply(n).Some?
    ensures
      var sums, r := SumsAt(p, cfg, w, n), w.reply(n).value;
      && Spend(w, n + 1) == sums.spend + r.tokens && SpentUp(cfg, w, n + 1) == UsesUp(sums, r, cfg)
      && (sums.nearlySpent ==> Charging(sums, r, cfg).nearlySpent)
  {}

  /** What iteration n does with a reply that can be paid for. */
  function Answered(c: Loop, cfg: Config, w: World, n: nat): Loop
    requires w.reply(n).Some?
  {
    var r := w.reply(n).value;
    if r.calls == [] then AfterText(c, r)
    else if Whole(w, n) == [] then AskAgain(c, r, Last(r.calls).name)
    else AfterTools(c, n, r, Whole(w, n), cfg, w)
  }

  ghost predicate Afforded(c: Loop, s: Loop, cfg: Config, w: World, n: nat) {
    && w.reply(n).Some? && !SpentUp(cfg, w, n + 1)
    && Stands(c, s, n + 1, Charging(SumsAt(s.progress, cfg, w, n), w.reply(n).value, cfg))
  }

  lemma AffordedText(c: Loop, s: Loop, cfg: Config, w: World, n: nat)
    requires Afforded(c, s, cfg, w, n) && Whole(w, n) == []
    ensures
      var l := Answered(c, cfg, w, n);
      && l.exit == Verdict(s.progress, cfg, w, n) && l.i == c.i && l.requests == c.requests && l.tokens == c.tokens
      && l.toolCalls == Executions(w, n + 1)
      && (l.exit.None? ==> IsAt(l, s, cfg, w, n + 1))
  {
    var r, sums := w.reply(n).value, Charging(SumsAt(s.progress, cfg, w, n), w.reply(n).value, cfg);
    SumsWithout(s.progress, cfg, w, n);
    ShortStands(c, s, sums, n, r, if r.calls == [] then "" else Last(r.calls).name);
  }

  lemma RoundVerdictIs(p: Option<Tracker>, cfg: Config, w: World, n: nat)
    requires w.reply(n).Some? && !SpentUp(cfg, w, n + 1) && Whole(w, n) != []
    ensures
      Verdict(p, cfg, w, n) ==
      if p.None? then RoundVerdict(AsksOwner(w, n), false, [])
      else
        var told := ToldAt(p.value, cfg, w, n + 1);
        RoundVerdict(AsksOwner(w, n), Counts(p.value, told), told.rounds)
  {
    if p.Some? {
      EnoughCounts(p.value, cfg, w, n + 1);
    }
  }

  lemma AffordedRound(c: Loop, s: Loop, cfg: Config, w: World, n: nat)
    requires Afforded(c, s, cfg, w, n) && Whole(w, n) != []
    ensures
      var l := AfterTools(c, n, w.reply(n).value, Whole(w, n), cfg, w);
      && l.exit == Verdict(s.progress, cfg, w, n) && l.i == c.i && l.requests == c.requests && l.tokens == c.tokens
      && l.toolCalls == Executions(w, n + 1)
      && (l.exit.None? ==> IsAt(l, s, cfg, w, n + 1))
  {
    var r, sums := w.reply(n).value, Charging(SumsAt(s.progress, cfg, w, n), w.reply(n).value, cfg);
    SumsWith(s.progress, cfg, w, n);
    RoundVerdictIs(s.progress, cfg, w, n);
    if s.progress.Some? {
      RoundTold(s.progress.value, cfg, w, n);
      RoundStands(c, s, sums, cfg, w, n, r, ToldAt(s.progress.value, cfg, w, n + 1));
    } else {
      RoundWithoutTracker(c, s, sums, cfg, w, n, r);
    }
  }

  /** Iteration n ends the run by its verdict, or else the state is that of the next one. */
  lemma IterationIs(l: Loop, s: Loop, cfg: Config, w: World, n: nat)
    requires IsAt(l, s, cfg, w, n)
    ensures
      var next := Iterate(l, cfg, w);
      && next.exit == Verdict(s.progress, cfg, w, n) && next.i == n + 1 && |next.requests| == n + 1
      && next.tokens == Spend(w, n + 1) && next.toolCalls == CallsUpTo(cfg, w, n)
      && (next.exit.None? ==> IsAt(next, s, cfg, w, n + 1))
  {
    if w.reply(n).None? {
      assert Executions(w, n + 1) == Executions(w, n) + 0;
    } else {
      var r := w.reply(n).value;
      SpendNext(cfg, w, s.progress, n);
      ChargedStands(l, s, n, SumsAt(s.progress, cfg, w, n), r, cfg);
      WholeIsKept(w, n);
      if !SpentUp(cfg, w, n + 1) {
        var c := Charged(Sent(l), r, cfg);
        assert Iterate(l, cfg, w) == Answered(c, cfg, w, n);
        if Whole(w, n) == [] {
          AffordedText(c, s, cfg, w, n);
        } else {
          AffordedRound(c, s, cfg, w, n);
        }
      }
    }
  }

  // ------------------------------------------------------------------ whole runs

  /** The verdicts of all iterations. */
  function Verdicts(p: Option<Tracker>, cfg: Config, w: World): nat -> Option<Exit> {
    (n: nat) => Verdict(p, cfg, w, n)
  }

  /** The first n give none. */
  ghost predicate NoneIn(verdicts: nat -> Option<Exit>, n: nat) { forall j: nat :: j < n ==> verdicts(j).None? }

  /** None of the first n iterations ends the run. */
  ghost predicate NoneEnds(p: Option<Tracker>, cfg: Config, w: World, n: nat) { NoneIn(Verdicts(p, cfg, w), n) }

  lemma NoneInStep(verdicts: nat -> Option<Exit>, n: nat)
    ensures NoneIn(verdicts, n + 1) <==> NoneIn(verdicts, n) && verdicts(n).None?
  {}

  lemma NoneEndsStep(p: Option<Tracker>, cfg: Config, w: World, n: nat)
    ensures NoneEnds(p, cfg, w, n + 1) <==> NoneEnds(p, cfg, w, n) && Verdict(p, cfg, w, n).None?
  {
    NoneInStep(Verdicts(p, cfg, w), n);
  }

  /** This end follows from n replies: the exit is the first verdict, or there is none in as many
      iterations as allowed. The tokens are those of the replies, and the calls all whole ones. */
  ghost predicate EndsAfter(end: Loop, p: Option<Tracker>, cfg: Config, w: World, n: nat) {
    && |end.requests| == n <= cfg.maxIter
    && end.tokens == Spend(w, n) && end.toolCalls == (if n == 0 then 0 else CallsUpTo(cfg, w, n - 1))
    && if end.exit.None? then n == cfg.maxIter && NoneEnds(p, cfg, w, n)
       else n > 0 && NoneEnds(p, cfg, w, n - 1) && end.exit == Verdicts(p, cfg, w)(n - 1)
  }

  /** How every run ends, told from the replies and results alone. */
  lemma RunEnds(s: Loop, cfg: Config, w: World) returns (n: nat)
    requires Fresh(s)
    ensures EndsAfter(RunFrom(s, cfg, w), s.progress, cfg, w, n)
  {
    FreshIsAt(s, cfg, w);
    n := RunFromIs(s, s, cfg, w, 0);
  }

  lemma {:induction false} RunFromIs(l: Loop, s: Loop, cfg: Config, w: World, n: nat) returns (m: nat)
    requires IsAt(l, s, cfg, w, n) && n <= cfg.maxIter && NoneEnds(s.progress, cfg, w, n)
    ensures EndsAfter(RunFrom(l, cfg, w), s.progress, cfg, w, m)
    decreases cfg.maxIter - n
  {
    if n == cfg.maxIter {
      m := n;
      AllGone(l, s, cfg, w, n);
    } else {
      IterationIs(l, s, cfg, w, n);
      var next := Iterate(l, cfg, w);
      if next.exit.Some? {
        m := n + 1;
        LastVerdict(next, s.progress, cfg, w, n);
      } else {
        NoneEndsStep(s.progress, cfg, w, n);
        m := RunFromIs(next, s, cfg, w, n + 1);
      }
    }
  }

  lemma AllGone(l: Loop, s: Loop, cfg: Config, w: World, n: nat)
    requires IsAt(l, s, cfg, w, n) && n == cfg.maxIter && NoneEnds(s.progress, cfg, w, n)
    ensures EndsAfter(l, s.progress, cfg, w, n)
  {
    if n > 0 {
      NoneEndsStep(s.progress, cfg, w, n - 1);
      NotSpentUp(s.progress, cfg, w, n - 1);
    }
  }

  lemma NotSpentUp(p: Option<Tracker>, cfg: Config, w: World, n: nat)
    requires Verdict(p, cfg, w, n).None?
    ensures CallsUpTo(cfg, w, n) == Executions(w, n + 1)
  {}

  lemma LastVerdict(end: Loop, p: Option<Tracker>, cfg: Config, w: World, n: nat)
    requires n < cfg.maxIter && NoneEnds(p, cfg, w, n) && end.exit.Some?
    requires end.exit == Verdict(p, cfg, w, n) && |end.requests| == n + 1
    requires end.tokens == Spend(w, n + 1) && end.toolCalls == CallsUpTo(cfg, w, n)
    ensures EndsAfter(end, p, cfg, w, n + 1)
  {}

  /** In particular the two ends a reply without calls can make of a run. It is finished, and
      with which reply, exactly when that is the first with a verdict, has no calls, is not cut
      off, and does not use up the budget; and stopped at the output limit exactly when it is
      cut off after four others cut off before a whole call. */
  lemma TextEndsIff(s: Loop, cfg: Config, w: World, n: nat)
    requires Fresh(s)
    ensures
      var end := RunFrom(s, cfg, w);
      var last := n < cfg.maxIter && NoneEnds(s.progress, cfg, w, n) && w.reply(n).Some? &&
                  w.reply(n).value.calls == [] && !SpentUp(cfg, w, n + 1);
      && (end.exit == Some(Finished) && |end.requests| == n + 1 <==> last && !w.reply(n).value.hitLimit)
      && (end.exit == Some(OutputLimit) && |end.requests| == n + 1 <==>
            last && w.reply(n).value.hitLimit && CutShorts(w, n) >= 4)
  {
    TextVerdicts(s.progress, cfg, w, n);
    RunEndsIff(s, cfg, w, n, Finished);
    RunEndsIff(s, cfg, w, n, OutputLimit);
  }

  lemma TextVerdicts(p: Option<Tracker>, cfg: Config, w: World, n: nat)
    ensures
      var text := w.reply(n).Some? && w.reply(n).value.calls == [] && !SpentUp(cfg, w, n + 1);
      && (Verdict(p, cfg, w, n) == Some(Finished) <==> text && !w.reply(n).value.hitLimit)
      && (Verdict(p, cfg, w, n) == Some(OutputLimit) <==> text && w.reply(n).value.hitLimit && CutShorts(w, n) >= 4)
  {
    if w.reply(n).Some? && !SpentUp(cfg, w, n + 1) && Whole(w, n) != [] {
      RoundVerdictIs(p, cfg, w, n);
      if p.Some? {
        var told := ToldAt(p.value, cfg, w, n + 1);
        RoundsEndElse(AsksOwner(w, n), Counts(p.value, told), told.rounds);
      }
    }
  }

  lemma RoundsEndElse(asks: bool, enough: bool, rounds: seq<bool>)
    ensures RoundVerdict(asks, enough, rounds) !in {Some(Finished), Some(OutputLimit)}
  {}

  /** A run ends for a reason and with a certain reply exactly when that is its first verdict. */
  lemma RunEndsIff(s: Loop, cfg: Config, w: World, n: nat, x: Exit)
    requires Fresh(s)
    ensures
      var end := RunFrom(s, cfg, w);
      end.exit == Some(x) && |end.requests| == n + 1 <==>
      n < cfg.maxIter && NoneEnds(s.progress, cfg, w, n) && Verdict(s.progress, cfg, w, n) == Some(x)
  {
    var m := RunEnds(s, cfg, w);
    EndedIff(RunFrom(s, cfg, w), s.progress, cfg, w, m, n, x);
  }

  lemma EndedIff(end: Loop, p: Option<Tracker>, cfg: Config, w: World, m: nat, n: nat, x: Exit)
    requires EndsAfter(end, p, cfg, w, m)
    ensures end.exit == Some(x) && |end.requests| == n + 1 <==>
            n < cfg.maxIter && NoneEnds(p, cfg, w, n) && Verdict(p, cfg, w, n) == Some(x)
  {
    var verdicts := Verdicts(p, cfg, w);
    assert verdicts(n) == Verdict(p, cfg, w, n);
    EndsInVerdict(end, p, cfg, w, m, verdicts);
    FirstVerdict(verdicts, cfg.maxIter, n, x, m, end.exit);
  }

  lemma EndsInVerdict(end: Loop, p: Option<Tracker>, cfg: Config, w: World, m: nat, verdicts: nat -> Option<Exit>)
    requires EndsAfter(end, p, cfg, w, m) && verdicts == Verdicts(p, cfg, w)
    ensures |end.requests| == m <= cfg.maxIter
    ensures if end.exit.None? then m == cfg.maxIter && NoneIn(verdicts, m)
            else m > 0 && NoneIn(verdicts, m - 1) && end.exit == verdicts(m - 1)
  {}

  /** The first verdict is where the run ends. */
  lemma FirstVerdict(verdicts: nat -> Option<Exit>, maxIter: nat, n: nat, x: Exit, m: nat, exit: Option<Exit>)
    requires m <= maxIter
    requires if exit.None? then m == maxIter && NoneIn(verdicts, m)
             else m > 0 && NoneIn(verdicts, m - 1) && exit == verdicts(m - 1)
    ensures exit == Some(x) && m == n + 1 <==> n < maxIter && NoneIn(verdicts, n) && verdicts(n) == Some(x)
  {}
}
