/**
 The bounded agent loop (`agent/loop.py`): model calls, tool calls and the staged finalization
 that makes sure a run ends with a diagnosis and a patch proposal.
 */
module AgentLoops {
  import opened Common
  import opened AgentContext

  datatype StopReason = ToolUse | EndTurn | MaxTokens | OtherStop
  datatype Reply = Reply(thinking: seq<string>, text: string, calls: seq<ToolCall>, stop: StopReason)

  /** What a model call does: a reply, an error, or the cancellation of the run. */
  datatype ChatOutcome = Replied(reply: Reply) | ChatFailed | ChatCancelled

  /** What a tool call does; only a cancellation escapes from it. */
  datatype ToolOutcome = Returned(text: string, isError: bool, stopAfterSuccess: bool) | ToolCancelled

  /** A request as the provider receives it. */
  datatype Request = Request(step: nat, messages: seq<Message>, schemas: Schemas, finalizing: bool)

  /** A tool call as the loop handled it: the stage it met, whether the tool ran and how that went. */
  datatype Handled = Handled(step: nat, index: nat, call: ToolCall, stage: Stage, passed: bool, ok: bool, stops: bool,
                             reserve: bool)

  const SUBMIT := "submit_diagnosis"

  predicate ReadOnly(tool: string) {
    tool == "read_file" || tool == "list_dir" || tool == "search_text" || tool == "read_job_log"
  }

  /** The provider announces its tool calls. */
  predicate Obeys(outcome: ChatOutcome) {
    outcome.Replied? && outcome.reply.calls != [] ==> outcome.reply.stop.ToolUse? || outcome.reply.stop.MaxTokens?
  }

  function Asked(reply: Reply): Message {
    Assistant(reply.thinking, reply.text, reply.calls)
  }

  /** The first position of `x`, or none. */
  function IndexOf(s: seq<string>, x: string): (r: Option<nat>)
    ensures r.Some? ==> r.value < |s| && s[r.value] == x && x !in s[..r.value]
    ensures r.None? ==> x !in s
  {
    if s == [] then None
    else if s[0] == x then Some(0)
    else
      match IndexOf(s[1..], x)
      case None => None
      case Some(i) =>
        assert s[..i + 1] == [s[0]] + s[1..][..i];
        Some(i + 1)
  }

  /** What `loop.py` keeps between steps. */
  datatype Stage = Stage(active: bool, required: Option<string>)

  function StageTool(stage: Stage): Option<string> {
    if stage.active then stage.required else None
  }

  class AgentLoop {
    const sequence: seq<string>
    const reserveBytes: nat
    const lastSteps: nat
    const chat: nat -> ChatOutcome
    const tool: (nat, nat) -> ToolOutcome

    constructor (sequence: seq<string>, reserveBytes: int, lastSteps: int, chat: nat -> ChatOutcome,
                 tool: (nat, nat) -> ToolOutcome)
      ensures this.sequence == sequence && this.chat == chat && this.tool == tool
      ensures this.reserveBytes == (if reserveBytes > 0 then reserveBytes else 0)
      ensures this.lastSteps == if lastSteps > 0 then lastSteps else 0
    {
      this.sequence, this.chat, this.tool := sequence, chat, tool;
      this.reserveBytes := if reserveBytes > 0 then reserveBytes else 0;
      this.lastSteps := if lastSteps > 0 then lastSteps else 0;
    }

    /** Whether the sequence has this tool, and the one after it. */
    function Advanced(name: string): (bool, Option<string>) {
      match IndexOf(sequence, name)
      case None => (false, None)
      case Some(i) => (true, if i + 1 < |sequence| then Some(sequence[i + 1]) else None)
    }

    function FirstStage(): Option<string> {
      if sequence == [] then None else Some(sequence[0])
    }

    /** Some stage always remains: there is a first one, and a diagnosis does not end the sequence. */
    predicate Staged() {
      sequence != [] && (Advanced(SUBMIT).0 ==> Advanced(SUBMIT).1.Some?)
    }

    /** A diagnosis that the tool has accepted. */
    predicate Diagnosed(h: Handled) {
      h.passed && h.ok && h.call.name == SUBMIT
    }

    /** A stage is the first, or the one after an accepted diagnosis. */
    predicate Justified(required: string, log: seq<Handled>) {
      || FirstStage() == Some(required)
      || (Advanced(SUBMIT).1 == Some(required) && exists j :: 0 <= j < |log| && Diagnosed(log[j]))
    }

    predicate StageOk(stage: Stage, log: seq<Handled>) {
      && (stage.active || stage.required.None?)
      && (stage.active && Staged() ==> stage.required.Some? && Justified(stage.required.value, log))
    }

    /** The steps in which finalization is always active. */
    predicate Late(step: nat, maxSteps: int) {
      sequence != [] && lastSteps > 0 && step > maxSteps - lastSteps
    }

    /** The stage that a handled call leads to: a reached reserve restarts it, an accepted diagnosis advances it. */
    function StageAfter(h: Handled): Stage {
      if Diagnosed(h) && Advanced(SUBMIT).0 then Stage(true, Advanced(SUBMIT).1)
      else if h.reserve then Stage(true, FirstStage())
      else h.stage
    }

    /** The model made this call in this step. */
    predicate Calls(step: nat, index: nat, call: ToolCall) {
      chat(step).Replied? && index < |chat(step).reply.calls| && chat(step).reply.calls[index] == call
    }

    /** A tool runs unless another one is required, and reports what it did; the stage it met was justified. */
    predicate HandledOk(log: seq<Handled>, k: nat, maxSteps: int)
      requires k < |log|
    {
      var h := log[k];
      && Calls(h.step, h.index, h.call)
      && (h.passed <==> StageTool(h.stage).None? || StageTool(h.stage) == Some(h.call.name))
      && (h.passed ==>
             && tool(h.step, h.index).Returned? && h.ok == !tool(h.step, h.index).isError
             && h.stops == tool(h.step, h.index).stopAfterSuccess)
      && (!h.passed ==> !h.ok)
      && StageOk(h.stage, log[..k])
      && (Late(h.step, maxSteps) ==> h.stage.active)
      && (h.index > 0 ==>
             k > 0 && log[k - 1].step == h.step && log[k - 1].index == h.index - 1 && h.stage == StageAfter(log[k - 1]))
    }

    predicate LogOk(log: seq<Handled>, maxSteps: int) {
      forall k :: 0 <= k < |log| ==> HandledOk(log, k, maxSteps)
    }

    lemma LogGrows(log: seq<Handled>, h: Handled, maxSteps: int)
      requires LogOk(log, maxSteps) && HandledOk(log + [h], |log|, maxSteps)
      ensures LogOk(log + [h], maxSteps)
    {
      var more := log + [h];
      forall k | 0 <= k < |more|
        ensures HandledOk(more, k, maxSteps)
      {
        if k < |log| {
          assert HandledOk(log, k, maxSteps);
          assert more[..k] == log[..k];
        }
      }
    }

    lemma StageGrows(stage: Stage, log: seq<Handled>, h: Handled)
      requires StageOk(stage, log) && h.stage == stage && (h.reserve ==> sequence != [])
      ensures StageOk(StageAfter(h), log + [h]) && (stage.active ==> StageAfter(h).active)
    {
      var next := StageAfter(h);
      if next.active && Staged() {
        if Diagnosed(h) && Advanced(SUBMIT).0 {
          assert (log + [h])[|log|] == h;
        } else if !h.reserve && FirstStage() != stage.required {
          var j :| 0 <= j < |log| && Diagnosed(log[j]);
          assert (log + [h])[j] == log[j];
        }
      }
    }

    /** The input size above which finalization begins, when it may begin early. */
    function SoftLimit(context: ExecutionContext): Option<int> {
      if sequence != [] && reserveBytes > 0 then Some(context.maxInputBytes - reserveBytes) else None
    }

    /** The result that a handled call brings in. */
    function Offered(h: Handled): (block: ResultBlock)
      ensures block.toolUseId == h.call.id && (block.content.Output? || block.content.StageError?)
    {
      if h.passed && tool(h.step, h.index).Returned?
      then ResultBlock(h.call.id, Output(tool(h.step, h.index).text), tool(h.step, h.index).isError)
      else
        var required := if StageTool(h.stage).Some? then StageTool(h.stage).value else "";
        ResultBlock(h.call.id, StageError(required, h.call.name), true)
    }

    lemma OfferedIs(h: Handled)
      ensures h.passed && tool(h.step, h.index).Returned? ==>
        Offered(h) == ResultBlock(h.call.id, Output(tool(h.step, h.index).text), tool(h.step, h.index).isError)
      ensures !h.passed && StageTool(h.stage).Some? ==>
        Offered(h) == ResultBlock(h.call.id, StageError(StageTool(h.stage).value, h.call.name), true)
    {
    }

    function RoomOf(context: ExecutionContext, schemas: Schemas): Room {
      Room(context.size, context.maxInputBytes, schemas)
    }

    /** Only the results of read-only tools give way to the finalization reserve. */
    function OfferOf(context: ExecutionContext, call: ToolCall, block: ResultBlock): Offer {
      Offer(block, if ReadOnly(call.name) then SoftLimit(context) else None)
    }

    /** The first size stays, the peak only rises, and so does the budget flag, just when a result had no room. */
    twostate predicate Accounted(context: ExecutionContext)
      reads context
    {
      && (old(context.initialInput) != 0 ==> context.initialInput == old(context.initialInput))
      && context.peakInput >= old(context.peakInput)
      && (old(context.budgetExhausted) ==> context.budgetExhausted)
      && ((old(context.budgetExhausted) <==> Exhausted(old(context.messages))) ==>
            (context.budgetExhausted <==> Exhausted(context.messages)))
    }

    /** The results of the calls handled from position `n` of the log on. */
    function OffersFrom(context: ExecutionContext, log: seq<Handled>, n: nat): seq<Offer>
      requires n <= |log|
    {
      seq(|log| - n, i requires 0 <= i < |log| - n => OfferOf(context, log[n + i].call, Offered(log[n + i])))
    }

    /** The calls handled from position `n` of the log on are answered, and the log says which reached the reserve. */
    predicate RecordedFrom(context: ExecutionContext, schemas: Schemas, messages: seq<Message>, base: seq<Message>,
                           log: seq<Handled>, n: nat)
      requires n <= |log|
    {
      var room, blocks, offers := RoomOf(context, schemas), BlocksAfter(messages, base), OffersFrom(context, log, n);
      && Recorded(room, messages, base, offers)
      && forall k :: 0 <= k < |offers| ==> (log[n + k].reserve <==> Reserved(room, base, blocks[..k], offers[k]))
    }

    lemma NoCallsRecorded(context: ExecutionContext, schemas: Schemas, base: seq<Message>, log: seq<Handled>)
      ensures RecordedFrom(context, schemas, base, base, log, |log|)
    {
      NoneRecorded(RoomOf(context, schemas), base);
    }

    /** One more handled call is answered. */
    lemma RecordsCall(context: ExecutionContext, schemas: Schemas, before: seq<Message>, after: seq<Message>,
                      base: seq<Message>, log: seq<Handled>, n: nat, h: Handled, block: ResultBlock)
      requires n <= |log| && RecordedFrom(context, schemas, before, base, log, n)
      requires var offer := OfferOf(context, h.call, Offered(h));
               && Recorded(RoomOf(context, schemas), after, base, OffersFrom(context, log, n) + [offer])
               && BlocksAfter(after, base) == BlocksAfter(before, base) + [block]
               && h.reserve == Reserved(RoomOf(context, schemas), base, BlocksAfter(before, base), offer)
      ensures RecordedFrom(context, schemas, after, base, log + [h], n)
    {
      var offers, blocks := OffersFrom(context, log, n), BlocksAfter(before, base);
      var offer := OfferOf(context, h.call, Offered(h));
      assert |blocks| == |offers|;
      hide Recorded, Stands, Reserved, Offered, OfferOf;
      assert OffersFrom(context, log + [h], n) == offers + [offer];
      forall k | 0 <= k < |offers| + 1
        ensures (log + [h])[n + k].reserve <==>
                Reserved(RoomOf(context, schemas), base, (blocks + [block])[..k], (offers + [offer])[k])
      {
        if k < |offers| {
          assert (blocks + [block])[..k] == blocks[..k];
        } else {
          assert (blocks + [block])[..k] == blocks;
        }
      }
    }

    /** A result joins the history, as itself or as the placeholder that stands for it. */
    method AddResult(context: ExecutionContext, call: ToolCall, content: Content, isError: bool, schemas: Schemas,
                     ghost base: seq<Message>, ghost offers: seq<Offer>)
      returns (reserve: bool, ghost block: ResultBlock)
      requires Recorded(RoomOf(context, schemas), context.messages, base, offers)
      requires base != [] && !base[|base| - 1].Results? && !content.BudgetExhausted?
      modifies context`messages, context`budgetExhausted, context`initialInput, context`peakInput
      ensures
        var offer, room := OfferOf(context, call, ResultBlock(call.id, content, isError)), RoomOf(context, schemas);
        && Recorded(room, context.messages, base, offers + [offer])
        && BlocksAfter(context.messages, base) == BlocksAfter(old(context.messages), base) + [block]
        && reserve == Reserved(room, base, BlocksAfter(old(context.messages), base), offer)
      ensures reserve ==> sequence != []
      ensures context.peakInput >= context.size(context.messages, schemas)
      ensures Accounted(context)
    {
      hide Recorded, Reserved, Exhausted, WithResult;
      ghost var before := context.messages;
      var soft := if ReadOnly(call.name) then SoftLimit(context) else None;
      reserve := context.AddToolResult(call.id, content, isError, schemas, soft);
      ghost var result := ResultBlock(call.id, content, isError);
      block := Admit(context.size, context.maxInputBytes, before, result, schemas, soft).block;
      RecordsOneMore(RoomOf(context, schemas), before, base, offers, OfferOf(context, call, result));
      ExhaustedJoins(before, block);
      context.ObserveInputSize(context.size(context.messages, schemas));
    }

    /** From position `n` on the log holds these calls of this step, in order. */
    predicate LogsCalls(log: seq<Handled>, n: nat, step: nat, calls: seq<ToolCall>) {
      && |log| == n + |calls|
      && forall k :: n <= k < |log| ==> log[k].step == step && log[k].index == k - n && log[k].call == calls[k - n]
    }

    /** A call whose tool ends the run. */
    predicate Stops(h: Handled) {
      h.passed && h.ok && h.stops
    }

    /** What the tool of a handled call has returned. */
    function Text(h: Handled): string {
      if tool(h.step, h.index).Returned? then tool(h.step, h.index).text else ""
    }

    /** The call that was handled last stopped the run. */
    predicate Stopped(log: seq<Handled>) {
      log != [] && Stops(log[|log| - 1])
    }

    /** From position `n` on no call but perhaps the last stops the run. */
    predicate GoesOn(log: seq<Handled>, n: nat) {
      forall k :: n <= k < |log| - 1 ==> !Stops(log[k])
    }

    /** The calls that a step hands to its tools. */
    function CallsOf(step: nat): seq<ToolCall> {
      if chat(step).Replied? && chat(step).reply.stop.ToolUse? then chat(step).reply.calls else []
    }

    /**
     From position `n` on the log holds the calls of a step, the first of which met the stage of its
     request: all of them, unless one stopped the run or the next one was cancelled.
     */
    predicate LogsStep(log: seq<Handled>, n: nat, step: nat, start: Stage, raised: bool) {
      var calls := CallsOf(step);
      && n <= |log| <= n + |calls| && LogsCalls(log, n, step, calls[..|log| - n]) && GoesOn(log, n)
      && (|log| > n ==> log[n].stage == start)
      && (|log| == n + |calls| || (|log| > n && Stopped(log)) || (raised && tool(step, |log| - n).ToolCancelled?))
    }

    /** One more call of the step in the log. */
    lemma CallHandled(log: seq<Handled>, n: nat, step: nat, calls: seq<ToolCall>, i: nat, h: Handled, maxSteps: int)
      requires n <= |log| && i < |calls| && LogOk(log, maxSteps) && LogsCalls(log, n, step, calls[..i])
      requires h.step == step && h.index == i && h.call == calls[i] && Calls(step, i, h.call)
      requires h.passed <==> StageTool(h.stage).None? || StageTool(h.stage) == Some(h.call.name)
      requires h.passed ==>
        tool(step, i).Returned? && h.ok == !tool(step, i).isError && h.stops == tool(step, i).stopAfterSuccess
      requires !h.passed ==> !h.ok
      requires StageOk(h.stage, log) && (Late(step, maxSteps) ==> h.stage.active)
      requires i > 0 ==> h.stage == StageAfter(log[|log| - 1])
      ensures LogOk(log + [h], maxSteps) && LogsCalls(log + [h], n, step, calls[..i + 1])
    {
      var more := log + [h];
      assert more[..|log|] == log;
      LogGrows(log, h, maxSteps);
      forall k | n <= k < |more|
        ensures more[k].step == step && more[k].index == k - n && more[k].call == calls[..i + 1][k - n]
      {
        if k < |log| {
          assert log[k].call == calls[..i][k - n];
        }
      }
    }

    /** An accepted diagnosis that moves on to the next stage. */
    predicate Moves(h: Handled) {
      Diagnosed(h) && Advanced(SUBMIT).1.Some?
    }

    /** The pending stage's tool has done its work, and the stage stays. */
    predicate Fulfils(h: Handled) {
      h.ok && StageTool(if h.reserve then Stage(true, FirstStage()) else h.stage) == Some(h.call.name) && !Moves(h)
    }

    /** From position `n` on a call has fulfilled the stage, which no later call has restarted or advanced. */
    predicate Fulfilled(log: seq<Handled>, n: nat) {
      exists k :: n <= k < |log| && Fulfils(log[k]) && forall j :: k < j < |log| ==> !log[j].reserve && !Moves(log[j])
    }

    lemma FulfilledGrows(log: seq<Handled>, n: nat, h: Handled)
      requires n <= |log|
      ensures Fulfilled(log + [h], n) <==> Fulfils(h) || (Fulfilled(log, n) && !h.reserve && !Moves(h))
    {
      hide Fulfils, Moves;
      var more := log + [h];
      assert more[|log|] == h && forall j :: 0 <= j < |log| ==> more[j] == log[j];
      if Fulfilled(log, n) && !h.reserve && !Moves(h) {
        var k :| n <= k < |log| && Fulfils(log[k]) && forall j :: k < j < |log| ==> !log[j].reserve && !Moves(log[j]);
        assert Fulfils(more[k]) && forall j :: k < j < |more| ==> !more[j].reserve && !Moves(more[j]);
      }
      if Fulfilled(more, n) && !Fulfils(h) {
        var k :| n <= k < |more| && Fulfils(more[k])
                 && forall j :: k < j < |more| ==> !more[j].reserve && !Moves(more[j]);
        assert k < |log| && Fulfils(log[k]) && forall j :: k < j < |log| ==> log[j] == more[j];
      }
    }

    /** The stage after a call: a reached reserve restarts it and an accepted diagnosis advances it. */
    method AdvanceStage(h: Handled, before: bool) returns (stage: Stage, succeeded: bool)
      requires h.passed || !h.ok
      ensures stage == StageAfter(h)
      ensures succeeded <==> Fulfils(h) || (before && !h.reserve && !Moves(h))
    {
      stage, succeeded := h.stage, before;
      if h.reserve {
        stage, succeeded := Stage(true, FirstStage()), false;
      }
      if StageTool(stage) == Some(h.call.name) && h.ok {
        succeeded := true;
      }
      if h.ok && h.call.name == SUBMIT {
        var (advanced, next) := Advanced(h.call.name);
        if advanced && next.Some? {
          stage, succeeded := Stage(true, next), false;
        } else if advanced {
          stage := Stage(true, None);
        }
      }
    }

    /**
     The first `i` calls of the step are in the log from position `n` on and answered; none of them
     stopped the run, and they have led to this stage.
     */
    predicate Handling(context: ExecutionContext, schemas: Schemas, base: seq<Message>, messages: seq<Message>,
                       log: seq<Handled>, n: nat, step: nat, calls: seq<ToolCall>, i: nat, start: Stage, stage: Stage) {
      && i <= |calls| && |log| == n + i && LogOk(log, context.maxSteps) && StageOk(stage, log)
      && RecordedFrom(context, schemas, messages, base, log, n)
      && LogsCalls(log, n, step, calls[..i]) && (forall k :: n <= k < |log| ==> !Stops(log[k]))
      && (i > 0 ==> log[n].stage == start) && (start.active ==> stage.active)
      && stage == if i == 0 then start else StageAfter(log[|log| - 1])
    }

    /** What is known of the calls of a step once the loop over them is over. */
    predicate HandledAll(context: ExecutionContext, schemas: Schemas, base: seq<Message>, messages: seq<Message>,
                         log: seq<Handled>, n: nat, step: nat, calls: seq<ToolCall>, start: Stage, stage: Stage,
                         raised: bool)
    {
      && n <= |log| && LogOk(log, context.maxSteps) && StageOk(stage, log) && (start.active ==> stage.active)
      && RecordedFrom(context, schemas, messages, base, log, n) && LogsStep(log, n, step, start, raised)
      && stage == if |log| == n then start else StageAfter(log[|log| - 1])
    }

    lemma HandlingGives(context: ExecutionContext, schemas: Schemas, base: seq<Message>, messages: seq<Message>,
                        log: seq<Handled>, n: nat, step: nat, calls: seq<ToolCall>, i: nat, start: Stage, stage: Stage)
      requires Handling(context, schemas, base, messages, log, n, step, calls, i, start, stage)
      ensures |log| == n + i && LogOk(log, context.maxSteps) && StageOk(stage, log)
      ensures i <= |calls| && LogsCalls(log, n, step, calls[..i]) && (i > 0 ==> stage == StageAfter(log[|log| - 1]))
      ensures RecordedFrom(context, schemas, messages, base, log, n)
      ensures Recorded(RoomOf(context, schemas), messages, base, OffersFrom(context, log, n))
    {
    }

    lemma NoneHandled(context: ExecutionContext, schemas: Schemas, base: seq<Message>, log: seq<Handled>, step: nat,
                      calls: seq<ToolCall>, start: Stage)
      requires LogOk(log, context.maxSteps) && StageOk(start, log)
      ensures Handling(context, schemas, base, base, log, |log|, step, calls, 0, start, start)
    {
      NoCallsRecorded(context, schemas, base, log);
    }

    /** One more call of the step has been handled: it stops the run, or the step goes on. */
    lemma OneHandled(context: ExecutionContext, schemas: Schemas, base: seq<Message>, before: seq<Message>,
                     after: seq<Message>, log: seq<Handled>, n: nat, step: nat, calls: seq<ToolCall>, i: nat,
                     start: Stage, h: Handled)
      requires Handling(context, schemas, base, before, log, n, step, calls, i, start, h.stage) && i < |calls|
      requires chat(step).Replied? && chat(step).reply.calls == calls && chat(step).reply.stop.ToolUse?
      requires LogOk(log + [h], context.maxSteps) && LogsCalls(log + [h], n, step, calls[..i + 1])
      requires RecordedFrom(context, schemas, after, base, log + [h], n) && (h.reserve ==> sequence != [])
      ensures h.stage.active ==> StageAfter(h).active
      ensures !Stops(h) ==>
        Handling(context, schemas, base, after, log + [h], n, step, calls, i + 1, start, StageAfter(h))
      ensures Stops(h) ==>
        HandledAll(context, schemas, base, after, log + [h], n, step, calls, start, StageAfter(h), false)
    {
      hide LogOk, LogsCalls, StageAfter, StageOk, RecordedFrom, Stops;
      StageGrows(h.stage, log, h);
      assert forall k :: n <= k < |log| ==> (log + [h])[k] == log[k];
    }

    /** The loop over the calls has reached its end, or the next call is cancelled. */
    lemma HandlingEnds(context: ExecutionContext, schemas: Schemas, base: seq<Message>, messages: seq<Message>,
                       log: seq<Handled>, n: nat, step: nat, calls: seq<ToolCall>, i: nat, start: Stage, stage: Stage,
                       raised: bool)
      requires Handling(context, schemas, base, messages, log, n, step, calls, i, start, stage)
      requires chat(step).Replied? && chat(step).reply.calls == calls && chat(step).reply.stop.ToolUse?
      requires i == |calls| || (raised && tool(step, i).ToolCancelled?)
      ensures HandledAll(context, schemas, base, messages, log, n, step, calls, start, stage, raised)
      ensures (|log| > n ==> !Stopped(log)) && (i == |calls| ==> LogsCalls(log, n, step, calls))
    {
      hide LogOk, LogsCalls, StageAfter, StageOk, RecordedFrom;
      assert calls[..|calls|] == calls;
    }

    /** One call is refused by the stage or passed on, and its result joins the history; none when it was cancelled. */
    method HandleToolCall(context: ExecutionContext, calls: seq<ToolCall>, i: nat, stage: Stage, schemas: Schemas,
                          log: seq<Handled>, ghost base: seq<Message>, ghost n: nat, ghost start: Stage)
      returns (handled: Option<Handled>)
      requires i < |calls| && context.status.Running? && base != [] && !base[|base| - 1].Results?
      requires chat(context.step).Replied? && chat(context.step).reply.calls == calls
      requires chat(context.step).reply.stop.ToolUse?
      requires Late(context.step, context.maxSteps) ==> stage.active
      requires Handling(context, schemas, base, context.messages, log, n, context.step, calls, i, start, stage)
      modifies context
      ensures context.step == old(context.step) && Accounted(context)
      ensures handled.None? ==>
        tool(context.step, i).ToolCancelled? && context.status.Running? && context.messages == old(context.messages)
      ensures handled.Some? ==>
        var h, step := handled.value, context.step;
        && h.stage == stage && (h.passed || !h.ok) && (stage.active ==> StageAfter(h).active)
        && context.status == (if Stops(h) then Success else Running) && (Stops(h) ==> context.result == Text(h))
        && (!Stops(h) ==>
              Handling(context, schemas, base, context.messages, log + [h], n, step, calls, i + 1, start,
                       StageAfter(h)))
        && (Stops(h) ==>
              HandledAll(context, schemas, base, context.messages, log + [h], n, step, calls, start, StageAfter(h),
                         false))
    {
      hide Handling, HandledAll, LogOk, LogsCalls, RecordedFrom, Recorded, OffersFrom, StageOk, Justified, HandledOk,
           StageAfter, Late, Offered, Exhausted, Reserved;
      ghost var before := context.messages;
      HandlingGives(context, schemas, base, before, log, n, context.step, calls, i, start, stage);
      var call, required := calls[i], StageTool(stage);
      var content, isError, stops, passed := Output(""), true, false, false;
      if required.Some? && call.name != required.value {
        content := StageError(required.value, call.name);
      } else {
        var outcome := tool(context.step, i);
        if outcome.ToolCancelled? {
          return None;
        }
        content, isError, stops, passed := Output(outcome.text), outcome.isError, outcome.stopAfterSuccess, true;
      }
      var reserve, block := AddResult(context, call, content, isError, schemas, base, OffersFrom(context, log, n));
      var h := Handled(context.step, i, call, stage, passed, !isError, stops, reserve);
      OfferedIs(h);
      RecordsCall(context, schemas, before, context.messages, base, log, n, h, block);
      CallHandled(log, n, context.step, calls, i, h, context.maxSteps);
      OneHandled(context, schemas, base, before, context.messages, log, n, context.step, calls, i, start, h);
      handled := Some(h);
      if !isError && stops {
        context.result := if content.Output? then content.text else "";
        context.status := Success;
      }
    }

    /** What holds in the loop over a step's calls: it goes on, a call has stopped the run, or one was cancelled. */
    predicate Looping(context: ExecutionContext, schemas: Schemas, base: seq<Message>, messages: seq<Message>,
                      done: seq<Handled>, log: seq<Handled>, step: nat, calls: seq<ToolCall>, i: nat, start: Stage,
                      stage: Stage, succeeded: bool, running: bool, raised: bool, result: string) {
      && done <= log && (succeeded <==> Fulfilled(log, |done|))
      && (if running then Handling(context, schemas, base, messages, log, |done|, step, calls, i, start, stage)
          else
            && !raised && |log| > |done| && Stopped(log) && result == Text(log[|log| - 1])
            && HandledAll(context, schemas, base, messages, log, |done|, step, calls, start, stage, raised))
      && (raised ==> running && i < |calls| && tool(step, i).ToolCancelled?)
    }

    lemma LoopBegins(context: ExecutionContext, schemas: Schemas, base: seq<Message>, done: seq<Handled>, step: nat,
                     calls: seq<ToolCall>, start: Stage, result: string)
      requires LogOk(done, context.maxSteps) && StageOk(start, done)
      ensures Looping(context, schemas, base, base, done, done, step, calls, 0, start, start, false, true, false,
                      result)
    {
      NoneHandled(context, schemas, base, done, step, calls, start);
    }

    lemma LoopGives(context: ExecutionContext, schemas: Schemas, base: seq<Message>, messages: seq<Message>,
                    done: seq<Handled>, log: seq<Handled>, step: nat, calls: seq<ToolCall>, i: nat, start: Stage,
                    stage: Stage, succeeded: bool, result: string)
      requires Looping(context, schemas, base, messages, done, log, step, calls, i, start, stage, succeeded, true,
                       false, result)
      ensures Handling(context, schemas, base, messages, log, |done|, step, calls, i, start, stage)
      ensures start.active ==> stage.active
    {
    }

    lemma LoopRaises(context: ExecutionContext, schemas: Schemas, base: seq<Message>, messages: seq<Message>,
                     done: seq<Handled>, log: seq<Handled>, step: nat, calls: seq<ToolCall>, i: nat, start: Stage,
                     stage: Stage, succeeded: bool, earlier: string, result: string)
      requires Looping(context, schemas, base, messages, done, log, step, calls, i, start, stage, succeeded, true,
                       false, earlier)
      requires i < |calls| && tool(step, i).ToolCancelled?
      ensures Looping(context, schemas, base, messages, done, log, step, calls, i, start, stage, succeeded, true, true,
                      result)
    {
      hide Handling, HandledAll, Fulfilled;
    }

    lemma LoopSteps(context: ExecutionContext, schemas: Schemas, base: seq<Message>, before: seq<Message>,
                    after: seq<Message>, done: seq<Handled>, log: seq<Handled>, step: nat, calls: seq<ToolCall>, i: nat,
                    start: Stage, succeeded: bool, h: Handled, earlier: string, result: string)
      requires Looping(context, schemas, base, before, done, log, step, calls, i, start, h.stage, succeeded, true,
                       false, earlier)
      requires Stops(h) ==> result == Text(h)
      requires !Stops(h) ==>
        Handling(context, schemas, base, after, log + [h], |done|, step, calls, i + 1, start, StageAfter(h))
      requires Stops(h) ==>
        HandledAll(context, schemas, base, after, log + [h], |done|, step, calls, start, StageAfter(h), false)
      ensures Looping(context, schemas, base, after, done, log + [h], step, calls, i + 1, start, StageAfter(h),
                      Fulfils(h) || (succeeded && !h.reserve && !Moves(h)), !Stops(h), false, result)
    {
      hide Handling, HandledAll, Fulfilled, StageAfter;
      FulfilledGrows(log, |done|, h);
    }

    lemma LoopEnds(context: ExecutionContext, schemas: Schemas, base: seq<Message>, messages: seq<Message>,
                   done: seq<Handled>, log: seq<Handled>, step: nat, calls: seq<ToolCall>, i: nat, start: Stage,
                   stage: Stage, succeeded: bool, running: bool, raised: bool, result: string)
      requires Looping(context, schemas, base, messages, done, log, step, calls, i, start, stage, succeeded, running,
                       raised, result)
      requires chat(step).Replied? && chat(step).reply.calls == calls && chat(step).reply.stop.ToolUse?
      requires i == |calls| || raised || !running
      ensures done <= log && (succeeded <==> Fulfilled(log, |done|))
      ensures HandledAll(context, schemas, base, messages, log, |done|, step, calls, start, stage, raised)
      ensures running <==> !(|log| > |done| && Stopped(log))
      ensures !running ==> log != [] && result == Text(log[|log| - 1])
      ensures raised ==> running && |log| - |done| < |calls| && tool(step, |log| - |done|).ToolCancelled?
      ensures running && !raised ==> LogsCalls(log, |done|, step, calls)
    {
      if running {
        assert |log| == |done| + i;
        hide Handling, HandledAll, Fulfilled, Stopped;
        HandlingEnds(context, schemas, base, messages, log, |done|, step, calls, i, start, stage, raised);
      }
    }

    /** The replies that end with tool calls: the calls are handled in order until one stops the run. */
    method HandleToolCalls(context: ExecutionContext, calls: seq<ToolCall>, start: Stage, schemas: Schemas,
                           done: seq<Handled>)
      returns (stage: Stage, succeeded: bool, log: seq<Handled>, raised: bool)
      requires context.status.Running? && context.messages != [] && !context.messages[|context.messages| - 1].Results?
      requires chat(context.step).Replied? && chat(context.step).reply.calls == calls
      requires chat(context.step).reply.stop.ToolUse?
      requires StageOk(start, done) && LogOk(done, context.maxSteps)
      requires Late(context.step, context.maxSteps) ==> start.active
      modifies context
      ensures context.step == old(context.step) && Accounted(context)
      ensures
        && done <= log
        && HandledAll(context, schemas, old(context.messages), context.messages, log, |done|, context.step, calls,
                      start, stage, raised)
      ensures context.status == if |log| > |done| && Stopped(log) then Success else Running
      ensures context.status.Success? ==> context.result == Text(log[|log| - 1])
      ensures raised ==>
        context.status.Running? && |log| - |done| < |calls| && tool(context.step, |log| - |done|).ToolCancelled?
      ensures context.status.Running? && !raised ==> LogsCalls(log, |done|, context.step, calls)
      ensures succeeded <==> Fulfilled(log, |done|)
    {
      hide Late, StageOk, LogOk, LogsCalls, Exhausted, Handling, HandledAll, Fulfilled, Stopped, Looping, StageAfter,
           Fulfils, Moves, Stops, Text, RecordedFrom, HandledOk, Justified;
      stage, succeeded, log, raised := start, false, done, false;
      ghost var base, n, step := context.messages, |done|, context.step;
      LoopBegins(context, schemas, base, done, step, calls, start, context.result);
      var i := 0;
      while i < |calls| && !raised && !context.Done()
        invariant context.step == old(context.step) && Accounted(context)
        invariant context.status.Running? || context.status.Success?
        invariant i <= |calls|
        invariant Looping(context, schemas, base, context.messages, done, log, step, calls, i, start, stage, succeeded,
                          context.status.Running?, raised, context.result)
        decreases !raised, |calls| - i
      {
        ghost var before, earlier := context.messages, context.result;
        LoopGives(context, schemas, base, before, done, log, step, calls, i, start, stage, succeeded, earlier);
        var handled := HandleToolCall(context, calls, i, stage, schemas, log, base, n, start);
        if handled.None? {
          raised := true;
          LoopRaises(context, schemas, base, before, done, log, step, calls, i, start, stage, succeeded, earlier,
                     context.result);
        } else {
          var stage', succeeded' := AdvanceStage(handled.value, succeeded);
          LoopSteps(context, schemas, base, before, context.messages, done, log, step, calls, i, start, succeeded,
                    handled.value, earlier, context.result);
          log := log + [handled.value];
          stage, succeeded := stage', succeeded';
          i := i + 1;
        }
      }
      LoopEnds(context, schemas, base, context.messages, done, log, step, calls, i, start, stage, succeeded,
               context.status.Running?, raised, context.result);
    }

    /** The results that answer the calls of a reply cut off by the output limit. */
    function Truncations(context: ExecutionContext, calls: seq<ToolCall>): seq<Offer> {
      seq(|calls|, i requires 0 <= i < |calls| =>
        OfferOf(context, calls[i], ResultBlock(calls[i].id, CallTruncated, true)))
    }

    /** The replies cut off by the output limit: every call is answered as truncated. */
    method HandleTruncatedCalls(context: ExecutionContext, calls: seq<ToolCall>, start: Stage, schemas: Schemas,
                                ghost log: seq<Handled>) returns (stage: Stage)
      requires context.messages != [] && !context.messages[|context.messages| - 1].Results?
      requires StageOk(start, log)
      modifies context`messages, context`budgetExhausted, context`initialInput, context`peakInput
      ensures
        var room, base, offers := RoomOf(context, schemas), old(context.messages), Truncations(context, calls);
        && Recorded(room, context.messages, base, offers)
        && stage == if AnyReserved(room, context.messages, base, offers) then Stage(true, FirstStage()) else start
      ensures StageOk(stage, log) && Accounted(context)
    {
      stage := start;
      ghost var base, room, offers := context.messages, RoomOf(context, schemas), Truncations(context, calls[..0]);
      NoneRecorded(room, base);
      assert !AnyReserved(room, context.messages, base, offers);
      hide Recorded, AnyReserved, Reserved, Exhausted;
      for i := 0 to |calls|
        invariant offers == Truncations(context, calls[..i]) && Recorded(room, context.messages, base, offers)
        invariant stage == if AnyReserved(room, context.messages, base, offers) then Stage(true, FirstStage())
                           else start
        invariant Accounted(context)
      {
        ghost var before := context.messages;
        var reserve, block := AddResult(context, calls[i], CallTruncated, true, schemas, base, offers);
        ghost var offer := OfferOf(context, calls[i], ResultBlock(calls[i].id, CallTruncated, true));
        RecordedLength(room, before, base, offers);
        AnyReservedJoins(room, before, context.messages, base, offers, offer, block);
        offers := offers + [offer];
        assert calls[..i + 1] == calls[..i] + [calls[i]];
        if reserve {
          stage := Stage(true, FirstStage());
        }
      }
      assert calls[..|calls|] == calls;
    }

    // ----- whole runs -----

    /** The stage that a step begins in: finalization begins with the last steps or above the soft limit. */
    function Begun(context: ExecutionContext, step: nat, messages: seq<Message>, stage: Stage): Stage {
      if stage.active then stage
      else if Late(step, context.maxSteps) then Stage(true, FirstStage())
      else if SoftLimit(context).Some? && context.size(messages, None) > SoftLimit(context).value
      then Stage(true, FirstStage())
      else stage
    }

    function StageOf(r: Request): Stage {
      Stage(r.finalizing, r.schemas)
    }

    /** A request and the reply to it. */
    function Exchange(r: Request): seq<Message>
      requires chat(r.step).Replied?
    {
      r.messages + [Asked(chat(r.step).reply)]
    }

    /**
     What the next request shows of a reply whose calls were handled from position `n` of the log on: every
     call answered by exactly the block that stands for its result, or a reminder of the pending stage.
     */
    predicate Heard(context: ExecutionContext, r: Request, log: seq<Handled>, n: nat, next: seq<Message>)
      requires n <= |log| && chat(r.step).Replied?
    {
      var reply := chat(r.step).reply;
      if reply.stop.ToolUse? then RecordedFrom(context, r.schemas, next, Exchange(r), log, n)
      else if reply.stop.MaxTokens?
      then Recorded(RoomOf(context, r.schemas), next, Exchange(r), Truncations(context, reply.calls))
      else
        next == Exchange(r) + if reply.stop.EndTurn? && r.schemas.Some? then [StageReminder(r.schemas.value)] else []
    }

    /** The stage that a step ends in. */
    function StageAtEnd(context: ExecutionContext, r: Request, log: seq<Handled>, n: nat, next: seq<Message>): Stage
      requires n <= |log| && chat(r.step).Replied?
    {
      var reply := chat(r.step).reply;
      if reply.stop.ToolUse? then if |log| == n then StageOf(r) else StageAfter(log[|log| - 1])
      else if reply.stop.MaxTokens?
              && AnyReserved(RoomOf(context, r.schemas), next, Exchange(r), Truncations(context, reply.calls))
      then Stage(true, FirstStage())
      else StageOf(r)
    }

    /** The tool that is still asked for when a step ends. */
    function Pending(r: Request, log: seq<Handled>, n: nat): Option<string>
      requires n <= |log| && chat(r.step).Replied?
    {
      if chat(r.step).reply.stop.ToolUse? && |log| > n then StageTool(StageAfter(log[|log| - 1])) else r.schemas
    }

    /** The step ends while a tool is asked for and no call of the step has fulfilled its stage. */
    predicate Missing(r: Request, log: seq<Handled>, n: nat)
      requires n <= |log| && chat(r.step).Replied?
    {
      && Pending(r, log, n).Some?
      && (chat(r.step).reply.stop.ToolUse? ==> !Fulfilled(log, n))
    }

    /** The next request, as the reply and the handled calls determine it. */
    predicate Turns(context: ExecutionContext, r: Request, log: seq<Handled>, n: nat, next: Request)
      requires n <= |log| && chat(r.step).Replied?
    {
      && Heard(context, r, log, n, next.messages)
      && StageOf(next) == Begun(context, next.step, next.messages, StageAtEnd(context, r, log, n, next.messages))
    }

    /** A request fits the hard limit, and the soft one before finalization. */
    predicate Fits(context: ExecutionContext, r: Request) {
      && context.size(r.messages, r.schemas) <= context.maxInputBytes
      && (!r.finalizing && SoftLimit(context).Some? ==> context.size(r.messages, r.schemas) <= SoftLimit(context).value)
    }

    /** Finalization offers only the tool of its stage, and covers the last steps. */
    predicate OnStage(r: Request, maxSteps: int) {
      && (if r.finalizing then Staged() ==> r.schemas.Some? else r.schemas.None?)
      && (Late(r.step, maxSteps) ==> r.finalizing)
    }

    /** The model has announced its tool calls in the first `n` steps. */
    predicate Obeyed(n: nat) {
      forall j :: 1 <= j <= n ==> Obeys(chat(j))
    }

    /** A request continues the previous one: what was sent stays, then comes the reply to it. */
    predicate Continues(earlier: Request, later: Request) {
      && (earlier.finalizing ==> later.finalizing)
      && chat(earlier.step).Replied?
      && earlier.messages + [Asked(chat(earlier.step).reply)] <= later.messages
    }

    predicate RequestOk(context: ExecutionContext, requests: seq<Request>, k: nat)
      requires k < |requests|
    {
      && requests[k].step == k + 1
      && Fits(context, requests[k]) && OnStage(requests[k], context.maxSteps)
      && (k > 0 ==> Continues(requests[k - 1], requests[k]))
      && (WellFormed(requests[k].messages) <==> Obeyed(k))
    }

    predicate RequestsOk(context: ExecutionContext, requests: seq<Request>) {
      forall k :: 0 <= k < |requests| ==> RequestOk(context, requests, k)
    }

    /** A reply and what the step appended after it. */
    lemma StepClosesHistory(messages: seq<Message>, reply: Reply, tail: seq<Message>, n: nat)
      requires WellFormed(messages) <==> Obeyed(n)
      requires chat(n + 1) == Replied(reply)
      requires
        if reply.calls != [] && (reply.stop.ToolUse? || reply.stop.MaxTokens?)
        then |tail| == 1 && tail[0].Results? && BlockIds(tail[0].blocks) == CallIds(reply.calls)
        else |tail| == 0 || (|tail| == 1 && tail[0].StageReminder?)
      ensures WellFormed(messages + [Asked(reply)] + tail) <==> Obeyed(n + 1)
    {
      RoundWellFormed(messages, Asked(reply), tail);
      assert Obeyed(n + 1) <==> Obeyed(n) && Obeys(chat(n + 1));
    }

    lemma RequestsGrow(context: ExecutionContext, requests: seq<Request>, r: Request)
      requires RequestsOk(context, requests) && r.step == |requests| + 1
      requires Fits(context, r) && OnStage(r, context.maxSteps)
      requires requests != [] ==> Continues(requests[|requests| - 1], r)
      requires WellFormed(r.messages) <==> Obeyed(|requests|)
      ensures RequestsOk(context, requests + [r])
    {
      var more := requests + [r];
      forall k | 0 <= k < |more|
        ensures RequestOk(context, more, k)
      {
        if k < |requests| {
          assert RequestOk(context, requests, k);
        }
      }
    }

    /** The head of a step: finalization begins with the last steps or when the request outgrows the soft limit. */
    method BeginStep(context: ExecutionContext, before: Stage, ghost log: seq<Handled>) returns (stage: Stage)
      requires context.status.Running? && StageOk(before, log)
      modifies context`step, context`initialInput, context`peakInput, context`status
      ensures context.step == old(context.step) + 1 && StageOk(stage, log)
      ensures stage == Begun(context, context.step, context.messages, before)
      ensures context.status ==
        if context.size(context.messages, StageTool(stage)) > context.maxInputBytes then Failed(ContextBudget)
        else Running
      ensures context.status.Running? ==>
        Fits(context, Request(context.step, context.messages, StageTool(stage), stage.active))
      ensures context.peakInput >= context.size(context.messages, StageTool(stage)) && Accounted(context)
      ensures old(context.initialInput) == 0 ==>
        context.initialInput == context.size(context.messages, StageTool(stage))
    {
      assert StageTool(before) == before.required;
      stage := before;
      if !stage.active && sequence != [] && lastSteps > 0 && context.maxSteps - context.step <= lastSteps {
        stage := Stage(true, FirstStage());
      }
      context.step := context.step + 1;
      var soft := SoftLimit(context);
      if !stage.active && soft.Some? && context.size(context.messages, StageTool(stage)) > soft.value {
        stage := Stage(true, FirstStage());
      }
      var inputSize := context.size(context.messages, StageTool(stage));
      context.ObserveInputSize(inputSize);
      if inputSize > context.maxInputBytes {
        context.status := Failed(ContextBudget);
      }
    }

    /**
     The tail of a step that has not ended the run: a reminder, an end, or another round. The
     source's last branch sets the required tool to the one it already is, so nothing is left of it.
     */
    method EndStep(context: ExecutionContext, reply: Reply, offered: Option<string>, succeeded: bool)
      requires context.status.Running?
      modifies context`status, context`messages, context`result
      ensures context.status ==
        if reply.stop.EndTurn? && offered.None? then Success
        else if context.step < context.maxSteps then Running
        else if offered.Some? && (reply.stop.EndTurn? || !succeeded) then Failed(StageToolMissing)
        else Failed(StepsExceeded)
      ensures context.status.Success? ==> context.result == reply.text
      ensures Accounted(context)
      ensures context.messages == old(context.messages) +
        if reply.stop.EndTurn? && offered.Some? && context.status.Running? then [StageReminder(offered.value)] else []
    {
      if reply.stop.EndTurn? && offered.Some? {
        if context.step < context.maxSteps {
          MessageJoins(context.messages, StageReminder(offered.value));
          context.messages := context.messages + [StageReminder(offered.value)];
        } else {
          context.status := Failed(StageToolMissing);
        }
      } else if reply.stop.EndTurn? {
        context.result, context.status := reply.text, Success;
      } else if context.step >= context.maxSteps {
        context.status := Failed(if offered.Some? && !succeeded then StageToolMissing else StepsExceeded);
      }
    }

    // ----- what the log of a run holds -----

    /** Where a call was made: the step, its place in the reply, and the call itself. */
    function Position(h: Handled): (nat, nat, ToolCall) {
      (h.step, h.index, h.call)
    }

    function Positions(log: seq<Handled>): seq<(nat, nat, ToolCall)> {
      seq(|log|, i requires 0 <= i < |log| => Position(log[i]))
    }

    function PositionsIn(step: nat, calls: seq<ToolCall>): seq<(nat, nat, ToolCall)> {
      seq(|calls|, i requires 0 <= i < |calls| => (step, i, calls[i]))
    }

    /** The calls of the first `n` replies that end with tool calls, in order. */
    function Announced(n: nat): seq<(nat, nat, ToolCall)> {
      if n == 0 then [] else Announced(n - 1) + PositionsIn(n, CallsOf(n))
    }

    /** The first call of a step met the stage that its request was sent in. */
    predicate StagesMet(log: seq<Handled>, requests: seq<Request>) {
      forall k :: 0 <= k < |log| ==>
        && 1 <= log[k].step <= |requests|
        && (log[k].index == 0 ==>
              && StageTool(log[k].stage) == requests[log[k].step - 1].schemas
              && log[k].stage.active == requests[log[k].step - 1].finalizing)
    }

    /**
     The log of a run holds the announced calls in order: all those of earlier steps, and all of the
     last one unless a call stopped the run or the next one was cancelled.
     */
    predicate LogsRun(log: seq<Handled>, requests: seq<Request>, raised: bool) {
      var announced := Announced(|requests|);
      && StagesMet(log, requests) && GoesOn(log, 0)
      && Positions(log) <= announced && (requests != [] ==> Announced(|requests| - 1) <= Positions(log))
      && (|log| == |announced| || Stopped(log)
          || (raised && |log| < |announced| && tool(announced[|log|].0, announced[|log|].1).ToolCancelled?))
    }

    lemma NoReplyNoCalls(step: nat)
      requires !chat(step).Replied?
      ensures CallsOf(step) == []
    {
    }

    lemma NoCallsLogged(done: seq<Handled>, step: nat, start: Stage, raised: bool)
      requires CallsOf(step) == []
      ensures LogsStep(done, |done|, step, start, raised)
    {
    }

    /** The log of one more step. */
    lemma StepPositions(done: seq<Handled>, log: seq<Handled>, step: nat, start: Stage, raised: bool)
      requires done <= log && LogsStep(log, |done|, step, start, raised)
      ensures Positions(log) == Positions(done) + PositionsIn(step, CallsOf(step))[..|log| - |done|]
    {
      var calls := CallsOf(step);
      forall k | |done| <= k < |log|
        ensures Position(log[k]) == (step, k - |done|, calls[k - |done|])
      {
        assert log[k].call == calls[..|log| - |done|][k - |done|];
      }
    }

    lemma StepLogged(asked: seq<Request>, done: seq<Handled>, r: Request, log: seq<Handled>, start: Stage, raised: bool)
      requires LogsRun(done, asked, false) && Positions(done) == Announced(|asked|) && !Stopped(done)
      requires r.step == |asked| + 1 && r.schemas == StageTool(start) && r.finalizing == start.active
      requires done <= log && LogsStep(log, |done|, r.step, start, raised)
      ensures LogsRun(log, asked + [r], raised)
      ensures |log| == |done| + |CallsOf(r.step)| ==> Positions(log) == Announced(|asked| + 1)
      ensures Stopped(log) ==> |log| > |done|
    {
      hide CallsOf, Announced, StagesMet, GoesOn, Positions, PositionsIn, LogsStep, Stopped;
      var step := r.step;
      assert |asked + [r]| == step;
      AnnouncedStep(step);
      StepPositions(done, log, step, start, raised);
      StepStages(asked, done, r, log, start, raised);
      NextCall(done, log, step, start, raised);
      assert |log| == |done| ==> log == done;
    }

    /** The log goes on as announced, and lacks calls only after a stop or a cancellation. */
    lemma NextCall(done: seq<Handled>, log: seq<Handled>, step: nat, start: Stage, raised: bool)
      requires done <= log && LogsStep(log, |done|, step, start, raised)
      requires Positions(log) == Positions(done) + PositionsIn(step, CallsOf(step))[..|log| - |done|]
      ensures
        var announced := Positions(done) + PositionsIn(step, CallsOf(step));
        && Positions(done) <= Positions(log) <= announced && |announced| == |done| + |CallsOf(step)|
        && (|log| == |announced| || Stopped(log)
            || (raised && |log| < |announced| && tool(announced[|log|].0, announced[|log|].1).ToolCancelled?))
        && (|log| == |announced| ==> Positions(log) == announced)
    {
      hide CallsOf, LogsCalls, GoesOn, Stopped;
    }

    lemma AnnouncedStep(n: nat)
      requires n > 0
      ensures Announced(n) == Announced(n - 1) + PositionsIn(n, CallsOf(n))
    {
    }

    lemma StepStages(asked: seq<Request>, done: seq<Handled>, r: Request, log: seq<Handled>, start: Stage, raised: bool)
      requires StagesMet(done, asked) && GoesOn(done, 0) && !Stopped(done)
      requires r.step == |asked| + 1 && r.schemas == StageTool(start) && r.finalizing == start.active
      requires done <= log && LogsStep(log, |done|, r.step, start, raised)
      ensures StagesMet(log, asked + [r]) && GoesOn(log, 0)
    {
      hide CallsOf;
      forall k | 0 <= k < |log| - 1
        ensures !Stops(log[k])
      {
        if k < |done| {
          assert done[k] == log[k];
        }
      }
    }

    /** How a run may end well: a tool that stops it, or the model itself when no stage is pending. */
    predicate EndedWell(requests: seq<Request>, log: seq<Handled>) {
      || Stopped(log)
      || (requests != [] && chat(requests[|requests| - 1].step).Replied? && requests[|requests| - 1].schemas.None?)
    }

    /** The result of a run that has ended well: what the stopping tool returned, or the model's last words. */
    predicate ResultIs(result: string, requests: seq<Request>, log: seq<Handled>) {
      if Stopped(log) then result == Text(log[|log| - 1])
      else
        && requests != [] && chat(requests[|requests| - 1].step).Replied?
        && result == chat(requests[|requests| - 1].step).reply.text
    }

    /** The peak covers every request and every reply. */
    predicate PeakCovers(context: ExecutionContext, requests: seq<Request>, peak: nat) {
      forall k :: 0 <= k < |requests| ==>
        && context.size(requests[k].messages, requests[k].schemas) <= peak
        && (chat(requests[k].step).Replied? ==> context.size(Exchange(requests[k]), requests[k].schemas) <= peak)
    }

    lemma PeakGrows(context: ExecutionContext, asked: seq<Request>, r: Request, before: nat, peak: nat)
      requires PeakCovers(context, asked, before) && before <= peak && context.size(r.messages, r.schemas) <= peak
      requires chat(r.step).Replied? ==> context.size(Exchange(r), r.schemas) <= peak
      ensures PeakCovers(context, asked + [r], peak)
    {
    }

    /** The recorded first size is that of the first request, which is never empty. */
    predicate FirstSize(context: ExecutionContext, requests: seq<Request>, initial: nat) {
      requests != [] && context.size(requests[0].messages, requests[0].schemas) > 0 ==>
        initial == context.size(requests[0].messages, requests[0].schemas)
    }

    lemma FirstSizeStays(context: ExecutionContext, asked: seq<Request>, requests: seq<Request>, initial: nat, now: nat)
      requires asked != [] && requests != [] && requests[0] == asked[0] && (initial != 0 ==> now == initial)
      ensures FirstSize(context, asked, initial) ==> FirstSize(context, requests, now)
    {
    }

    lemma PeakRises(context: ExecutionContext, asked: seq<Request>, before: nat, peak: nat)
      requires PeakCovers(context, asked, before) && before <= peak
      ensures PeakCovers(context, asked, peak)
    {
    }

    predicate TooLarge(context: ExecutionContext, schemas: Schemas)
      reads context
    {
      context.size(context.messages, schemas) > context.maxInputBytes
    }

    /** Where the calls of the last request begin in the log. */
    function LastFrom(requests: seq<Request>): nat
      requires requests != []
    {
      |Announced(|requests| - 1)|
    }

    /** The steps are used up, and this is whether a tool is still asked for. */
    predicate Unfinished(requests: seq<Request>, log: seq<Handled>, missing: bool) {
      && requests != [] && chat(requests[|requests| - 1].step).Replied? && LastFrom(requests) <= |log|
      && (missing <==> Missing(requests[|requests| - 1], log, LastFrom(requests)))
    }

    /** Why a run may fail: its request does not fit, the model fails or is cancelled, or the steps are used up. */
    ghost predicate FailsRightly(context: ExecutionContext, requests: seq<Request>, log: seq<Handled>)
      reads context
    {
      match context.status
      case Failed(ContextBudget) => exists schemas :: TooLarge(context, schemas)
      case Failed(LlmError) => requests != [] && chat(requests[|requests| - 1].step).ChatFailed?
      case Failed(CancelledRun) => requests != [] && chat(requests[|requests| - 1].step).ChatCancelled?
      case Failed(StageToolMissing) => context.step >= context.maxSteps && Unfinished(requests, log, true)
      case Failed(StepsExceeded) => context.step >= context.maxSteps && Unfinished(requests, log, false)
      case _ => true
    }

    /**
     Every request after the first is the one that the previous reply and its handled calls determine, and
     the first is sent in the stage that a run begins in.
     */
    predicate TurnsOk(context: ExecutionContext, requests: seq<Request>, log: seq<Handled>) {
      && (requests != [] ==> StageOf(requests[0]) == Begun(context, 1, requests[0].messages, Stage(false, None)))
      && forall k :: 0 < k < |requests| ==> TurnOk(context, requests, log, k)
    }

    predicate TurnOk(context: ExecutionContext, requests: seq<Request>, log: seq<Handled>, k: nat)
      requires 0 < k < |requests|
    {
      && |Announced(k - 1)| <= |Announced(k)| <= |log| && chat(requests[k - 1].step).Replied?
      && Turns(context, requests[k - 1], log[..|Announced(k)|], |Announced(k - 1)|, requests[k])
    }

    lemma TurnsGrow(context: ExecutionContext, asked: seq<Request>, done: seq<Handled>, r: Request)
      requires TurnsOk(context, asked, done) && |done| == |Announced(|asked|)|
      requires asked == [] ==> StageOf(r) == Begun(context, 1, r.messages, Stage(false, None))
      requires asked != [] ==>
        && LastFrom(asked) <= |done| && chat(asked[|asked| - 1].step).Replied?
        && Turns(context, asked[|asked| - 1], done, LastFrom(asked), r)
      ensures TurnsOk(context, asked + [r], done)
    {
      hide Turns, Announced, Begun;
      var requests := asked + [r];
      assert done[..|done|] == done;
      forall k | 0 < k < |requests|
        ensures TurnOk(context, requests, done, k)
      {
        if k < |asked| {
          assert TurnOk(context, asked, done, k);
        }
      }
    }

    lemma TurnsLast(context: ExecutionContext, requests: seq<Request>, done: seq<Handled>, log: seq<Handled>)
      requires TurnsOk(context, requests, done) && done <= log
      ensures TurnsOk(context, requests, log)
    {
      hide Turns, Announced, Begun;
      forall k | 0 < k < |requests|
        ensures TurnOk(context, requests, log, k)
      {
        assert TurnOk(context, requests, done, k);
        assert log[..|Announced(k)|] == done[..|Announced(k)|];
      }
    }

    /** The results that a reply's calls have led to, if any. */
    lemma ToolsAnswered(context: ExecutionContext, schemas: Schemas, messages: seq<Message>, base: seq<Message>,
                        log: seq<Handled>, n: nat, step: nat, calls: seq<ToolCall>)
      requires LogsCalls(log, n, step, calls) && RecordedFrom(context, schemas, messages, base, log, n)
      ensures base <= messages && |messages| == |base| + if calls == [] then 0 else 1
      ensures calls != [] ==> messages[|base|].Results? && BlockIds(messages[|base|].blocks) == CallIds(calls)
    {
      var offers := OffersFrom(context, log, n);
      RecordedAnswers(RoomOf(context, schemas), messages, base, offers);
      forall j | 0 <= j < |calls|
        ensures offers[j].block.toolUseId == calls[j].id
      {
        assert log[n + j].call == calls[j] && offers[j] == OfferOf(context, calls[j], Offered(log[n + j]));
      }
    }

    lemma TruncatedAnswered(context: ExecutionContext, schemas: Schemas, messages: seq<Message>, base: seq<Message>,
                            calls: seq<ToolCall>)
      requires Recorded(RoomOf(context, schemas), messages, base, Truncations(context, calls))
      ensures base <= messages && |messages| == |base| + if calls == [] then 0 else 1
      ensures calls != [] ==> messages[|base|].Results? && BlockIds(messages[|base|].blocks) == CallIds(calls)
    {
      var offers := Truncations(context, calls);
      RecordedAnswers(RoomOf(context, schemas), messages, base, offers);
      assert forall j :: 0 <= j < |calls| ==> offers[j].block.toolUseId == calls[j].id;
    }

    /** What the handled calls of a step come to. */
    lemma HandledGives(context: ExecutionContext, r: Request, messages: seq<Message>, log: seq<Handled>, n: nat,
                       stage: Stage, raised: bool)
      requires chat(r.step).Replied? && chat(r.step).reply.stop.ToolUse? && StageTool(StageOf(r)) == r.schemas
      requires HandledAll(context, r.schemas, Exchange(r), messages, log, n, r.step, chat(r.step).reply.calls,
                          StageOf(r), stage, raised)
      ensures n <= |log| && LogOk(log, context.maxSteps) && StageOk(stage, log) && (r.finalizing ==> stage.active)
      ensures LogsStep(log, n, r.step, StageOf(r), raised)
      ensures Heard(context, r, log, n, messages) && stage == StageAtEnd(context, r, log, n, messages)
      ensures Pending(r, log, n) == StageTool(stage)
      ensures LogsCalls(log, n, r.step, chat(r.step).reply.calls) ==>
        |log| == n + |CallsOf(r.step)| && Closing(r, messages)
    {
      hide Exchange, LogsStep, LogOk, StageOk, RecordedFrom, LogsCalls;
      if LogsCalls(log, n, r.step, chat(r.step).reply.calls) {
        ToolsAnswered(context, r.schemas, messages, Exchange(r), log, n, r.step, chat(r.step).reply.calls);
        CallsCounted(log, n, r.step, chat(r.step).reply.calls);
      }
    }

    lemma CallsCounted(log: seq<Handled>, n: nat, step: nat, calls: seq<ToolCall>)
      requires LogsCalls(log, n, step, calls)
      ensures |log| == n + |calls|
    {
    }

    /** The messages after a request go on with its reply and what closes the reply's calls. */
    predicate Closing(r: Request, messages: seq<Message>)
      requires chat(r.step).Replied?
    {
      var reply := chat(r.step).reply;
      && Exchange(r) <= messages
      && var tail := messages[|Exchange(r)|..];
         if reply.calls != [] && (reply.stop.ToolUse? || reply.stop.MaxTokens?)
         then |tail| == 1 && tail[0].Results? && BlockIds(tail[0].blocks) == CallIds(reply.calls)
         else |tail| == 0 || (|tail| == 1 && tail[0].StageReminder?)
    }

    /** A reply without handled calls: its calls are answered as truncated, or it has none to answer. */
    lemma OtherGives(context: ExecutionContext, r: Request, messages: seq<Message>, log: seq<Handled>, stage: Stage)
      requires chat(r.step).Replied? && !chat(r.step).reply.stop.ToolUse?
      requires
        var reply, room := chat(r.step).reply, RoomOf(context, r.schemas);
        var offers := Truncations(context, reply.calls);
        if reply.stop.MaxTokens? && reply.calls != []
        then
          && Recorded(room, messages, Exchange(r), offers)
          && stage == if AnyReserved(room, messages, Exchange(r), offers) then Stage(true, FirstStage()) else StageOf(r)
        else messages == Exchange(r) && stage == StageOf(r)
      ensures CallsOf(r.step) == [] && LogsStep(log, |log|, r.step, StageOf(r), false)
      ensures !chat(r.step).reply.stop.EndTurn? ==>
        Heard(context, r, log, |log|, messages) && stage == StageAtEnd(context, r, log, |log|, messages)
      ensures (r.finalizing ==> stage.active) && Pending(r, log, |log|) == r.schemas && Closing(r, messages)
    {
      hide Exchange, Recorded, AnyReserved, LogsStep;
      var reply := chat(r.step).reply;
      NoCallsLogged(log, r.step, StageOf(r), false);
      if reply.stop.MaxTokens? {
        NoneTruncated(context, r.schemas, Exchange(r), reply.calls);
        TruncatedAnswered(context, r.schemas, messages, Exchange(r), reply.calls);
      }
      assert Exchange(r) + [] == Exchange(r);
    }

    lemma NoneTruncated(context: ExecutionContext, schemas: Schemas, base: seq<Message>, calls: seq<ToolCall>)
      ensures calls == [] ==>
        var room, offers := RoomOf(context, schemas), Truncations(context, calls);
        Recorded(room, base, base, offers) && !AnyReserved(room, base, base, offers)
    {
    }

    lemma RequestIs(r: Request, start: Stage, log: seq<Handled>, reply: Reply)
      requires StageOk(start, log) && r.schemas == StageTool(start) && r.finalizing == start.active
      requires chat(r.step) == Replied(reply)
      ensures StageOf(r) == start && Exchange(r) == r.messages + [Asked(reply)] && StageTool(StageOf(r)) == r.schemas
    {
    }

    /** The reminder that ends a step without tool calls is part of what the next request shows. */
    lemma ReminderHeard(context: ExecutionContext, r: Request, log: seq<Handled>, next: seq<Message>)
      requires chat(r.step).Replied? && chat(r.step).reply.stop.EndTurn?
      requires next == Exchange(r) + if r.schemas.Some? then [StageReminder(r.schemas.value)] else []
      ensures Heard(context, r, log, |log|, next) && StageAtEnd(context, r, log, |log|, next) == StageOf(r)
      ensures Closing(r, next)
    {
    }

    lemma ClosedHistory(r: Request, reply: Reply, next: seq<Message>)
      requires r.step > 0 && chat(r.step) == Replied(reply) && Closing(r, next)
      requires WellFormed(r.messages) <==> Obeyed(r.step - 1)
      ensures r.messages + [Asked(reply)] <= next && (WellFormed(next) <==> Obeyed(r.step))
    {
      hide WellFormed, Obeyed;
      var tail := next[|Exchange(r)|..];
      assert next == r.messages + [Asked(reply)] + tail;
      StepClosesHistory(r.messages, reply, tail, r.step - 1);
    }

    /** The calls of a reply: handled by their tools, or answered as truncated. */
    method HandleReply(context: ExecutionContext, reply: Reply, start: Stage, done: seq<Handled>,
                       ghost history: seq<Message>)
      returns (stage: Stage, offered: Option<string>, succeeded: bool, log: seq<Handled>, raised: bool)
      requires context.status.Running? && context.step > 0 && chat(context.step) == Replied(reply)
      requires context.messages == history + [Asked(reply)]
      requires StageOk(start, done) && LogOk(done, context.maxSteps)
      requires Late(context.step, context.maxSteps) ==> start.active
      modifies context
      ensures context.step == old(context.step) && Accounted(context)
      ensures done <= log && LogOk(log, context.maxSteps) && StageOk(stage, log) && (start.active ==> stage.active)
      ensures LogsStep(log, |done|, context.step, start, raised)
      ensures context.status == if |log| > |done| && Stopped(log) then Success else Running
      ensures context.status.Success? ==> context.result == Text(log[|log| - 1])
      ensures raised ==> context.status.Running?
      ensures
        var r := Request(context.step, history, StageTool(start), start.active);
        && (if reply.stop.EndTurn?
            then
              && log == done && context.messages == Exchange(r) && stage == StageOf(r)
              && offered == r.schemas && !succeeded
            else
              && Heard(context, r, log, |done|, context.messages)
              && stage == StageAtEnd(context, r, log, |done|, context.messages))
        && (offered.Some? && !succeeded <==> Missing(r, log, |done|)) && offered == Pending(r, log, |done|)
        && (context.status.Running? && !raised ==>
              |log| == |done| + |CallsOf(context.step)| && Closing(r, context.messages))
    {
      stage, log, raised := start, done, false;
      offered, succeeded := StageTool(start), false;
      ghost var r := Request(context.step, history, StageTool(start), start.active);
      hide LogOk, StageOk, Late, Recorded, LogsCalls, LogsStep, Stopped, Exhausted, HandledAll, Fulfilled, AnyReserved,
           StageOf, Exchange, Heard, StageAtEnd, CallsOf, Closing, Pending;
      RequestIs(r, start, done, reply);
      if reply.stop.ToolUse? {
        stage, succeeded, log, raised := HandleToolCalls(context, reply.calls, start, StageTool(start), done);
        offered := StageTool(stage);
        HandledGives(context, r, context.messages, log, |done|, stage, raised);
      } else {
        if reply.stop.MaxTokens? && reply.calls != [] {
          stage := HandleTruncatedCalls(context, reply.calls, start, StageTool(start), done);
        }
        OtherGives(context, r, context.messages, done, stage);
      }
    }

    /** What a reply leads to: its calls are handled, and the step ends. */
    method React(context: ExecutionContext, reply: Reply, start: Stage, done: seq<Handled>, ghost history: seq<Message>)
      returns (stage: Stage, log: seq<Handled>, raised: bool)
      requires context.status.Running? && context.step > 0 && chat(context.step) == Replied(reply)
      requires context.messages == history + [Asked(reply)] && (WellFormed(history) <==> Obeyed(context.step - 1))
      requires StageOk(start, done) && LogOk(done, context.maxSteps)
      requires Late(context.step, context.maxSteps) ==> start.active
      modifies context
      ensures context.step == old(context.step) && Accounted(context)
      ensures done <= log && LogOk(log, context.maxSteps) && (start.active ==> stage.active)
      ensures LogsStep(log, |done|, context.step, start, raised)
      ensures |log| > |done| && Stopped(log) ==> context.status.Success?
      ensures context.status.Success? ==> (|log| > |done| && Stopped(log)) || StageTool(start).None?
      ensures context.status.Success? ==>
        context.result == if |log| > |done| && Stopped(log) then Text(log[|log| - 1]) else reply.text
      ensures raised ==> context.status.Running?
      ensures
        var r := Request(context.step, history, StageTool(start), start.active);
        && (!raised && context.status.Running? ==>
              && context.step < context.maxSteps && StageOk(stage, log)
              && |log| == |done| + |CallsOf(context.step)|
              && old(context.messages) <= context.messages
              && (WellFormed(context.messages) <==> Obeyed(context.step))
              && Heard(context, r, log, |done|, context.messages)
              && stage == StageAtEnd(context, r, log, |done|, context.messages))
        && (context.status.Failed? ==>
              && context.step >= context.maxSteps
              && context.status.reason == if Missing(r, log, |done|) then StageToolMissing else StepsExceeded)
    {
      ghost var r := Request(context.step, history, StageTool(start), start.active);
      hide LogOk, StageOk, Late, WellFormed, Obeyed, LogsStep, Stopped, Exhausted, Fulfilled, StageOf, Exchange, Heard,
           StageAtEnd, CallsOf, Closing, Missing, Pending;
      RequestIs(r, start, done, reply);
      var offered, succeeded;
      stage, offered, succeeded, log, raised := HandleReply(context, reply, start, done, history);
      if !raised && context.status.Running? {
        ghost var middle := context.messages;
        EndStep(context, reply, offered, succeeded);
        if context.status.Running? {
          if reply.stop.EndTurn? {
            assert offered == r.schemas;
            ReminderHeard(context, r, log, context.messages);
          } else {
            assert context.messages == middle + [] == middle;
          }
          ClosedHistory(r, reply, context.messages);
        }
      }
    }

    /** What the loop holds after a request: its history and reply, and a stage that never goes inactive. */
    predicate Follows(context: ExecutionContext, requests: seq<Request>, log: seq<Handled>, messages: seq<Message>,
                      stage: Stage)
      requires requests != []
    {
      var r := requests[|requests| - 1];
      && (r.finalizing ==> stage.active) && chat(r.step).Replied? && Exchange(r) <= messages
      && LastFrom(requests) <= |log| && Heard(context, r, log, LastFrom(requests), messages)
      && stage == StageAtEnd(context, r, log, LastFrom(requests), messages)
    }

    /** The next request is the one that the previous reply and its handled calls determine. */
    lemma StepTurns(context: ExecutionContext, asked: seq<Request>, done: seq<Handled>, before: Stage, r: Request,
                    stage: Stage)
      requires TurnsOk(context, asked, done) && Positions(done) == Announced(|asked|) && StageOk(stage, done)
      requires if asked == [] then before == Stage(false, None) else Follows(context, asked, done, r.messages, before)
      requires r.step == |asked| + 1 && r.schemas == StageTool(stage) && r.finalizing == stage.active
      requires stage == Begun(context, r.step, r.messages, before)
      ensures TurnsOk(context, asked + [r], done) && OnStage(r, context.maxSteps)
      ensures Late(r.step, context.maxSteps) ==> stage.active
      ensures asked != [] ==> Continues(asked[|asked| - 1], r)
    {
      assert StageOf(r) == stage && |Positions(done)| == |done|;
      assert OnStage(r, context.maxSteps);
      hide TurnsOk, Announced, Heard, StageAtEnd, StageOk;
      TurnsGrow(context, asked, done, r);
    }

    /** The request just sent, as the last one. */
    lemma LastRequest(asked: seq<Request>, done: seq<Handled>, r: Request, reply: Reply)
      requires Positions(done) == Announced(|asked|) && chat(r.step) == Replied(reply)
      ensures LastFrom(asked + [r]) == |done| && Exchange(r) == r.messages + [Asked(reply)]
    {
      assert |Positions(done)| == |done|;
    }

    /** One step: a request, its reply, and what the reply leads to. */
    method Step(context: ExecutionContext, before: Stage, asked: seq<Request>, done: seq<Handled>)
      returns (stage: Stage, requests: seq<Request>, log: seq<Handled>, raised: bool)
      requires context.status.Running? && context.step == |asked|
      requires StageOk(before, done) && LogOk(done, context.maxSteps) && RequestsOk(context, asked)
      requires TurnsOk(context, asked, done) && PeakCovers(context, asked, context.peakInput)
      requires if asked == [] then before == Stage(false, None)
               else Follows(context, asked, done, context.messages, before)
      requires WellFormed(context.messages) <==> Obeyed(context.step)
      requires LogsRun(done, asked, false) && Positions(done) == Announced(|asked|) && !Stopped(done)
      modifies context
      ensures context.step == old(context.step) + 1 && |requests| <= context.step
      ensures
        || requests == asked
        || (|requests| == |asked| + 1 && requests[..|asked|] == asked
            && requests[|asked|].messages == old(context.messages))
      ensures Accounted(context) && PeakCovers(context, requests, context.peakInput)
      ensures asked == [] && old(context.initialInput) == 0 ==> FirstSize(context, requests, context.initialInput)
      ensures LogOk(log, context.maxSteps) && RequestsOk(context, requests) && TurnsOk(context, requests, log)
      ensures !raised && context.status.Running? ==> context.step < context.maxSteps && |requests| == context.step
      ensures !raised && context.status.Running? ==>
        StageOk(stage, log) && Follows(context, requests, log, context.messages, stage)
      ensures !raised && context.status.Running? ==> (WellFormed(context.messages) <==> Obeyed(context.step))
      ensures LogsRun(log, requests, raised)
      ensures !raised && context.status.Running? ==> Positions(log) == Announced(|requests|)
      ensures Stopped(log) ==> context.status.Success?
      ensures context.status.Success? ==> EndedWell(requests, log) && ResultIs(context.result, requests, log)
      ensures FailsRightly(context, requests, log)
      ensures raised ==> context.status.Running? || context.status == Failed(CancelledRun)
    {
      hide LogsRun, LogsStep, CallsOf, Announced, Positions, Stopped, LogOk, WellFormed, Obeyed, RequestsOk, TurnsOk,
           Exhausted, Heard, StageAtEnd, Missing, Begun, Exchange, LastFrom, PeakCovers;
      requests, log, raised := asked, done, false;
      ghost var peak := context.peakInput;
      stage := BeginStep(context, before, done);
      if !context.status.Running? {
        assert TooLarge(context, StageTool(stage));
        PeakRises(context, asked, peak, context.peakInput);
        return;
      }
      var request := Request(context.step, context.messages, StageTool(stage), stage.active);
      requests := asked + [request];
      StepTurns(context, asked, done, before, request, stage);
      RequestsGrow(context, asked, request);
      ghost var start := stage;
      hide Fits, OnStage, Late, StageOk;
      var outcome := chat(context.step);
      if !outcome.Replied? {
        NoReplyNoCalls(context.step);
        NoCallsLogged(done, context.step, start, outcome.ChatCancelled?);
        StepLogged(asked, done, request, done, start, outcome.ChatCancelled?);
        context.status := Failed(if outcome.ChatFailed? then LlmError else CancelledRun);
        raised := outcome.ChatCancelled?;
        PeakGrows(context, asked, request, peak, context.peakInput);
        return;
      }
      ghost var history := context.messages;
      MessageJoins(context.messages, Asked(outcome.reply));
      context.messages :=
        context.messages + [Assistant(outcome.reply.thinking, outcome.reply.text, outcome.reply.calls)];
      context.ObserveInputSize(context.size(context.messages, StageTool(stage)));
      LastRequest(asked, done, request, outcome.reply);
      stage, log, raised := React(context, outcome.reply, stage, done, history);
      PeakGrows(context, asked, request, peak, context.peakInput);
      StepLogged(asked, done, request, log, start, raised);
      TurnsLast(context, requests, done, log);
    }

    /**
     The loop until the run is over: a bounded number of requests, each of which fits its
     limits and keeps the history well formed exactly as long as the model announces its calls.
     */
    method Run(context: ExecutionContext) returns (requests: seq<Request>, log: seq<Handled>, raised: bool)
      requires context.status.Running? && context.step == 0 && exists goal :: context.messages == [User(goal)]
      modifies context
      ensures raised || context.Done()
      ensures |requests| <= context.step <= if context.maxSteps > 1 then context.maxSteps else 1
      ensures requests != [] ==> requests[0].messages == old(context.messages)
      ensures RequestsOk(context, requests) && LogOk(log, context.maxSteps) && LogsRun(log, requests, raised)
      ensures TurnsOk(context, requests, log) && PeakCovers(context, requests, context.peakInput)
      ensures old(context.initialInput) == 0 ==> FirstSize(context, requests, context.initialInput)
      ensures context.budgetExhausted <==> old(context.budgetExhausted) || Exhausted(context.messages)
      ensures Stopped(log) ==> context.status.Success?
      ensures context.status.Success? ==> EndedWell(requests, log) && ResultIs(context.result, requests, log)
      ensures FailsRightly(context, requests, log)
      ensures raised ==> context.status.Running? || context.status == Failed(CancelledRun)
    {
      var stage := Stage(false, None);
      requests, log, raised := [], [], false;
      assert RequestsOk(context, requests) && LogOk(log, context.maxSteps);
      assert WellFormed(context.messages) && Obeyed(0);
      assert FailsRightly(context, requests, log);
      assert LogsRun(log, requests, false) && Positions(log) == Announced(0);
      assert !Exhausted(context.messages) && TurnsOk(context, requests, log);
      assert PeakCovers(context, requests, context.peakInput) && FirstSize(context, requests, context.initialInput);
      hide Exhausted, TurnsOk, PeakCovers, FirstSize, RequestsOk, LogOk, EndedWell, Follows, FailsRightly, LogsRun,
           Announced, Positions;
      while !context.Done() && !raised
        invariant RequestsOk(context, requests) && LogOk(log, context.maxSteps) && TurnsOk(context, requests, log)
        invariant Accounted(context) && PeakCovers(context, requests, context.peakInput)
        invariant context.step == 0 ==> context.initialInput == old(context.initialInput)
        invariant old(context.initialInput) == 0 ==> FirstSize(context, requests, context.initialInput)
        invariant |requests| <= context.step <= if context.maxSteps > 1 then context.maxSteps else 1
        invariant if requests == [] then context.step == 0 ==> context.messages == old(context.messages)
                  else requests[0].messages == old(context.messages)
        invariant !raised && context.status.Running? ==>
          && (context.step == 0 || context.step < context.maxSteps) && |requests| == context.step
          && StageOk(stage, log)
          && (if requests == [] then stage == Stage(false, None)
              else Follows(context, requests, log, context.messages, stage))
          && (WellFormed(context.messages) <==> Obeyed(context.step))
        invariant LogsRun(log, requests, raised) && (Stopped(log) ==> context.status.Success?)
        invariant !raised && context.status.Running? ==> Positions(log) == Announced(|requests|)
        invariant context.status.Success? ==> EndedWell(requests, log) && ResultIs(context.result, requests, log)
        invariant FailsRightly(context, requests, log)
        invariant raised ==> context.status.Running? || context.status == Failed(CancelledRun)
        decreases !raised && context.status.Running?,
          if context.maxSteps > context.step then context.maxSteps - context.step else 0
      {
        ghost var asked, initial := requests, context.initialInput;
        stage, requests, log, raised := Step(context, stage, requests, log);
        if asked != [] {
          FirstSizeStays(context, asked, requests, initial, context.initialInput);
        }
      }
    }
  }

  // ----- the incident profile -----

  const PROPOSE := "propose_patch"

  /** The loop as `profile.py` configures it. */
  predicate IncidentProfile(loop: AgentLoop) {
    loop.sequence == [SUBMIT, PROPOSE] && loop.lastSteps == 3
  }

  /** Within a step finalization never turns off, so that it holds for every call of a finalizing request. */
  lemma {:induction false} FinalizingCalls(loop: AgentLoop, context: ExecutionContext, requests: seq<Request>,
                                           log: seq<Handled>, k: nat)
    requires loop.LogOk(log, context.maxSteps) && loop.StagesMet(log, requests) && k < |log|
    requires requests[log[k].step - 1].finalizing
    ensures log[k].stage.active
  {
    assert loop.HandledOk(log, k, context.maxSteps);
    if log[k].index > 0 {
      FinalizingCalls(loop, context, requests, log, k - 1);
    }
  }

  /**
   In a run of the incident profile the last three requests are finalizing; a finalization that has
   begun, with the request or within the step by a reached reserve or an accepted diagnosis, lasts; and
   every tool that runs in it is the diagnosis or, after an accepted diagnosis, the proposal.
   */
  lemma IncidentStages(loop: AgentLoop, context: ExecutionContext, requests: seq<Request>, log: seq<Handled>,
                       raised: bool, k: nat)
    requires IncidentProfile(loop) && loop.RequestsOk(context, requests) && loop.LogOk(log, context.maxSteps)
    requires loop.LogsRun(log, requests, raised) && k < |log|
    ensures 1 <= log[k].step <= |requests|
    ensures log[k].step > context.maxSteps - 3 ==> requests[log[k].step - 1].finalizing
    ensures requests[log[k].step - 1].finalizing ==> log[k].stage.active
    ensures log[k].index > 0 ==>
      k > 0 && (log[k - 1].stage.active || log[k - 1].reserve || loop.Diagnosed(log[k - 1]) ==> log[k].stage.active)
    ensures log[k].index > 0 ==>
      var h := log[k - 1];
      log[k].stage ==
        if h.passed && h.ok && h.call.name == SUBMIT then Stage(true, Some(PROPOSE))
        else if h.reserve then Stage(true, Some(SUBMIT))
        else h.stage
    ensures log[k].passed && log[k].stage.active ==>
      || log[k].call.name == SUBMIT
      || (log[k].call.name == PROPOSE && exists j :: 0 <= j < k && loop.Diagnosed(log[j]))
  {
    assert loop.Advanced(SUBMIT) == (true, Some(PROPOSE)) by {
      assert IndexOf(loop.sequence, SUBMIT) == Some(0);
    }
    var r := log[k].step - 1;
    assert loop.RequestOk(context, requests, r);
    assert loop.HandledOk(log, k, context.maxSteps);
    if requests[r].finalizing {
      FinalizingCalls(loop, context, requests, log, k);
    }
    if log[k].passed && log[k].stage.active && log[k].call.name != SUBMIT {
      var j :| 0 <= j < |log[..k]| && loop.Diagnosed(log[..k][j]);
      assert loop.Diagnosed(log[j]);
    }
  }

  /** The next request asks for the proposal after an accepted diagnosis, for the diagnosis after a reached reserve. */
  lemma NextStage(loop: AgentLoop, context: ExecutionContext, requests: seq<Request>, log: seq<Handled>, k: nat)
    requires IncidentProfile(loop) && loop.TurnsOk(context, requests, log) && 0 < k < |requests|
    requires loop.CallsOf(k) != [] && requests[k - 1].step == k
    ensures |loop.Announced(k - 1)| < |loop.Announced(k)| <= |log|
    ensures
      var h, next := log[|loop.Announced(k)| - 1], requests[k];
      if h.passed && h.ok && h.call.name == SUBMIT then next.finalizing && next.schemas == Some(PROPOSE)
      else if h.reserve then next.finalizing && next.schemas == Some(SUBMIT)
      else h.stage.active ==> next.finalizing && next.schemas == h.stage.required
  {
    assert loop.TurnOk(context, requests, log, k);
    assert loop.Advanced(SUBMIT) == (true, Some(PROPOSE)) by {
      assert IndexOf(loop.sequence, SUBMIT) == Some(0);
    }
    assert |loop.Announced(k)| == |loop.Announced(k - 1)| + |loop.CallsOf(k)|;
  }

  /**
   The next request shows every result of the tools that ran exactly as they returned it, if and only if
   the requests with these results fit the hard limit and, for read-only tools, the soft one.
   */
  lemma ResultsShown(loop: AgentLoop, context: ExecutionContext, requests: seq<Request>, log: seq<Handled>, k: nat)
    requires loop.TurnsOk(context, requests, log) && 0 < k < |requests|
    requires loop.chat(requests[k - 1].step).Replied? && loop.chat(requests[k - 1].step).reply.stop.ToolUse?
    ensures |loop.Announced(k - 1)| <= |loop.Announced(k)| <= |log|
    ensures
      var r, offers := requests[k - 1], loop.OffersFrom(context, log[..|loop.Announced(k)|], |loop.Announced(k - 1)|);
      var room, base := loop.RoomOf(context, r.schemas), loop.Exchange(r);
      requests[k].messages == History(base, Unchanged(offers)) <==>
        forall j :: 0 <= j < |offers| ==> FitsOffered(room, base, offers, j)
  {
    assert loop.TurnOk(context, requests, log, k);
    var r, done, n := requests[k - 1], log[..|loop.Announced(k)|], |loop.Announced(k - 1)|;
    var offers := loop.OffersFrom(context, done, n);
    forall j | 0 <= j < |offers|
      ensures !Placeholder(offers[j].block)
    {
      assert offers[j] == loop.OfferOf(context, done[n + j].call, loop.Offered(done[n + j]));
    }
    ShownUnchanged(loop.RoomOf(context, r.schemas), requests[k].messages, loop.Exchange(r), offers);
  }

  /** Until finalization every request leaves the reserve free. */
  lemma ReserveIsKept(loop: AgentLoop, context: ExecutionContext, requests: seq<Request>, k: nat)
    requires loop.RequestsOk(context, requests) && k < |requests| && !requests[k].finalizing && loop.sequence != []
    ensures context.size(requests[k].messages, requests[k].schemas) + loop.reserveBytes <= context.maxInputBytes
  {
    assert loop.RequestOk(context, requests, k);
  }

  /** `AgentRunner.run_and_capture`: a cancelled run is recorded as failed before it is raised again. */
  method RunAndCapture(loop: AgentLoop, context: ExecutionContext)
    returns (requests: seq<Request>, log: seq<Handled>, raised: bool)
    requires context.status.Running? && context.step == 0 && exists goal :: context.messages == [User(goal)]
    modifies context
    ensures context.Done() && |requests| <= if context.maxSteps > 1 then context.maxSteps else 1
    ensures loop.RequestsOk(context, requests) && loop.LogOk(log, context.maxSteps)
    ensures loop.LogsRun(log, requests, raised) && loop.TurnsOk(context, requests, log)
    ensures loop.PeakCovers(context, requests, context.peakInput)
    ensures old(context.initialInput) == 0 ==> loop.FirstSize(context, requests, context.initialInput)
    ensures context.budgetExhausted <==> old(context.budgetExhausted) || Exhausted(context.messages)
    ensures context.status.Success? ==>
      loop.EndedWell(requests, log) && loop.ResultIs(context.result, requests, log)
    ensures !raised ==> loop.FailsRightly(context, requests, log)
    ensures raised ==> context.status == Failed(CancelledRun)
  {
    requests, log, raised := loop.Run(context);
    if raised && !context.Done() {
      context.status := Failed(CancelledRun);
    }
  }
}
