/** The bounded message history of one agent run (`agent/context.py`). */
module AgentContext {
  import opened Common

  datatype ToolCall = ToolCall(id: string, name: string, input: string)

  /** What a tool result block carries: a tool's output, or one of the fixed JSON placeholders. */
  datatype Content =
    | Output(text: string)
    | StageError(required: string, received: string)
    | CallTruncated
    | ReserveReached
    | BudgetExhausted

  datatype ResultBlock = ResultBlock(toolUseId: string, content: Content, isError: bool)

  datatype Message =
    | User(text: string)
    | StageReminder(required: string)
    | Assistant(thinking: seq<string>, text: string, calls: seq<ToolCall>)
    | Results(blocks: seq<ResultBlock>)

  /** The tools offered with a request: all of them, or the one of the current stage. */
  type Schemas = Option<string>

  datatype Reason = ContextBudget | LlmError | CancelledRun | StageToolMissing | StepsExceeded
  datatype RunStatus = Running | Success | Failed(reason: Reason)

  // ----- histories -----

  function CallIds(calls: seq<ToolCall>): seq<string> {
    seq(|calls|, i requires 0 <= i < |calls| => calls[i].id)
  }

  function BlockIds(blocks: seq<ResultBlock>): seq<string> {
    seq(|blocks|, i requires 0 <= i < |blocks| => blocks[i].toolUseId)
  }

  /** An assistant message with tool calls, and the results that answer exactly those calls in order. */
  predicate Answers(question: Message, answer: Message) {
    && question.Assistant? && question.calls != [] && answer.Results?
    && BlockIds(answer.blocks) == CallIds(question.calls)
  }

  predicate NeedsAnswer(m: Message) {
    m.Assistant? && m.calls != []
  }

  /** The calls of this message are answered by the next one, and results answer the previous one. */
  predicate FitsAt(messages: seq<Message>, i: nat)
    requires i < |messages|
  {
    && (NeedsAnswer(messages[i]) ==> i + 1 < |messages| && Answers(messages[i], messages[i + 1]))
    && (messages[i].Results? ==> i > 0 && Answers(messages[i - 1], messages[i]))
  }

  /** Every tool call is answered at once, in order, and nothing else carries results. */
  predicate WellFormed(messages: seq<Message>) {
    forall i :: 0 <= i < |messages| ==> FitsAt(messages, i)
  }

  /** What follows a reply before the next request. */
  predicate Closes(question: Message, tail: seq<Message>) {
    if NeedsAnswer(question) then |tail| == 1 && Answers(question, tail[0])
    else |tail| == 0 || (|tail| == 1 && tail[0].StageReminder?)
  }

  /** A reply whose calls went unanswered. */
  predicate LeavesOpen(question: Message, tail: seq<Message>) {
    NeedsAnswer(question) && (|tail| == 0 || (|tail| == 1 && tail[0].StageReminder?))
  }

  /** One more round keeps a history well formed exactly when the round closes its calls. */
  lemma RoundWellFormed(messages: seq<Message>, question: Message, tail: seq<Message>)
    requires question.Assistant? && (Closes(question, tail) || LeavesOpen(question, tail))
    ensures WellFormed(messages + [question] + tail) <==> WellFormed(messages) && Closes(question, tail)
  {
    var all := messages + [question] + tail;
    var n := |messages|;
    assert forall i :: 0 <= i < n ==> all[i] == messages[i];
    assert all[n] == question;
    if WellFormed(all) {
      assert FitsAt(all, n);
      forall i | 0 <= i < n
        ensures FitsAt(messages, i)
      {
        assert FitsAt(all, i);
      }
    }
    if WellFormed(messages) && Closes(question, tail) {
      forall i | 0 <= i < |all|
        ensures FitsAt(all, i)
      {
        assert i < n ==> FitsAt(messages, i);
      }
    }
  }

  // ----- adding a tool result -----

  /** The history with one more block: in the last message when that holds results, else in a new one. */
  function WithResult(messages: seq<Message>, block: ResultBlock): seq<Message> {
    if messages != [] && messages[|messages| - 1].Results? && messages[|messages| - 1].blocks != []
    then messages[|messages| - 1 := Results(messages[|messages| - 1].blocks + [block])]
    else messages + [Results([block])]
  }

  datatype Admission = Admission(block: ResultBlock, reserve: bool, exhausted: bool)

  predicate Placeholder(block: ResultBlock) {
    block.isError && (block.content.ReserveReached? || block.content.BudgetExhausted?)
  }

  /**
   The block that goes in: the result itself only when the request with it fits both limits, a
   fixed placeholder otherwise. A request that then breaks the hard limit carries a placeholder.
   */
  function Admit(size: (seq<Message>, Schemas) -> nat, limit: int, messages: seq<Message>, offered: ResultBlock,
                 schemas: Schemas, soft: Option<int>): (r: Admission)
    ensures r.block.toolUseId == offered.toolUseId
    ensures r.block == offered || Placeholder(r.block)
    ensures !Placeholder(offered) ==>
      (r.block == offered <==>
         && size(WithResult(messages, offered), schemas) <= limit
         && (soft.Some? ==> size(WithResult(messages, offered), schemas) <= soft.value))
    ensures size(WithResult(messages, r.block), schemas) > limit ==> Placeholder(r.block) && r.exhausted
    ensures !offered.content.BudgetExhausted? ==> (r.exhausted <==> r.block.content.BudgetExhausted?)
    ensures r.reserve <==> soft.Some? && size(WithResult(messages, offered), schemas) > soft.value
    ensures !r.reserve && size(WithResult(messages, offered), schemas) <= limit ==> r.block == offered && !r.exhausted
  {
    var reserve := soft.Some? && size(WithResult(messages, offered), schemas) > soft.value;
    var block := if reserve then ResultBlock(offered.toolUseId, ReserveReached, true) else offered;
    if size(WithResult(messages, block), schemas) > limit
    then Admission(ResultBlock(offered.toolUseId, BudgetExhausted, true), reserve, true)
    else Admission(block, reserve, false)
  }

  // ----- the results of one reply -----

  /** What a request is measured by: its serialized size with the offered tools, and the hard limit. */
  datatype Room = Room(size: (seq<Message>, Schemas) -> nat, limit: int, schemas: Schemas) {
    function Size(messages: seq<Message>): nat {
      size(messages, schemas)
    }
  }

  /** A result on its way into the history, and the soft limit it must fit besides the hard one. */
  datatype Offer = Offer(block: ResultBlock, soft: Option<int>)

  function History(base: seq<Message>, blocks: seq<ResultBlock>): seq<Message> {
    if blocks == [] then base else base + [Results(blocks)]
  }

  /** The results that follow `base`. */
  function BlocksAfter(messages: seq<Message>, base: seq<Message>): seq<ResultBlock> {
    if |messages| > |base| && messages[|base|].Results? then messages[|base|].blocks else []
  }

  /** The request with this result outgrows the soft limit. */
  predicate Reserved(room: Room, base: seq<Message>, earlier: seq<ResultBlock>, offer: Offer) {
    offer.soft.Some? && room.Size(History(base, earlier + [offer.block])) > offer.soft.value
  }

  /**
   The block that answers an offered result: the result itself when the request with it fits, the reserve
   placeholder when only the soft limit stands in the way, and otherwise the budget placeholder.
   */
  predicate Stands(room: Room, base: seq<Message>, earlier: seq<ResultBlock>, offer: Offer, block: ResultBlock) {
    var id := offer.block.toolUseId;
    var first := if Reserved(room, base, earlier, offer) then ResultBlock(id, ReserveReached, true) else offer.block;
    block ==
      if room.Size(History(base, earlier + [first])) <= room.limit then first
      else ResultBlock(id, BudgetExhausted, true)
  }

  /** One message answers the offered results in order, each with the block that stands for it. */
  predicate Recorded(room: Room, messages: seq<Message>, base: seq<Message>, offers: seq<Offer>) {
    var blocks := BlocksAfter(messages, base);
    && messages == History(base, blocks) && |blocks| == |offers|
    && forall j :: 0 <= j < |offers| ==> Stands(room, base, blocks[..j], offers[j], blocks[j])
  }

  /** Some of the offered results reached the reserve. */
  predicate AnyReserved(room: Room, messages: seq<Message>, base: seq<Message>, offers: seq<Offer>) {
    var blocks := BlocksAfter(messages, base);
    exists j :: 0 <= j < |offers| && j <= |blocks| && Reserved(room, base, blocks[..j], offers[j])
  }

  lemma AnyReservedJoins(room: Room, before: seq<Message>, after: seq<Message>, base: seq<Message>, offers: seq<Offer>,
                         offer: Offer, block: ResultBlock)
    requires |BlocksAfter(before, base)| == |offers| && BlocksAfter(after, base) == BlocksAfter(before, base) + [block]
    ensures AnyReserved(room, after, base, offers + [offer]) <==>
            AnyReserved(room, before, base, offers) || Reserved(room, base, BlocksAfter(before, base), offer)
  {
    hide Reserved;
    var blocks, more, all := BlocksAfter(before, base), BlocksAfter(after, base), offers + [offer];
    assert forall j :: 0 <= j <= |offers| ==> more[..j] == blocks[..j];
    assert blocks[..|offers|] == blocks && all[|offers|] == offer;
    if AnyReserved(room, before, base, offers) {
      var j :| 0 <= j < |offers| && j <= |blocks| && Reserved(room, base, blocks[..j], offers[j]);
      assert all[j] == offers[j];
    }
  }

  /** Some result was replaced for want of room. */
  predicate Exhausted(messages: seq<Message>) {
    exists i, j :: 0 <= i < |messages| && messages[i].Results? && 0 <= j < |messages[i].blocks|
                   && messages[i].blocks[j].content.BudgetExhausted?
  }

  lemma NoneRecorded(room: Room, base: seq<Message>)
    ensures Recorded(room, base, base, [])
  {
  }

  lemma RecordedLength(room: Room, messages: seq<Message>, base: seq<Message>, offers: seq<Offer>)
    requires Recorded(room, messages, base, offers)
    ensures |BlocksAfter(messages, base)| == |offers|
  {
  }

  /** One more offered result joins the recorded ones. */
  lemma RecordsOneMore(room: Room, messages: seq<Message>, base: seq<Message>, offers: seq<Offer>, offer: Offer)
    requires Recorded(room, messages, base, offers) && base != [] && !base[|base| - 1].Results?
    ensures
      var r := Admit(room.size, room.limit, messages, offer.block, room.schemas, offer.soft);
      && Recorded(room, WithResult(messages, r.block), base, offers + [offer])
      && BlocksAfter(WithResult(messages, r.block), base) == BlocksAfter(messages, base) + [r.block]
      && r.reserve == Reserved(room, base, BlocksAfter(messages, base), offer)
  {
    var blocks := BlocksAfter(messages, base);
    var block := Admit(room.size, room.limit, messages, offer.block, room.schemas, offer.soft).block;
    ResultJoins(base, blocks, offer.block);
    ResultJoins(base, blocks, ResultBlock(offer.block.toolUseId, ReserveReached, true));
    ResultJoins(base, blocks, block);
    assert Stands(room, base, blocks, offer, block);
    var next := blocks + [block];
    assert BlocksAfter(History(base, next), base) == next;
    forall j | 0 <= j < |offers| + 1
      ensures Stands(room, base, next[..j], (offers + [offer])[j], next[j])
    {
      if j < |offers| {
        assert next[..j] == blocks[..j];
      } else {
        assert next[..j] == blocks;
      }
    }
  }

  lemma ResultJoins(base: seq<Message>, blocks: seq<ResultBlock>, block: ResultBlock)
    requires base != [] && !base[|base| - 1].Results?
    ensures WithResult(History(base, blocks), block) == History(base, blocks + [block])
  {
    assert [] + [block] == [block];
    assert (base + [Results(blocks)])[|base| := Results(blocks + [block])] == base + [Results(blocks + [block])];
  }

  lemma ExhaustedJoins(messages: seq<Message>, block: ResultBlock)
    ensures Exhausted(WithResult(messages, block)) <==> Exhausted(messages) || block.content.BudgetExhausted?
  {
    var next := WithResult(messages, block);
    if Exhausted(messages) {
      var i, j :| 0 <= i < |messages| && messages[i].Results? && 0 <= j < |messages[i].blocks|
                  && messages[i].blocks[j].content.BudgetExhausted?;
      assert next[i].Results? && next[i].blocks[j] == messages[i].blocks[j];
    }
    if block.content.BudgetExhausted? {
      var last := next[|next| - 1];
      assert last.blocks[|last.blocks| - 1] == block;
    }
    if Exhausted(next) && !block.content.BudgetExhausted? {
      var i, j :| 0 <= i < |next| && next[i].Results? && 0 <= j < |next[i].blocks|
                  && next[i].blocks[j].content.BudgetExhausted?;
      assert i < |messages| && j < |messages[i].blocks| && messages[i].blocks[j] == next[i].blocks[j];
    }
  }

  lemma MessageJoins(messages: seq<Message>, message: Message)
    requires !message.Results?
    ensures Exhausted(messages + [message]) <==> Exhausted(messages)
  {
    var next := messages + [message];
    if Exhausted(messages) {
      var i, j :| 0 <= i < |messages| && messages[i].Results? && 0 <= j < |messages[i].blocks|
                  && messages[i].blocks[j].content.BudgetExhausted?;
      assert next[i].Results? && next[i].blocks[j] == messages[i].blocks[j];
    }
  }

  lemma {:induction false} RecordedAnswers(room: Room, messages: seq<Message>, base: seq<Message>, offers: seq<Offer>)
    requires Recorded(room, messages, base, offers)
    ensures base <= messages && |messages| == |base| + if offers == [] then 0 else 1
    ensures offers != [] ==> messages[|base|].Results? && |messages[|base|].blocks| == |offers|
    ensures forall j :: 0 <= j < |offers| ==> messages[|base|].blocks[j].toolUseId == offers[j].block.toolUseId
  {
    forall j | 0 <= j < |offers|
      ensures messages[|base|].blocks[j].toolUseId == offers[j].block.toolUseId
    {
      assert Stands(room, base, BlocksAfter(messages, base)[..j], offers[j], BlocksAfter(messages, base)[j]);
    }
  }

  function Unchanged(offers: seq<Offer>): seq<ResultBlock> {
    seq(|offers|, j requires 0 <= j < |offers| => offers[j].block)
  }

  /** The request with the first `j` offered results fits the limits that the last of them is under. */
  predicate FitsOffered(room: Room, base: seq<Message>, offers: seq<Offer>, j: nat)
    requires j < |offers|
  {
    var size := room.Size(History(base, Unchanged(offers)[..j + 1]));
    size <= room.limit && (offers[j].soft.Some? ==> size <= offers[j].soft.value)
  }

  /** Every result is shown as it was offered exactly when the requests with the offered results all fit. */
  lemma {:induction false} ShownUnchanged(room: Room, messages: seq<Message>, base: seq<Message>, offers: seq<Offer>)
    requires Recorded(room, messages, base, offers)
    requires forall j :: 0 <= j < |offers| ==> !Placeholder(offers[j].block)
    ensures messages == History(base, Unchanged(offers)) <==>
      forall j :: 0 <= j < |offers| ==> FitsOffered(room, base, offers, j)
  {
    var blocks, all := BlocksAfter(messages, base), Unchanged(offers);
    if messages == History(base, all) {
      assert blocks == all;
      forall j | 0 <= j < |offers|
        ensures FitsOffered(room, base, offers, j)
      {
        assert Stands(room, base, blocks[..j], offers[j], blocks[j]);
        assert all[..j] + [offers[j].block] == all[..j + 1];
      }
    }
    if forall j :: 0 <= j < |offers| ==> FitsOffered(room, base, offers, j) {
      ShownSoFar(room, messages, base, offers, |offers|);
      assert blocks == blocks[..|offers|] && all == all[..|offers|];
    }
  }

  lemma {:induction false} ShownSoFar(room: Room, messages: seq<Message>, base: seq<Message>, offers: seq<Offer>,
                                      n: nat)
    requires Recorded(room, messages, base, offers) && n <= |offers|
    requires forall j :: 0 <= j < |offers| ==> FitsOffered(room, base, offers, j)
    ensures BlocksAfter(messages, base)[..n] == Unchanged(offers)[..n]
  {
    if n > 0 {
      var blocks, all := BlocksAfter(messages, base), Unchanged(offers);
      ShownSoFar(room, messages, base, offers, n - 1);
      assert Stands(room, base, blocks[..n - 1], offers[n - 1], blocks[n - 1]);
      assert FitsOffered(room, base, offers, n - 1);
      assert all[..n - 1] + [offers[n - 1].block] == all[..n];
    }
  }

  class ExecutionContext {
    const maxSteps: int
    const maxInputBytes: int
    /** The bytes of a serialized request with these messages and tools. */
    const size: (seq<Message>, Schemas) -> nat

    var messages: seq<Message>
    var step: nat
    var status: RunStatus
    var result: string
    var initialInput: nat
    var peakInput: nat
    var budgetExhausted: bool

    constructor (goal: string, maxSteps: int, maxInputBytes: int, size: (seq<Message>, Schemas) -> nat)
      ensures this.maxSteps == maxSteps && this.maxInputBytes == maxInputBytes && this.size == size
      ensures messages == [User(goal)] && step == 0 && status.Running? && peakInput == 0 && !budgetExhausted
    {
      this.maxSteps, this.maxInputBytes, this.size := maxSteps, maxInputBytes, size;
      messages, step, status, result := [User(goal)], 0, Running, "";
      initialInput, peakInput, budgetExhausted := 0, 0, false;
    }

    predicate Done()
      reads this
    {
      !status.Running?
    }

    /** The history gains the admitted block and nothing older changes. */
    method AddToolResult(id: string, content: Content, isError: bool, schemas: Schemas, soft: Option<int>)
      returns (reserve: bool)
      modifies this`messages, this`budgetExhausted
      ensures
        var r := Admit(size, maxInputBytes, old(messages), ResultBlock(id, content, isError), schemas, soft);
        && messages == WithResult(old(messages), r.block) && reserve == r.reserve
        && budgetExhausted == (old(budgetExhausted) || r.exhausted)
    {
      reserve := false;
      var block := ResultBlock(id, content, isError);
      var candidate := WithResult(messages, block);
      if soft.Some? && size(candidate, schemas) > soft.value {
        reserve := true;
        block := ResultBlock(id, ReserveReached, true);
        candidate := WithResult(messages, block);
      }
      if size(candidate, schemas) > maxInputBytes {
        budgetExhausted := true;
        block := ResultBlock(id, BudgetExhausted, true);
        candidate := WithResult(messages, block);
      }
      messages := candidate;
    }

    method ObserveInputSize(bytes: nat)
      modifies this`initialInput, this`peakInput
      ensures initialInput == if old(initialInput) == 0 then bytes else old(initialInput)
      ensures peakInput >= bytes && peakInput >= old(peakInput) && (peakInput == bytes || peakInput == old(peakInput))
    {
      if initialInput == 0 {
        initialInput := bytes;
      }
      peakInput := if bytes > peakInput then bytes else peakInput;
    }
  }
}
