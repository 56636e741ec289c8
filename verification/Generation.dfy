/**
 * Concurrent `generate` calls over one conversation store. Each call is a sequence of
 * atomic pieces separated by its two awaits; other calls, session requests and time run
 * in between.
 */
module Generation {
  import opened Sequences
  import opened Text
  import opened JsonTree
  import opened ConversationStore
  import opened ConversationBounds
  import opened Prompt

  // ---------------------------------------------------------------- the provider's answer

  function IsString(): Json -> bool
  {
    (item: Json) => item.Str?
  }

  function StringsOf(items: seq<Json>): (r: seq<string>)
  {
    Map(Filter(items, IsString()), (item: Json) => if item.Str? then item.s else "")
  }

  /** The shape rules; `None` when the answer is malformed. `answer` is `None` when the text is not JSON. */
  function ParseAnswer(answer: Option<Json>): (r: Option<SqlGeneration>)
  {
    if answer.None? || !answer.value.Obj? then None
    else
      var fields := answer.value.fields;
      match (Get(fields, "answerable"), Get(fields, "sql"))
      case (Some(Bool(answerable)), Some(Str(text))) =>
        var sql := Trim(text);
        if answerable && sql == "" then None
        else
          Some(SqlGeneration(
            answerable,
            if answerable then sql else "",
            (match Get(fields, "explanation") case Some(Str(s)) => s case _ => ""),
            (match Get(fields, "tables") case Some(Arr(items)) => StringsOf(items) case _ => [])))
      case _ => None
  }

  /** Of the listed tables the strings are taken, in order, and anything else is left out. */
  lemma OnlyStringsAreTaken(items: seq<Json>) returns (positions: seq<nat>)
    ensures |positions| == |StringsOf(items)|
    ensures forall i, j :: 0 <= i < j < |positions| ==> positions[i] < positions[j]
    ensures forall i :: 0 <= i < |items| ==> (i in positions <==> items[i].Str?)
    ensures forall k :: 0 <= k < |positions| ==> positions[k] < |items| && items[positions[k]] == Str(StringsOf(items)[k])
  {
    positions := FilterPositions(items, IsString());
    assert forall i :: 0 <= i < |items| ==> (i in positions <==> IsString()(items[i]));
    forall k | 0 <= k < |positions| ensures items[positions[k]].Str? {
      assert positions[k] in positions;
    }
  }

  /**
   * An answer is understood exactly when it is an object that says whether it answers and
   * gives a query, which is not blank if it does. An explanation or tables that are missing
   * or of another kind are taken as none.
   */
  lemma UnderstoodExactlyWhen(answer: Option<Json>)
    ensures ParseAnswer(answer).Some? <==>
            && answer.Some? && answer.value.Obj?
            && exists answerable, text ::
                 && Get(answer.value.fields, "answerable") == Some(Bool(answerable))
                 && Get(answer.value.fields, "sql") == Some(Str(text))
                 && (answerable ==> exists i :: 0 <= i < |text| && !IsBlank(text[i]))
    ensures ParseAnswer(answer).Some? ==>
              var fields, g := answer.value.fields, ParseAnswer(answer).value;
              && Get(fields, "answerable") == Some(Bool(g.answerable))
              && (Get(fields, "explanation") == Some(Str(g.explanation))
                  || ((forall s :: Get(fields, "explanation") != Some(Str(s))) && g.explanation == ""))
              && ((forall items :: Get(fields, "tables") != Some(Arr(items))) ==> g.tables == [])
  {
    if answer.Some? && answer.value.Obj? {
      match (Get(answer.value.fields, "answerable"), Get(answer.value.fields, "sql"))
      case (Some(Bool(answerable)), Some(Str(text))) => TrimmedAwayExactlyWhen(text);
      case _ =>
    }
  }

  /** An accepted answer is answerable exactly when it carries a query. */
  lemma AnswerableMeansQuery(answer: Option<Json>)
    ensures ParseAnswer(answer).Some? ==>
              (ParseAnswer(answer).value.answerable <==> ParseAnswer(answer).value.sql != "")
  {
  }

  // ---------------------------------------------------------------- one call, piece by piece

  datatype Phase =
    | AwaitingSchema
    | AwaitingModel(messages: seq<Message>)
    | Completed(generation: SqlGeneration)
    | Failed

  /** One `generate` call: what was asked, of which conversation, and how far it has got. */
  datatype Call = Call(question: string, conversation: string, phase: Phase)

  /** Up to the first await: resolve the conversation, or fail. */
  function Begun(s: Store, limits: Limits, question: string, conversation: Option<string>, client: Option<string>,
                 freshId: string, now: nat): (r: (Store, Call))
  {
    if Given(conversation) then
      var found := Got(s, limits, conversation.value, client, now);
      (AfterGet(s, limits, conversation.value, now),
       Call(question, conversation.value, if found.Found? then AwaitingSchema else Failed))
    else (Created(s, limits, freshId, client, now), Call(question, freshId, AwaitingSchema))
  }

  /** The turns of the conversation object the call holds, as they are by now. */
  function HeldTurns(s: Store, id: string): (r: seq<Turn>)
  {
    if id in s.objects then s.objects[id].turns else []
  }

  /** Between the awaits: build the prompt from the conversation as it is now. */
  function Prompted(s: Store, call: Call): (r: Call)
  {
    call.(phase := AwaitingModel(Messages(call.question, HeldTurns(s, call.conversation))))
  }

  predicate CanRecord(s: Store, limits: Limits, call: Call, now: nat)
  {
    Got(s, limits, call.conversation, None, now).Found? && call.conversation in s.objects
  }

  /** After the second await: parse, then record, which may find the conversation gone. */
  function Answered(s: Store, limits: Limits, call: Call, answer: Option<Json>, now: nat): (r: (Store, Call, Option<Turn>))
  {
    var generation := ParseAnswer(answer);
    if generation.None? then (s, call.(phase := Failed), None)
    else
      var turn := Turn(call.question, generation.value, now);
      var after := Recorded(s, limits, call.conversation, turn, now);
      if CanRecord(s, limits, call, now) then (after, call.(phase := Completed(generation.value)), Some(turn))
      else (after, call.(phase := Failed), None)
  }

  /** A `generate` call in flight, driving the shared conversation service. */
  class GenerateCall {
    const question: string
    const conversations: ConversationService
    var conversation: string
    var phase: Phase

    function State(): (r: Call)
      reads this
    {
      Call(question, conversation, phase)
    }

    constructor (question: string, conversations: ConversationService, conversation: Option<string>,
                 client: Option<string>, freshId: string, now: nat)
      requires ConversationStore.Distinct(conversations.order) && freshId !in conversations.objects
      modifies conversations
      ensures this.conversations == conversations
      ensures (conversations.State(), State())
           == Begun(old(conversations.State()), conversations.limits, question, conversation, client, freshId, now)
    {
      this.question, this.conversations := question, conversations;
      this.conversation := if Given(conversation) then conversation.value else freshId;
      this.phase := AwaitingSchema;
      new;
      var found := conversations.Resolve(conversation, freshId, client, now);
      if found.NotFound? {
        phase := Failed;
      }
    }

    method OnSchema()
      requires phase.AwaitingSchema?
      modifies this
      ensures State() == Prompted(conversations.State(), old(State()))
    {
      phase := AwaitingModel(Messages(question, HeldTurns(conversations.State(), conversation)));
    }

    method OnCompletion(answer: Option<Json>, now: nat) returns (appended: Option<Turn>)
      requires phase.AwaitingModel? && (conversation in conversations.order ==> conversation in conversations.objects)
      modifies this, conversations
      ensures (conversations.State(), State(), appended)
           == Answered(old(conversations.State()), conversations.limits, old(State()), answer, now)
    {
      appended := None;
      var generation := ParseAnswer(answer);
      if generation.None? {
        phase := Failed;
        return;
      }
      var turn := Turn(question, generation.value, now);
      var found := conversations.Record(conversation, turn, now);
      if found.Found? {
        phase := Completed(generation.value);
        appended := Some(turn);
      } else {
        phase := Failed;
      }
    }
  }

  // ---------------------------------------------------------------- the transition system

  /** A turn that was appended: by which call, to which conversation. */
  datatype Entry = Entry(call: nat, conversation: string, turn: Turn)

  /** `log` is the full history of appended turns. */
  datatype World = World(now: nat, store: Store, calls: seq<Call>, log: seq<Entry>)

  datatype Step =
    | Begin(question: string, conversation: Option<string>, client: Option<string>, freshId: string)
    | SchemaArrives(call: nat)
    | SchemaFails(call: nat)
    | ModelFails(call: nat)
    | ModelAnswers(call: nat, answer: Option<Json>)
    | CreateSession(client: Option<string>, freshId: string)
    | GetSession(id: string, client: Option<string>)
    | DeleteSession(id: string, client: Option<string>)
    | ReadStats
    | Tick(ms: nat)

  predicate InPhase(w: World, c: nat, schema: bool)
  {
    c < |w.calls| && if schema then w.calls[c].phase.AwaitingSchema? else w.calls[c].phase.AwaitingModel?
  }

  /** Ids are fresh when they are made up; a suspended call can be resumed; the rest may always happen. */
  predicate Enabled(w: World, step: Step)
  {
    match step
    case Begin(_, _, _, freshId) => freshId !in w.store.objects
    case CreateSession(_, freshId) => freshId !in w.store.objects
    case SchemaArrives(c) => InPhase(w, c, true)
    case SchemaFails(c) => InPhase(w, c, true)
    case ModelFails(c) => InPhase(w, c, false)
    case ModelAnswers(c, _) => InPhase(w, c, false)
    case _ => true
  }

  function Moved(w: World, c: nat, phase: Phase): (r: World)
    requires c < |w.calls|
  {
    w.(calls := w.calls[c := w.calls[c].(phase := phase)])
  }

  function Started(w: World, limits: Limits, question: string, conversation: Option<string>, client: Option<string>, freshId: string): (r: World)
  {
    var (store, call) := Begun(w.store, limits, question, conversation, client, freshId, w.now);
    w.(store := store, calls := w.calls + [call])
  }

  function Finished(w: World, limits: Limits, c: nat, answer: Option<Json>): (r: World)
    requires c < |w.calls|
  {
    var (store, call, turn) := Answered(w.store, limits, w.calls[c], answer, w.now);
    w.(store := store, calls := w.calls[c := call],
       log := if turn.Some? then w.log + [Entry(c, call.conversation, turn.value)] else w.log)
  }

  function Next(w: World, step: Step, limits: Limits): (r: World)
    requires Enabled(w, step)
  {
    match step
    case Begin(question, conversation, client, freshId) => Started(w, limits, question, conversation, client, freshId)
    case SchemaArrives(c) => Moved(w, c, Prompted(w.store, w.calls[c]).phase)
    case SchemaFails(c) => Moved(w, c, Failed)
    case ModelFails(c) => Moved(w, c, Failed)
    case ModelAnswers(c, answer) => Finished(w, limits, c, answer)
    case CreateSession(client, freshId) => w.(store := Created(w.store, limits, freshId, client, w.now))
    case GetSession(id, client) => w.(store := AfterGet(w.store, limits, id, w.now))
    case DeleteSession(id, client) => w.(store := Deleted(w.store, id, client))
    case ReadStats => w.(store := WithoutExpired(w.store, w.now, limits.ttlMs))
    case Tick(ms) => w.(now := w.now + ms)
  }

  ghost predicate Run(trace: seq<World>, steps: seq<Step>, limits: Limits)
  {
    && limits.maxSessions >= 1 && limits.maxTurns >= 1
    && |trace| == |steps| + 1 && trace[0] == World(0, NO_CONVERSATIONS, [], [])
    && forall i :: 0 <= i < |steps| ==> Enabled(trace[i], steps[i]) && trace[i + 1] == Next(trace[i], steps[i], limits)
  }

  // ---------------------------------------------------------------- the log, by conversation and by call

  function OfConversation(id: string): Entry -> bool
  {
    (e: Entry) => e.conversation == id
  }

  function OfCall(c: nat): Entry -> bool
  {
    (e: Entry) => e.call == c
  }

  function TurnOf(): Entry -> Turn
  {
    (e: Entry) => e.turn
  }

  /** Every turn ever recorded for a conversation. */
  function TurnsFor(log: seq<Entry>, id: string): (r: seq<Turn>)
  {
    Map(Filter(log, OfConversation(id)), TurnOf())
  }

  /** The entries a call has made: its own turn if it completed, none otherwise. */
  predicate EntriesDue(calls: seq<Call>, log: seq<Entry>, c: nat)
    requires c < |calls|
  {
    var mine := Filter(log, OfCall(c));
    match calls[c].phase
    case Completed(generation) =>
      |mine| == 1 && mine[0].conversation == calls[c].conversation
      && mine[0].turn.question == calls[c].question && mine[0].turn.generation == generation
    case _ => mine == []
  }

  ghost predicate Inv(w: World, limits: Limits)
  {
    && Valid(w.store, limits, w.now)
    && (forall c :: 0 <= c < |w.calls| ==> EntriesDue(w.calls, w.log, c))
    && (forall e :: e in w.log ==> e.call < |w.calls| && e.conversation in w.store.objects)
    && (forall id :: id in w.store.objects ==> w.store.objects[id].turns == LastN(TurnsFor(w.log, id), limits.maxTurns))
    && (forall c :: 0 <= c < |w.calls| && !w.calls[c].phase.Failed? ==> w.calls[c].conversation in w.store.objects)
  }

  /** Operations that only add fresh, empty conversation objects, or none. */
  ghost predicate ObjectsGrow(before: Store, after: Store)
  {
    && (forall id :: id in before.objects ==> id in after.objects && after.objects[id].turns == before.objects[id].turns)
    && (forall id :: id in after.objects && id !in before.objects ==> after.objects[id].turns == [])
  }

  lemma TurnsForUnknown(log: seq<Entry>, id: string)
    requires forall e :: e in log ==> e.conversation != id
    ensures TurnsFor(log, id) == []
  {
    FilterNone(log, OfConversation(id));
  }

  lemma StoreStepKeeps(w: World, limits: Limits, store: Store, now: nat)
    requires Inv(w, limits) && Valid(store, limits, now) && ObjectsGrow(w.store, store)
    ensures Inv(w.(store := store, now := now), limits)
  {
    forall id | id in store.objects ensures store.objects[id].turns == LastN(TurnsFor(w.log, id), limits.maxTurns) {
      if id !in w.store.objects {
        TurnsForUnknown(w.log, id);
      }
    }
  }

  /** A call changing phase, short of completing, leaves the log as it should be. */
  lemma MoveKeeps(w: World, limits: Limits, c: nat, phase: Phase)
    requires Inv(w, limits) && c < |w.calls| && !w.calls[c].phase.Completed? && !phase.Completed?
    requires !w.calls[c].phase.Failed?
    ensures Inv(Moved(w, c, phase), limits)
  {
    var next := Moved(w, c, phase);
    forall d | 0 <= d < |next.calls| ensures EntriesDue(next.calls, next.log, d) {
      assert EntriesDue(w.calls, w.log, d);
    }
  }

  lemma NewCallDue(w: World, limits: Limits, call: Call, d: nat)
    requires Inv(w, limits) && !call.phase.Completed? && d <= |w.calls|
    ensures EntriesDue(w.calls + [call], w.log, d)
  {
    if d < |w.calls| {
      assert EntriesDue(w.calls, w.log, d);
    } else {
      FilterNone(w.log, OfCall(d));
    }
  }

  lemma NewCallKeeps(w: World, limits: Limits, call: Call)
    requires Inv(w, limits) && (call.phase.AwaitingSchema? || call.phase.Failed?)
    requires call.phase.AwaitingSchema? ==> call.conversation in w.store.objects
    ensures Inv(w.(calls := w.calls + [call]), limits)
  {
    var calls := w.calls + [call];
    forall d | 0 <= d < |calls| ensures EntriesDue(calls, w.log, d) {
      NewCallDue(w, limits, call, d);
    }
  }

  lemma TurnsForPush(log: seq<Entry>, e: Entry, id: string)
    ensures TurnsFor(log + [e], id) == TurnsFor(log, id) + if e.conversation == id then [e.turn] else []
  {
    FilterPush(log, e, OfConversation(id));
  }

  /** Completing a call appends one turn to the log, the conversation and nothing else. */
  lemma CompletionKeeps(w: World, limits: Limits, c: nat, generation: SqlGeneration)
    requires Inv(w, limits) && InPhase(w, c, false)
    requires Got(w.store, limits, w.calls[c].conversation, None, w.now).Found?
    ensures var id := w.calls[c].conversation;
            var turn := Turn(w.calls[c].question, generation, w.now);
            Inv(Moved(w.(store := Recorded(w.store, limits, id, turn, w.now)), c, Completed(generation))
                  .(log := w.log + [Entry(c, id, turn)]), limits)
  {
    var id := w.calls[c].conversation;
    var turn := Turn(w.calls[c].question, generation, w.now);
    var entry := Entry(c, id, turn);
    var store := Recorded(w.store, limits, id, turn, w.now);
    var next := Moved(w.(store := store), c, Completed(generation)).(log := w.log + [entry]);
    RecordStaysValid(w.store, limits, id, turn, w.now);
    forall other | other in store.objects
      ensures store.objects[other].turns == LastN(TurnsFor(next.log, other), limits.maxTurns)
    {
      TurnsForPush(w.log, entry, other);
      if other == id {
        WindowPush(TurnsFor(w.log, id), turn, limits.maxTurns);
      }
    }
    forall d | 0 <= d < |next.calls| ensures EntriesDue(next.calls, next.log, d) {
      FilterPush(w.log, entry, OfCall(d));
      assert EntriesDue(w.calls, w.log, d);
    }
  }

  lemma AnswerKeeps(w: World, limits: Limits, c: nat, answer: Option<Json>)
    requires Inv(w, limits) && InPhase(w, c, false)
    ensures Inv(Finished(w, limits, c, answer), limits)
  {
    var id, generation := w.calls[c].conversation, ParseAnswer(answer);
    if generation.None? {
      MoveKeeps(w, limits, c, Failed);
    } else if Got(w.store, limits, id, None, w.now).Found? {
      CompletionKeeps(w, limits, c, generation.value);
    } else {
      var turn := Turn(w.calls[c].question, generation.value, w.now);
      var store := Recorded(w.store, limits, id, turn, w.now);
      RecordStaysValid(w.store, limits, id, turn, w.now);
      StoreStepKeeps(w, limits, store, w.now);
      MoveKeeps(w.(store := store), limits, c, Failed);
    }
  }

  lemma BeginKeeps(w: World, limits: Limits, question: string, conversation: Option<string>, client: Option<string>, freshId: string)
    requires Inv(w, limits) && freshId !in w.store.objects
    ensures Inv(Started(w, limits, question, conversation, client, freshId), limits)
  {
    var next := Started(w, limits, question, conversation, client, freshId);
    if Given(conversation) {
      ForgetStaysValid(w.store, limits, w.now, conversation.value);
    } else {
      CreateStaysValid(w.store, limits, freshId, client, w.now);
    }
    StoreStepKeeps(w, limits, next.store, w.now);
    NewCallKeeps(w.(store := next.store), limits, next.calls[|w.calls|]);
  }

  lemma StepKeeps(w: World, step: Step, limits: Limits)
    requires Inv(w, limits) && Enabled(w, step)
    ensures Inv(Next(w, step, limits), limits)
  {
    match step {
      case Begin(question, conversation, client, freshId) => BeginKeeps(w, limits, question, conversation, client, freshId);
      case SchemaArrives(c) => MoveKeeps(w, limits, c, Next(w, step, limits).calls[c].phase);
      case SchemaFails(c) => MoveKeeps(w, limits, c, Failed);
      case ModelFails(c) => MoveKeeps(w, limits, c, Failed);
      case ModelAnswers(c, answer) => AnswerKeeps(w, limits, c, answer);
      case CreateSession(client, freshId) =>
        CreateStaysValid(w.store, limits, freshId, client, w.now);
        StoreStepKeeps(w, limits, Created(w.store, limits, freshId, client, w.now), w.now);
      case GetSession(id, _) =>
        ForgetStaysValid(w.store, limits, w.now, id);
        StoreStepKeeps(w, limits, AfterGet(w.store, limits, id, w.now), w.now);
      case DeleteSession(id, client) =>
        ForgetStaysValid(w.store, limits, w.now, id);
        StoreStepKeeps(w, limits, Deleted(w.store, id, client), w.now);
      case ReadStats =>
        KeepingStaysValid(w.store, limits, w.now, IsLive(w.store, w.now, limits.ttlMs));
        StoreStepKeeps(w, limits, WithoutExpired(w.store, w.now, limits.ttlMs), w.now);
      case Tick(ms) =>
        StoreStepKeeps(w, limits, w.store, w.now + ms);
    }
  }

  // ---------------------------------------------------------------- over every run

  /** In every reachable world: the store's bounds, the turn windows and the one-turn rule. */
  lemma {:induction false} RunKeeps(trace: seq<World>, steps: seq<Step>, limits: Limits, i: nat)
    requires Run(trace, steps, limits) && i < |trace|
    ensures Inv(trace[i], limits)
  {
    if i > 0 {
      RunKeeps(trace, steps, limits, i - 1);
      StepKeeps(trace[i - 1], steps[i - 1], limits);
    }
  }

  /** A conversation object holds exactly the last `maxTurns` turns ever recorded for it. */
  lemma WindowIsTheLastTurns(trace: seq<World>, steps: seq<Step>, limits: Limits, i: nat, id: string)
    requires Run(trace, steps, limits) && i < |trace| && id in trace[i].store.objects
    ensures trace[i].store.objects[id].turns == LastN(TurnsFor(trace[i].log, id), limits.maxTurns)
    ensures |trace[i].store.order| <= limits.maxSessions
  {
    RunKeeps(trace, steps, limits, i);
  }

  /** Each `generate` call has appended exactly its own turn if it completed, and nothing if it has not. */
  lemma OneTurnOrNone(trace: seq<World>, steps: seq<Step>, limits: Limits, i: nat, c: nat)
    requires Run(trace, steps, limits) && i < |trace| && c < |trace[i].calls|
    ensures var mine := Filter(trace[i].log, OfCall(c));
            match trace[i].calls[c].phase
            case Completed(generation) =>
              |mine| == 1 && mine[0].conversation == trace[i].calls[c].conversation
              && mine[0].turn.question == trace[i].calls[c].question && mine[0].turn.generation == generation
            case _ => mine == []
  {
    RunKeeps(trace, steps, limits, i);
    assert EntriesDue(trace[i].calls, trace[i].log, c);
  }

  /** The conversation has existed and is no longer in the map. */
  predicate Gone(s: Store, id: string)
  {
    id in s.objects && id !in s.order
  }

  /** Nothing that had left the map is in it afterwards. */
  ghost predicate RevivesNobody(before: Store, after: Store)
  {
    && (forall id :: id in before.objects ==> id in after.objects)
    && (forall id :: id in after.order ==> id in before.order || id !in before.objects)
  }

  lemma ForgetRevivesNobody(s: Store, id: string)
    ensures RevivesNobody(s, Forget(s, id))
  {
    FilterSubset(s.order, IsNot(id));
  }

  lemma CreateRevivesNobody(s: Store, limits: Limits, id: string, owner: Option<string>, now: nat)
    requires id !in s.objects
    ensures RevivesNobody(s, WithoutExpired(s, now, limits.ttlMs))
    ensures RevivesNobody(s, Created(s, limits, id, owner, now))
  {
    var live := Filter(s.order, IsLive(s, now, limits.ttlMs));
    FilterSubset(s.order, IsLive(s, now, limits.ttlMs));
    assert forall x :: x in live[Surplus(|live|, limits.maxSessions)..] ==> x in live;
  }

  lemma RecordRevivesNobody(s: Store, limits: Limits, id: string, turn: Turn, now: nat)
    ensures RevivesNobody(s, Recorded(s, limits, id, turn, now))
  {
    FilterSubset(s.order, IsNot(id));
    ForgetRevivesNobody(s, id);
  }

  lemma StepRevivesNobody(w: World, step: Step, limits: Limits)
    requires Enabled(w, step)
    ensures RevivesNobody(w.store, Next(w, step, limits).store)
  {
    match step {
      case Begin(_, conversation, client, freshId) =>
        if Given(conversation) {
          ForgetRevivesNobody(w.store, conversation.value);
        } else {
          CreateRevivesNobody(w.store, limits, freshId, client, w.now);
        }
      case ModelAnswers(c, answer) =>
        if ParseAnswer(answer).Some? {
          var turn := Turn(w.calls[c].question, ParseAnswer(answer).value, w.now);
          RecordRevivesNobody(w.store, limits, w.calls[c].conversation, turn, w.now);
        }
      case CreateSession(client, freshId) => CreateRevivesNobody(w.store, limits, freshId, client, w.now);
      case GetSession(id, _) => ForgetRevivesNobody(w.store, id);
      case DeleteSession(id, _) => ForgetRevivesNobody(w.store, id);
      case ReadStats => FilterSubset(w.store.order, IsLive(w.store, w.now, limits.ttlMs));
      case _ =>
    }
  }

  /**
   * Once deleted, expired and forgotten, or evicted, a conversation never comes back,
   * whatever calls were suspended on it at the time.
   */
  lemma {:induction false} GoneForGood(trace: seq<World>, steps: seq<Step>, limits: Limits, i: nat, j: nat, id: string)
    requires Run(trace, steps, limits) && i <= j < |trace| && Gone(trace[i].store, id)
    ensures Gone(trace[j].store, id)
  {
    if i < j {
      GoneForGood(trace, steps, limits, i, j - 1, id);
      StepRevivesNobody(trace[j - 1], steps[j - 1], limits);
    }
  }

  lemma {:induction false} CallsKeepTheirConversation(trace: seq<World>, steps: seq<Step>, limits: Limits, i: nat, j: nat, c: nat)
    requires Run(trace, steps, limits) && i <= j < |trace| && c < |trace[i].calls|
    ensures c < |trace[j].calls|
    ensures trace[j].calls[c].conversation == trace[i].calls[c].conversation
    ensures trace[j].calls[c].question == trace[i].calls[c].question
  {
    if i < j {
      CallsKeepTheirConversation(trace, steps, limits, i, j - 1, c);
      StepKeepsConversations(trace[j - 1], steps[j - 1], limits, c);
    }
  }

  lemma StepKeepsConversations(w: World, step: Step, limits: Limits, c: nat)
    requires Enabled(w, step) && c < |w.calls|
    ensures var after := Next(w, step, limits).calls;
            c < |after| && after[c].conversation == w.calls[c].conversation && after[c].question == w.calls[c].question
  {
  }

  /** A call suspended on a conversation that has gone fails when the model answers, and records nothing. */
  lemma GoneCallsDoNotComplete(trace: seq<World>, steps: seq<Step>, limits: Limits, i: nat, j: nat, c: nat)
    requires Run(trace, steps, limits) && i <= j < |steps| && c < |trace[i].calls|
    requires Gone(trace[i].store, trace[i].calls[c].conversation)
    requires steps[j].ModelAnswers? && steps[j].call == c
    ensures c < |trace[j + 1].calls| && trace[j + 1].calls[c].phase == Failed && trace[j + 1].log == trace[j].log
  {
    GoneForGood(trace, steps, limits, i, j, trace[i].calls[c].conversation);
    CallsKeepTheirConversation(trace, steps, limits, i, j, c);
  }

  /**
   * The prompt replays the last `maxTurns` turns recorded by the time the schema arrives,
   * those of other calls on the same conversation included, then asks the question.
   */
  lemma PromptReplaysTheWindow(trace: seq<World>, steps: seq<Step>, limits: Limits, i: nat)
    requires Run(trace, steps, limits) && i < |steps| && steps[i].SchemaArrives?
    ensures var c := steps[i].call;
            && c < |trace[i].calls| && c < |trace[i + 1].calls|
            && var held := LastN(TurnsFor(trace[i].log, trace[i].calls[c].conversation), limits.maxTurns);
               trace[i + 1].calls[c].phase == AwaitingModel(Messages(trace[i].calls[c].question, held))
  {
    RunKeeps(trace, steps, limits, i);
  }

  // ---------------------------------------------------------------- ownership

  function OwnerOf(s: Store, id: string): (r: Option<string>)
  {
    if id in s.owners then Some(s.owners[id]) else None
  }

  /** Whoever is in the map before and after has the same owner, or the same lack of one. */
  ghost predicate KeepsOwners(before: Store, after: Store)
  {
    forall id :: id in before.order && id in after.order ==> OwnerOf(after, id) == OwnerOf(before, id)
  }

  lemma CreateKeepsOwners(s: Store, limits: Limits, id: string, owner: Option<string>, now: nat)
    requires forall x :: x in s.order ==> x in s.objects
    requires id !in s.objects
    ensures KeepsOwners(s, WithoutExpired(s, now, limits.ttlMs))
    ensures KeepsOwners(s, Created(s, limits, id, owner, now))
  {
    var live := Filter(s.order, IsLive(s, now, limits.ttlMs));
    FilterSubset(s.order, IsLive(s, now, limits.ttlMs));
    assert forall x :: x in live[Surplus(|live|, limits.maxSessions)..] ==> x in live;
  }

  lemma ForgetKeepsOwners(s: Store, id: string)
    ensures KeepsOwners(s, Forget(s, id))
  {
    FilterSubset(s.order, IsNot(id));
  }

  lemma RecordKeepsOwners(s: Store, limits: Limits, id: string, turn: Turn, now: nat)
    ensures KeepsOwners(s, Recorded(s, limits, id, turn, now))
  {
    ForgetKeepsOwners(s, id);
  }

  lemma StepKeepsOwners(w: World, step: Step, limits: Limits)
    requires Inv(w, limits) && Enabled(w, step)
    ensures KeepsOwners(w.store, Next(w, step, limits).store)
  {
    match step {
      case Begin(_, conversation, client, freshId) =>
        if Given(conversation) {
          ForgetKeepsOwners(w.store, conversation.value);
        } else {
          CreateKeepsOwners(w.store, limits, freshId, client, w.now);
        }
      case ModelAnswers(c, answer) =>
        if ParseAnswer(answer).Some? {
          var turn := Turn(w.calls[c].question, ParseAnswer(answer).value, w.now);
          RecordKeepsOwners(w.store, limits, w.calls[c].conversation, turn, w.now);
        }
      case CreateSession(client, freshId) => CreateKeepsOwners(w.store, limits, freshId, client, w.now);
      case GetSession(id, _) => ForgetKeepsOwners(w.store, id);
      case DeleteSession(id, _) => ForgetKeepsOwners(w.store, id);
      case ReadStats => FilterSubset(w.store.order, IsLive(w.store, w.now, limits.ttlMs));
      case _ =>
    }
  }

  lemma StepKeepsOwner(trace: seq<World>, steps: seq<Step>, limits: Limits, j: nat, id: string)
    requires Run(trace, steps, limits) && j < |steps|
    requires id in trace[j].store.order && id in trace[j + 1].store.order
    ensures OwnerOf(trace[j + 1].store, id) == OwnerOf(trace[j].store, id)
  {
    RunKeeps(trace, steps, limits, j);
    StepKeepsOwners(trace[j], steps[j], limits);
  }

  /** Whoever is in the map at both ends of a stretch of the run never left it in between. */
  lemma NeverLeft(trace: seq<World>, steps: seq<Step>, limits: Limits, i: nat, k: nat, j: nat, id: string)
    requires Run(trace, steps, limits) && i <= k <= j < |trace|
    requires id in trace[i].store.order && id in trace[j].store.order
    ensures id in trace[k].store.order
  {
    RunKeeps(trace, steps, limits, i);
    StillKnown(trace, steps, limits, i, k, id);
    if Gone(trace[k].store, id) {
      GoneForGood(trace, steps, limits, k, j, id);
    }
  }

  /** A conversation keeps the owner it was created with for as long as it is there. */
  lemma {:induction false} OwnershipIsForLife(trace: seq<World>, steps: seq<Step>, limits: Limits, i: nat, j: nat, id: string)
    requires Run(trace, steps, limits) && i <= j < |trace|
    requires id in trace[i].store.order && id in trace[j].store.order
    ensures OwnerOf(trace[j].store, id) == OwnerOf(trace[i].store, id)
  {
    if i < j {
      NeverLeft(trace, steps, limits, i, j - 1, j, id);
      OwnershipIsForLife(trace, steps, limits, i, j - 1, id);
      StepKeepsOwner(trace, steps, limits, j - 1, id);
    }
  }

  lemma {:induction false} StillKnown(trace: seq<World>, steps: seq<Step>, limits: Limits, i: nat, j: nat, id: string)
    requires Run(trace, steps, limits) && i <= j < |trace| && id in trace[i].store.objects
    ensures id in trace[j].store.objects
  {
    if i < j {
      StillKnown(trace, steps, limits, i, j - 1, id);
      StepRevivesNobody(trace[j - 1], steps[j - 1], limits);
    }
  }

  /** From then on, any other client asking for it is told it does not exist. */
  lemma StrangersFindNothing(trace: seq<World>, steps: seq<Step>, limits: Limits, i: nat, j: nat, id: string, owner: string, stranger: string)
    requires Run(trace, steps, limits) && i <= j < |trace|
    requires id in trace[i].store.order && OwnerOf(trace[i].store, id) == Some(owner)
    requires stranger != "" && stranger != owner
    ensures Got(trace[j].store, limits, id, Some(stranger), trace[j].now) == NotFound
    ensures Deletable(trace[j].store, id, Some(stranger)) == NotFound
  {
    if id in trace[j].store.order {
      OwnershipIsForLife(trace, steps, limits, i, j, id);
    }
  }

  // ---------------------------------------------------------------- who is still there, told from the history alone

  /** When the conversation came to be: it has existed ever since. */
  ghost function BornAt(trace: seq<World>, i: nat, id: string): (r: nat)
    requires i < |trace| && id in trace[i].store.objects
  {
    if i > 0 && id in trace[i - 1].store.objects then BornAt(trace, i - 1, id) else trace[i].now
  }

  /** When its last turn was recorded, or it came to be if it has none. */
  ghost function ActiveAt(trace: seq<World>, i: nat, id: string): (r: nat)
    requires i < |trace| && id in trace[i].store.objects
  {
    var turns := TurnsFor(trace[i].log, id);
    if turns == [] then BornAt(trace, i, id) else turns[|turns| - 1].askedAt
  }

  /** At most one TTL has passed since. */
  ghost predicate StillActive(trace: seq<World>, limits: Limits, i: nat, id: string)
    requires i < |trace|
  {
    id in trace[i].store.objects && trace[i].now <= ActiveAt(trace, i, id) + limits.ttlMs
  }

  /** What the store keeps of a conversation's times agrees with the history. */
  ghost predicate TimesAgree(trace: seq<World>, i: nat)
    requires i < |trace|
  {
    forall id :: id in trace[i].store.objects ==> trace[i].store.objects[id].lastActiveAt == ActiveAt(trace, i, id)
  }

  /** No object's times change, and new ones are dated now. */
  ghost predicate KeepsTimes(before: Store, after: Store, now: nat)
  {
    && (forall id :: id in before.objects ==>
          id in after.objects && after.objects[id].lastActiveAt == before.objects[id].lastActiveAt)
    && (forall id :: id in after.objects && id !in before.objects ==> after.objects[id].lastActiveAt == now)
  }

  lemma QuietStepKeepsTimes(w: World, step: Step, limits: Limits)
    requires Enabled(w, step) && Next(w, step, limits).log == w.log
    ensures KeepsTimes(w.store, Next(w, step, limits).store, w.now)
    ensures !step.Tick? ==> Next(w, step, limits).now == w.now
  {
  }

  lemma QuietStepAgrees(trace: seq<World>, steps: seq<Step>, limits: Limits, i: nat)
    requires Run(trace, steps, limits) && i < |steps| && TimesAgree(trace, i) && trace[i + 1].log == trace[i].log
    ensures TimesAgree(trace, i + 1)
  {
    QuietStepKeepsTimes(trace[i], steps[i], limits);
    RunKeeps(trace, steps, limits, i);
    var objects := trace[i + 1].store.objects;
    forall id | id in objects
      ensures objects[id].lastActiveAt == ActiveAt(trace, i + 1, id)
    {
      if id !in trace[i].store.objects {
        TurnsForUnknown(trace[i].log, id);
      }
    }
  }

  /** What a step that records a turn does: the turn is this call's, dated now, on a conversation in the map. */
  lemma RecordingStep(w: World, step: Step, limits: Limits)
    requires Enabled(w, step) && Next(w, step, limits).log != w.log
    ensures step.ModelAnswers? && w.calls[step.call].conversation in w.store.order && w.calls[step.call].conversation in w.store.objects
    ensures var id, next := w.calls[step.call].conversation, Next(w, step, limits);
            && next.now == w.now && next.store.objects.Keys == w.store.objects.Keys
            && next.store.objects[id].lastActiveAt == w.now
            && (forall other :: other in w.store.objects && other != id ==> next.store.objects[other] == w.store.objects[other])
            && |next.log| == |w.log| + 1 && next.log[..|w.log|] == w.log
            && next.log[|w.log|].conversation == id && next.log[|w.log|].turn.askedAt == w.now
  {
  }

  lemma RecordingStepAgrees(trace: seq<World>, steps: seq<Step>, limits: Limits, i: nat)
    requires Run(trace, steps, limits) && i < |steps| && TimesAgree(trace, i) && trace[i + 1].log != trace[i].log
    ensures TimesAgree(trace, i + 1)
  {
    RecordingStep(trace[i], steps[i], limits);
    var log := trace[i].log;
    var entry := trace[i + 1].log[|log|];
    assert trace[i + 1].log == log + [entry];
    var objects := trace[i + 1].store.objects;
    forall id | id in objects
      ensures objects[id].lastActiveAt == ActiveAt(trace, i + 1, id)
    {
      TurnsForPush(log, entry, id);
      assert TurnsFor(log, id) + [] == TurnsFor(log, id);
    }
  }

  lemma {:induction false} TimesAlwaysAgree(trace: seq<World>, steps: seq<Step>, limits: Limits, i: nat)
    requires Run(trace, steps, limits) && i < |trace|
    ensures TimesAgree(trace, i)
  {
    if i > 0 {
      TimesAlwaysAgree(trace, steps, limits, i - 1);
      if trace[i].log == trace[i - 1].log {
        QuietStepAgrees(trace, steps, limits, i - 1);
      } else {
        RecordingStepAgrees(trace, steps, limits, i - 1);
      }
    }
  }

  /** The client is the one the conversation was created for, or nobody in particular is asking or owns it. */
  predicate MayAsk(s: Store, id: string, client: Option<string>)
  {
    client.None? || client.value == "" || OwnerOf(s, id) in {None, client}
  }

  /**
   * Over every run, a conversation in the map is found by whoever may ask for it exactly
   * while no more than one TTL has passed since its last recorded turn, or since it was
   * created if it has none.
   */
  lemma FoundExactlyWhileActive(trace: seq<World>, steps: seq<Step>, limits: Limits, i: nat, id: string, client: Option<string>)
    requires Run(trace, steps, limits) && i < |trace|
    ensures Got(trace[i].store, limits, id, client, trace[i].now) == Found(id) <==>
            id in trace[i].store.order && MayAsk(trace[i].store, id, client) && StillActive(trace, limits, i, id)
    ensures Got(trace[i].store, limits, id, client, trace[i].now) in {Found(id), NotFound}
  {
    TimesAlwaysAgree(trace, steps, limits, i);
  }

  /** The ids of a list that are still active, in order. */
  ghost predicate KeepsTheActive(trace: seq<World>, limits: Limits, i: nat, kept: seq<string>)
    requires i < |trace|
  {
    exists active: string -> bool ::
      && (forall id :: active(id) <==> StillActive(trace, limits, i, id))
      && kept == Filter(trace[i].store.order, active)
  }

  /** What a sweep leaves in the map. */
  lemma SweepKeepsTheActive(trace: seq<World>, steps: seq<Step>, limits: Limits, i: nat)
    requires Run(trace, steps, limits) && i < |trace|
    ensures KeepsTheActive(trace, limits, i, WithoutExpired(trace[i].store, trace[i].now, limits.ttlMs).order)
  {
    TimesAlwaysAgree(trace, steps, limits, i);
    var active := IsLive(trace[i].store, trace[i].now, limits.ttlMs);
    assert forall id :: active(id) <==> StillActive(trace, limits, i, id);
  }

  /** Reading the statistics drops exactly the conversations that are no longer active. */
  lemma StatsDropExactlyTheInactive(trace: seq<World>, steps: seq<Step>, limits: Limits, i: nat)
    requires Run(trace, steps, limits) && i < |steps| && steps[i].ReadStats?
    ensures KeepsTheActive(trace, limits, i, trace[i + 1].store.order)
  {
    SweepKeepsTheActive(trace, steps, limits, i);
  }

  /**
   * Creating a conversation drops exactly those, and one more only if the active ones fill
   * every slot: the one at the front, inactive for longest. The new one comes last, and is
   * its client's.
   */
  lemma CreationDropsExactly(trace: seq<World>, steps: seq<Step>, limits: Limits, i: nat, client: Option<string>, freshId: string)
    requires Run(trace, steps, limits) && i < |steps|
    requires steps[i] == CreateSession(client, freshId)
             || (steps[i].Begin? && !Given(steps[i].conversation) && steps[i].client == client && steps[i].freshId == freshId)
    ensures exists active: seq<string> ::
              && KeepsTheActive(trace, limits, i, active)
              && trace[i + 1].store.order == (if |active| < limits.maxSessions then active else active[1..]) + [freshId]
              && (forall id :: id in active && |active| >= limits.maxSessions ==>
                    active[0] in trace[i].store.objects && id in trace[i].store.objects
                    && ActiveAt(trace, i, active[0]) <= ActiveAt(trace, i, id))
    ensures OwnerOf(trace[i + 1].store, freshId) == if Given(client) then client else None
  {
    RunKeeps(trace, steps, limits, i);
    SweepKeepsTheActive(trace, steps, limits, i);
    TimesAlwaysAgree(trace, steps, limits, i);
    var s, now := trace[i].store, trace[i].now;
    CreateEvictsExactly(s, limits, freshId, client, now);
    var active := Filter(s.order, IsLive(s, now, limits.ttlMs));
    assert KeepsTheActive(trace, limits, i, active);
  }

  /** Asking for a conversation forgets it if it is no longer active, and changes nothing else. */
  lemma AskingForgetsTheInactive(trace: seq<World>, steps: seq<Step>, limits: Limits, i: nat, id: string)
    requires Run(trace, steps, limits) && i < |steps| && steps[i].GetSession? && steps[i].id == id
    ensures id in trace[i + 1].store.order <==> id in trace[i].store.order && StillActive(trace, limits, i, id)
    ensures forall other :: other != id ==> (other in trace[i + 1].store.order <==> other in trace[i].store.order)
  {
    TimesAlwaysAgree(trace, steps, limits, i);
    FilterSubset(trace[i].store.order, IsNot(id));
  }

  /** Deleting takes out the conversation, active or not, if whoever asks may; and no other. */
  lemma DeletingTakesOutOne(trace: seq<World>, steps: seq<Step>, limits: Limits, i: nat, id: string, client: Option<string>)
    requires Run(trace, steps, limits) && i < |steps| && steps[i] == DeleteSession(id, client)
    ensures id in trace[i + 1].store.order <==> id in trace[i].store.order && !MayAsk(trace[i].store, id, client)
    ensures forall other :: other != id ==> (other in trace[i + 1].store.order <==> other in trace[i].store.order)
  {
    FilterSubset(trace[i].store.order, IsNot(id));
  }

  /** A question on a conversation starts exactly when its client finds it; one on none starts a new one. */
  lemma QuestionsStartWhere(trace: seq<World>, steps: seq<Step>, limits: Limits, i: nat)
    requires Run(trace, steps, limits) && i < |steps| && steps[i].Begin?
    ensures |trace[i + 1].calls| == |trace[i].calls| + 1
    ensures var call, step := trace[i + 1].calls[|trace[i].calls|], steps[i];
            && call.question == step.question
            && (if step.conversation.Some? && step.conversation.value != "" then
                  var id := step.conversation.value;
                  call.conversation == id
                  && call.phase == if id in trace[i].store.order && MayAsk(trace[i].store, id, step.client) && StillActive(trace, limits, i, id)
                                   then AwaitingSchema else Failed
                else
                  call.conversation == step.freshId && call.phase == AwaitingSchema && step.freshId in trace[i + 1].store.order)
  {
    if Given(steps[i].conversation) {
      FoundExactlyWhileActive(trace, steps, limits, i, steps[i].conversation.value, steps[i].client);
    }
  }

  // ---------------------------------------------------------------- what an answer comes to

  /** The provider's answer that says this, in its four properties. */
  function AnswerNode(g: SqlGeneration): (r: Json)
  {
    Obj([Field("answerable", Bool(g.answerable)), Field("sql", Str(g.sql)), Field("explanation", Str(g.explanation)),
         Field("tables", Arr(Map(g.tables, (t: string) => Str(t))))])
  }

  lemma StringsAreKept(items: seq<Json>, texts: seq<string>)
    requires |items| == |texts| && forall i :: 0 <= i < |items| ==> items[i] == Str(texts[i])
    ensures StringsOf(items) == texts
  {
    FilterAll(items, IsString());
  }

  /** What the provider says is what is understood: the query trimmed, and no query where there is no answer. */
  lemma AnswersAreUnderstood(g: SqlGeneration)
    ensures ParseAnswer(Some(AnswerNode(g)))
         == if g.answerable && Trim(g.sql) == "" then None
            else Some(g.(sql := if g.answerable then Trim(g.sql) else ""))
  {
    var fields := AnswerNode(g).fields;
    assert Get(fields, "answerable") == Some(Bool(g.answerable));
    assert fields[1..][0].key == "sql";
    assert Get(fields, "sql") == Get(fields[1..], "sql") == Some(Str(g.sql));
    assert Get(fields, "explanation") == Get(fields[1..], "explanation") == Get(fields[1..][1..], "explanation");
    assert Get(fields, "tables") == Get(fields[1..], "tables") == Get(fields[1..][1..], "tables")
        == Get(fields[1..][1..][1..], "tables");
    StringsAreKept(fields[3].value.items, g.tables);
  }

  /**
   * When the model answers, the call completes exactly if the answer is understood and its
   * conversation is in the map and still active; then one turn is recorded, of its question
   * and that answer, dated now. Otherwise it fails and nothing is.
   */
  lemma CompletesExactlyWhen(trace: seq<World>, steps: seq<Step>, limits: Limits, i: nat)
    requires Run(trace, steps, limits) && i < |steps| && steps[i].ModelAnswers?
    ensures var c := steps[i].call;
            && c < |trace[i].calls| == |trace[i + 1].calls|
            && var call, generation := trace[i].calls[c], ParseAnswer(steps[i].answer);
               if generation.Some? && call.conversation in trace[i].store.order && StillActive(trace, limits, i, call.conversation) then
                 && trace[i + 1].calls[c].phase == Completed(generation.value)
                 && trace[i + 1].log == trace[i].log
                                        + [Entry(c, call.conversation, Turn(call.question, generation.value, trace[i].now))]
               else
                 trace[i + 1].calls[c].phase == Failed && trace[i + 1].log == trace[i].log
  {
    FoundExactlyWhileActive(trace, steps, limits, i, trace[i].calls[steps[i].call].conversation, None);
  }
}
