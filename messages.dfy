/**
 * The conversation state and its transition function (the reducer behind
 * `useMessages`). A conversation is an ordered list of messages; a bot
 * message owns an ordered list of steps; a MESSAGE_STEP owns an ordered list
 * of actions. Every command rebuilds only the path from the root to the
 * entity it touches, and a command whose target is missing returns the
 * messages unchanged.
 *
 * This module is the corrected reducer: where the source as written loses
 * data (see module MessagesAsWritten) it follows the evident intent.
 */
module Messages {
  import opened Wrappers
  import opened JsonValue

  type Id = string

  /** The caller-supplied fields of an entity besides its identity (id, type, timestamp). */
  type Fields = map<string, Json>

  datatype Action = Action(id: Id, timestamp: int, kind: string, fields: Fields)

  /** The `message` object of a MESSAGE_STEP: its content and its list of actions. */
  datatype StepBody = StepBody(content: Fields, actions: Option<seq<Action>>)

  /**
   * A step of a bot message. Only MESSAGE_STEP is modelled in detail; every
   * other kind is an OtherStep. `actions` is the step-level property that only
   * the reducer as written assigns; the action list proper is `message.actions`.
   */
  datatype Step =
    | MessageStep(id: Id, timestamp: int, message: StepBody, actions: Option<seq<Action>>, fields: Fields)
    | OtherStep(id: Id, timestamp: int, kind: string, fields: Fields)

  datatype Message =
    | UserMessage(id: Id, timestamp: int, fields: Fields)
    | BotMessage(id: Id, timestamp: int, steps: seq<Step>, fields: Fields)

  datatype Metadata = Metadata(title: Option<string>, description: Option<string>)

  datatype State = State(id: Id, metadata: Metadata, messages: seq<Message>)

  /** The persisted conversations, by conversation id. */
  type Store = map<Id, seq<Message>>

  /** A partial MESSAGE_STEP: a replacement `message` object and content fields to overlay. */
  datatype StepPatch = StepPatch(message: Option<StepBody>, fields: Fields)

  /** The nine reducer commands. */
  datatype Command =
    | AddUserMessage(id: Id, timestamp: int, fields: Fields)
    | AddBotMessage(id: Id, timestamp: int, steps: Option<seq<Step>>, fields: Fields)
    | UpdateUserMessage(id: Id, updates: Fields)
    | AddBotStep(messageId: Id, step: Step)
    | UpdateBotStep(messageId: Id, stepId: Id, stepUpdates: StepPatch)
    | AddBotAction(messageId: Id, stepId: Id, action: Action)
    | UpdateBotAction(messageId: Id, stepId: Id, actionId: Id, actionUpdates: Fields)
    | LoadMessages(conversationId: Id)
    | ClearMessages

  // ---------------------------------------------------------------------
  // Lookup

  /** `findIndex` by id: the first position holding `id`, or -1 when none does. */
  function IndexOf(msgs: seq<Message>, id: Id): (i: int)
    ensures -1 <= i < |msgs|
    ensures 0 <= i ==> msgs[i].id == id
    ensures forall j :: 0 <= j < |msgs| && (i < 0 || j < i) ==> msgs[j].id != id
  {
    if msgs == [] then -1
    else if msgs[0].id == id then 0
    else
      var k := IndexOf(msgs[1..], id);
      if k < 0 then -1 else k + 1
  }

  /** `{...base, ...patch}` on the content fields: the patch wins, every other field is kept. */
  function Overlay(base: Fields, patch: Fields): (r: Fields)
    ensures r.Keys == base.Keys + patch.Keys
    ensures forall k :: k in patch ==> r[k] == patch[k]
    ensures forall k :: k in base && k !in patch ==> r[k] == base[k]
  {
    base + patch
  }

  predicate IsTargetBot(m: Message, messageId: Id) {
    m.BotMessage? && m.id == messageId
  }

  predicate IsTargetStep(s: Step, stepId: Id) {
    s.MessageStep? && s.id == stepId
  }

  /** `messages.map(...)` replacing the steps of every BOT_MESSAGE with id `messageId` by `f` of them. */
  function MapTargetSteps(msgs: seq<Message>, messageId: Id, f: seq<Step> -> seq<Step>): (r: seq<Message>)
    ensures |r| == |msgs|
    ensures forall i :: 0 <= i < |msgs| ==>
      r[i] == if IsTargetBot(msgs[i], messageId) then msgs[i].(steps := f(msgs[i].steps)) else msgs[i]
  {
    seq(|msgs|, i requires 0 <= i < |msgs| =>
      if IsTargetBot(msgs[i], messageId) then msgs[i].(steps := f(msgs[i].steps)) else msgs[i])
  }

  /** `steps.map(...)` replacing every MESSAGE_STEP with id `stepId` by `g` of it. */
  function MapTargetStep(steps: seq<Step>, stepId: Id, g: Step -> Step): (r: seq<Step>)
    ensures |r| == |steps|
    ensures forall k :: 0 <= k < |steps| ==>
      r[k] == if IsTargetStep(steps[k], stepId) then g(steps[k]) else steps[k]
  {
    seq(|steps|, k requires 0 <= k < |steps| =>
      if IsTargetStep(steps[k], stepId) then g(steps[k]) else steps[k])
  }

  // ---------------------------------------------------------------------
  // The commands

  /** ADD_USER_MESSAGE: the payload goes last, nothing before it moves. */
  function AppendUserMessage(msgs: seq<Message>, id: Id, timestamp: int, fields: Fields): (r: seq<Message>)
    ensures |r| == |msgs| + 1
    ensures r[..|msgs|] == msgs
    ensures r[|msgs|] == UserMessage(id, timestamp, fields)
  {
    msgs + [UserMessage(id, timestamp, fields)]
  }

  /** ADD_BOT_MESSAGE: the payload goes last, its missing `steps` becoming the empty list. */
  function AppendBotMessage(msgs: seq<Message>, id: Id, timestamp: int, steps: Option<seq<Step>>, fields: Fields): (r: seq<Message>)
    ensures |r| == |msgs| + 1
    ensures r[..|msgs|] == msgs
    ensures r[|msgs|].BotMessage? && r[|msgs|].id == id && r[|msgs|].timestamp == timestamp
    ensures r[|msgs|].fields == fields
    ensures steps.None? ==> r[|msgs|].steps == []
    ensures steps.Some? ==> r[|msgs|].steps == steps.value
  {
    msgs + [BotMessage(id, timestamp, steps.GetOr([]), fields)]
  }

  /** Merges a patch into a message: identity and steps are kept, the fields overlaid. */
  function MergeMessage(m: Message, patch: Fields): (r: Message)
    ensures r.id == m.id && r.timestamp == m.timestamp
    ensures r.UserMessage? == m.UserMessage?
    ensures r.BotMessage? ==> r.steps == m.steps
    ensures r.fields == Overlay(m.fields, patch)
  {
    m.(fields := Overlay(m.fields, patch))
  }

  /**
   * UPDATE_USER_MESSAGE, corrected: the message with `id` is merged in place
   * and every other message, before or after it, is kept; an absent id
   * changes nothing.
   */
  function MergeUserMessage(msgs: seq<Message>, id: Id, patch: Fields): (r: seq<Message>)
    ensures |r| == |msgs|
    ensures IndexOf(msgs, id) < 0 ==> r == msgs
    ensures 0 <= IndexOf(msgs, id) ==> r[IndexOf(msgs, id)] == MergeMessage(msgs[IndexOf(msgs, id)], patch)
    ensures forall j :: 0 <= j < |msgs| && j != IndexOf(msgs, id) ==> r[j] == msgs[j]
  {
    var i := IndexOf(msgs, id);
    if i < 0 then msgs else msgs[i := MergeMessage(msgs[i], patch)]
  }

  /**
   * ADD_BOT_STEP: the step goes last in the steps of the bot message with
   * `messageId`; user messages and other bot messages are untouched, and a
   * missing or non-bot target leaves the list as it was.
   */
  function AppendBotStep(msgs: seq<Message>, messageId: Id, step: Step): (r: seq<Message>)
    ensures |r| == |msgs|
    ensures forall i :: 0 <= i < |msgs| && !IsTargetBot(msgs[i], messageId) ==> r[i] == msgs[i]
    ensures forall i :: 0 <= i < |msgs| && IsTargetBot(msgs[i], messageId) ==>
      r[i] == msgs[i].(steps := msgs[i].steps + [step])
    ensures (forall i :: 0 <= i < |msgs| ==> !IsTargetBot(msgs[i], messageId)) ==> r == msgs
  {
    MapTargetSteps(msgs, messageId, steps => steps + [step])
  }

  /** `{...step, ...updates}` on a MESSAGE_STEP: id, timestamp and actions stay, `message` is replaced if the patch names it. */
  function OverlayStep(s: Step, patch: StepPatch): (r: Step)
    ensures r.id == s.id && r.timestamp == s.timestamp && r.MessageStep? == s.MessageStep?
    ensures s.MessageStep? ==> r.actions == s.actions
    ensures s.MessageStep? ==> r.message == patch.message.GetOr(s.message)
    ensures r.fields == if s.MessageStep? then Overlay(s.fields, patch.fields) else s.fields
  {
    if s.MessageStep? then
      s.(message := patch.message.GetOr(s.message), fields := Overlay(s.fields, patch.fields))
    else s
  }

  /**
   * UPDATE_BOT_STEP: the patch lands only on MESSAGE_STEPs with `stepId`
   * inside bot messages with `messageId`; every other step and message is
   * untouched and no step count changes.
   */
  function MergeBotStep(msgs: seq<Message>, messageId: Id, stepId: Id, patch: StepPatch): (r: seq<Message>)
    ensures |r| == |msgs|
    ensures forall i :: 0 <= i < |msgs| && !IsTargetBot(msgs[i], messageId) ==> r[i] == msgs[i]
    ensures forall i :: 0 <= i < |msgs| && IsTargetBot(msgs[i], messageId) ==>
      && r[i].BotMessage? && r[i].id == msgs[i].id && r[i].timestamp == msgs[i].timestamp
      && r[i].fields == msgs[i].fields && |r[i].steps| == |msgs[i].steps|
      && forall k :: 0 <= k < |msgs[i].steps| ==>
           r[i].steps[k] == if IsTargetStep(msgs[i].steps[k], stepId) then OverlayStep(msgs[i].steps[k], patch) else msgs[i].steps[k]
  {
    MapTargetSteps(msgs, messageId, steps => MapTargetStep(steps, stepId, s => OverlayStep(s, patch)))
  }

  /** The action list of a step: `message.actions`, empty when absent. */
  function ActionsOf(s: Step): seq<Action> {
    if s.MessageStep? && s.message.actions.Some? then s.message.actions.value else []
  }

  /** Appends an action to a MESSAGE_STEP's action list, creating the list when absent. */
  function PushAction(s: Step, a: Action): (r: Step)
    ensures r.id == s.id && r.MessageStep? == s.MessageStep?
    ensures s.MessageStep? ==> ActionsOf(r) == ActionsOf(s) + [a] && r.message.content == s.message.content
    ensures s.MessageStep? ==> r.actions == s.actions && r.fields == s.fields && r.timestamp == s.timestamp
    ensures s.OtherStep? ==> r == s
  {
    if s.MessageStep? then s.(message := s.message.(actions := Some(ActionsOf(s) + [a]))) else s
  }

  /** ADD_BOT_ACTION, corrected: the action goes last in the target step's `message.actions`. */
  function AppendBotAction(msgs: seq<Message>, messageId: Id, stepId: Id, a: Action): (r: seq<Message>)
    ensures |r| == |msgs|
    ensures forall i :: 0 <= i < |msgs| && !IsTargetBot(msgs[i], messageId) ==> r[i] == msgs[i]
    ensures forall i :: 0 <= i < |msgs| && IsTargetBot(msgs[i], messageId) ==>
      && r[i].BotMessage? && r[i].id == msgs[i].id && r[i].timestamp == msgs[i].timestamp
      && r[i].fields == msgs[i].fields && |r[i].steps| == |msgs[i].steps|
      && forall k :: 0 <= k < |msgs[i].steps| ==>
           r[i].steps[k] == if IsTargetStep(msgs[i].steps[k], stepId) then PushAction(msgs[i].steps[k], a) else msgs[i].steps[k]
  {
    MapTargetSteps(msgs, messageId, steps => MapTargetStep(steps, stepId, s => PushAction(s, a)))
  }

  /** Merges a patch into every action with `actionId`; the others are kept. */
  function MergeActions(actions: seq<Action>, actionId: Id, patch: Fields): (r: seq<Action>)
    ensures |r| == |actions|
    ensures forall j :: 0 <= j < |actions| ==> r[j].id == actions[j].id && r[j].timestamp == actions[j].timestamp && r[j].kind == actions[j].kind
    ensures forall j :: 0 <= j < |actions| ==>
      r[j].fields == if actions[j].id == actionId then Overlay(actions[j].fields, patch) else actions[j].fields
  {
    seq(|actions|, j requires 0 <= j < |actions| =>
      if actions[j].id == actionId then actions[j].(fields := Overlay(actions[j].fields, patch)) else actions[j])
  }

  /** Patches the actions of a MESSAGE_STEP's `message.actions`; a step with no action list is unchanged. */
  function PatchStepActions(s: Step, actionId: Id, patch: Fields): (r: Step)
    ensures r.id == s.id && r.MessageStep? == s.MessageStep?
    ensures s.OtherStep? || s.message.actions.None? ==> r == s
    ensures s.MessageStep? && s.message.actions.Some? ==>
      r == s.(message := s.message.(actions := Some(MergeActions(s.message.actions.value, actionId, patch))))
  {
    if s.MessageStep? && s.message.actions.Some? then
      s.(message := s.message.(actions := Some(MergeActions(s.message.actions.value, actionId, patch))))
    else s
  }

  /** UPDATE_BOT_ACTION, corrected: the patch lands on the action with `actionId` of the target step. */
  function MergeBotAction(msgs: seq<Message>, messageId: Id, stepId: Id, actionId: Id, patch: Fields): (r: seq<Message>)
    ensures |r| == |msgs|
    ensures forall i :: 0 <= i < |msgs| && !IsTargetBot(msgs[i], messageId) ==> r[i] == msgs[i]
    ensures forall i :: 0 <= i < |msgs| && IsTargetBot(msgs[i], messageId) ==>
      && r[i].BotMessage? && r[i].id == msgs[i].id && r[i].timestamp == msgs[i].timestamp
      && r[i].fields == msgs[i].fields && |r[i].steps| == |msgs[i].steps|
      && forall k :: 0 <= k < |msgs[i].steps| ==>
           r[i].steps[k] == if IsTargetStep(msgs[i].steps[k], stepId) then PatchStepActions(msgs[i].steps[k], actionId, patch) else msgs[i].steps[k]
  {
    MapTargetSteps(msgs, messageId, steps => MapTargetStep(steps, stepId, s => PatchStepActions(s, actionId, patch)))
  }

  /** LOAD_MESSAGES: the store's list for the conversation; a miss gives the empty list. */
  function LoadedMessages(store: Store, conversationId: Id): (r: seq<Message>)
    ensures conversationId in store ==> r == store[conversationId]
    ensures conversationId !in store ==> r == []
  {
    if conversationId in store then store[conversationId] else []
  }

  /** The reducer: every command replaces `messages` only, keeping `id` and `metadata`. */
  function Reduce(s: State, c: Command, store: Store): (r: State)
    ensures r.id == s.id && r.metadata == s.metadata
    ensures c.ClearMessages? ==> r.messages == []
    ensures c.LoadMessages? ==> r.messages == LoadedMessages(store, c.conversationId)
    ensures !c.LoadMessages? && !c.ClearMessages? && !c.AddUserMessage? && !c.AddBotMessage? ==> |r.messages| == |s.messages|
    ensures c.AddUserMessage? || c.AddBotMessage? ==> |r.messages| == |s.messages| + 1 && r.messages[..|s.messages|] == s.messages
  {
    var msgs := s.messages;
    var next :=
      match c
      case AddUserMessage(id, ts, fields) => AppendUserMessage(msgs, id, ts, fields)
      case AddBotMessage(id, ts, steps, fields) => AppendBotMessage(msgs, id, ts, steps, fields)
      case UpdateUserMessage(id, patch) => MergeUserMessage(msgs, id, patch)
      case AddBotStep(mid, step) => AppendBotStep(msgs, mid, step)
      case UpdateBotStep(mid, sid, patch) => MergeBotStep(msgs, mid, sid, patch)
      case AddBotAction(mid, sid, a) => AppendBotAction(msgs, mid, sid, a)
      case UpdateBotAction(mid, sid, aid, patch) => MergeBotAction(msgs, mid, sid, aid, patch)
      case LoadMessages(cid) => LoadedMessages(store, cid)
      case ClearMessages => [];
    s.(messages := next)
  }

  // ---------------------------------------------------------------------
  // Queries

  /** `getMesssage(id, offset)`: the message at `findIndex(id) + offset`, where an absent id counts as index -1. */
  function MessageAt(msgs: seq<Message>, id: Id, offset: int): (r: Option<Message>)
    ensures r.Some? <==> 0 <= IndexOf(msgs, id) + offset < |msgs|
    ensures r.Some? ==> r.value == msgs[IndexOf(msgs, id) + offset]
  {
    var k := IndexOf(msgs, id) + offset;
    if 0 <= k < |msgs| then Some(msgs[k]) else None
  }

  /** The greatest index below `k` holding a USER_MESSAGE, or -1 when there is none. */
  function LastUserBelow(msgs: seq<Message>, k: nat): (i: int)
    requires k <= |msgs|
    ensures -1 <= i < k
    ensures 0 <= i ==> msgs[i].UserMessage?
    ensures forall j :: i < j < k ==> !msgs[j].UserMessage?
  {
    if k == 0 then -1
    else if msgs[k - 1].UserMessage? then k - 1
    else LastUserBelow(msgs, k - 1)
  }

  /**
   * `findLastUserMessage(id)`: nothing when `id` is absent; otherwise the
   * nearest USER_MESSAGE strictly before it, or nothing when there is none.
   */
  function LastUserMessageBefore(msgs: seq<Message>, id: Id): (r: Option<Message>)
    ensures IndexOf(msgs, id) < 0 ==> r.None?
    ensures r.Some? ==> r.value.UserMessage?
    ensures r.Some? ==>
      exists i :: 0 <= i < IndexOf(msgs, id) && msgs[i] == r.value &&
        forall j :: i < j < IndexOf(msgs, id) ==> !msgs[j].UserMessage?
    ensures r.None? && 0 <= IndexOf(msgs, id) ==>
      forall j :: 0 <= j < IndexOf(msgs, id) ==> !msgs[j].UserMessage?
  {
    var k := IndexOf(msgs, id);
    if k < 0 then None
    else
      var i := LastUserBelow(msgs, k);
      if i < 0 then None else Some(msgs[i])
  }
}
