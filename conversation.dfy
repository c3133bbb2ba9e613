/**
 * The `useMessages(id)` hook as an object: the reducer state it holds, the
 * conversation id its load effect is keyed on, and the operations it hands
 * out. Generated ids and timestamps are parameters; the persisted
 * conversations are a store fixed at construction.
 */
module MessagesController {
  import opened Wrappers
  import opened JsonValue
  import opened Messages

  class Conversation {
    /** The `id` argument of the latest render; the load effect re-runs when it changes. */
    var boundId: Id
    /** The reducer state; its own `id` is fixed by the first render. */
    var state: State
    /** What LOAD_MESSAGES reads: the persisted messages, by conversation id. */
    const store: Store

    /** The first render: `useReducer`'s initial state, before any effect has run. */
    constructor (id: Id, store: Store)
      ensures boundId == id && this.store == store
      ensures state == State(id, Metadata(None, None), [])
    {
      boundId := id;
      state := State(id, Metadata(None, None), []);
      this.store := store;
    }

    /** `dispatch`: the state becomes the reducer's result. */
    method Dispatch(c: Command)
      modifies this
      ensures boundId == old(boundId)
      ensures state == Reduce(old(state), c, store)
    {
      state := Reduce(state, c, store);
    }

    /** The mount effect: the messages are replaced by the persisted ones of the bound id. */
    method Mount()
      modifies this
      ensures boundId == old(boundId)
      ensures state == old(state).(messages := LoadedMessages(store, boundId))
    {
      Dispatch(LoadMessages(boundId));
    }

    /**
     * A later render with `id`: when it differs from the bound id the effect
     * loads that conversation's messages. The state's own `id` stays the one
     * of the first render.
     */
    method Rerender(id: Id)
      modifies this
      ensures boundId == id
      ensures id == old(boundId) ==> state == old(state)
      ensures id != old(boundId) ==> state == old(state).(messages := LoadedMessages(store, id))
      ensures state.id == old(state.id)
    {
      if id != boundId {
        boundId := id;
        Dispatch(LoadMessages(id));
      }
    }

    /** `getMesssage(messageId, offset)`: the message `offset` places after the one with `messageId`. */
    function GetMessage(messageId: Id, offset: int): (r: Option<Message>)
      reads this
      ensures r.Some? <==> 0 <= IndexOf(state.messages, messageId) + offset < |state.messages|
      ensures r.Some? ==> r.value == state.messages[IndexOf(state.messages, messageId) + offset]
    {
      MessageAt(state.messages, messageId, offset)
    }

    /** `addUserMessage`: appends a USER_MESSAGE with the generated id and timestamp and returns the id. */
    method AddUserMessage(newId: Id, timestamp: int, fields: Fields) returns (id: Id)
      modifies this
      ensures id == newId && boundId == old(boundId)
      ensures state == old(state).(messages := old(state.messages) + [UserMessage(newId, timestamp, fields)])
    {
      Dispatch(Command.AddUserMessage(newId, timestamp, fields));
      id := newId;
    }

    /** `addBotMessage`: appends a BOT_MESSAGE with the generated id and timestamp and returns the id. */
    method AddBotMessage(newId: Id, timestamp: int, steps: Option<seq<Step>>, fields: Fields) returns (id: Id)
      modifies this
      ensures id == newId && boundId == old(boundId)
      ensures state == old(state).(messages := old(state.messages) + [BotMessage(newId, timestamp, steps.GetOr([]), fields)])
    {
      Dispatch(Command.AddBotMessage(newId, timestamp, steps, fields));
      id := newId;
    }

    /** `updateUserMessage`: merges the patch into the message with `messageId`. */
    method UpdateUserMessage(messageId: Id, patch: Fields)
      modifies this
      ensures boundId == old(boundId)
      ensures state == old(state).(messages := MergeUserMessage(old(state.messages), messageId, patch))
    {
      Dispatch(Command.UpdateUserMessage(messageId, patch));
    }

    /** `addBotStep`: gives the step the generated id and timestamp, appends it, returns the id. */
    method AddBotStep(messageId: Id, newId: Id, timestamp: int, step: Step) returns (id: Id)
      modifies this
      ensures id == newId && boundId == old(boundId)
      ensures state == old(state).(messages := AppendBotStep(old(state.messages), messageId, step.(id := newId, timestamp := timestamp)))
    {
      Dispatch(Command.AddBotStep(messageId, step.(id := newId, timestamp := timestamp)));
      id := newId;
    }

    /** `updateBotStep` as written: it only logs its arguments, so nothing changes. */
    method UpdateBotStepAsWritten(messageId: Id, stepId: Id, patch: StepPatch)
      ensures state == old(state) && boundId == old(boundId)
    {
    }

    /** `updateBotStep` as evidently intended: dispatches UPDATE_BOT_STEP. */
    method UpdateBotStep(messageId: Id, stepId: Id, patch: StepPatch)
      modifies this
      ensures boundId == old(boundId)
      ensures state == old(state).(messages := MergeBotStep(old(state.messages), messageId, stepId, patch))
    {
      Dispatch(Command.UpdateBotStep(messageId, stepId, patch));
    }

    /** `addBotAction`: gives the action the generated id and timestamp, appends it, returns the id. */
    method AddBotAction(messageId: Id, stepId: Id, newId: Id, timestamp: int, action: Action) returns (id: Id)
      modifies this
      ensures id == newId && boundId == old(boundId)
      ensures state == old(state).(messages := AppendBotAction(old(state.messages), messageId, stepId, action.(id := newId, timestamp := timestamp)))
    {
      Dispatch(Command.AddBotAction(messageId, stepId, action.(id := newId, timestamp := timestamp)));
      id := newId;
    }

    /** `updateBotAction`: merges the patch into the addressed action. */
    method UpdateBotAction(messageId: Id, stepId: Id, actionId: Id, patch: Fields)
      modifies this
      ensures boundId == old(boundId)
      ensures state == old(state).(messages := MergeBotAction(old(state.messages), messageId, stepId, actionId, patch))
    {
      Dispatch(Command.UpdateBotAction(messageId, stepId, actionId, patch));
    }

    /** `clearMessages`: empties the list, keeping the conversation id and metadata. */
    method ClearMessages()
      modifies this
      ensures boundId == old(boundId)
      ensures state == old(state).(messages := [])
    {
      Dispatch(Command.ClearMessages);
    }

    /**
     * `findLastUserMessage(id)`: scans downwards from just before the message
     * with `id` and returns the first USER_MESSAGE met; nothing when `id` is
     * absent or no user message precedes it.
     */
    method FindLastUserMessage(id: Id) returns (r: Option<Message>)
      ensures r == LastUserMessageBefore(state.messages, id)
    {
      var msgs := state.messages;
      var k := IndexOf(msgs, id);
      if k == -1 {
        return None;
      }
      var i := k - 1;
      while i >= 0
        invariant -1 <= i < k
        invariant forall j :: i < j < k ==> !msgs[j].UserMessage?
        decreases i
      {
        if msgs[i].UserMessage? {
          return Some(msgs[i]);
        }
        i := i - 1;
      }
      return None;
    }
  }

  /**
   * The defect `updateBotStep` hides: on a state holding the addressed step
   * the UPDATE_BOT_STEP command it should dispatch does change the messages,
   * while UpdateBotStepAsWritten leaves them as they were.
   */
  lemma {:induction false} UpdateBotStepIsLost(store: Store)
    ensures
      var step := MessageStep("s", 1, StepBody(map[], None), None, map[]);
      var s := State("c", Metadata(None, None), [BotMessage("m", 0, [step], map[])]);
      var patch := StepPatch(None, map["status" := Str("done")]);
      Reduce(s, Command.UpdateBotStep("m", "s", patch), store).messages != s.messages
  {
    var step := MessageStep("s", 1, StepBody(map[], None), None, map[]);
    var s := State("c", Metadata(None, None), [BotMessage("m", 0, [step], map[])]);
    var patch := StepPatch(None, map["status" := Str("done")]);
    var r := Reduce(s, Command.UpdateBotStep("m", "s", patch), store).messages;
    assert IsTargetBot(s.messages[0], "m") && IsTargetStep(step, "s");
    assert "status" in r[0].steps[0].fields && "status" !in step.fields;
  }
}
