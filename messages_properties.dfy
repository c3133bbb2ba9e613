/**
 * Properties of the conversation reducer that relate several commands or
 * hold over whole command sequences: unique ids are kept, commands addressed
 * to a missing target change nothing, additions keep dispatch order, updates
 * are idempotent, and the nested add/update scenario ends where it should.
 */
module MessagesProperties {
  import opened Wrappers
  import opened JsonValue
  import opened Messages

  /** No two messages of the conversation share an id. */
  predicate UniqueIds(msgs: seq<Message>) {
    forall i, j :: 0 <= i < j < |msgs| ==> msgs[i].id != msgs[j].id
  }

  /** Two message lists agree position by position on ids. */
  predicate SameIds(a: seq<Message>, b: seq<Message>) {
    |a| == |b| && forall i :: 0 <= i < |a| ==> a[i].id == b[i].id
  }

  lemma {:induction false} IndexOfSameIds(a: seq<Message>, b: seq<Message>, id: Id)
    requires SameIds(a, b)
    ensures IndexOf(a, id) == IndexOf(b, id)
  {
    if a != [] && a[0].id != id {
      IndexOfSameIds(a[1..], b[1..], id);
    }
  }

  /** The commands that touch an existing message and never add or remove one. */
  predicate IsInPlace(c: Command) {
    c.UpdateUserMessage? || c.AddBotStep? || c.UpdateBotStep? || c.AddBotAction? || c.UpdateBotAction?
  }

  /** Commands acting inside existing messages keep every message's position, id and kind. */
  lemma {:induction false} InPlaceCommandsKeepIdentity(s: State, c: Command, store: Store)
    requires IsInPlace(c)
    ensures SameIds(Reduce(s, c, store).messages, s.messages)
    ensures forall i :: 0 <= i < |s.messages| ==>
      Reduce(s, c, store).messages[i].UserMessage? == s.messages[i].UserMessage?
  {
    var r := Reduce(s, c, store).messages;
    forall i | 0 <= i < |s.messages|
      ensures r[i].id == s.messages[i].id && r[i].UserMessage? == s.messages[i].UserMessage?
    {
      if c.UpdateUserMessage? {
        var k := IndexOf(s.messages, c.id);
        if i == k { assert r[i] == MergeMessage(s.messages[i], c.updates); }
      }
    }
  }

  /**
   * Every command keeps ids unique, provided that a new message's id is not
   * already in use and that the stored list being loaded is itself unique.
   */
  lemma {:induction false} ReduceKeepsIdsUnique(s: State, c: Command, store: Store)
    requires UniqueIds(s.messages)
    requires c.AddUserMessage? || c.AddBotMessage? ==> IndexOf(s.messages, c.id) < 0
    requires c.LoadMessages? ==> UniqueIds(LoadedMessages(store, c.conversationId))
    ensures UniqueIds(Reduce(s, c, store).messages)
  {
    var r := Reduce(s, c, store).messages;
    if IsInPlace(c) {
      InPlaceCommandsKeepIdentity(s, c, store);
    } else if c.AddUserMessage? || c.AddBotMessage? {
      assert r[|s.messages|].id == c.id;
      forall i, j | 0 <= i < j < |r| ensures r[i].id != r[j].id {
        if j < |s.messages| {
          assert r[i] == s.messages[i] && r[j] == s.messages[j];
        } else {
          assert r[i] == s.messages[i];
        }
      }
    }
  }

  /** How many messages an ADD_BOT_STEP with `messageId` reaches. */
  function TargetCount(msgs: seq<Message>, messageId: Id): nat {
    if msgs == [] then 0
    else (if IsTargetBot(msgs[0], messageId) then 1 else 0) + TargetCount(msgs[1..], messageId)
  }

  /** The number of steps over all bot messages. */
  function TotalSteps(msgs: seq<Message>): nat {
    if msgs == [] then 0
    else (if msgs[0].BotMessage? then |msgs[0].steps| else 0) + TotalSteps(msgs[1..])
  }

  /** ADD_BOT_STEP adds exactly one step per bot message it reaches, and no other. */
  lemma {:induction false} AppendBotStepCount(msgs: seq<Message>, messageId: Id, step: Step)
    ensures TotalSteps(AppendBotStep(msgs, messageId, step)) == TotalSteps(msgs) + TargetCount(msgs, messageId)
  {
    if msgs != [] {
      var r := AppendBotStep(msgs, messageId, step);
      assert r[1..] == AppendBotStep(msgs[1..], messageId, step);
      AppendBotStepCount(msgs[1..], messageId, step);
    }
  }

  /** With unique ids, a bot message with the id is reached exactly once. */
  lemma {:induction false} UniqueTargetCount(msgs: seq<Message>, messageId: Id)
    requires UniqueIds(msgs)
    ensures TargetCount(msgs, messageId) == if 0 <= IndexOf(msgs, messageId) && msgs[IndexOf(msgs, messageId)].BotMessage? then 1 else 0
  {
    if msgs != [] {
      UniqueTargetCount(msgs[1..], messageId);
      if msgs[0].id == messageId {
        assert forall j :: 0 <= j < |msgs[1..]| ==> msgs[1..][j].id != messageId by {
          forall j | 0 <= j < |msgs[1..]| ensures msgs[1..][j].id != messageId {
            assert msgs[1..][j] == msgs[j + 1];
          }
        }
      }
    }
  }

  /** Append-only growth: with unique ids, ADD_BOT_STEP on a bot message grows the step total by one, otherwise by nothing. */
  lemma {:induction false} AddBotStepGrowsByOne(s: State, messageId: Id, step: Step, store: Store)
    requires UniqueIds(s.messages)
    ensures var k := IndexOf(s.messages, messageId);
      TotalSteps(Reduce(s, AddBotStep(messageId, step), store).messages)
        == TotalSteps(s.messages) + (if 0 <= k && s.messages[k].BotMessage? then 1 else 0)
  {
    AppendBotStepCount(s.messages, messageId, step);
    UniqueTargetCount(s.messages, messageId);
  }

  /** A bot message with `messageId` has no MESSAGE_STEP with `stepId`. */
  predicate NoTargetStep(msgs: seq<Message>, messageId: Id, stepId: Id) {
    forall i, k :: 0 <= i < |msgs| && IsTargetBot(msgs[i], messageId) && 0 <= k < |msgs[i].steps| ==>
      !IsTargetStep(msgs[i].steps[k], stepId)
  }

  /** Commands addressed to a missing step change nothing, whether the message or the step is missing. */
  lemma {:induction false} MissingStepIsNoOp(msgs: seq<Message>, messageId: Id, stepId: Id, patch: StepPatch, a: Action, actionId: Id, fields: Fields)
    requires NoTargetStep(msgs, messageId, stepId)
    ensures MergeBotStep(msgs, messageId, stepId, patch) == msgs
    ensures AppendBotAction(msgs, messageId, stepId, a) == msgs
    ensures MergeBotAction(msgs, messageId, stepId, actionId, fields) == msgs
  {
    var r1 := MergeBotStep(msgs, messageId, stepId, patch);
    var r2 := AppendBotAction(msgs, messageId, stepId, a);
    var r3 := MergeBotAction(msgs, messageId, stepId, actionId, fields);
    forall i | 0 <= i < |msgs| ensures r1[i] == msgs[i] && r2[i] == msgs[i] && r3[i] == msgs[i] {
      if IsTargetBot(msgs[i], messageId) {
        assert r1[i].steps == msgs[i].steps;
        assert r2[i].steps == msgs[i].steps;
        assert r3[i].steps == msgs[i].steps;
      }
    }
  }

  /** UPDATE_BOT_ACTION with an action id no action carries changes nothing. */
  lemma {:induction false} MissingActionIsNoOp(msgs: seq<Message>, messageId: Id, stepId: Id, actionId: Id, patch: Fields)
    requires forall i, k, j ::
      0 <= i < |msgs| && IsTargetBot(msgs[i], messageId) && 0 <= k < |msgs[i].steps| && 0 <= j < |ActionsOf(msgs[i].steps[k])|
      ==> ActionsOf(msgs[i].steps[k])[j].id != actionId
    ensures MergeBotAction(msgs, messageId, stepId, actionId, patch) == msgs
  {
    var r := MergeBotAction(msgs, messageId, stepId, actionId, patch);
    forall i | 0 <= i < |msgs| ensures r[i] == msgs[i] {
      if IsTargetBot(msgs[i], messageId) {
        forall k | 0 <= k < |msgs[i].steps| ensures r[i].steps[k] == msgs[i].steps[k] {
          var st := msgs[i].steps[k];
          if IsTargetStep(st, stepId) && st.message.actions.Some? {
            var acts := st.message.actions.value;
            assert MergeActions(acts, actionId, patch) == acts by {
              forall j | 0 <= j < |acts| ensures MergeActions(acts, actionId, patch)[j] == acts[j] {
                assert ActionsOf(st)[j] == acts[j];
              }
            }
          }
        }
        assert r[i].steps == msgs[i].steps;
      }
    }
  }

  /** Applying a merge twice is applying it once. */
  lemma {:induction false} MergeUserMessageIdempotent(msgs: seq<Message>, id: Id, patch: Fields)
    ensures MergeUserMessage(MergeUserMessage(msgs, id, patch), id, patch) == MergeUserMessage(msgs, id, patch)
  {
    var once := MergeUserMessage(msgs, id, patch);
    IndexOfSameIds(once, msgs, id);
    var k := IndexOf(msgs, id);
    if 0 <= k {
      assert MergeMessage(once[k], patch) == once[k];
    }
  }

  /** Applying commands one after another, as successive dispatches do. */
  function ReduceAll(s: State, cs: seq<Command>, store: Store): State
    decreases |cs|
  {
    if cs == [] then s else ReduceAll(Reduce(s, cs[0], store), cs[1..], store)
  }

  predicate IsMessageAddition(c: Command) {
    c.AddUserMessage? || c.AddBotMessage?
  }

  /** The message an ADD_USER_MESSAGE or ADD_BOT_MESSAGE command appends. */
  function Added(c: Command): Message
    requires IsMessageAddition(c)
  {
    if c.AddUserMessage? then UserMessage(c.id, c.timestamp, c.fields)
    else BotMessage(c.id, c.timestamp, c.steps.GetOr([]), c.fields)
  }

  /** The messages a run of additions appends, one per command, in dispatch order. */
  function AddedAll(cs: seq<Command>): (r: seq<Message>)
    requires forall j :: 0 <= j < |cs| ==> IsMessageAddition(cs[j])
    ensures |r| == |cs| && forall j :: 0 <= j < |cs| ==> r[j] == Added(cs[j])
    decreases |cs|
  {
    if cs == [] then [] else [Added(cs[0])] + AddedAll(cs[1..])
  }

  /** Order preservation: a run of message additions appends the messages in dispatch order. */
  lemma {:induction false} AdditionsKeepDispatchOrder(s: State, cs: seq<Command>, store: Store)
    requires forall j :: 0 <= j < |cs| ==> IsMessageAddition(cs[j])
    ensures ReduceAll(s, cs, store).messages == s.messages + AddedAll(cs)
    ensures ReduceAll(s, cs, store).id == s.id && ReduceAll(s, cs, store).metadata == s.metadata
    decreases |cs|
  {
    if cs != [] {
      var s1 := Reduce(s, cs[0], store);
      AdditionAppends(s, cs[0], store);
      AdditionsKeepDispatchOrder(s1, cs[1..], store);
      assert AddedAll(cs) == [Added(cs[0])] + AddedAll(cs[1..]);
      AppendAssociative(s.messages, [Added(cs[0])], AddedAll(cs[1..]));
    }
  }

  /** Helper: regrouping appended message lists, kept apart so that the proofs that use it stay small. */
  lemma {:induction false} AppendAssociative(a: seq<Message>, b: seq<Message>, c: seq<Message>)
    ensures a + (b + c) == (a + b) + c
  {
  }

  /** One message addition appends its message and leaves the id and metadata alone. */
  lemma {:induction false} AdditionAppends(s: State, c: Command, store: Store)
    requires IsMessageAddition(c)
    ensures Reduce(s, c, store).messages == s.messages + [Added(c)]
    ensures Reduce(s, c, store).id == s.id && Reduce(s, c, store).metadata == s.metadata
  {
  }

  /**
   * The nested scenario: from an empty conversation, add a bot message, a
   * step, an action labelled "y", then relabel the action "z": one message,
   * one step, one action, labelled "z".
   */
  lemma {:induction false} NestedUpdateScenario(s0: State, store: Store)
    requires s0.messages == []
    ensures
      var step := MessageStep("s", 1, StepBody(map["content" := Str("x")], None), None, map[]);
      var action := Action("a", 2, "button", map["label" := Str("y")]);
      var s1 := Reduce(s0, AddBotMessage("m", 0, None, map[]), store);
      var s2 := Reduce(s1, AddBotStep("m", step), store);
      var s3 := Reduce(s2, AddBotAction("m", "s", action), store);
      var s4 := Reduce(s3, UpdateBotAction("m", "s", "a", map["label" := Str("z")]), store);
      && |s4.messages| == 1 && s4.messages[0].BotMessage?
      && |s4.messages[0].steps| == 1
      && ActionsOf(s4.messages[0].steps[0]) == [Action("a", 2, "button", map["label" := Str("z")])]
  {
    var step := MessageStep("s", 1, StepBody(map["content" := Str("x")], None), None, map[]);
    var action := Action("a", 2, "button", map["label" := Str("y")]);
    var patch := map["label" := Str("z")];
    var s1 := Reduce(s0, AddBotMessage("m", 0, None, map[]), store);
    assert s1.messages == [BotMessage("m", 0, [], map[])];
    var s2 := Reduce(s1, AddBotStep("m", step), store);
    assert [] + [step] == [step];
    var s3 := Reduce(s2, AddBotAction("m", "s", action), store);
    ActionAddedToOnlyStep(s2, "m", step, action, store);
    var s4 := Reduce(s3, UpdateBotAction("m", "s", "a", patch), store);
    ActionUpdatedInOnlyStep(s3, "m", PushAction(step, action), "a", patch, store);
    assert ActionsOf(PushAction(step, action)) == [action];
    assert Overlay(action.fields, patch) == patch;
  }

  /** ADD_BOT_ACTION on a conversation of one bot message with one step pushes the action onto that step. */
  lemma {:induction false} ActionAddedToOnlyStep(s: State, messageId: Id, step: Step, a: Action, store: Store)
    requires |s.messages| == 1 && IsTargetBot(s.messages[0], messageId) && s.messages[0].steps == [step]
    requires step.MessageStep?
    ensures var r := Reduce(s, AddBotAction(messageId, step.id, a), store);
      |r.messages| == 1 && r.messages[0].BotMessage? && r.messages[0].steps == [PushAction(step, a)]
  {
  }

  /** UPDATE_BOT_ACTION on a conversation of one bot message with one step patches that step's actions. */
  lemma {:induction false} ActionUpdatedInOnlyStep(s: State, messageId: Id, step: Step, actionId: Id, patch: Fields, store: Store)
    requires |s.messages| == 1 && IsTargetBot(s.messages[0], messageId) && s.messages[0].steps == [step]
    requires step.MessageStep?
    ensures var r := Reduce(s, UpdateBotAction(messageId, step.id, actionId, patch), store);
      |r.messages| == 1 && r.messages[0].BotMessage? && r.messages[0].steps == [PatchStepActions(step, actionId, patch)]
  {
  }


  /** The lookup example: with [U1, B1, U2, B2], B2 finds U2, U1 finds nothing, an unknown id finds nothing. */
  lemma {:induction false} LastUserMessageExample(u1: Message, b1: Message, u2: Message, b2: Message, missing: Id)
    requires u1.UserMessage? && u2.UserMessage? && b1.BotMessage? && b2.BotMessage?
    requires UniqueIds([u1, b1, u2, b2])
    requires missing != u1.id && missing != b1.id && missing != u2.id && missing != b2.id
    ensures LastUserMessageBefore([u1, b1, u2, b2], b2.id) == Some(u2)
    ensures LastUserMessageBefore([u1, b1, u2, b2], u1.id) == None
    ensures LastUserMessageBefore([u1, b1, u2, b2], missing) == None
  {
    var msgs := [u1, b1, u2, b2];
    assert IndexOf(msgs, b2.id) == 3 by {
      assert msgs[0].id != b2.id && msgs[1].id != b2.id && msgs[2].id != b2.id;
    }
    assert IndexOf(msgs, u1.id) == 0;
    assert IndexOf(msgs, missing) == -1 by {
      assert forall j :: 0 <= j < 4 ==> msgs[j].id != missing;
    }
  }

  /** `getMesssage` follows the code for an unknown id: it counts from -1, so offset 1 yields the first message. */
  lemma {:induction false} MessageAtUnknownId(msgs: seq<Message>, id: Id, offset: int)
    requires forall j :: 0 <= j < |msgs| ==> msgs[j].id != id
    ensures MessageAt(msgs, id, offset) == if 1 <= offset <= |msgs| then Some(msgs[offset - 1]) else None
  {
  }

  /** `getMesssage(id)` with no offset returns the first message carrying the id. */
  lemma {:induction false} MessageAtOwnId(msgs: seq<Message>, i: nat)
    requires i < |msgs|
    ensures MessageAt(msgs, msgs[i].id, 0).Some?
    ensures MessageAt(msgs, msgs[i].id, 0).value.id == msgs[i].id
    ensures UniqueIds(msgs) ==> MessageAt(msgs, msgs[i].id, 0) == Some(msgs[i])
  {
  }
}
