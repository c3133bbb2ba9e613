/**
 * Three reducer cases as the source writes them, beside the corrected
 * definitions of module Messages, with lemmas exhibiting inputs on which they
 * differ. (The fourth defect, `updateBotStep` never dispatching, lives in the
 * controller: MessagesController.Conversation.UpdateBotStepAsWritten.)
 */
module MessagesAsWritten {
  import opened Wrappers
  import opened JsonValue
  import opened Messages
  import opened MessagesProperties

  // ---------------------------------------------------------------------
  // UPDATE_USER_MESSAGE: `[...slice(0, idx), {...messages[idx], ...updates}]`

  /** An element of the list the source builds: a message, or the bare patch `{...undefined, ...updates}`. */
  datatype Entry = Stored(message: Message) | BarePatch(updates: Fields)

  /**
   * UPDATE_USER_MESSAGE as written: keeps the messages before the target,
   * puts the merged target last and drops every later message. For an absent
   * id the index is -1: `slice(0, -1)` drops the last message and the merge
   * of `undefined` with the patch is the bare patch.
   */
  function UpdateUserMessageAsWritten(msgs: seq<Message>, id: Id, patch: Fields): (r: seq<Entry>)
    ensures var i := IndexOf(msgs, id);
      0 <= i ==> |r| == i + 1 && r[i] == Stored(MergeMessage(msgs[i], patch))
    ensures var i := IndexOf(msgs, id);
      i < 0 ==> |r| == (if msgs == [] then 1 else |msgs|) && r[|r| - 1] == BarePatch(patch)
    ensures forall j :: 0 <= j < |r| - 1 ==> r[j] == Stored(msgs[j])
  {
    var i := IndexOf(msgs, id);
    var kept := if 0 <= i then msgs[..i] else if msgs == [] then [] else msgs[..|msgs| - 1];
    var last := if 0 <= i then Stored(MergeMessage(msgs[i], patch)) else BarePatch(patch);
    seq(|kept|, j requires 0 <= j < |kept| => Stored(kept[j])) + [last]
  }

  /** The corrected list, seen as entries. */
  function AsEntries(msgs: seq<Message>): (r: seq<Entry>)
    ensures |r| == |msgs| && forall j :: 0 <= j < |msgs| ==> r[j] == Stored(msgs[j])
  {
    seq(|msgs|, j requires 0 <= j < |msgs| => Stored(msgs[j]))
  }

  /**
   * The as-written update agrees with the corrected one exactly when the
   * target is the last message; on any earlier target it loses every message
   * after it, and on an absent id it loses the last message.
   */
  lemma {:induction false} UpdateUserMessageTruncates(msgs: seq<Message>, id: Id, patch: Fields)
    ensures var i := IndexOf(msgs, id);
      0 <= i ==> |msgs| - |UpdateUserMessageAsWritten(msgs, id, patch)| == |msgs| - 1 - i
    ensures msgs != [] && IndexOf(msgs, id) == |msgs| - 1 ==>
      UpdateUserMessageAsWritten(msgs, id, patch) == AsEntries(MergeUserMessage(msgs, id, patch))
    ensures IndexOf(msgs, id) < 0 && msgs != [] ==>
      UpdateUserMessageAsWritten(msgs, id, patch) != AsEntries(MergeUserMessage(msgs, id, patch))
  {
    var r := UpdateUserMessageAsWritten(msgs, id, patch);
    if msgs != [] && IndexOf(msgs, id) == |msgs| - 1 {
      var c := AsEntries(MergeUserMessage(msgs, id, patch));
      assert |r| == |c|;
      forall j | 0 <= j < |r| ensures r[j] == c[j] {
        if j < |r| - 1 {
          assert c[j] == Stored(MergeUserMessage(msgs, id, patch)[j]);
        }
      }
    }
    if IndexOf(msgs, id) < 0 && msgs != [] {
      assert r[|r| - 1] != AsEntries(MergeUserMessage(msgs, id, patch))[|r| - 1];
    }
  }

  /** A concrete input: updating the first of two messages drops the second. */
  lemma {:induction false} UpdateFirstOfTwoDropsSecond()
    ensures var msgs := [UserMessage("u1", 0, map[]), UserMessage("u2", 1, map[])];
      && |UpdateUserMessageAsWritten(msgs, "u1", map["text" := Str("hi")])| == 1
      && |MergeUserMessage(msgs, "u1", map["text" := Str("hi")])| == 2
  {
    var msgs := [UserMessage("u1", 0, map[]), UserMessage("u2", 1, map[])];
    assert IndexOf(msgs, "u1") == 0;
  }

  // ---------------------------------------------------------------------
  // ADD_BOT_ACTION: reads `step.message.actions`, writes `step.actions`

  /** `{...step, actions: step.message.actions ? [...step.message.actions, a] : [a]}`. */
  function PushActionAsWritten(s: Step, a: Action): (r: Step)
    ensures r.MessageStep? == s.MessageStep? && r.id == s.id
    ensures s.MessageStep? ==> r.actions == Some(ActionsOf(s) + [a]) && r.message == s.message
    ensures ActionsOf(r) == ActionsOf(s)
  {
    if s.MessageStep? then s.(actions := Some(ActionsOf(s) + [a])) else s
  }

  /** ADD_BOT_ACTION as written, over the whole message list. */
  function AppendBotActionAsWritten(msgs: seq<Message>, messageId: Id, stepId: Id, a: Action): (r: seq<Message>)
    ensures |r| == |msgs|
    ensures forall i :: 0 <= i < |msgs| && !IsTargetBot(msgs[i], messageId) ==> r[i] == msgs[i]
    ensures forall i :: 0 <= i < |msgs| && IsTargetBot(msgs[i], messageId) ==>
      && r[i].BotMessage? && |r[i].steps| == |msgs[i].steps|
      && forall k :: 0 <= k < |msgs[i].steps| ==> ActionsOf(r[i].steps[k]) == ActionsOf(msgs[i].steps[k])
  {
    MapTargetSteps(msgs, messageId, steps => MapTargetStep(steps, stepId, s => PushActionAsWritten(s, a)))
  }

  /**
   * Two additions as written: the step-level list holds only the second
   * action and the step's own action list neither; corrected, the list holds
   * both, in order.
   */
  lemma {:induction false} SecondActionReplacesFirst(s: Step, a1: Action, a2: Action)
    requires s.MessageStep?
    ensures var w := PushActionAsWritten(PushActionAsWritten(s, a1), a2);
      w.actions == Some(ActionsOf(s) + [a2]) && ActionsOf(w) == ActionsOf(s)
    ensures ActionsOf(PushAction(PushAction(s, a1), a2)) == ActionsOf(s) + [a1, a2]
  {
    assert ActionsOf(s) + [a1] + [a2] == ActionsOf(s) + [a1, a2];
  }

  // ---------------------------------------------------------------------
  // UPDATE_BOT_ACTION: the callback parameter `action` shadows the command

  /** `action.payload` of an action, `undefined` when its fields have none. */
  function PayloadOf(a: Action): Option<Json> {
    if "payload" in a.fields then Some(a.fields["payload"]) else None
  }

  /** Reading `action.payload.actionId` throws when the payload is `undefined` or `null`. */
  predicate PayloadThrows(a: Action) {
    PayloadOf(a).None? || PayloadOf(a).value.Null?
  }

  /** The comparison as written: the action's own id against its own `payload.actionId`. */
  predicate SelectedAsWritten(a: Action) {
    && PayloadOf(a).Some? && PayloadOf(a).value.Obj?
    && Get(PayloadOf(a).value.members, "actionId") == Some(Str(a.id))
  }

  /** An object's members as fields (the keys are distinct). */
  function MembersAsFields(ms: seq<Member>): Fields {
    if ms == [] then map[] else MembersAsFields(ms[..|ms| - 1])[ms[|ms| - 1].key := ms[|ms| - 1].value]
  }

  /** `{...action, ...action.payload.updates}`: the action's own payload supplies the patch. */
  function SelfPatched(a: Action): Action {
    if PayloadOf(a).Some? && PayloadOf(a).value.Obj? then
      match Get(PayloadOf(a).value.members, "updates")
      case Some(Obj(us)) => a.(fields := Overlay(a.fields, MembersAsFields(us)))
      case _ => a
    else a
  }

  /**
   * The target step as written: `step.message.actions!.map(...)` throws when
   * the list is absent or some action's payload is missing; otherwise the
   * mapped list lands in the step-level `actions`. Neither the command's
   * action id nor its patch is consulted.
   */
  function PatchStepActionsAsWritten(s: Step): (r: Option<Step>)
    ensures s.MessageStep? && s.message.actions.None? ==> r.None?
    ensures r.Some? ==> r.value.MessageStep? == s.MessageStep? && r.value.id == s.id
    ensures r.Some? && s.MessageStep? ==> r.value.MessageStep? && r.value.message == s.message
  {
    if s.OtherStep? then Some(s)
    else if s.message.actions.None? then None
    else
      var acts := s.message.actions.value;
      if exists j :: 0 <= j < |acts| && PayloadThrows(acts[j]) then None
      else Some(s.(actions := Some(seq(|acts|, j requires 0 <= j < |acts| =>
        if SelectedAsWritten(acts[j]) then SelfPatched(acts[j]) else acts[j]))))
  }

  /** Some targeted step of some targeted bot message makes the as-written update throw. */
  predicate ThrowsAt(msgs: seq<Message>, messageId: Id, stepId: Id) {
    exists i, k ::
      && 0 <= i < |msgs| && IsTargetBot(msgs[i], messageId) && 0 <= k < |msgs[i].steps|
      && IsTargetStep(msgs[i].steps[k], stepId) && PatchStepActionsAsWritten(msgs[i].steps[k]).None?
  }

  /** UPDATE_BOT_ACTION as written: the new list, or nothing when the reducer throws. */
  function MergeBotActionAsWritten(msgs: seq<Message>, messageId: Id, stepId: Id, actionId: Id, patch: Fields): (r: Option<seq<Message>>)
    ensures r.None? <==> ThrowsAt(msgs, messageId, stepId)
    ensures r.Some? ==> |r.value| == |msgs|
    ensures r.Some? ==> forall i :: 0 <= i < |msgs| && !IsTargetBot(msgs[i], messageId) ==> r.value[i] == msgs[i]
  {
    if ThrowsAt(msgs, messageId, stepId) then None
    else Some(MapTargetSteps(msgs, messageId, steps => MapTargetStep(steps, stepId, s => PatchStepActionsAsWritten(s).GetOr(s))))
  }

  /**
   * An action with an ordinary object payload (no `actionId` of its own) is
   * never selected: as written the update leaves it as it was, where the
   * corrected update overlays the patch.
   */
  lemma {:induction false} UpdateActionIgnoresCommand(s: Step, a: Action, patch: Fields)
    requires s.MessageStep? && s.message.actions == Some([a])
    requires PayloadOf(a) == Some(Obj([]))
    requires patch.Keys !! a.fields.Keys && patch != map[]
    ensures PatchStepActionsAsWritten(s) == Some(s.(actions := Some([a])))
    ensures PatchStepActions(s, a.id, patch).message.actions == Some([a.(fields := Overlay(a.fields, patch))])
    ensures a.(fields := Overlay(a.fields, patch)) != a
  {
    assert !SelectedAsWritten(a);
    var acts := s.message.actions.value;
    assert !PayloadThrows(acts[0]);
    assert seq(|acts|, j requires 0 <= j < |acts| => if SelectedAsWritten(acts[j]) then SelfPatched(acts[j]) else acts[j]) == [a];
    assert MergeActions([a], a.id, patch) == [a.(fields := Overlay(a.fields, patch))];
    var k :| k in patch;
    assert k in Overlay(a.fields, patch) && k !in a.fields;
  }

  /**
   * The nested scenario as written: after adding a bot message, a step and an
   * action, updating the action throws, because the action was written to the
   * step-level list and the step's own list is still absent.
   */
  lemma {:induction false} NestedScenarioThrowsAsWritten(s0: State, store: Store)
    requires s0.messages == []
    ensures
      var step := MessageStep("s", 1, StepBody(map["content" := Str("x")], None), None, map[]);
      var action := Action("a", 2, "button", map["label" := Str("y")]);
      var m1 := Reduce(s0, AddBotMessage("m", 0, None, map[]), store).messages;
      var m2 := AppendBotStep(m1, "m", step);
      var m3 := AppendBotActionAsWritten(m2, "m", "s", action);
      MergeBotActionAsWritten(m3, "m", "s", "a", map["label" := Str("z")]).None?
  {
    var step := MessageStep("s", 1, StepBody(map["content" := Str("x")], None), None, map[]);
    var action := Action("a", 2, "button", map["label" := Str("y")]);
    var m1 := Reduce(s0, AddBotMessage("m", 0, None, map[]), store).messages;
    assert m1 == [BotMessage("m", 0, [], map[])];
    var m2 := AppendBotStep(m1, "m", step);
    assert IsTargetBot(m1[0], "m");
    assert m2[0].steps == [] + [step];
    var m3 := AppendBotActionAsWritten(m2, "m", "s", action);
    assert IsTargetBot(m2[0], "m") && IsTargetStep(m2[0].steps[0], "s");
    assert m3[0].steps[0] == PushActionAsWritten(step, action);
    assert IsTargetBot(m3[0], "m") && IsTargetStep(m3[0].steps[0], "s");
    assert PatchStepActionsAsWritten(m3[0].steps[0]).None?;
  }
}
