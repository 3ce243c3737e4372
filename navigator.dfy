/**
 * The dialogue navigator of the page: a history stack of visited nodes, the
 * transcript shown for it, and the handlers that step forward (option
 * buttons, topic chips, typed input, quick jump) or rewind (change answer,
 * jump to a timeline entry). Each handler is one atomic state transition,
 * specified by a function on `State` below and carried out by the
 * `Navigator` class.
 */
module Navigator {
  import opened Wrappers
  import opened Flow
  import opened Transcript
  import opened Routing
  import opened Sequences

  /** The navigator's component state. */
  datatype State = State(
    history: seq<Entry>,
    messages: seq<ChatMessage>,
    isTransitioning: bool,
    typingBotId: Maybe<nat>,
    showTimeline: bool,
    nextUid: nat)

  /** The seeded first question of the transcript. */
  function IntroBubble(): Bubble {
    UserBubble(INTRO_Q, Just("seed_intro"))
  }

  /**
   * What every reachable state satisfies: the history starts at the start
   * node and never empties, every visited node exists (unless the flow has
   * none), the messages carry the ids issued last, in order, and the message
   * being typed is the newest one, a bot message.
   */
  ghost predicate Consistent(byId: map<string, Node>, start: string, s: State) {
    && |s.history| >= 1 && s.history[0] == Entry(start, Nothing)
    && (byId == map[] || AllKnown(byId, s.history))
    && |s.messages| <= s.nextUid
    && (forall k :: 0 <= k < |s.messages| ==> s.messages[k].id == s.nextUid - |s.messages| + k)
    && (s.typingBotId.Just? ==>
          s.messages != [] && s.messages[|s.messages| - 1].id == s.typingBotId.value
          && s.messages[|s.messages| - 1].bubble.role == Bot)
  }

  /**
   * The transcript is what replaying the history gives, possibly after the
   * seeded intro question (which the replay does not reproduce).
   */
  ghost predicate InSync(byId: map<string, Node>, s: State) {
    Bubbles(s.messages) == Replay(byId, s.history)
    || Bubbles(s.messages) == [IntroBubble()] + Replay(byId, s.history)
  }

  // ---------------------------------------------------------------------------
  // The transitions.

  /**
   * The state on mount: the start node alone in the history and, when it
   * exists, the intro question and its answer, which is being typed.
   */
  function Initial(byId: map<string, Node>, start: string): State {
    if start in byId then
      State([Entry(start, Nothing)], [ChatMessage(0, IntroBubble()), ChatMessage(1, BotBubble(byId, start))],
            false, Just(1), false, 2)
    else
      State([Entry(start, Nothing)], [], false, Nothing, false, 0)
  }

  /**
   * `pushTurn(text, next, optionId)`: ignored while a step is in progress;
   * otherwise the guard is raised, and when the target node exists the entry
   * and two fresh messages are appended and the new bot message is typed;
   * when it does not, the guard is lowered again and nothing else changes.
   */
  function Pushed(byId: map<string, Node>, s: State, text: string, next: string, optionId: Maybe<string>): State {
    if s.isTransitioning || next !in byId then s
    else
      s.(history := s.history + [Entry(next, optionId)],
         messages := s.messages + [ChatMessage(s.nextUid, UserBubble(text, optionId)),
                                   ChatMessage(s.nextUid + 1, BotBubble(byId, next))],
         isTransitioning := true,
         typingBotId := Just(s.nextUid + 1),
         nextUid := s.nextUid + 2)
  }

  /** Replaces the history by `nh` and the transcript by fresh messages replaying it; nothing is typed. */
  function Rewound(byId: map<string, Node>, s: State, nh: seq<Entry>): State {
    var bubbles := Replay(byId, nh);
    s.(history := nh, messages := Stamp(bubbles, s.nextUid), typingBotId := Nothing,
       nextUid := s.nextUid + |bubbles|)
  }

  /** `changeAnswer`: drop the last step, unless only one entry is left. */
  function ChangedAnswer(byId: map<string, Node>, s: State): State {
    if |s.history| <= 1 then s else Rewound(byId, s, s.history[..|s.history| - 1])
  }

  /**
   * `jumpTo(index)`: keep the entries up to `index` (all of them when `index`
   * is past the end, as `slice` does) and close the timeline.
   */
  function JumpedTo(byId: map<string, Node>, s: State, index: nat): State {
    Rewound(byId, s, s.history[..Min(index + 1, |s.history|)]).(showTimeline := false)
  }

  // ---------------------------------------------------------------------------
  // What the transitions guarantee.

  /** The page starts consistent and in agreement with the replay of its history. */
  lemma {:induction false} InitialIsConsistent(byId: map<string, Node>, start: string)
    requires start in byId || byId == map[]
    ensures Consistent(byId, start, Initial(byId, start))
    ensures InSync(byId, Initial(byId, start))
    ensures start in byId ==> |Initial(byId, start).messages| == 2
  {
    var s := Initial(byId, start);
    if start in byId {
      assert Bubbles(s.messages) == [IntroBubble()] + Replay(byId, s.history);
    } else {
      assert Bubbles(s.messages) == Replay(byId, s.history);
    }
  }

  /**
   * A forward step to a known node, when no step is in progress, appends
   * exactly one history entry and exactly two messages (the user's line, then
   * the target's bot text), with fresh ids, leaving everything before them as
   * it was.
   */
  lemma {:induction false} PushedAppends(byId: map<string, Node>, start: string, s: State, text: string,
                                         next: string, optionId: Maybe<string>)
    requires Consistent(byId, start, s)
    requires !s.isTransitioning && next in byId
    ensures var r := Pushed(byId, s, text, next, optionId);
            && |r.history| == |s.history| + 1 && r.history[..|s.history|] == s.history
            && r.history[|s.history|] == Entry(next, optionId)
            && |r.messages| == |s.messages| + 2 && r.messages[..|s.messages|] == s.messages
            && Bubbles(r.messages[|s.messages|..]) == [UserBubble(text, optionId), BotBubble(byId, next)]
            && (forall m :: m in s.messages ==> m.id < r.messages[|s.messages|].id < r.messages[|s.messages| + 1].id)
            && r.typingBotId == Just(r.messages[|r.messages| - 1].id)
  {
    var r := Pushed(byId, s, text, next, optionId);
    assert r.messages[|s.messages|..] == [r.messages[|s.messages|], r.messages[|s.messages| + 1]];
    forall m | m in s.messages ensures m.id < r.messages[|s.messages|].id {
      var k :| 0 <= k < |s.messages| && s.messages[k] == m;
    }
  }

  /**
   * A forward step leaves the history and the transcript as they were when a
   * step is in progress or the target node does not exist; in the second
   * case the guard ends up lowered.
   */
  lemma PushedIgnored(byId: map<string, Node>, s: State, text: string, next: string, optionId: Maybe<string>)
    requires s.isTransitioning || next !in byId
    ensures Pushed(byId, s, text, next, optionId).history == s.history
    ensures Pushed(byId, s, text, next, optionId).messages == s.messages
    ensures !s.isTransitioning ==> !Pushed(byId, s, text, next, optionId).isTransitioning
  {
  }

  /** Forward steps keep the state consistent. */
  lemma {:induction false} PushedIsConsistent(byId: map<string, Node>, start: string, s: State, text: string,
                                              next: string, optionId: Maybe<string>)
    requires Consistent(byId, start, s)
    ensures Consistent(byId, start, Pushed(byId, s, text, next, optionId))
  {
    var r := Pushed(byId, s, text, next, optionId);
    if !s.isTransitioning && next in byId {
      assert forall k :: 0 <= k < |s.history| ==> r.history[k] == s.history[k];
      assert forall k :: 0 <= k < |s.messages| ==> r.messages[k] == s.messages[k];
    }
  }

  /**
   * A forward step keeps the transcript in agreement with the replay of the
   * history exactly when its user line is the one the replay gives that step.
   */
  lemma {:induction false} PushedStaysInSync(byId: map<string, Node>, start: string, s: State, text: string,
                                             next: string, optionId: Maybe<string>)
    requires Consistent(byId, start, s) && InSync(byId, s)
    requires text == ReplayText(byId, s.history[|s.history| - 1].nodeId, optionId)
    ensures InSync(byId, Pushed(byId, s, text, next, optionId))
  {
    if !s.isTransitioning && next in byId {
      var r := Pushed(byId, s, text, next, optionId);
      StaysInSync(byId, s.history, s.messages, r.messages, text, Entry(next, optionId));
    }
  }

  /**
   * Appending to a transcript that agrees with the replay of `h` a user
   * bubble saying `text` and the bot bubble of `e`'s node keeps it in
   * agreement with the replay of the extended history when `text` is the
   * line the replay gives that step.
   */
  lemma {:induction false} StaysInSync(byId: map<string, Node>, h: seq<Entry>, before: seq<ChatMessage>,
                                       after: seq<ChatMessage>, text: string, e: Entry)
    requires h != [] && h[0].nodeId in byId && e.nodeId in byId
    requires text == ReplayText(byId, h[|h| - 1].nodeId, e.optionId)
    requires Bubbles(before) == Replay(byId, h) || Bubbles(before) == [IntroBubble()] + Replay(byId, h)
    requires |after| == |before| + 2 && after[..|before|] == before
    requires after[|before|].bubble == UserBubble(text, e.optionId)
    requires after[|before| + 1].bubble == BotBubble(byId, e.nodeId)
    ensures Bubbles(after) == Replay(byId, h + [e]) || Bubbles(after) == [IntroBubble()] + Replay(byId, h + [e])
  {
    var step := Step(byId, h[|h| - 1], e);
    assert step == [after[|before|].bubble, after[|before| + 1].bubble];
    BubblesOfExtension(before, after);
    var r := Replay(byId, h);
    ReplayOfAppend(byId, h, e);
    if Bubbles(before) != r {
      assert Bubbles(before) == [IntroBubble()] + r;
      assert [IntroBubble()] + r + step == [IntroBubble()] + (r + step);
    }
  }

  /** The bubbles of a transcript extended by two messages are the old bubbles and those two. */
  lemma BubblesOfExtension(before: seq<ChatMessage>, after: seq<ChatMessage>)
    requires |after| == |before| + 2 && after[..|before|] == before
    ensures Bubbles(after) == Bubbles(before) + [after[|before|].bubble, after[|before| + 1].bubble]
  {
    var tail := after[|before|..];
    assert after == before + tail;
    BubblesOfAppend(before, tail);
  }

  /**
   * Choosing an option of the current node that is the first there with its
   * id keeps the transcript in agreement with the replay of the history.
   */
  lemma {:induction false} ChosenOptionStaysInSync(byId: map<string, Node>, start: string, s: State, o: Option)
    requires Consistent(byId, start, s) && InSync(byId, s)
    requires s.history[|s.history| - 1].nodeId in byId
    requires FindOption(byId[s.history[|s.history| - 1].nodeId].options, Just(o.id)) == Just(o)
    ensures InSync(byId, Pushed(byId, s, ChosenText(o), o.goto, Just(o.id)))
  {
    PushedStaysInSync(byId, start, s, ChosenText(o), o.goto, Just(o.id));
  }

  /**
   * Rewinding to a non-empty prefix of the history keeps the state consistent
   * and makes the transcript exactly the replay of the new history: for a
   * flow with nodes, 2|h|-1 messages, alternating bot and user.
   */
  lemma {:induction false} RewoundIsConsistent(byId: map<string, Node>, start: string, s: State, nh: seq<Entry>)
    requires Consistent(byId, start, s)
    requires 1 <= |nh| <= |s.history| && nh == s.history[..|nh|]
    ensures Consistent(byId, start, Rewound(byId, s, nh))
    ensures Bubbles(Rewound(byId, s, nh).messages) == Replay(byId, nh)
    ensures byId != map[] ==> |Rewound(byId, s, nh).messages| == 2 * |nh| - 1
  {
    assert forall k :: 0 <= k < |nh| ==> nh[k] == s.history[k];
    if byId != map[] {
      ReplayShape(byId, nh);
    }
  }

  /**
   * "Change answer" leaves a history of one entry (and everything else) as it
   * is and otherwise removes exactly the last entry; the result is a
   * non-empty prefix of the old history and the transcript its replay.
   */
  lemma {:induction false} ChangedAnswerDropsLast(byId: map<string, Node>, start: string, s: State)
    requires Consistent(byId, start, s)
    ensures var r := ChangedAnswer(byId, s);
            && Consistent(byId, start, r)
            && (InSync(byId, s) ==> InSync(byId, r))
            && 1 <= |r.history| <= |s.history| && r.history == s.history[..|r.history|]
            && (|s.history| <= 1 ==> r == s)
            && (|s.history| > 1 ==> |r.history| == |s.history| - 1 && Bubbles(r.messages) == Replay(byId, r.history))
  {
    if |s.history| > 1 {
      RewoundIsConsistent(byId, start, s, s.history[..|s.history| - 1]);
    } else {
      assert s.history == s.history[..|s.history|];
    }
  }

  /**
   * Jumping to timeline entry `index` keeps exactly the entries up to it (or
   * the whole history when `index` is past its end); the transcript becomes
   * the replay of that prefix and the timeline closes.
   */
  lemma {:induction false} JumpedToKeepsPrefix(byId: map<string, Node>, start: string, s: State, index: nat)
    requires Consistent(byId, start, s)
    ensures var r := JumpedTo(byId, s, index);
            && Consistent(byId, start, r) && InSync(byId, r)
            && (index < |s.history| ==> r.history == s.history[..index + 1])
            && (index >= |s.history| ==> r.history == s.history)
            && Bubbles(r.messages) == Replay(byId, r.history)
            && (byId != map[] ==> |r.messages| == 2 * |r.history| - 1)
            && (byId != map[] && index < |s.history| ==> |r.messages| == 2 * index + 1)
            && !r.showTimeline
  {
    var n := Min(index + 1, |s.history|);
    RewoundIsConsistent(byId, start, s, s.history[..n]);
    assert s.history[..|s.history|] == s.history;
  }

  // ---------------------------------------------------------------------------
  // The component.

  class Navigator {
    /** The authored nodes and routing rules. */
    const nodes: seq<Node>
    const rules: seq<Rule>
    /** `nodesById` and `startNodeId`, computed once. */
    const byId: map<string, Node>
    const startNodeId: string

    var history: seq<Entry>
    var messages: seq<ChatMessage>
    /** Set by a forward step, cleared by the timer it schedules; a step taken meanwhile is ignored. */
    var isTransitioning: bool
    /** The bot message whose text is being typed out, if any. */
    var typingBotId: Maybe<nat>
    var showTimeline: bool
    /** The next id `uid()` hands out. */
    var nextUid: nat

    function Snapshot(): State
      reads this
    {
      State(history, messages, isTransitioning, typingBotId, showTimeline, nextUid)
    }

    /** `byId` and `startNodeId` are what the page computes from `nodes`. */
    ghost predicate Indexed() {
      IsIndexOf(nodes, |nodes|, byId) && startNodeId == StartNodeId(nodes)
    }

    ghost predicate Valid()
      reads this
    {
      Indexed() && Consistent(byId, startNodeId, Snapshot())
    }

    /** `currentNode`: the node of the last history entry, when it is known. */
    function CurrentNode(): (r: Maybe<Node>)
      reads this
      requires Valid()
      ensures r.Just? <==> history[|history| - 1].nodeId in byId
      ensures r.Just? ==> r.value in nodes && r.value.id == history[|history| - 1].nodeId
      ensures r.Just? ==> exists k :: 0 <= k < |nodes| && nodes[k] == r.value && LastWithItsId(nodes, |nodes|, k)
    {
      var id := history[|history| - 1].nodeId;
      if id in byId then
        IndexedNodeIsInFlow(nodes, byId, id);
        Just(byId[id])
      else Nothing
    }

    /**
     * The evidence panel's items: nothing when the current node is unknown,
     * otherwise at most six of its items, in order, with no video unless the
     * node is a deep-dive node.
     */
    function Evidence(): (r: seq<Flow.Evidence>)
      reads this
      requires Valid()
      ensures |r| <= MAX_EVIDENCE
      ensures CurrentNode().Nothing? ==> r == []
      ensures CurrentNode().Just? ==> IsSubsequence(r, CurrentNode().value.evidence)
      ensures CurrentNode().Just? && !AllowsVideo(CurrentNode().value) ==> forall e :: e in r ==> e.kind != Video
    {
      SelectEvidence(CurrentNode())
    }

    /** Mounting the page: index the nodes, pick the start node, seed the transcript. */
    constructor (nodes: seq<Node>, rules: seq<Rule>)
      ensures Valid() && InSync(byId, Snapshot())
      ensures this.nodes == nodes && this.rules == rules
      ensures Snapshot() == Initial(byId, StartNodeId(nodes))
      ensures StartNodeId(nodes) in byId <==> nodes != []
    {
      var m := IndexNodes(nodes);
      var start := StartNodeId(nodes);
      StartNodeResolves(nodes, m);
      InitialIsConsistent(m, start);
      this.nodes := nodes;
      this.rules := rules;
      byId := m;
      startNodeId := start;
      history := [Entry(start, Nothing)];
      isTransitioning := false;
      showTimeline := false;
      if start in m {
        messages := [ChatMessage(0, IntroBubble()), ChatMessage(1, BotBubble(m, start))];
        typingBotId := Just(1);
        nextUid := 2;
      } else {
        messages := [];
        typingBotId := Nothing;
        nextUid := 0;
      }
    }

    /** `pushTurn`. */
    method PushTurn(userText: string, nextNodeId: string, optionId: Maybe<string>)
      requires Valid()
      modifies this
      ensures Valid()
      ensures Snapshot() == Pushed(byId, old(Snapshot()), userText, nextNodeId, optionId)
    {
      ghost var before := Snapshot();
      if isTransitioning {
        return;
      }
      isTransitioning := true;
      if nextNodeId !in byId {
        isTransitioning := false;
        return;
      }
      history := history + [Entry(nextNodeId, optionId)];
      var userMsg := ChatMessage(nextUid, UserBubble(userText, optionId));
      var botMsg := ChatMessage(nextUid + 1, BotBubble(byId, nextNodeId));
      nextUid := nextUid + 2;
      messages := messages + [userMsg, botMsg];
      typingBotId := Just(botMsg.id);
      assert Snapshot() == Pushed(byId, before, userText, nextNodeId, optionId);
      PushedIsConsistent(byId, startNodeId, before, userText, nextNodeId, optionId);
    }

    /** The zero-delay timer scheduled by a forward step: the next step is accepted again. */
    method SettleTransition()
      requires Valid()
      modifies this`isTransitioning
      ensures Valid()
      ensures Snapshot() == old(Snapshot()).(isTransitioning := false)
    {
      isTransitioning := false;
    }

    /** An option button of the current node: say the option's utterance (or caption), go to its target. */
    method ChooseOption(o: Option)
      requires Valid()
      requires CurrentNode().Just? && o in CurrentNode().value.options
      modifies this
      ensures Valid()
      ensures Snapshot() == Pushed(byId, old(Snapshot()), ChosenText(o), o.goto, Just(o.id))
    {
      PushTurn(ChosenText(o), o.goto, Just(o.id));
    }

    /** `gotoChip`: a topic chip (or the contact button) goes to its node under option id "chip". */
    method GotoChip(nodeId: string, caption: Maybe<string>)
      requires Valid()
      modifies this
      ensures Valid()
      ensures Snapshot() == Pushed(byId, old(Snapshot()), caption.GetOr("Open section"), nodeId, Just("chip"))
    {
      PushTurn(caption.GetOr("Open section"), nodeId, Just("chip"));
    }

    /** The quick-jump button to the projects node. */
    method QuickProjects()
      requires Valid()
      modifies this
      ensures Valid()
      ensures Snapshot() == Pushed(byId, old(Snapshot()), "Show me projects", "n_proj_01", Just("quick_projects"))
    {
      PushTurn("Show me projects", "n_proj_01", Just("quick_projects"));
    }

    /** Enter in the text input: blank input changes nothing, anything else is routed by keyword. */
    method SubmitTyped(raw: string)
      requires Valid()
      modifies this
      ensures Valid()
      ensures RouteTyped(rules, raw).Nothing? ==> Snapshot() == old(Snapshot())
      ensures RouteTyped(rules, raw).Just? ==>
                var t := RouteTyped(rules, raw).value;
                Snapshot() == Pushed(byId, old(Snapshot()), t.text, t.goto, Just(t.optionId))
    {
      match RouteTyped(rules, raw)
      case Nothing =>
      case Just(t) => PushTurn(t.text, t.goto, Just(t.optionId));
    }

    /** Replaces the history by `nh`, a non-empty prefix of it, and rebuilds the transcript. */
    method Rewind(nh: seq<Entry>)
      requires Valid()
      requires 1 <= |nh| <= |history| && nh == history[..|nh|]
      modifies this`history, this`messages, this`typingBotId, this`nextUid
      ensures Valid()
      ensures Snapshot() == Rewound(byId, old(Snapshot()), nh)
    {
      RewoundIsConsistent(byId, startNodeId, Snapshot(), nh);
      var msgs := RebuildMessages(byId, nh, nextUid);
      history := nh;
      typingBotId := Nothing;
      messages := msgs;
      nextUid := nextUid + |msgs|;
    }

    /** "Change answer". */
    method ChangeAnswer()
      requires Valid()
      modifies this
      ensures Valid()
      ensures Snapshot() == ChangedAnswer(byId, old(Snapshot()))
    {
      if |history| <= 1 {
        return;
      }
      Rewind(history[..|history| - 1]);
    }

    /** A timeline entry: rewind to entry `index` and close the timeline. */
    method JumpTo(index: nat)
      requires Valid()
      modifies this
      ensures Valid()
      ensures Snapshot() == JumpedTo(byId, old(Snapshot()), index)
    {
      var n := if index + 1 <= |history| then index + 1 else |history|;
      Rewind(history[..n]);
      showTimeline := false;
    }

    /** The timeline button. */
    method OpenTimeline()
      requires Valid()
      modifies this`showTimeline
      ensures Valid()
      ensures Snapshot() == old(Snapshot()).(showTimeline := true)
    {
      showTimeline := true;
    }
  }
}
