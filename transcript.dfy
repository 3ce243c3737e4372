/**
 * The navigator's history and the transcript it replays: which chat bubbles
 * `rebuildMessagesFromHistory` produces for a history, and how that relates to
 * the bubbles a forward step appends.
 */
module Transcript {
  import opened Wrappers
  import opened Flow

  /** One visited node and the option id that led to it (none for the start node). */
  datatype Entry = Entry(nodeId: string, optionId: Maybe<string>)

  datatype Role = User | Bot

  /** What a chat message shows: bot bubbles name their node, user bubbles their option id. */
  datatype Bubble = Bubble(role: Role, text: string, nodeId: Maybe<string>, optionId: Maybe<string>)

  /** A chat message: a bubble under a unique id (the page draws ids from `uid()`). */
  datatype ChatMessage = ChatMessage(id: nat, bubble: Bubble)

  /** The question shown before the start node's answer in the first transcript. */
  const INTRO_Q := "Hi. Thanks for joining. Let\U{2019}s start simple \U{2014} can you tell me a bit about yourself?"

  function Bubbles(ms: seq<ChatMessage>): (r: seq<Bubble>)
    ensures |r| == |ms|
    ensures forall k :: 0 <= k < |ms| ==> r[k] == ms[k].bubble
  {
    seq(|ms|, k requires 0 <= k < |ms| => ms[k].bubble)
  }

  lemma BubblesOfAppend(a: seq<ChatMessage>, b: seq<ChatMessage>)
    ensures Bubbles(a + b) == Bubbles(a) + Bubbles(b)
  {
  }

  /**
   * Bubbles `bs` as messages with consecutive ids from `firstId`, as successive
   * `uid()` calls give them: the bubbles are kept in order, and the ids are
   * strictly increasing and none is below `firstId`, so none was issued before.
   */
  function Stamp(bs: seq<Bubble>, firstId: nat): (r: seq<ChatMessage>)
    ensures |r| == |bs| && Bubbles(r) == bs
    ensures forall k :: 0 <= k < |r| ==> r[k].id == firstId + k
    ensures forall i, j :: 0 <= i < j < |r| ==> firstId <= r[i].id < r[j].id
  {
    seq(|bs|, k requires 0 <= k < |bs| => ChatMessage(firstId + k, bs[k]))
  }

  function BotBubble(byId: map<string, Node>, nodeId: string): Bubble
    requires nodeId in byId
  {
    Bubble(Bot, byId[nodeId].bot, Just(nodeId), Nothing)
  }

  function UserBubble(text: string, optionId: Maybe<string>): Bubble {
    Bubble(User, text, Nothing, optionId)
  }

  /** Every visited node is in the index. */
  ghost predicate AllKnown(byId: map<string, Node>, h: seq<Entry>) {
    forall k :: 0 <= k < |h| ==> h[k].nodeId in byId
  }

  // ---------------------------------------------------------------------------
  // The user line of a replayed step.

  /** `options.find(o => o.id === optionId)`: the first option carrying that id. */
  function FindOption(options: seq<Option>, optionId: Maybe<string>): (r: Maybe<Option>)
    ensures r.Nothing? ==> forall k :: 0 <= k < |options| ==> optionId != Just(options[k].id)
    ensures r.Just? ==> exists k :: 0 <= k < |options| && options[k] == r.value && optionId == Just(r.value.id)
                                  && forall j :: 0 <= j < k ==> optionId != Just(options[j].id)
  {
    if options == [] then Nothing
    else if optionId == Just(options[0].id) then Just(options[0])
    else
      var r := FindOption(options[1..], optionId);
      assert forall k :: 1 <= k < |options| ==> options[k] == options[1..][k - 1];
      r
  }

  /** What the visitor says when choosing option `o`: its utterance when it has one, else its caption. */
  function ChosenText(o: Option): (r: string)
    ensures o.utterance.Just? ==> r == o.utterance.value
    ensures o.utterance.Nothing? ==> r == o.caption
  {
    o.utterance.GetOr(o.caption)
  }

  /**
   * The stand-in line for a step whose option cannot be found: "Open section"
   * exactly for a chip step, "Typed question" exactly for a typed intent, and
   * "Continue" for anything else.
   */
  function Placeholder(optionId: Maybe<string>): (r: string)
    ensures r == "Open section" <==> optionId == Just("chip")
    ensures r == "Typed question" <==> optionId == Just("typed_intent")
    ensures r == "Continue" <==> optionId != Just("chip") && optionId != Just("typed_intent")
  {
    if optionId == Just("chip") then "Open section"
    else if optionId == Just("typed_intent") then "Typed question"
    else "Continue"
  }

  /**
   * The replayed user line for a step from node `prevId` by option `optionId`:
   * what the first option of that node carrying the id says, or the
   * placeholder when the node is unknown or has no such option.
   */
  function ReplayText(byId: map<string, Node>, prevId: string, optionId: Maybe<string>): (r: string)
    ensures forall k :: prevId in byId && 0 <= k < |byId[prevId].options|
                        && optionId == Just(byId[prevId].options[k].id)
                        && (forall j :: 0 <= j < k ==> optionId != Just(byId[prevId].options[j].id)) ==>
              r == ChosenText(byId[prevId].options[k])
    ensures prevId !in byId || (forall k :: 0 <= k < |byId[prevId].options| ==> optionId != Just(byId[prevId].options[k].id)) ==>
              r == Placeholder(optionId)
  {
    var found := if prevId in byId then FindOption(byId[prevId].options, optionId) else Nothing;
    match found
    case Just(o) => ChosenText(o)
    case Nothing => Placeholder(optionId)
  }

  // ---------------------------------------------------------------------------
  // The replayed transcript.

  /** The two bubbles replayed for stepping from `prev` to `cur`; none when `cur`'s node is unknown. */
  function Step(byId: map<string, Node>, prev: Entry, cur: Entry): seq<Bubble> {
    if cur.nodeId !in byId then []
    else [UserBubble(ReplayText(byId, prev.nodeId, cur.optionId), cur.optionId), BotBubble(byId, cur.nodeId)]
  }

  /**
   * The transcript `rebuildMessagesFromHistory` replays: nothing when the first
   * node is unknown, otherwise its bot bubble followed by one step per later entry.
   */
  function Replay(byId: map<string, Node>, h: seq<Entry>): seq<Bubble>
    decreases |h|
  {
    if h == [] || h[0].nodeId !in byId then []
    else if |h| == 1 then [BotBubble(byId, h[0].nodeId)]
    else Replay(byId, h[..|h| - 1]) + Step(byId, h[|h| - 2], h[|h| - 1])
  }

  /** The number of entries of `h` whose node is known. */
  function KnownCount(byId: map<string, Node>, h: seq<Entry>): (r: nat)
    ensures r == |KnownAt(byId, h)|
    ensures r <= |h|
    ensures AllKnown(byId, h) ==> r == |h|
  {
    if h == [] then 0
    else
      var p := h[..|h| - 1];
      var last := if h[|h| - 1].nodeId in byId then {|h| - 1} else {};
      assert KnownAt(byId, h) == KnownAt(byId, p) + last;
      assert |h| - 1 !in KnownAt(byId, p);
      KnownCount(byId, p) + |last|
  }

  /** The positions of `h` whose node is known. */
  ghost function KnownAt(byId: map<string, Node>, h: seq<Entry>): set<int> {
    set k | 0 <= k < |h| && h[k].nodeId in byId
  }

  /** Bubble `j` of the replay of a history whose nodes are all known. */
  function ExpectedAt(byId: map<string, Node>, h: seq<Entry>, j: nat): Bubble
    requires AllKnown(byId, h) && j < 2 * |h| - 1
  {
    if j % 2 == 0 then BotBubble(byId, h[j / 2].nodeId)
    else
      var k := (j + 1) / 2;
      UserBubble(ReplayText(byId, h[k - 1].nodeId, h[k].optionId), h[k].optionId)
  }

  /**
   * Replaying a history of known nodes gives 2|h|-1 bubbles alternating bot,
   * user, bot, …: bot bubble k is node h[k]'s text, user bubble k answers with
   * entry h[k]'s option.
   */
  lemma {:induction false} ReplayShape(byId: map<string, Node>, h: seq<Entry>)
    requires h != [] && AllKnown(byId, h)
    ensures |Replay(byId, h)| == 2 * |h| - 1
    ensures forall j :: 0 <= j < |Replay(byId, h)| ==> Replay(byId, h)[j] == ExpectedAt(byId, h, j)
  {
    ReplayLength(byId, h);
    forall j | 0 <= j < |Replay(byId, h)| ensures Replay(byId, h)[j] == ExpectedAt(byId, h, j) {
      ReplayAt(byId, h, j);
    }
  }

  /** Bubble `j` of the replay of a history of known nodes, by induction on the history. */
  lemma {:induction false} ReplayAt(byId: map<string, Node>, h: seq<Entry>, j: nat)
    requires h != [] && AllKnown(byId, h) && j < 2 * |h| - 1
    ensures ReplayLengthOf(byId, h) && Replay(byId, h)[j] == ExpectedAt(byId, h, j)
    decreases |h|
  {
    ReplayLength(byId, h);
    if |h| > 1 {
      var p := h[..|h| - 1];
      assert AllKnown(byId, p);
      if j < 2 * |p| - 1 {
        ReplayAt(byId, p, j);
        ReplayAtEarlier(byId, h, j);
      } else {
        ReplayAtLast(byId, h, j);
      }
    }
  }

  /** A bubble before the last step's two is that of the replay without the last entry. */
  lemma ReplayAtEarlier(byId: map<string, Node>, h: seq<Entry>, j: nat)
    requires |h| > 1 && AllKnown(byId, h) && j < 2 * |h| - 3
    requires AllKnown(byId, h[..|h| - 1]) && ReplayLengthOf(byId, h[..|h| - 1])
    requires Replay(byId, h[..|h| - 1])[j] == ExpectedAt(byId, h[..|h| - 1], j)
    ensures j < |Replay(byId, h)| && Replay(byId, h)[j] == ExpectedAt(byId, h, j)
  {
    ExpectedAtOfPrefix(byId, h, j);
  }

  /** The last two bubbles of a replay are the last step's. */
  lemma ReplayAtLast(byId: map<string, Node>, h: seq<Entry>, j: nat)
    requires |h| > 1 && AllKnown(byId, h) && 2 * |h| - 3 <= j < 2 * |h| - 1
    requires AllKnown(byId, h[..|h| - 1]) && ReplayLengthOf(byId, h[..|h| - 1])
    ensures j < |Replay(byId, h)| && Replay(byId, h)[j] == ExpectedAt(byId, h, j)
  {
    if j == 2 * |h| - 3 {
      assert (j + 1) / 2 == |h| - 1;
    } else {
      assert j / 2 == |h| - 1;
    }
  }

  /** A history of known nodes replays to 2|h|-1 bubbles. */
  ghost predicate ReplayLengthOf(byId: map<string, Node>, h: seq<Entry>)
    requires h != [] && AllKnown(byId, h)
  {
    |Replay(byId, h)| == 2 * |h| - 1
  }

  /** Dropping the last entry does not change the expected bubbles before its own two. */
  lemma ExpectedAtOfPrefix(byId: map<string, Node>, h: seq<Entry>, j: nat)
    requires |h| > 1 && AllKnown(byId, h) && j < 2 * |h| - 3
    ensures AllKnown(byId, h[..|h| - 1])
    ensures ExpectedAt(byId, h[..|h| - 1], j) == ExpectedAt(byId, h, j)
  {
    var p := h[..|h| - 1];
    assert forall k :: 0 <= k < |p| ==> p[k] == h[k];
    if j % 2 == 0 {
      assert j / 2 < |p|;
    } else {
      assert (j + 1) / 2 < |p|;
    }
  }

  /**
   * Entries whose node is unknown are skipped: the replay has one bot bubble
   * for the first entry and two bubbles per later known entry, or nothing at
   * all when the first node is unknown.
   */
  lemma {:induction false} ReplayLength(byId: map<string, Node>, h: seq<Entry>)
    ensures h == [] || h[0].nodeId !in byId ==> Replay(byId, h) == []
    ensures h != [] && h[0].nodeId in byId ==> |Replay(byId, h)| == 1 + 2 * KnownCount(byId, h[1..])
    decreases |h|
  {
    if |h| > 1 && h[0].nodeId in byId {
      var p := h[..|h| - 1];
      ReplayLength(byId, p);
      assert p[1..] == h[1..][..|h[1..]| - 1];
    }
  }

  /** Every bot bubble of a replay shows the text of a known node it names. */
  lemma {:induction false} ReplayBotsAreKnown(byId: map<string, Node>, h: seq<Entry>)
    ensures forall b :: b in Replay(byId, h) && b.role == Bot ==>
              b.nodeId.Just? && b.nodeId.value in byId && b.text == byId[b.nodeId.value].bot
    decreases |h|
  {
    if |h| > 1 && h[0].nodeId in byId {
      ReplayBotsAreKnown(byId, h[..|h| - 1]);
    }
  }

  /** Replaying a shorter prefix of a history gives a prefix of the transcript. */
  lemma {:induction false} ReplayOfPrefix(byId: map<string, Node>, h: seq<Entry>, i: nat, j: nat)
    requires i <= j <= |h|
    ensures Replay(byId, h[..i]) <= Replay(byId, h[..j])
    decreases j - i
  {
    if i < j {
      ReplayOfPrefix(byId, h, i, j - 1);
      var q := h[..j];
      assert q[..|q| - 1] == h[..j - 1];
      if i == 0 || h[0].nodeId !in byId {
        assert Replay(byId, h[..i]) == [];
      } else if j - 1 == 0 {
      }
    }
  }

  /** Replaying a history extended by one entry appends that entry's replayed step. */
  lemma {:induction false} ReplayOfAppend(byId: map<string, Node>, h: seq<Entry>, e: Entry)
    requires h != [] && h[0].nodeId in byId
    ensures Replay(byId, h + [e]) == Replay(byId, h) + Step(byId, h[|h| - 1], e)
  {
    var h' := h + [e];
    assert h'[..|h'| - 1] == h;
  }

  /**
   * Agreement with a forward step driven by an option: when `o` is the first
   * option of the current node carrying its id and leads to a known node,
   * replaying the extended history appends exactly the user bubble the option
   * button sends and the bot bubble of the node it leads to.
   */
  lemma {:induction false} ReplayOfOptionStep(byId: map<string, Node>, h: seq<Entry>, o: Option)
    requires h != [] && h[0].nodeId in byId
    requires h[|h| - 1].nodeId in byId
    requires FindOption(byId[h[|h| - 1].nodeId].options, Just(o.id)) == Just(o)
    requires o.goto in byId
    ensures Replay(byId, h + [Entry(o.goto, Just(o.id))])
         == Replay(byId, h) + [UserBubble(ChosenText(o), Just(o.id)), BotBubble(byId, o.goto)]
  {
    ReplayOfAppend(byId, h, Entry(o.goto, Just(o.id)));
  }

  /**
   * A step taken through a topic chip is replayed with the stand-in line
   * "Open section", whatever caption the chip carried, unless the previous
   * node has an option whose id is "chip".
   */
  lemma {:induction false} ReplayOfChipStep(byId: map<string, Node>, h: seq<Entry>, nodeId: string)
    requires h != [] && h[0].nodeId in byId && nodeId in byId
    requires h[|h| - 1].nodeId in byId ==> forall o :: o in byId[h[|h| - 1].nodeId].options ==> o.id != "chip"
    ensures Replay(byId, h + [Entry(nodeId, Just("chip"))])
         == Replay(byId, h) + [UserBubble("Open section", Just("chip")), BotBubble(byId, nodeId)]
  {
    ReplayOfAppend(byId, h, Entry(nodeId, Just("chip")));
  }

  // ---------------------------------------------------------------------------
  // The rebuild loop.

  /**
   * `rebuildMessagesFromHistory`: one loop over the history pushing fresh
   * messages; `firstId` is the next id `uid()` would hand out, and each message
   * takes the next one. The bubbles are the replay of `h`.
   */
  method RebuildMessages(byId: map<string, Node>, h: seq<Entry>, firstId: nat) returns (msgs: seq<ChatMessage>)
    ensures msgs == Stamp(Replay(byId, h), firstId)
  {
    msgs := [];
    if h == [] || h[0].nodeId !in byId {
      return;
    }
    msgs := [ChatMessage(firstId, BotBubble(byId, h[0].nodeId))];
    assert h[..1] == [h[0]];
    var i := 1;
    while i < |h|
      invariant 1 <= i <= |h|
      invariant Bubbles(msgs) == Replay(byId, h[..i])
      invariant forall k :: 0 <= k < |msgs| ==> msgs[k].id == firstId + k
    {
      var prev, cur := h[i - 1], h[i];
      assert h[..i + 1][..i] == h[..i];
      if cur.nodeId in byId {
        var text := ReplayText(byId, prev.nodeId, cur.optionId);
        var userId := firstId + |msgs|;
        var botId := userId + 1;
        msgs := msgs + [ChatMessage(userId, UserBubble(text, cur.optionId)),
                        ChatMessage(botId, BotBubble(byId, cur.nodeId))];
      }
      i := i + 1;
    }
    assert h[..i] == h;
    assert |msgs| == |Replay(byId, h)|;
    assert forall k :: 0 <= k < |msgs| ==> msgs[k] == Stamp(Replay(byId, h), firstId)[k];
  }
}
