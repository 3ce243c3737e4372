# Dialogue navigator of the portfolio page

The portfolio's home page (`app/page.tsx`) is a scripted chat. The authored
dialogue graph is a list of nodes. Each node has a bot text, a section,
options that lead to other nodes, and evidence items. The page keeps a
history stack of visited nodes and a transcript of chat messages. It moves
forward through option buttons, topic chips, the contact button, the quick
jump to projects, or a typed question routed by keyword rules. It moves back
through "change answer" or a timeline entry, and rebuilds the transcript from
the shortened history. Beside the chat it shows up to six evidence cards for
the current node. The intro overlay types a boot log character by character.

This project models that navigator in Dafny:

- `wrappers.dfy`: the `Maybe` type for optional values such as `optionId` and `utterance`.
- `text.dfy`: the JavaScript string operations the page relies on: `trim`,
  `toLowerCase` on ASCII, `includes`, and the case-insensitive keyword test.
- `sequences.dfy`: order-preserving selection (`IsSubsequence`), the order half of what `filter` promises.
- `flow.dfy`: the flow data types, plus the pure memos `nodesById`,
  `startNodeId` and `evidence`.
- `transcript.dfy`: the messages, and `rebuildMessagesFromHistory` as a loop
  proved equal to a replay function. The shape of the replay and how it grows
  with the history are proved about that function.
- `routing.dfy`: the Enter handler of the text input.
- `navigator.dfy`: the component state. Each handler is specified as a
  transition function on a `State` value, with lemmas about what those
  transitions preserve. The `Navigator` class carries the handlers out on
  mutable fields, each method proved to produce its transition.
- `boot_typer.dfy`: `BootTyper`'s step effect as a class whose `Tick` is one
  timer firing.
- `class_names.dfy`: the `cx` class-name joiner.

`Consistent` is proved to hold in every reachable navigator state. It says:
- the history never empties and starts at the start node;
- every visited node exists (when the flow has any node);
- message ids are the ids issued most recently, in order;
- the message being typed is the newest message, and it is a bot message.

`InSync` says the transcript is the replay of the history, possibly preceded
by the seeded intro question. It is not an invariant of every state. It holds
on mount and after every rewind, and forward steps keep it when their user line
is the one the replay would produce. That holds for option buttons
(`ChosenOptionStaysInSync`). A chip, typed or quick-jump turn can break it
until the next rewind: a chip step says its caption, while the replay says
"Open section" (`ReplayOfChipStep`).

## Model

| member | source | states |
|---|---|---|
| Flow.IndexNodes | app/page.tsx:757-761 | the map holds exactly the ids of the nodes, each bound to the last node with that id, as repeated `Map.set` leaves it |
| Flow.IndexedNodeIsInFlow | app/page.tsx:757-761 | every indexed node occurs in the flow, carries the id it is stored under, and is the last node with that id |
| Flow.HasNode | app/page.tsx:790 | true exactly when some node has the id |
| Flow.StartNodeId | app/page.tsx:788-792 | `n_summary_01` when some node has that id; otherwise the first node's id; the empty id for an empty flow; for a non-empty flow always the id of one of its nodes |
| Flow.StartNodeResolves | app/page.tsx:788-792 | the start node is in the index exactly when the flow has a node; it is `n_summary_01` when that node exists, else the first node's id |
| Flow.WithoutVideos | app/page.tsx:844 | the filter keeps the items in order; each non-video item occurs exactly as often as in the input, and no video is left |
| Flow.AllowsVideo | app/page.tsx:840-842 | true exactly when some deep-dive word occurs in the lower-cased node id or section |
| Flow.SelectEvidence | app/page.tsx:834-848 | at most six items; none without a current node; an order-preserving subsequence of the node's evidence; no video unless the id or section contains a deep-dive word in any case; otherwise exactly the first min(6, n) items (of the filtered list when videos are barred) |
| Text.TrimStart | app/page.tsx:1148 | the result is a suffix of the input; everything dropped is white space; it does not start with white space |
| Text.TrimEnd | app/page.tsx:1148 | the result is a prefix of the input; everything dropped is white space; it does not end with white space |
| Text.Trim | app/page.tsx:1148 | the result is a contiguous piece of the input, and only white space lies outside it; it neither starts nor ends with white space; it is empty exactly when the input is all white space |
| Text.Lower | app/page.tsx:1148 | same length; no capital ASCII letter is left; each capital becomes its small letter (32 code points above); every other character is unchanged |
| Text.LowerIsIdempotent | app/page.tsx:1148 | lower-casing twice gives the same as lower-casing once |
| Text.Includes | app/page.tsx:1153 | true exactly when the keyword occurs at some position of the text |
| Text.IncludesAny | app/page.tsx:1153 | true exactly when some keyword of the list occurs in the text |
| Text.MatchesAnyIgnoringCase | app/page.tsx:840-842 | true exactly when some word occurs in the lower-cased text |
| Routing.Normalize | app/page.tsx:1148 | the normalised input is empty exactly when the raw input is blank; it is no longer than the raw input and holds no capital ASCII letter |
| Routing.FindRule | app/page.tsx:1153 | the index of the first rule with a keyword contained in the input, or none exactly when no rule has one |
| Routing.RouteTyped | app/page.tsx:1146-1158 | blank input after trimming gives no step; otherwise the step says the trimmed lower-cased text and goes to the first matching rule's target as `typed_intent`, or to `n_summary_01` as `typed_fallback` when that rule has no target or no rule matches |
| Transcript.BubblesOfAppend | app/page.tsx:880 | the bubbles of two appended message lists are the bubbles of the first followed by those of the second |
| Transcript.Stamp | app/page.tsx:896-910 | the messages carry the given bubbles in order, under strictly increasing ids none of which is below the first fresh id, so none was issued before |
| Transcript.FindOption | app/page.tsx:905-906 | the first option carrying the id, or none exactly when no option carries it |
| Transcript.KnownCount | app/page.tsx:900-901 | exactly the number of history positions whose node is known; so at most the history's length, and all of it when every node is known |
| Transcript.ChosenText | app/page.tsx:1123 | `o.utterance ?? o.label`: the utterance when the option has one, else its caption |
| Transcript.Placeholder | app/page.tsx:907 | "Open section" exactly for `chip`, "Typed question" exactly for `typed_intent`, "Continue" for any other option id |
| Transcript.ReplayText | app/page.tsx:903-907 | the user line of a replayed step: what the first option of the previous node with the step's option id says (utterance, else label); the placeholder when that node is unknown or has no such option |
| Transcript.ReplayLength | app/page.tsx:893-911 | an empty transcript when the first node is unknown; otherwise one bubble for it and two per later entry whose node is known, so unknown entries are skipped |
| Transcript.ReplayShape | app/page.tsx:890-914 | for a history of known nodes: 2\|h\|-1 bubbles alternating bot, user, bot; bot bubble k is node h[k]'s text; user bubble k is the line for h[k]'s option |
| Transcript.ReplayAt | app/page.tsx:890-914 | bubble j of the replay is the expected alternating bubble |
| Transcript.ReplayBotsAreKnown | app/page.tsx:896-910 | every replayed bot bubble names a known node and shows its text |
| Transcript.ReplayOfPrefix | app/page.tsx:898-911 | replaying a shorter prefix of a history gives a prefix of the transcript |
| Transcript.ReplayOfAppend | app/page.tsx:898-911 | replaying a history extended by one entry appends exactly that entry's step |
| Transcript.ReplayOfOptionStep | app/page.tsx:903-907 | a step made by option o (the first with its id) replays as `o.utterance ?? o.label` and the target's bot text, the same two bubbles the option button sends (line 1123) |
| Transcript.ReplayOfChipStep | app/page.tsx:907 | a chip step replays as "Open section" whatever caption the chip sent (line 948), unless the previous node has an option with id `chip` |
| Transcript.RebuildMessages | app/page.tsx:890-914 | the loop returns the replay of the history, stamped with consecutive fresh ids |
| Navigator.InitialIsConsistent | app/page.tsx:795-813 | the mounted state is consistent and in sync; it has the intro question and the start node's answer when the start node exists |
| Navigator.PushedAppends | app/page.tsx:872-880 | with no step in progress and a known target: exactly one history entry and two messages are appended, the user's line then the target's bot text, with fresh ids; earlier entries are unchanged; the new bot message is typed |
| Navigator.PushedIgnored | app/page.tsx:869-873 | while a step is in progress, or for an unknown target, history and messages are unchanged; in the second case the guard ends lowered |
| Navigator.PushedIsConsistent | app/page.tsx:868-886 | forward steps keep the state consistent |
| Navigator.PushedStaysInSync | app/page.tsx:868-886 | a forward step keeps the transcript in sync when its user line is the one the replay gives that step |
| Navigator.StaysInSync | app/page.tsx:880 | appending the replayed step's two bubbles to a transcript in sync keeps it in sync |
| Navigator.BubblesOfExtension | app/page.tsx:880 | the bubbles of a list extended by two messages are the old bubbles followed by those two |
| Navigator.ChosenOptionStaysInSync | app/page.tsx:1123 | choosing an option of the current node keeps the transcript in sync with the replay |
| Navigator.RewoundIsConsistent | app/page.tsx:916-943 | rewinding to a non-empty prefix keeps the state consistent; the transcript becomes exactly the replay of the new history, 2\|h\|-1 messages for a non-empty flow |
| Navigator.ChangedAnswerDropsLast | app/page.tsx:916-924 | a one-entry history is left as it is; otherwise exactly the last entry goes; the result is a non-empty prefix of the old history and the transcript its replay |
| Navigator.JumpedToKeepsPrefix | app/page.tsx:935-943 | exactly the entries up to the index remain (all of them past the end); the transcript is their replay, 2·index+1 messages; the timeline closes |
| Navigator.Navigator.CurrentNode | app/page.tsx:830 | the current node exists exactly when the last entry's id is indexed; it is then the last flow node with that id, the one `nodesById.get` returns |
| Navigator.Navigator.Evidence | app/page.tsx:834-848 | nothing when the current node is unknown; otherwise at most six of its items, in order, with no video unless the node is a deep-dive node |
| Navigator.Navigator.constructor | app/page.tsx:757-822 | the page mounts in the initial state on the start node, consistent and in sync; the start node resolves exactly when the flow is non-empty |
| Navigator.Navigator.PushTurn | app/page.tsx:868-886 | performs the forward-step transition and keeps the state valid |
| Navigator.Navigator.SettleTransition | app/page.tsx:885 | the timer scheduled by a step lowers the guard and changes nothing else |
| Navigator.Navigator.ChooseOption | app/page.tsx:1123 | a forward step with `o.utterance ?? o.label`, the option's target and its id |
| Navigator.Navigator.GotoChip | app/page.tsx:946-949 | a forward step with the caption or "Open section", to the node, as `chip` (the contact button at line 1012 is such a call) |
| Navigator.Navigator.QuickProjects | app/page.tsx:1162 | a forward step saying "Show me projects" to `n_proj_01` as `quick_projects` |
| Navigator.Navigator.SubmitTyped | app/page.tsx:1146-1158 | blank input changes nothing; otherwise the forward step that typed routing chooses |
| Navigator.Navigator.Rewind | app/page.tsx:916-943 | replaces the history by the prefix, clears the typed message and rebuilds the transcript |
| Navigator.Navigator.ChangeAnswer | app/page.tsx:916-924 | performs the change-answer transition and keeps the state valid |
| Navigator.Navigator.JumpTo | app/page.tsx:935-943 | performs the jump transition (used by the timeline, line 1248) and keeps the state valid |
| Navigator.Navigator.OpenTimeline | app/page.tsx:1050 | the timeline button opens the timeline and changes nothing else |
| BootTyper.BootTyper.constructor | app/page.tsx:483-484 | typing starts at line 0, character 0, not yet done |
| BootTyper.BootTyper.Tick | app/page.tsx:486-512 | with no delay it reports at once; otherwise it types one more character while the line is unfinished, else starts the next line at character 0, else reports; it reports only once the last line is fully typed; each firing before the report strictly decreases the remaining work |
| ClassNames.Kept | app/page.tsx:54 | each non-empty class string is kept exactly as often as it was passed; nothing else is kept; no more strings than arguments |
| ClassNames.KeptMembers | app/page.tsx:54 | a string is kept exactly when it is the non-empty class string of some argument |
| ClassNames.KeptInOrder | app/page.tsx:54 | the kept strings come in the order of their arguments |
| ClassNames.JoinWithSpaces | app/page.tsx:54 | the joined string starts with the first part, is that part alone for a single part, and has the parts' lengths plus one space between neighbours |
| ClassNames.JoinOfAppend | app/page.tsx:54 | joining two non-empty lists is joining each with one space between them, which with the single-part case fixes `join(" ")`'s content |
| ClassNames.Cx | app/page.tsx:53-55 | `cx(…)` is empty exactly when no argument is truthy |

## Left out

- Rendering and animation are not modelled. That covers the intro overlay, the avatar, the cursors, evidence cards, the motion springs and their floating-point tilt maths. `cx` is modelled only as a string function.
- Timers, `Math.random` and the blink scheduler are left out.
- `uid()` returns random strings. Here it is a counter (`nextUid`) that hands out fresh ids. The page only compares ids for equality. The model's `Consistent` relies on the counter's consecutive numbering, which random ids do not have; what carries over to the page is that every id is fresh.
- The `setTimeout(…, 0)` that lowers `isTransitioning` is the separate method `SettleTransition`. A step taken before it fires is ignored, as in the page.
- The 250 ms mount effect that types the first bot message is folded into the constructor. It is the only bot message at mount.
- Delays in `BootTyper` are not modelled: `Tick` is the firing of whichever timer is pending.
- BootTyper.Tick: after completion the model stays finished. The component itself would schedule `onDone` again if React re-ran the effect with a new `onDone` identity.
- `sessionStorage`, scrolling, keyboard listeners and hold-to-start timers are browser I/O and are left out.
- `flowV1.json` is not part of this model. The flow is an arbitrary node list and rule list. A rule's missing `goto` is the empty string, and a missing `evidence` list is empty.
- React update semantics are not modelled. For example, `setMessages` is called inside the `setNodeHistory` updater. Each handler is one atomic transition.
- Text.Lower: `toLowerCase` is modelled on ASCII letters only, so non-ASCII case mappings of the input are not captured. The deep-dive words are lower-case ASCII in the source. For the routing keywords, which live in `flowV1.json`, that is an assumption.
- The replayed transcript does not reproduce the seeded intro question. `InSync` allows it as an optional first bubble.
- Chip, typed and quick-jump turns are not reproduced exactly by a rebuild. Their user line becomes "Open section", "Typed question" or "Continue". The model states agreement only for option-driven steps (`ChosenOptionStaysInSync`) and proves the chip relabelling (`ReplayOfChipStep`).
- Navigator.Navigator.ChooseOption: when several options of a node share an id, the rebuild uses the first one. Agreement with the replay is proved for the first option with its id.
- Transition functions (`Navigator.Initial`, `Pushed`, `Rewound`, `ChangedAnswer`, `JumpedTo`) and `Transcript.Replay` carry no contract of their own. What they promise is stated by the lemmas about them in the table (`InitialIsConsistent`, `PushedAppends`, `PushedIgnored`, `RewoundIsConsistent`, `ChangedAnswerDropsLast`, `JumpedToKeepsPrefix`, `ReplayShape`, `ReplayLength`, `ReplayOfAppend`) and by the class methods proved to carry them out.
- The "Flow error" screen is not modelled (it names `n_start_01` although the start logic prefers `n_summary_01`). `StartNodeResolves` states that the screen appears only for an empty flow.
