/**
 * The optional text input: it never "chats"; it only routes the visitor to a
 * node through a fixed table of keyword rules.
 */
module Routing {
  import opened Wrappers
  import opened Text
  import Flow

  /** A routing rule (`intents.routingRules` in the flow data); an empty `goto` stands for a missing one. */
  datatype Rule = Rule(keywords: seq<string>, goto: string)

  /** The arguments of the forward step that an input produces. */
  datatype TypedTurn = TypedTurn(text: string, goto: string, optionId: string)

  const TYPED_INTENT := "typed_intent"
  const TYPED_FALLBACK := "typed_fallback"

  /** `(r.keywords ?? []).some(k => v.includes(k))`. */
  predicate RuleMatches(r: Rule, v: string) {
    IncludesAny(v, r.keywords)
  }

  /** Rule `i` is the first rule that matches `v`. */
  ghost predicate FirstMatch(rules: seq<Rule>, v: string, i: int) {
    0 <= i < |rules| && RuleMatches(rules[i], v) && forall j :: 0 <= j < i ==> !RuleMatches(rules[j], v)
  }

  /** There is only one first match. */
  lemma FirstMatchIsUnique(rules: seq<Rule>, v: string, i: int)
    requires FirstMatch(rules, v, i)
    ensures forall j :: FirstMatch(rules, v, j) ==> j == i
  {
  }

  /** `rules.find(…)`, as an index: the first matching rule, or none when no rule matches. */
  function FindRule(rules: seq<Rule>, v: string): (r: Maybe<nat>)
    ensures r.Just? ==> FirstMatch(rules, v, r.value)
    ensures r.Nothing? ==> forall j :: 0 <= j < |rules| ==> !RuleMatches(rules[j], v)
  {
    if rules == [] then Nothing
    else if RuleMatches(rules[0], v) then Just(0)
    else
      assert forall j :: 1 <= j < |rules| ==> rules[j] == rules[1..][j - 1];
      match FindRule(rules[1..], v)
      case Just(i) => Just(i + 1)
      case Nothing => Nothing
  }

  /**
   * `(value || "").trim().toLowerCase()`: the input without surrounding white
   * space, with no capital letter left; empty exactly for blank input.
   */
  function Normalize(raw: string): (r: string)
    ensures r == [] <==> IsBlank(raw)
    ensures |r| <= |raw|
    ensures forall i :: 0 <= i < |r| ==> !IsUpper(r[i])
  {
    var t := Trim(raw);
    assert |t| <= |raw| by {
      var a, b :| 0 <= a <= b <= |raw| && t == raw[a..b];
    }
    Lower(t)
  }

  /**
   * The Enter handler: blank input does nothing; otherwise the normalised text
   * goes to the first matching rule's target as a typed intent, or, when no
   * rule matches or the first match has no target, to the summary node as a
   * typed fallback.
   */
  function RouteTyped(rules: seq<Rule>, raw: string): (r: Maybe<TypedTurn>)
    ensures r.Nothing? <==> IsBlank(raw)
    ensures r.Just? ==> r.value.text == Normalize(raw) && r.value.text != []
    ensures r.Just? ==> r.value.optionId == TYPED_INTENT || r.value.optionId == TYPED_FALLBACK
    ensures forall i :: !IsBlank(raw) && FirstMatch(rules, Normalize(raw), i) && rules[i].goto != "" ==>
              r == Just(TypedTurn(Normalize(raw), rules[i].goto, TYPED_INTENT))
    ensures forall i :: !IsBlank(raw) && FirstMatch(rules, Normalize(raw), i) && rules[i].goto == "" ==>
              r == Just(TypedTurn(Normalize(raw), Flow.SUMMARY_NODE, TYPED_FALLBACK))
    ensures !IsBlank(raw) && (forall j :: 0 <= j < |rules| ==> !RuleMatches(rules[j], Normalize(raw))) ==>
              r == Just(TypedTurn(Normalize(raw), Flow.SUMMARY_NODE, TYPED_FALLBACK))
  {
    var v := Normalize(raw);
    if v == [] then Nothing
    else
      assert !IsBlank(raw);
      match FindRule(rules, v)
      case Just(i) =>
        FirstMatchIsUnique(rules, v, i);
        if rules[i].goto != "" then Just(TypedTurn(v, rules[i].goto, TYPED_INTENT))
        else Just(TypedTurn(v, Flow.SUMMARY_NODE, TYPED_FALLBACK))
      case Nothing => Just(TypedTurn(v, Flow.SUMMARY_NODE, TYPED_FALLBACK))
  }
}
