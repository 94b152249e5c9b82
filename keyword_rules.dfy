/**
 * The `if any(k in text for k in group): return kind` cascade the source writes twice: for
 * the intent of a question and for the type of an entity name. Groups are tried in a fixed
 * order and the first one with a phrase in the text decides; a default answers otherwise.
 */
module KeywordRules {
  import opened Text

  /** A group of trigger phrases and the kind it signals. */
  datatype Rule = Rule(patterns: seq<string>, kind: string)

  /** `any(pattern in text for pattern in patterns)`. */
  predicate AnyIn(patterns: seq<string>, text: string) {
    exists i | 0 <= i < |patterns| :: Contains(text, patterns[i])
  }

  /** The kind of the first rule with a phrase in `text`, or `default`. */
  function FirstMatch(rules: seq<Rule>, default: string, text: string): string
    decreases |rules|
  {
    if rules == [] then default
    else if AnyIn(rules[0].patterns, text) then rules[0].kind
    else FirstMatch(rules[1..], default, text)
  }

  /** The result is the default exactly when no rule matches, else the kind of the first match. */
  lemma {:induction false} FirstMatchSpec(rules: seq<Rule>, default: string, text: string)
    requires forall k :: 0 <= k < |rules| ==> rules[k].kind != default
    ensures FirstMatch(rules, default, text) == default <==>
      forall k :: 0 <= k < |rules| ==> !AnyIn(rules[k].patterns, text)
    ensures FirstMatch(rules, default, text) != default ==>
      exists k :: 0 <= k < |rules| && AnyIn(rules[k].patterns, text) &&
        FirstMatch(rules, default, text) == rules[k].kind &&
        forall j :: 0 <= j < k ==> !AnyIn(rules[j].patterns, text)
    decreases |rules|
  {
    if rules != [] {
      FirstMatchSpec(rules[1..], default, text);
      assert forall k :: 1 <= k < |rules| ==> rules[k] == rules[1..][k - 1];
      if !AnyIn(rules[0].patterns, text) && FirstMatch(rules, default, text) != default {
        var k :| 0 <= k < |rules[1..]| && AnyIn(rules[1..][k].patterns, text) &&
          FirstMatch(rules[1..], default, text) == rules[1..][k].kind &&
          forall j :: 0 <= j < k ==> !AnyIn(rules[1..][j].patterns, text);
        assert rules[k + 1] == rules[1..][k];
      }
    }
  }
}
