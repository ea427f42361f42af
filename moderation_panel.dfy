/** The moderation panel: the list of automatic moderation rules, the draft of
  * a new rule, and whether the add-rule form is open.
  */
module Moderation {
  import opened Seqs
  import opened Wrappers

  datatype RuleType = Content | Link | Spam | Mention

  datatype Action = Warn | Mute | Kick | Ban

  datatype ModerationRule = ModerationRule(
    id: string,
    name: string,
    ruleType: RuleType,
    action: Action,
    enabled: bool,
    pattern: string,
    duration: Option<int>,
    description: string)

  /** The `Partial<ModerationRule>` the form edits. Name, pattern, description
    * and duration may be absent; the type, the action and the enabled switch
    * are present in every draft the component builds (the initial draft and
    * the reset set them, and each edit copies the old draft). */
  datatype RuleDraft = RuleDraft(
    name: Option<string>,
    ruleType: RuleType,
    action: Action,
    pattern: Option<string>,
    description: Option<string>,
    enabled: bool,
    duration: Option<int>)

  /** The draft the form starts from and is reset to. */
  const EmptyDraft: RuleDraft :=
    RuleDraft(Some(""), Content, Warn, Some(""), Some(""), true, None)

  /** The four rules the panel starts with. */
  const DefaultRules: seq<ModerationRule> := [
    ModerationRule("1", "Discord Server Links", Link, Ban, true, "discord.gg/*", None,
      "Automatically ban users posting Discord server invites"),
    ModerationRule("2", "Excessive Mentions", Mention, Mute, true, "@everyone, @here", Some(300),
      "Mute users abusing mass mentions"),
    ModerationRule("3", "Spam Detection", Spam, Warn, true, "Repeated messages", None,
      "Warn users for spam behavior"),
    ModerationRule("4", "Inappropriate Content", Content, Ban, true, "Filtered keywords", None,
      "Ban users for inappropriate content")
  ]

  /** JavaScript truthiness of an optional string: present and non-empty. */
  predicate Truthy(s: Option<string>)
  {
    s.Some? && s.value != ""
  }

  /** `addRule`'s guard: both the name and the pattern are filled in. */
  predicate CanAdd(d: RuleDraft)
  {
    Truthy(d.name) && Truthy(d.pattern)
  }

  /** The rule `addRule` builds from a draft that passed the guard. */
  function RuleFromDraft(id: string, d: RuleDraft): ModerationRule
    requires CanAdd(d)
  {
    ModerationRule(id, d.name.value, d.ruleType, d.action, d.enabled, d.pattern.value,
      d.duration, d.description.GetOr(""))
  }

  /** The form's view of a stored rule: every field present. */
  function DraftOf(r: ModerationRule): RuleDraft
  {
    RuleDraft(Some(r.name), r.ruleType, r.action, Some(r.pattern), Some(r.description), r.enabled, r.duration)
  }

  function RuleHasId(id: string): ModerationRule -> bool
  {
    (r: ModerationRule) => r.id == id
  }

  function OtherRule(id: string): ModerationRule -> bool
  {
    (r: ModerationRule) => r.id != id
  }

  function FlipEnabled(): ModerationRule -> ModerationRule
  {
    (r: ModerationRule) => r.(enabled := !r.enabled)
  }

  function RuleId(): ModerationRule -> string
  {
    (r: ModerationRule) => r.id
  }

  function IsEnabled(): ModerationRule -> bool
  {
    (r: ModerationRule) => r.enabled
  }

  /** The rules after `toggleRule(id)`. */
  function ToggleRuleIn(rules: seq<ModerationRule>, id: string): seq<ModerationRule>
  {
    MapWhere(rules, RuleHasId(id), FlipEnabled())
  }

  /** The rules after `deleteRule(id)`. */
  function DeleteRuleFrom(rules: seq<ModerationRule>, id: string): seq<ModerationRule>
  {
    Filter(rules, OtherRule(id))
  }

  /** The Active Rules figure: `rules.filter(r => r.enabled).length`. */
  function ActiveCount(rules: seq<ModerationRule>): nat
  {
    |Filter(rules, IsEnabled())|
  }

  /** The positions of the enabled rules. */
  ghost function EnabledPositions(rules: seq<ModerationRule>): set<nat>
  {
    set i: nat | i < |rules| && rules[i].enabled
  }

  // ---------------------------------------------------------------- lemmas

  /** `toggleRule` flips `enabled` on the rules with that id and changes
    * nothing else. */
  lemma ToggleRuleSpec(rules: seq<ModerationRule>, id: string)
    ensures |ToggleRuleIn(rules, id)| == |rules|
    ensures forall i :: 0 <= i < |rules| ==>
      ToggleRuleIn(rules, id)[i] == if rules[i].id == id then rules[i].(enabled := !rules[i].enabled) else rules[i]
  {
    MapWhereAt(rules, RuleHasId(id), FlipEnabled());
  }

  /** Toggling the same rule twice restores the list. */
  lemma ToggleRuleTwice(rules: seq<ModerationRule>, id: string)
    ensures ToggleRuleIn(ToggleRuleIn(rules, id), id) == rules
  {
    MapWhereTwice(rules, RuleHasId(id), FlipEnabled());
  }

  /** `deleteRule` removes every rule with that id and keeps the rest in order. */
  lemma DeleteRuleSpec(rules: seq<ModerationRule>, id: string)
    ensures forall r :: r in DeleteRuleFrom(rules, id) <==> r in rules && r.id != id
    ensures IsSubsequence(DeleteRuleFrom(rules, id), rules)
    ensures forall r: ModerationRule :: r.id != id ==> multiset(DeleteRuleFrom(rules, id))[r] == multiset(rules)[r]
    ensures (forall r :: r in rules ==> r.id != id) ==> DeleteRuleFrom(rules, id) == rules
  {
    FilterMembers(rules, OtherRule(id));
    FilterIsSubsequence(rules, OtherRule(id));
    forall r: ModerationRule | r.id != id ensures multiset(DeleteRuleFrom(rules, id))[r] == multiset(rules)[r] {
      FilterKeepsCount(rules, OtherRule(id), r);
    }
    if forall r :: r in rules ==> r.id != id {
      FilterAllKept(rules, OtherRule(id));
    }
  }

  /** Reading the built rule back as a draft gives the draft `addRule`
    * started from, with an absent description read as "", and the rule
    * carries the id it was given. */
  lemma RuleFromDraftRoundTrip(id: string, d: RuleDraft)
    requires CanAdd(d)
    ensures RuleFromDraft(id, d).id == id
    ensures DraftOf(RuleFromDraft(id, d)) == d.(description := Some(d.description.GetOr("")))
  {
  }

  /** Conversely, every rule with a name and a pattern is the one `addRule`
    * builds from its own draft. */
  lemma DraftOfRoundTrip(r: ModerationRule)
    requires r.name != "" && r.pattern != ""
    ensures CanAdd(DraftOf(r))
    ensures RuleFromDraft(r.id, DraftOf(r)) == r
  {
  }

  /** The Active Rules figure counts the positions of enabled rules, so it
    * never exceeds the number of rules. */
  lemma {:induction false} ActiveCountSpec(rules: seq<ModerationRule>)
    ensures ActiveCount(rules) == |EnabledPositions(rules)|
    ensures ActiveCount(rules) <= |rules|
  {
    FilterLength(rules, IsEnabled());
    if rules != [] {
      var rest := rules[1..];
      ActiveCountSpec(rest);
      var shifted := Shift(EnabledPositions(rest));
      ShiftedSize(EnabledPositions(rest));
      if rules[0].enabled {
        assert EnabledPositions(rules) == {0} + shifted by {
          forall i: nat | i in EnabledPositions(rules) ensures i in {0} + shifted {
            if i > 0 {
              assert rest[i - 1] == rules[i];
              assert i - 1 in EnabledPositions(rest);
            }
          }
        }
      } else {
        assert EnabledPositions(rules) == shifted by {
          forall i: nat | i in EnabledPositions(rules) ensures i in shifted {
            assert i > 0;
            assert rest[i - 1] == rules[i];
            assert i - 1 in EnabledPositions(rest);
          }
        }
      }
    }
  }

  /** A set of positions moved up by one. */
  ghost function Shift(s: set<nat>): set<nat>
  {
    set i | i in s :: i + 1
  }

  /** Shifting a set of positions by one keeps its size. */
  lemma {:induction false} ShiftedSize(s: set<nat>)
    ensures |Shift(s)| == |s|
    decreases |s|
  {
    if s != {} {
      var x :| x in s;
      ShiftedSize(s - {x});
      assert Shift(s) == Shift(s - {x}) + {x + 1} by {
        forall j | j in Shift(s) ensures j in Shift(s - {x}) + {x + 1} {
          assert j - 1 in s;
          if j != x + 1 {
            assert j - 1 in s - {x};
          }
        }
      }
      assert x + 1 !in Shift(s - {x});
    }
  }

  /** Deleting rules never raises the Active Rules figure. */
  lemma DeleteRuleActiveCount(rules: seq<ModerationRule>, id: string)
    ensures ActiveCount(DeleteRuleFrom(rules, id)) <= ActiveCount(rules)
  {
    ActiveFilterMonotone(rules, OtherRule(id));
  }

  /** Filtering the rules never raises the number of enabled ones. */
  lemma {:induction false} ActiveFilterMonotone(rules: seq<ModerationRule>, keep: ModerationRule -> bool)
    ensures ActiveCount(Filter(rules, keep)) <= ActiveCount(rules)
  {
    if rules != [] {
      ActiveFilterMonotone(rules[1..], keep);
      var rest := Filter(rules[1..], keep);
      if keep(rules[0]) {
        assert Filter(rules, keep) == [rules[0]] + rest;
        assert ([rules[0]] + rest)[1..] == rest;
      }
    }
  }

  /** Adding a rule raises the Active Rules figure by one exactly when the
    * draft was enabled. */
  lemma AddRuleActiveCount(rules: seq<ModerationRule>, r: ModerationRule)
    ensures ActiveCount(rules + [r]) == ActiveCount(rules) + (if r.enabled then 1 else 0)
  {
    FilterAppend(rules, [r], IsEnabled());
    assert [r][1..] == [];
  }

  // ---------------------------------------------------------------- the component

  class ModerationPanel {
    var rules: seq<ModerationRule>
    var newRule: RuleDraft
    var showAddRule: bool

    /** Rule ids are distinct: the defaults are, and each added rule takes a
      * new clock reading. */
    ghost predicate Valid()
      reads this
    {
      DistinctBy(rules, RuleId())
    }

    constructor ()
      ensures Valid()
      ensures rules == DefaultRules && newRule == EmptyDraft && !showAddRule
    {
      rules := DefaultRules;
      newRule := EmptyDraft;
      showAddRule := false;
    }

    /** `toggleRule(ruleId)`: the switch on a rule. */
    method ToggleRule(ruleId: string)
      requires Valid()
      modifies this
      ensures Valid()
      ensures rules == ToggleRuleIn(old(rules), ruleId)
      ensures newRule == old(newRule) && showAddRule == old(showAddRule)
    {
      MapWhereDistinctBy(rules, RuleHasId(ruleId), FlipEnabled(), RuleId());
      rules := ToggleRuleIn(rules, ruleId);
    }

    /** `deleteRule(ruleId)`: the X on a rule. */
    method DeleteRule(ruleId: string)
      requires Valid()
      modifies this
      ensures Valid()
      ensures rules == DeleteRuleFrom(old(rules), ruleId)
      ensures newRule == old(newRule) && showAddRule == old(showAddRule)
    {
      FilterDistinctBy(rules, OtherRule(ruleId), RuleId());
      rules := DeleteRuleFrom(rules, ruleId);
    }

    /** Editing the draft in the form (each input copies the draft with one
      * property replaced). */
    method EditDraft(draft: RuleDraft)
      requires Valid()
      modifies this
      ensures Valid()
      ensures newRule == draft
      ensures rules == old(rules) && showAddRule == old(showAddRule)
    {
      newRule := draft;
    }

    /** `addRule`; `id` stands for `Date.now().toString()`, taken to be new. */
    method AddRule(id: string)
      requires Valid()
      requires forall r :: r in rules ==> r.id != id
      modifies this
      ensures Valid()
      ensures !CanAdd(old(newRule)) ==>
        rules == old(rules) && newRule == old(newRule) && showAddRule == old(showAddRule)
      ensures CanAdd(old(newRule)) ==>
        rules == old(rules) + [RuleFromDraft(id, old(newRule))] && newRule == EmptyDraft && !showAddRule
      ensures CanAdd(old(newRule)) ==>
        && rules[|rules| - 1].id == id
        && DraftOf(rules[|rules| - 1]) == old(newRule).(description := Some(old(newRule).description.GetOr("")))
        && ActiveCount(rules) == ActiveCount(old(rules)) + (if old(newRule).enabled then 1 else 0)
    {
      if !CanAdd(newRule) {
        return;
      }
      var rule := RuleFromDraft(id, newRule);
      RuleFromDraftRoundTrip(id, newRule);
      AddRuleActiveCount(rules, rule);
      AppendDistinctBy(rules, rule, RuleId());
      rules := rules + [rule];
      newRule := EmptyDraft;
      showAddRule := false;
    }

    /** The Add Rule button in the header opens or closes the form. */
    method ToggleAddForm()
      requires Valid()
      modifies this
      ensures Valid()
      ensures showAddRule == !old(showAddRule)
      ensures rules == old(rules) && newRule == old(newRule)
    {
      showAddRule := !showAddRule;
    }

    /** The form's Cancel button closes it and keeps the draft. */
    method Cancel()
      requires Valid()
      modifies this
      ensures Valid()
      ensures !showAddRule
      ensures rules == old(rules) && newRule == old(newRule)
    {
      showAddRule := false;
    }
  }
}
