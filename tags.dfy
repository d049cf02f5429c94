/** The genre selector of Renamer.__replace_tags: the configured ordered
    list of rules is walked first, each rule whose tag the work carries
    emitting its tag (or its replacement), then every work tag no matched
    rule claimed follows in its original order, and the list is cut to the
    configured maximum. */
module TagSelection {

  /** An entry of the ordered list: a plain tag, or a [source, replacement]
      pair. */
  datatype TagRule =
    | Keep(tag: string)
    | Replace(src: string, repl: string)
  {
    /** The work tag the rule looks for. */
    function Source(): string {
      if Keep? then tag else src
    }

    /** The tag the rule emits when it applies. */
    function Output(): string {
      if Keep? then tag else repl
    }
  }

  /** The rule applies to a work carrying `tags`. */
  predicate Applies(tags: seq<string>, rule: TagRule) {
    rule.Source() in tags
  }

  /** The tags the first loop appends to tags_list after walking `rules`. */
  function RuleOutput(tags: seq<string>, rules: seq<TagRule>): seq<string>
  {
    if rules == [] then []
    else
      var last := rules[|rules| - 1];
      RuleOutput(tags, rules[..|rules| - 1]) + (if Applies(tags, last) then [last.Output()] else [])
  }

  /** The sources the first loop appends to tags_list_flag after walking
      `rules`. */
  function RuleSources(tags: seq<string>, rules: seq<TagRule>): seq<string>
  {
    if rules == [] then []
    else
      var last := rules[|rules| - 1];
      RuleSources(tags, rules[..|rules| - 1]) + (if Applies(tags, last) then [last.Source()] else [])
  }

  /** The tags of `tags` that are not among `sources`, in their order. */
  function Unmatched(tags: seq<string>, sources: seq<string>): (r: seq<string>)
    ensures |r| <= |tags|
  {
    if tags == [] then []
    else
      var t := tags[|tags| - 1];
      Unmatched(tags[..|tags| - 1], sources) + (if t in sources then [] else [t])
  }

  /** The unmatched tags are exactly the work tags outside `sources`. */
  lemma {:induction false} UnmatchedMembers(tags: seq<string>, sources: seq<string>)
    ensures forall x :: x in Unmatched(tags, sources) <==> x in tags && x !in sources
  {
    if tags != [] {
      var init, t := tags[..|tags| - 1], tags[|tags| - 1];
      UnmatchedMembers(init, sources);
      assert tags == init + [t];
      assert forall x :: x in tags <==> x in init || x == t;
    }
  }

  /** Python's s[:n]: a non-negative n keeps the first n elements, a negative
      one drops the last -n. */
  function SliceTo(s: seq<string>, n: int): (r: seq<string>)
    ensures r <= s
    ensures n >= 0 ==> |r| == if n < |s| then n else |s|
    ensures n < 0 ==> |r| == if |s| + n > 0 then |s| + n else 0
  {
    if n >= 0 then (if n < |s| then s[..n] else s)
    else if |s| + n > 0 then s[..|s| + n]
    else []
  }

  /** Unmatched walks the tags in order: the unmatched tags of a + b are
      those of a followed by those of b, repeated tags included. */
  lemma {:induction false} UnmatchedAppend(a: seq<string>, b: seq<string>, sources: seq<string>)
    ensures Unmatched(a + b, sources) == Unmatched(a, sources) + Unmatched(b, sources)
    decreases |b|
  {
    if b == [] {
      assert a + b == a;
    } else {
      var init := b[..|b| - 1];
      assert (a + b)[..|a + b| - 1] == a + init;
      UnmatchedAppend(a, init, sources);
    }
  }

  /** What __replace_tags returns. */
  function SelectTags(tags: seq<string>, rules: seq<TagRule>, maxNumber: int): (r: seq<string>)
    ensures maxNumber >= 0 ==> |r| <= maxNumber
  {
    SliceTo(RuleOutput(tags, rules) + Unmatched(tags, RuleSources(tags, rules)), maxNumber)
  }

  /** Renamer.__replace_tags. */
  method ReplaceTags(tags: seq<string>, rules: seq<TagRule>, maxNumber: int) returns (r: seq<string>)
    ensures r == SelectTags(tags, rules, maxNumber)
  {
    var tagsList: seq<string> := [];
    var flags: seq<string> := [];
    var i := 0;
    while i < |rules|
      invariant 0 <= i <= |rules|
      invariant tagsList == RuleOutput(tags, rules[..i])
      invariant flags == RuleSources(tags, rules[..i])
    {
      var rule := rules[i];
      RuleStep(tags, rules, i);
      if rule.Keep? && rule.tag in tags {
        tagsList := tagsList + [rule.tag];
        flags := flags + [rule.tag];
      } else if rule.Replace? && rule.src in tags {
        tagsList := tagsList + [rule.repl];
        flags := flags + [rule.src];
      }
      i := i + 1;
    }
    assert rules[..i] == rules;
    var j := 0;
    while j < |tags|
      invariant 0 <= j <= |tags|
      invariant tagsList == RuleOutput(tags, rules) + Unmatched(tags[..j], flags)
    {
      UnmatchedStep(tags, j, flags);
      if tags[j] !in flags {
        tagsList := tagsList + [tags[j]];
      }
      j := j + 1;
    }
    assert tags[..j] == tags;
    r := SliceTo(tagsList, maxNumber);
  }

  /** One pass of the first loop of __replace_tags. */
  lemma RuleStep(tags: seq<string>, rules: seq<TagRule>, i: nat)
    requires i < |rules|
    ensures RuleOutput(tags, rules[..i + 1])
         == RuleOutput(tags, rules[..i]) + (if Applies(tags, rules[i]) then [rules[i].Output()] else [])
    ensures RuleSources(tags, rules[..i + 1])
         == RuleSources(tags, rules[..i]) + (if Applies(tags, rules[i]) then [rules[i].Source()] else [])
  {
    assert rules[..i + 1][..i] == rules[..i];
  }

  /** One pass of the second loop of __replace_tags. */
  lemma UnmatchedStep(tags: seq<string>, j: nat, sources: seq<string>)
    requires j < |tags|
    ensures Unmatched(tags[..j + 1], sources)
         == Unmatched(tags[..j], sources) + (if tags[j] in sources then [] else [tags[j]])
  {
    assert tags[..j + 1][..j] == tags[..j];
  }

  /** A tag emitted by the rules is the output of an applying rule, and
      every applying rule emits its output. */
  lemma {:induction false} RuleOutputMembers(tags: seq<string>, rules: seq<TagRule>, x: string)
    ensures x in RuleOutput(tags, rules) <==>
      exists i :: 0 <= i < |rules| && Applies(tags, rules[i]) && rules[i].Output() == x
  {
    if rules != [] {
      var init := rules[..|rules| - 1];
      RuleOutputMembers(tags, init, x);
      assert forall i :: 0 <= i < |init| ==> init[i] == rules[i];
      if x in RuleOutput(tags, rules) && x !in RuleOutput(tags, init) {
        assert Applies(tags, rules[|rules| - 1]) && rules[|rules| - 1].Output() == x;
      }
    }
  }

  /** A matched source is the source of an applying rule, and every applying
      rule's source is matched. */
  lemma {:induction false} RuleSourcesMembers(tags: seq<string>, rules: seq<TagRule>, x: string)
    ensures x in RuleSources(tags, rules) <==>
      exists i :: 0 <= i < |rules| && Applies(tags, rules[i]) && rules[i].Source() == x
  {
    if rules != [] {
      var init := rules[..|rules| - 1];
      RuleSourcesMembers(tags, init, x);
      assert forall i :: 0 <= i < |init| ==> init[i] == rules[i];
      if x in RuleSources(tags, rules) && x !in RuleSources(tags, init) {
        assert Applies(tags, rules[|rules| - 1]) && rules[|rules| - 1].Source() == x;
      }
    }
  }

  /** Every selected tag is the output of a rule whose tag the work carries,
      or a work tag that no applying rule claims. */
  lemma SelectTagsMembers(tags: seq<string>, rules: seq<TagRule>, maxNumber: int, x: string)
    requires x in SelectTags(tags, rules, maxNumber)
    ensures
      || (exists i :: 0 <= i < |rules| && Applies(tags, rules[i]) && rules[i].Output() == x)
      || (x in tags && forall i :: 0 <= i < |rules| && Applies(tags, rules[i]) ==> rules[i].Source() != x)
  {
    var all := RuleOutput(tags, rules) + Unmatched(tags, RuleSources(tags, rules));
    assert x in all;
    UnmatchedMembers(tags, RuleSources(tags, rules));
    RuleOutputMembers(tags, rules, x);
    RuleSourcesMembers(tags, rules, x);
  }

  /** The rules' outputs lead the selection: when the maximum leaves room
      for them, the selection starts with every output of an applying rule,
      in rule order, and the unmatched work tags follow. */
  lemma SelectTagsRulesFirst(tags: seq<string>, rules: seq<TagRule>, maxNumber: int)
    requires maxNumber >= |RuleOutput(tags, rules)|
    ensures RuleOutput(tags, rules) <= SelectTags(tags, rules, maxNumber)
  {
    var out := RuleOutput(tags, rules);
    var all := out + Unmatched(tags, RuleSources(tags, rules));
    assert all[..|out|] == out;
  }

  /** The selection never exceeds the configured maximum. */
  lemma SelectTagsBound(tags: seq<string>, rules: seq<TagRule>, maxNumber: int)
    requires maxNumber >= 0
    ensures |SelectTags(tags, rules, maxNumber)| <= maxNumber
  {
  }

  /** The rules' outputs come first, in rule order: when every rule applies
      and the maximum leaves room, the selection starts with the outputs of
      all rules, one per rule. */
  lemma {:induction false} AllRulesApply(tags: seq<string>, rules: seq<TagRule>)
    requires forall i :: 0 <= i < |rules| ==> Applies(tags, rules[i])
    ensures RuleOutput(tags, rules) == seq(|rules|, i requires 0 <= i < |rules| => rules[i].Output())
  {
    if rules != [] {
      AllRulesApply(tags, rules[..|rules| - 1]);
    }
  }

  /** Walking a + b emits what walking a emits, then what walking b emits. */
  lemma {:induction false} RuleOutputAppend(tags: seq<string>, a: seq<TagRule>, b: seq<TagRule>)
    ensures RuleOutput(tags, a + b) == RuleOutput(tags, a) + RuleOutput(tags, b)
    ensures RuleSources(tags, a + b) == RuleSources(tags, a) + RuleSources(tags, b)
    decreases |b|
  {
    if b == [] {
      assert a + b == a;
    } else {
      var init := b[..|b| - 1];
      assert (a + b)[..|a + b| - 1] == a + init;
      RuleOutputAppend(tags, a, init);
    }
  }

  /** A rule whose tag the work does not carry changes nothing: removing it
      from the ordered list leaves the selection as it was. */
  lemma AbsentRuleIgnored(tags: seq<string>, rules: seq<TagRule>, k: nat, maxNumber: int)
    requires k < |rules| && !Applies(tags, rules[k])
    ensures SelectTags(tags, rules[..k] + rules[k + 1..], maxNumber) == SelectTags(tags, rules, maxNumber)
  {
    var a, c := rules[..k], rules[k + 1..];
    assert rules == (a + [rules[k]]) + c;
    assert [rules[k]][..0] == [];
    RuleOutputAppend(tags, a, [rules[k]]);
    RuleOutputAppend(tags, a + [rules[k]], c);
    RuleOutputAppend(tags, a, c);
    assert RuleOutput(tags, rules) == RuleOutput(tags, a + c);
    assert RuleSources(tags, rules) == RuleSources(tags, a + c);
  }

  /** Unmatched keeps every tag when no source is claimed. */
  lemma {:induction false} UnmatchedNone(tags: seq<string>)
    ensures Unmatched(tags, []) == tags
  {
    if tags != [] {
      UnmatchedNone(tags[..|tags| - 1]);
    }
  }

  /** With no applying rule, the selection is the work's own tags cut to
      the maximum. */
  lemma {:induction false} NoRuleApplies(tags: seq<string>, rules: seq<TagRule>, maxNumber: int)
    requires forall i :: 0 <= i < |rules| ==> !Applies(tags, rules[i])
    ensures SelectTags(tags, rules, maxNumber) == SliceTo(tags, maxNumber)
  {
    assert RuleOutput(tags, rules) == [] && RuleSources(tags, rules) == [] by {
      NoRuleEmits(tags, rules);
    }
    UnmatchedNone(tags);
  }

  lemma {:induction false} NoRuleEmits(tags: seq<string>, rules: seq<TagRule>)
    requires forall i :: 0 <= i < |rules| ==> !Applies(tags, rules[i])
    ensures RuleOutput(tags, rules) == [] && RuleSources(tags, rules) == []
  {
    if rules != [] {
      NoRuleEmits(tags, rules[..|rules| - 1]);
    }
  }
}
