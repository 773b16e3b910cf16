/** Choosing a value by the first keyword that a text contains. */
module KeywordHelpers {
  import opened Basics

  datatype Rule<P> = Rule(value: string, patterns: seq<P>)

  /** A text, as far as the rules see it: where each pattern first matches. */
  type Text<!P> = P -> Option<nat>

  predicate Hits<P>(text: Text<P>, rules: seq<Rule<P>>, ri: nat, pi: nat, index: nat) {
    ri < |rules| && pi < |rules[ri].patterns| && text(rules[ri].patterns[pi]) == Some(index)
  }

  predicate Matches<P>(text: Text<P>, rule: Rule<P>) {
    exists i :: 0 <= i < |rule.patterns| && text(rule.patterns[i]).Some?
  }

  /** `rule.patterns.some(...)`. */
  method AnyMatches<P>(text: Text<P>, rule: Rule<P>) returns (r: bool)
    ensures r == Matches(text, rule)
  {
    for i := 0 to |rule.patterns|
      invariant forall j | 0 <= j < i :: text(rule.patterns[j]).None?
    {
      if text(rule.patterns[i]).Some? {
        return true;
      }
    }
    return false;
  }

  /** The first rule in the table that matches anywhere. */
  ghost predicate IsFirst<P>(text: Text<P>, rules: seq<Rule<P>>, r: Option<string>) {
    if r.None? then forall i | 0 <= i < |rules| :: !Matches(text, rules[i])
    else exists i :: FirstAt(text, rules, i) && rules[i].value == r.value
  }

  predicate FirstAt<P>(text: Text<P>, rules: seq<Rule<P>>, i: int) {
    0 <= i < |rules| && Matches(text, rules[i]) && forall j | 0 <= j < i :: !Matches(text, rules[j])
  }

  method FirstMatching<P>(text: Text<P>, rules: seq<Rule<P>>) returns (r: Option<string>)
    ensures IsFirst(text, rules, r)
  {
    for i := 0 to |rules|
      invariant forall j | 0 <= j < i :: !Matches(text, rules[j])
    {
      var hit := AnyMatches(text, rules[i]);
      if hit {
        assert FirstAt(text, rules, i);
        return Some(rules[i].value);
      }
    }
    return None;
  }

  datatype Best = Best(index: nat, ruleOrder: nat, value: string)

  /** Earlier in the text, or at the same place and earlier in the table. */
  predicate NoLater(index: nat, ri: nat, index': nat, ri': nat) { index < index' || (index == index' && ri <= ri') }

  ghost predicate EarliestAt<P>(text: Text<P>, rules: seq<Rule<P>>, ri: nat, pi: nat, index: nat) {
    && Hits(text, rules, ri, pi, index)
    && forall ri', pi', index' | Hits(text, rules, ri', pi', index') ::
         index < index' || (index == index' && ri <= ri')
  }

  ghost predicate IsEarliest<P>(text: Text<P>, rules: seq<Rule<P>>, r: Option<string>) {
    if r.None? then forall ri, pi, index :: !Hits(text, rules, ri, pi, index)
    else exists ri: nat, pi: nat, index: nat :: EarliestAt(text, rules, ri, pi, index) && rules[ri].value == r.value
  }

  /** Pattern pi of rule ri comes before pattern pi' of rule ri'. */
  predicate Visited(ri: nat, pi: nat, ri': nat, pi': nat) { ri < ri' || (ri == ri' && pi < pi') }

  /** `best` is right for the patterns before (ri, pi). */
  ghost predicate BestBefore<P>(text: Text<P>, rules: seq<Rule<P>>, ri: nat, pi: nat, best: Option<Best>) {
    match best
    case None => forall i, p, x | Visited(i, p, ri, pi) :: !Hits(text, rules, i, p, x)
    case Some(b) =>
      && (exists p :: Visited(b.ruleOrder, p, ri, pi) && Hits(text, rules, b.ruleOrder, p, b.index))
      && rules[b.ruleOrder].value == b.value
      && forall i, p, x | Visited(i, p, ri, pi) && Hits(text, rules, i, p, x) :: NoLater(b.index, b.ruleOrder, x, i)
  }

  lemma NextRule<P>(text: Text<P>, rules: seq<Rule<P>>, ri: nat, best: Option<Best>)
    requires ri < |rules| && BestBefore(text, rules, ri, |rules[ri].patterns|, best)
    ensures BestBefore(text, rules, ri + 1, 0, best)
  {
    var n := |rules[ri].patterns|;
    assert forall i, p, x | Visited(i, p, ri + 1, 0) && Hits(text, rules, i, p, x) :: Visited(i, p, ri, n);
  }

  lemma NextPattern<P>(text: Text<P>, rules: seq<Rule<P>>, ri: nat, pi: nat, best: Option<Best>, best': Option<Best>)
    requires ri < |rules| && pi < |rules[ri].patterns| && BestBefore(text, rules, ri, pi, best)
    requires best' == Improve(best, text(rules[ri].patterns[pi]), ri, rules[ri].value)
    ensures BestBefore(text, rules, ri, pi + 1, best')
  {
    assert forall i, p | Visited(i, p, ri, pi + 1) :: Visited(i, p, ri, pi) || (i == ri && p == pi);
    assert Visited(ri, pi, ri, pi + 1);
    var m := text(rules[ri].patterns[pi]);
    if m.Some? {
      assert Hits(text, rules, ri, pi, m.value);
    }
    if best.Some? && best' == best {
      var p :| Visited(best.value.ruleOrder, p, ri, pi) && Hits(text, rules, best.value.ruleOrder, p, best.value.index);
      assert Visited(best.value.ruleOrder, p, ri, pi + 1);
    }
  }

  function Improve(best: Option<Best>, m: Option<nat>, ri: nat, value: string): Option<Best> {
    if m.Some? && (best.None? || m.value < best.value.index
                   || (m.value == best.value.index && ri < best.value.ruleOrder))
    then Some(Best(m.value, ri, value))
    else best
  }

  method FirstMatchingEarliest<P>(text: Text<P>, rules: seq<Rule<P>>) returns (r: Option<string>)
    ensures IsEarliest(text, rules, r)
  {
    var best: Option<Best> := None;
    for ri := 0 to |rules|
      invariant BestBefore(text, rules, ri, 0, best)
    {
      for pi := 0 to |rules[ri].patterns|
        invariant BestBefore(text, rules, ri, pi, best)
      {
        ghost var was := best;
        var m := text(rules[ri].patterns[pi]);
        if m.Some? {
          var idx := m.value;
          if best.None? || idx < best.value.index || (idx == best.value.index && ri < best.value.ruleOrder) {
            best := Some(Best(idx, ri, rules[ri].value));
          }
        }
        NextPattern(text, rules, ri, pi, was, best);
      }
      NextRule(text, rules, ri, best);
    }
    AllVisited(text, rules, best);
    r := if best.Some? then Some(best.value.value) else None;
  }

  lemma AllVisited<P>(text: Text<P>, rules: seq<Rule<P>>, best: Option<Best>)
    requires BestBefore(text, rules, |rules|, 0, best)
    ensures IsEarliest(text, rules, if best.Some? then Some(best.value.value) else None)
  {
    forall i, p, x | Hits(text, rules, i, p, x) ensures Visited(i, p, |rules|, 0) {}
    if best.Some? {
      var b := best.value;
      var p :| Visited(b.ruleOrder, p, |rules|, 0) && Hits(text, rules, b.ruleOrder, p, b.index);
      assert EarliestAt(text, rules, b.ruleOrder, p, b.index);
    }
  }

  // ---- what the two choices have to do with each other

  lemma EarliestIsUnique<P>(text: Text<P>, rules: seq<Rule<P>>, r: Option<string>, s: Option<string>)
    requires IsEarliest(text, rules, r) && IsEarliest(text, rules, s)
    ensures r == s
  {
    if r.Some? {
      var ri: nat, pi: nat, x: nat :| EarliestAt(text, rules, ri, pi, x) && rules[ri].value == r.value;
      assert Hits(text, rules, ri, pi, x);
    }
    if s.Some? {
      var ri: nat, pi: nat, x: nat :| EarliestAt(text, rules, ri, pi, x) && rules[ri].value == s.value;
      assert Hits(text, rules, ri, pi, x);
    }
  }

  lemma FirstIsUnique<P>(text: Text<P>, rules: seq<Rule<P>>, r: Option<string>, s: Option<string>)
    requires IsFirst(text, rules, r) && IsFirst(text, rules, s)
    ensures r == s
  {
    if r.Some? {
      var i :| FirstAt(text, rules, i) && rules[i].value == r.value;
      assert Matches(text, rules[i]);
    }
    if s.Some? {
      var i :| FirstAt(text, rules, i) && rules[i].value == s.value;
      assert Matches(text, rules[i]);
    }
  }

  lemma MatchesHits<P>(text: Text<P>, rules: seq<Rule<P>>, ri: nat)
    requires ri < |rules|
    ensures Matches(text, rules[ri]) <==> exists pi, index :: Hits(text, rules, ri, pi, index)
  {
    if Matches(text, rules[ri]) {
      var p :| 0 <= p < |rules[ri].patterns| && text(rules[ri].patterns[p]).Some?;
      assert Hits(text, rules, ri, p, text(rules[ri].patterns[p]).value);
    }
  }

  /** No match of the first matching rule is as early as this. */
  ghost predicate BeatsRule<P>(text: Text<P>, rules: seq<Rule<P>>, ri: nat, index: nat) {
    forall pi, x | Hits(text, rules, ri, pi, x) :: index < x
  }

  /** Both choose nothing, or the same rule, or the earliest match beats every match of the rule
      that comes first in the table. */
  lemma EarliestAgainstFirst<P>(text: Text<P>, rules: seq<Rule<P>>, ri: nat, pi: nat, index: nat, first: nat)
    requires EarliestAt(text, rules, ri, pi, index) && FirstAt(text, rules, first)
    ensures first <= ri
    ensures first == ri || BeatsRule(text, rules, first, index)
  {
    MatchesHits(text, rules, ri);
    assert Hits(text, rules, ri, pi, index);
  }

  lemma BothOrNeither<P>(text: Text<P>, rules: seq<Rule<P>>, earliest: Option<string>, first: Option<string>)
    requires IsEarliest(text, rules, earliest) && IsFirst(text, rules, first)
    ensures earliest.Some? <==> first.Some?
  {
    if earliest.Some? {
      var ri: nat, pi: nat, x: nat :| EarliestAt(text, rules, ri, pi, x) && rules[ri].value == earliest.value;
      MatchesHits(text, rules, ri);
      assert Hits(text, rules, ri, pi, x);
    }
    if first.Some? {
      var i :| FirstAt(text, rules, i) && rules[i].value == first.value;
      MatchesHits(text, rules, i);
    }
  }
}
