/** The local policy: which rules match a request, and what they decide together. */
module Policy {
  import opened Model
  import opened Glob

  datatype Action = RequireApproval | DenyRequest

  type Pattern = seq<Byte>

  /** Absent fields match everything. */
  datatype Match = Match(
    executable: Option<Pattern>, argv: Option<seq<Pattern>>, path: Option<Pattern>, requesterUid: Option<nat>)

  datatype Rule = Rule(match_: Match, action: Action)

  datatype Config = Config(defaultAction: Action, rules: seq<Rule>)

  /** `paths` are the cleaned and resolved paths that the request touches. */
  datatype Input = Input(executable: string, argv: seq<string>, uid: nat, paths: seq<string>)

  /** What a rule says about a request, by what its compiled patterns accept. */
  predicate Applies(m: Match, input: Input) {
    && (m.executable.Some? ==> Accepts(m.executable.value, input.executable))
    && (m.requesterUid.Some? ==> m.requesterUid.value == input.uid)
    && (m.argv.Some? ==>
          && |m.argv.value| == |input.argv|
          && forall k :: 0 <= k < |input.argv| ==> Accepts(m.argv.value[k], input.argv[k]))
    && (m.path.Some? ==> exists k :: 0 <= k < |input.paths| && Accepts(m.path.value, input.paths[k]))
  }

  /** The same by the direct meaning of the patterns. */
  predicate Covers(m: Match, input: Input) {
    && (m.executable.Some? ==> GlobMatch(Chars(m.executable.value), input.executable))
    && (m.requesterUid.Some? ==> m.requesterUid.value == input.uid)
    && (m.argv.Some? ==>
          && |m.argv.value| == |input.argv|
          && forall k :: 0 <= k < |input.argv| ==> GlobMatch(Chars(m.argv.value[k]), input.argv[k]))
    && (m.path.Some? ==> exists k :: 0 <= k < |input.paths| && GlobMatch(Chars(m.path.value), input.paths[k]))
  }

  lemma RulesMeanTheirPatterns(m: Match, input: Input)
    ensures Applies(m, input) <==> Covers(m, input)
  {
    forall p: Pattern, value: string ensures Accepts(p, value) == GlobMatch(Chars(p), value) {
      CompiledGlobIsCorrect(p, value);
    }
  }

  method MatchesRequest(m: Match, input: Input) returns (ok: bool)
    ensures ok == Applies(m, input)
  {
    if m.executable.Some? {
      var accepted := MatchGlob(m.executable.value, input.executable);
      if !accepted {
        return false;
      }
    }
    if m.requesterUid.Some? && m.requesterUid.value != input.uid {
      return false;
    }
    if m.argv.Some? {
      var patterns := m.argv.value;
      if |patterns| != |input.argv| {
        return false;
      }
      for index := 0 to |patterns|
        invariant forall k :: 0 <= k < index ==> Accepts(patterns[k], input.argv[k])
      {
        var accepted := MatchGlob(patterns[index], input.argv[index]);
        if !accepted {
          return false;
        }
      }
    }
    if m.path.Some? {
      var found := false;
      for i := 0 to |input.paths|
        invariant !found
        invariant forall k :: 0 <= k < i ==> !Accepts(m.path.value, input.paths[k])
      {
        var accepted := MatchGlob(m.path.value, input.paths[i]);
        if accepted {
          found := true;
          break;
        }
      }
      if !found {
        return false;
      }
    }
    return true;
  }

  /** Some rule with this action applies. */
  ghost predicate Says(rules: seq<Rule>, input: Input, action: Action) {
    exists r :: r in rules && r.action == action && Applies(r.match_, input)
  }

  /** Deny if any deny rule covers the request; else require approval if such a rule covers
      it; else the default. */
  method Evaluate(config: Config, input: Input) returns (action: Action)
    ensures action == Verdict(config, input)
    ensures (exists r <- config.rules :: r.action == DenyRequest && Covers(r.match_, input)) ==> action == DenyRequest
    ensures
      (&& (forall r <- config.rules :: r.action == DenyRequest ==> !Covers(r.match_, input))
       && (exists r <- config.rules :: r.action == RequireApproval && Covers(r.match_, input))) ==>
        action == RequireApproval
    ensures (forall r <- config.rules :: !Covers(r.match_, input)) ==> action == config.defaultAction
  {
    forall r <- config.rules {
      RulesMeanTheirPatterns(r.match_, input);
    }
    for i := 0 to |config.rules|
      invariant forall k :: 0 <= k < i ==>
        !(config.rules[k].action == DenyRequest && Applies(config.rules[k].match_, input))
    {
      if config.rules[i].action == DenyRequest {
        var matched := MatchesRequest(config.rules[i].match_, input);
        if matched {
          return DenyRequest;
        }
      }
    }
    for i := 0 to |config.rules|
      invariant forall k :: 0 <= k < i ==>
        !(config.rules[k].action == RequireApproval && Applies(config.rules[k].match_, input))
    {
      if config.rules[i].action == RequireApproval {
        var matched := MatchesRequest(config.rules[i].match_, input);
        if matched {
          return RequireApproval;
        }
      }
    }
    return config.defaultAction;
  }

  /** The decision, independent of how the rules are written down. */
  ghost function Verdict(config: Config, input: Input): Action {
    if Says(config.rules, input, DenyRequest) then DenyRequest
    else if Says(config.rules, input, RequireApproval) then RequireApproval
    else config.defaultAction
  }

  /** The order of the rules, and their repetition, do not matter. */
  lemma OrderDoesNotMatter(a: Config, b: Config, input: Input)
    requires a.defaultAction == b.defaultAction
    requires forall r :: r in a.rules <==> r in b.rules
    ensures Verdict(a, input) == Verdict(b, input)
  {
    forall action ensures Says(a.rules, input, action) == Says(b.rules, input, action) {
      if Says(a.rules, input, action) {
        var r :| r in a.rules && r.action == action && Applies(r.match_, input);
        assert r in b.rules;
      }
      if Says(b.rules, input, action) {
        var r :| r in b.rules && r.action == action && Applies(r.match_, input);
        assert r in a.rules;
      }
    }
  }

  /** Nothing before or after a deny rule that applies can take it back. */
  lemma DenyCannotBeShadowed(config: Config, before: seq<Rule>, deny: Rule, after: seq<Rule>, input: Input)
    requires config.rules == before + [deny] + after
    requires deny.action == DenyRequest && Applies(deny.match_, input)
    ensures Verdict(config, input) == DenyRequest
  {
    assert deny in config.rules;
  }
}
