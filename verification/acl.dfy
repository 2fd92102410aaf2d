/** The access-rule evaluator `checkACL` (main/core.c:682-721): a pure function
    of an event's rule list and the current input and output states. `true`
    means the event is denied. */
module Acl {
  import opened Base
  import opened IOModel

  /** A rule with string "state", "io", "type" and numeric "id". */
  predicate WellFormed(r: AclRule) {
    r.state.Some? && r.io.Some? && r.id.Some? && r.kind.Some?
  }

  /** The current state of what a well-formed rule refers to; `None` when its
      io is neither "input" nor "output". The id is passed on as a uint8_t. */
  function Referenced(r: AclRule, outs: seq<Output>, ins: seq<Input>): Option<string>
    requires WellFormed(r)
  {
    if r.io.value == "input" then Some(InputState(ins, U8(r.id.value)))
    else if r.io.value == "output" then Some(OutputState(outs, U8(r.id.value)))
    else None
  }

  /** A well-formed rule blocks the event: a deny rule whose state matches, or
      an allow rule whose state does not. */
  predicate Fires(r: AclRule, outs: seq<Output>, ins: seq<Input>)
    requires WellFormed(r)
  {
    var current := Referenced(r, outs, ins);
    current.Some? &&
    ((r.kind.value == "deny" && current.value == r.state.value) ||
     (r.kind.value == "allow" && current.value != r.state.value))
  }

  /** The walk over the rule array: stop with "denied" at the first firing
      rule, with "not denied" at the first malformed one. */
  function CheckRules(rules: seq<AclRule>, outs: seq<Output>, ins: seq<Input>): bool {
    if |rules| == 0 then false
    else if !WellFormed(rules[0]) then false
    else if Fires(rules[0], outs, ins) then true
    else CheckRules(rules[1..], outs, ins)
  }

  /** checkACL: a value that is not an array is never denied. */
  function CheckAcl(acls: Option<seq<AclRule>>, outs: seq<Output>, ins: seq<Input>): bool {
    acls.Some? && CheckRules(acls.value, outs, ins)
  }

  /** Rule `k` is where the walk stops with "denied": every earlier rule is
      well-formed and passes, and rule `k` is well-formed and fires. */
  ghost predicate DeniedAt(rules: seq<AclRule>, k: nat, outs: seq<Output>, ins: seq<Input>)
    requires k < |rules|
  {
    WellFormed(rules[k]) && Fires(rules[k], outs, ins) &&
    forall j :: 0 <= j < k ==> WellFormed(rules[j]) && !Fires(rules[j], outs, ins)
  }

  /** checkACL denies exactly when some rule is reached, well-formed and fires. */
  lemma {:induction false} CheckRulesDenied(rules: seq<AclRule>, outs: seq<Output>, ins: seq<Input>)
    ensures CheckRules(rules, outs, ins) <==> exists k :: 0 <= k < |rules| && DeniedAt(rules, k, outs, ins)
  {
    if |rules| == 0 {
    } else if !WellFormed(rules[0]) {
    } else if Fires(rules[0], outs, ins) {
      assert DeniedAt(rules, 0, outs, ins);
    } else {
      CheckRulesDenied(rules[1..], outs, ins);
      if CheckRules(rules, outs, ins) {
        var k :| 0 <= k < |rules[1..]| && DeniedAt(rules[1..], k, outs, ins);
        assert DeniedAt(rules, k + 1, outs, ins);
      }
      if exists k :: 0 <= k < |rules| && DeniedAt(rules, k, outs, ins) {
        var k :| 0 <= k < |rules| && DeniedAt(rules, k, outs, ins);
        assert k != 0;
        assert DeniedAt(rules[1..], k - 1, outs, ins);
      }
    }
  }

  /** A malformed rule ends the walk with "not denied" when no earlier rule fired. */
  lemma {:induction false} MalformedRuleAllows(rules: seq<AclRule>, k: nat, outs: seq<Output>, ins: seq<Input>)
    requires k < |rules| && !WellFormed(rules[k])
    requires forall j :: 0 <= j < k ==> WellFormed(rules[j]) && !Fires(rules[j], outs, ins)
    ensures !CheckRules(rules, outs, ins)
  {
    if k > 0 {
      MalformedRuleAllows(rules[1..], k - 1, outs, ins);
    }
  }

  /** A well-formed rule whose type is neither allow nor deny, or whose io is
      neither input nor output, is skipped. */
  lemma SkippedRule(r: AclRule, rest: seq<AclRule>, outs: seq<Output>, ins: seq<Input>)
    requires WellFormed(r)
    requires (r.kind.value != "deny" && r.kind.value != "allow") ||
             (r.io.value != "input" && r.io.value != "output")
    ensures CheckRules([r] + rest, outs, ins) == CheckRules(rest, outs, ins)
  {
    assert ([r] + rest)[1..] == rest;
  }

  /** A deny rule on input 3 in state "on" blocks exactly while input 3 reads
      "on"; the same rule as allow blocks exactly while it does not. */
  lemma DenyAndAllowOnInput(outs: seq<Output>, ins: seq<Input>)
    ensures CheckAcl(Some([AclRule(Some("on"), Some("input"), Some(3), Some("deny"))]), outs, ins)
            <==> InputState(ins, 3) == "on"
    ensures CheckAcl(Some([AclRule(Some("on"), Some("input"), Some(3), Some("allow"))]), outs, ins)
            <==> InputState(ins, 3) != "on"
  {
    var deny := AclRule(Some("on"), Some("input"), Some(3), Some("deny"));
    var allow := AclRule(Some("on"), Some("input"), Some(3), Some("allow"));
    assert U8(3) == 3;
    assert Referenced(deny, outs, ins) == Some(InputState(ins, 3));
    assert Referenced(allow, outs, ins) == Some(InputState(ins, 3));
    assert [deny][1..] == [] && [allow][1..] == [];
    assert CheckRules([deny], outs, ins) == Fires(deny, outs, ins);
    assert CheckRules([allow], outs, ins) == Fires(allow, outs, ins);
  }

  /** A rule on an output that no local descriptor has reads that output as
      "off": a deny rule on "off" then blocks. */
  lemma UnknownOutputReadsOff(outs: seq<Output>, ins: seq<Input>, id: Byte)
    requires forall k :: 0 <= k < |outs| ==> outs[k].id != Some(id as int)
    ensures CheckAcl(Some([AclRule(Some("off"), Some("output"), Some(id as int), Some("deny"))]), outs, ins)
  {
    assert forall k :: 0 <= k < |outs| ==> !LocalWithState(outs[k], id);
  }
}
