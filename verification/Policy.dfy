/** Consent tokens and the policy engine of `src/policy/index.ts`. Times are whole seconds. */
module Policy {
  import opened Common

  datatype RiskLevel = Low | Medium | High | Critical

  datatype ConsentToken = ConsentToken(scopes: seq<string>, maxCalls: int, riskCeiling: RiskLevel, exp: int)

  datatype ProposedAction = ProposedAction(tool: string, accessMethod: string, dataScope: string)

  datatype Decision = Allow | Deny | NeedsConfirm

  datatype PolicyError = CallLimitExceeded

  function RiskOrder(r: RiskLevel): int {
    match r
    case Low => 0
    case Medium => 1
    case High => 2
    case Critical => 3
  }

  // ---------- Scopes ----------

  /** `granted + ":" <= requested` is the prefix test. */
  predicate ScopeMatches(granted: string, requested: string) {
    granted == requested || granted + ":" <= requested
  }

  /** The colon-separated components of a scope. */
  function Components(s: string): (cs: seq<string>)
    ensures |cs| > 0
  {
    if s == "" then [""]
    else if s[0] == ':' then [""] + Components(s[1..])
    else var rest := Components(s[1..]); [[s[0]] + rest[0]] + rest[1..]
  }

  function JoinColons(cs: seq<string>): string {
    if |cs| == 0 then "" else if |cs| == 1 then cs[0] else cs[0] + ":" + JoinColons(cs[1..])
  }

  lemma {:induction false} JoinOfComponents(s: string)
    ensures JoinColons(Components(s)) == s
  {
    if s != "" {
      JoinOfComponents(s[1..]);
      var rest := Components(s[1..]);
      assert s == [s[0]] + s[1..];
      if s[0] == ':' {
        assert Components(s)[1..] == rest;
      } else {
        assert Components(s)[1..] == rest[1..];
        if |rest| > 1 {
          assert ([s[0]] + rest[0]) + ":" + JoinColons(rest[1..]) == [s[0]] + (rest[0] + ":" + JoinColons(rest[1..]));
        }
      }
    }
  }

  /** Together with `JoinOfComponents`: the components are the pieces between the colons. */
  lemma {:induction false} ComponentsColonFree(s: string, i: nat, j: nat)
    requires i < |Components(s)| && j < |Components(s)[i]|
    ensures Components(s)[i][j] != ':'
  {
    if s != "" {
      if s[0] == ':' {
        if i > 0 { ComponentsColonFree(s[1..], i - 1, j); }
      } else if i > 0 {
        ComponentsColonFree(s[1..], i, j);
      } else if j > 0 {
        ComponentsColonFree(s[1..], 0, j - 1);
      }
    }
  }

  lemma {:induction false} ComponentsOfPath(a: string, b: string)
    ensures Components(a + ":" + b) == Components(a) + Components(b)
  {
    var s := a + ":" + b;
    if a == "" {
      assert s[1..] == b;
    } else {
      assert s[1..] == a[1..] + ":" + b;
      ComponentsOfPath(a[1..], b);
    }
  }

  lemma {:induction false} JoinOfConcat(cs: seq<string>, ds: seq<string>)
    requires cs != [] && ds != []
    ensures JoinColons(cs + ds) == JoinColons(cs) + ":" + JoinColons(ds)
  {
    assert (cs + ds)[1..] == cs[1..] + ds;
    if |cs| > 1 {
      JoinOfConcat(cs[1..], ds);
      assert cs[0] + ":" + (JoinColons(cs[1..]) + ":" + JoinColons(ds)) ==
             (cs[0] + ":" + JoinColons(cs[1..])) + ":" + JoinColons(ds);
    }
  }

  /** The text test is the hierarchical one: a grant covers what its components are a beginning of, so
      `tool:http` covers `tool:http:get` and not `tool:https`. */
  lemma ScopeMatchesByComponents(granted: string, requested: string)
    ensures ScopeMatches(granted, requested) <==> Components(granted) <= Components(requested)
  {
    var g, r := Components(granted), Components(requested);
    if granted != requested && granted + ":" <= requested {
      var rest := requested[|granted| + 1..];
      assert requested == granted + ":" + rest;
      ComponentsOfPath(granted, rest);
    }
    if g <= r {
      JoinOfComponents(granted);
      JoinOfComponents(requested);
      if |g| < |r| {
        assert r == g + r[|g|..];
        JoinOfConcat(g, r[|g|..]);
      } else {
        assert g == r;
      }
    }
  }

  // ---------- Decisions ----------

  function RequiredScopes(a: ProposedAction): seq<string> {
    ["tool:" + a.tool + ":" + a.accessMethod, "data:" + a.dataScope]
  }

  ghost predicate Covered(t: ConsentToken, required: string) {
    exists i :: 0 <= i < |t.scopes| && ScopeMatches(t.scopes[i], required)
  }

  /** The action may be carried out now. */
  ghost predicate Permitted(t: ConsentToken, callCount: int, a: ProposedAction, risk: RiskLevel, now: int) {
    now < t.exp && callCount < t.maxCalls && RiskOrder(risk) <= RiskOrder(t.riskCeiling) &&
    Covered(t, RequiredScopes(a)[0]) && Covered(t, RequiredScopes(a)[1])
  }

  /** The action is one risk level above what the token covers. */
  ghost predicate Confirmable(t: ConsentToken, callCount: int, risk: RiskLevel, now: int) {
    now < t.exp && callCount < t.maxCalls && RiskOrder(risk) == RiskOrder(t.riskCeiling) + 1
  }

  ghost function Decide(t: ConsentToken, callCount: int, a: ProposedAction, risk: RiskLevel, now: int): Decision {
    if Permitted(t, callCount, a, risk, now) then Allow
    else if Confirmable(t, callCount, risk, now) then NeedsConfirm
    else Deny
  }

  /** Some grant begins like this. */
  ghost predicate Granted(t: ConsentToken, required: seq<string>) {
    exists i :: 0 <= i < |t.scopes| && Components(t.scopes[i]) <= required
  }

  lemma CoveredByComponents(t: ConsentToken, required: string)
    ensures Covered(t, required) <==> Granted(t, Components(required))
  {
    hide ScopeMatches, Components;
    forall i | 0 <= i < |t.scopes|
      ensures ScopeMatches(t.scopes[i], required) <==> Components(t.scopes[i]) <= Components(required)
    {
      ScopeMatchesByComponents(t.scopes[i], required);
    }
  }

  lemma {:induction false} ComponentsOfWord(s: string)
    requires forall i :: 0 <= i < |s| ==> s[i] != ':'
    ensures Components(s) == [s]
  {
    if s != "" {
      ComponentsOfWord(s[1..]);
      assert s == [s[0]] + s[1..];
    }
  }

  lemma RequiredComponents(a: ProposedAction)
    ensures Components(RequiredScopes(a)[0]) == ["tool"] + Components(a.tool) + Components(a.accessMethod)
    ensures Components(RequiredScopes(a)[1]) == ["data"] + Components(a.dataScope)
  {
    ComponentsOfWord("tool");
    ComponentsOfWord("data");
    assert "tool:" + a.tool + ":" + a.accessMethod == "tool" + ":" + (a.tool + ":" + a.accessMethod);
    assert "data:" + a.dataScope == "data" + ":" + a.dataScope;
    ComponentsOfPath("tool", a.tool + ":" + a.accessMethod);
    ComponentsOfPath(a.tool, a.accessMethod);
    ComponentsOfPath("data", a.dataScope);
    hide Components;
    assert ["tool"] + (Components(a.tool) + Components(a.accessMethod)) ==
           ["tool"] + Components(a.tool) + Components(a.accessMethod);
  }

  /** The risks that a ceiling admits. */
  function Admitted(ceiling: RiskLevel): set<RiskLevel> {
    match ceiling
    case Low => {Low}
    case Medium => {Low, Medium}
    case High => {Low, Medium, High}
    case Critical => {Low, Medium, High, Critical}
  }

  /** Main result: the decision spelled out. Within time and call limit, an action is allowed exactly when its risk
      is admitted by the ceiling and grants begin the components of its tool and of its data; it needs confirmation
      exactly when its risk is the next one above the ceiling; and everything else is denied. */
  lemma DecisionSpelledOut(t: ConsentToken, callCount: int, a: ProposedAction, risk: RiskLevel, now: int)
    ensures Decide(t, callCount, a, risk, now) == Allow <==>
            now < t.exp && callCount < t.maxCalls && risk in Admitted(t.riskCeiling) &&
            Granted(t, ["tool"] + Components(a.tool) + Components(a.accessMethod)) &&
            Granted(t, ["data"] + Components(a.dataScope))
    ensures Decide(t, callCount, a, risk, now) == NeedsConfirm <==>
            now < t.exp && callCount < t.maxCalls &&
            (t.riskCeiling, risk) in {(Low, Medium), (Medium, High), (High, Critical)}
  {
    RequiredComponents(a);
    CoveredByComponents(t, RequiredScopes(a)[0]);
    CoveredByComponents(t, RequiredScopes(a)[1]);
    hide Covered, Granted, Components, RequiredScopes;
  }

  class PolicyEngine {
    const token: ConsentToken
    var callCount: int

    constructor (token: ConsentToken)
      ensures this.token == token && callCount == 0
    {
      this.token := token;
      callCount := 0;
    }

    method Covers(required: string) returns (covered: bool)
      ensures covered <==> Covered(token, required)
    {
      covered := false;
      for i := 0 to |token.scopes|
        invariant covered <==> exists j :: 0 <= j < i && ScopeMatches(token.scopes[j], required)
      {
        if ScopeMatches(token.scopes[i], required) { covered := true; }
      }
    }

    method Evaluate(a: ProposedAction, risk: RiskLevel, now: int) returns (d: Decision)
      ensures d == Decide(token, callCount, a, risk, now)
    {
      if now >= token.exp { return Deny; }
      if callCount >= token.maxCalls { return Deny; }
      var actionRisk, ceiling := RiskOrder(risk), RiskOrder(token.riskCeiling);
      if actionRisk > ceiling {
        return if actionRisk == ceiling + 1 then NeedsConfirm else Deny;
      }
      var required := RequiredScopes(a);
      for i := 0 to |required|
        invariant forall j :: 0 <= j < i ==> Covered(token, required[j])
      {
        var covered := Covers(required[i]);
        if !covered { return Deny; }
      }
      d := Allow;
    }

    method RecordCall() returns (r: Result<(), PolicyError>)
      modifies this
      ensures old(callCount) >= token.maxCalls ==> r == Err(CallLimitExceeded) && callCount == old(callCount)
      ensures old(callCount) < token.maxCalls ==> r == Ok(()) && callCount == old(callCount) + 1
    {
      if callCount >= token.maxCalls { return Err(CallLimitExceeded); }
      callCount := callCount + 1;
      r := Ok(());
    }

    method RemainingCalls() returns (n: int)
      ensures n == Remaining(token, callCount)
    {
      n := if token.maxCalls - callCount > 0 then token.maxCalls - callCount else 0;
    }
  }

  function Remaining(t: ConsentToken, callCount: int): int {
    if t.maxCalls > callCount then t.maxCalls - callCount else 0
  }
}
