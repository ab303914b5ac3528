/** The strategy decision, its validators, and the policy gateway that projects it. */
module Decisions {
  import opened Wrappers

  type Ticker = string

  datatype DecisionAction = Adopt | Reject | Defer

  datatype Side = Buy | Sell

  /** `side` is carried but the rebalancing broker gives it no meaning. */
  datatype TargetPosition = TargetPosition(ticker: Ticker, side: Side, weight: real)

  datatype StrategyDecision = StrategyDecision(
    runId: string,
    action: DecisionAction,
    targets: seq<TargetPosition>,
    notionalCap: real,
    maxPositionWeight: real,
    dailyLossLimit: real)

  const MAX_TARGETS := 500

  datatype ValidationError =
    | FieldOutOfRange
    | AdoptWithoutTargets
    | TargetsWithoutAdopt
    | WeightAboveEnvelope(ticker: Ticker)
    | WeightsAboveOne
    | DuplicateTickers

  function TotalWeight(targets: seq<TargetPosition>): real {
    if targets == [] then 0.0
    else TotalWeight(targets[..|targets| - 1]) + targets[|targets| - 1].weight
  }

  predicate FieldsInRange(d: StrategyDecision) {
    && |d.targets| <= MAX_TARGETS
    && d.notionalCap >= 0.0
    && 0.0 < d.maxPositionWeight <= 1.0
    && d.dailyLossLimit >= 0.0
    && forall t <- d.targets :: 0.0 < t.weight <= 1.0
  }

  function FirstAboveEnvelope(targets: seq<TargetPosition>, envelope: real): (r: Option<Ticker>)
    ensures r.None? <==> forall t <- targets :: t.weight <= envelope
  {
    if targets == [] then None
    else if targets[0].weight > envelope then Some(targets[0].ticker)
    else
      assert targets == [targets[0]] + targets[1..];
      FirstAboveEnvelope(targets[1..], envelope)
  }

  ghost predicate DistinctTickers(targets: seq<TargetPosition>) {
    forall i, j :: 0 <= i < j < |targets| ==> targets[i].ticker != targets[j].ticker
  }

  /** What a decision that reaches the gateway is promised to satisfy. */
  ghost predicate WellFormed(d: StrategyDecision) {
    && FieldsInRange(d)
    && (d.action == Adopt <==> d.targets != [])
    && (forall t <- d.targets :: t.weight <= d.maxPositionWeight)
    && TotalWeight(d.targets) <= 1.0
    && DistinctTickers(d.targets)
  }

  function TickerSet(targets: seq<TargetPosition>): set<Ticker> {
    set t <- targets :: t.ticker
  }

  lemma DistinctOneMore(init: seq<TargetPosition>, last: TargetPosition)
    ensures DistinctTickers(init + [last]) <==> DistinctTickers(init) && last.ticker !in TickerSet(init)
  {
    var all := init + [last];
    if DistinctTickers(all) {
      forall i, j | 0 <= i < j < |init| ensures init[i].ticker != init[j].ticker {
        assert all[i].ticker != all[j].ticker;
      }
      forall t | t in init ensures t.ticker != last.ticker {
        var i :| 0 <= i < |init| && init[i] == t;
        assert all[i].ticker != all[|init|].ticker;
      }
    } else {
      var i, j :| 0 <= i < j < |all| && all[i].ticker == all[j].ticker;
      if j < |init| {
        assert init[i].ticker == init[j].ticker;
      } else {
        assert init[i] in init;
      }
    }
  }

  lemma {:induction false} DistinctIffSetSize(targets: seq<TargetPosition>)
    ensures |TickerSet(targets)| <= |targets|
    ensures |TickerSet(targets)| == |targets| <==> DistinctTickers(targets)
  {
    if targets != [] {
      var n := |targets| - 1;
      var init, last := targets[..n], targets[n];
      DistinctIffSetSize(init);
      assert targets == init + [last];
      DistinctOneMore(init, last);
      assert TickerSet(targets) == TickerSet(init) + {last.ticker};
    }
  }

  /** The validators, in the order pydantic runs them. */
  function Validate(d: StrategyDecision): (r: Result<StrategyDecision, ValidationError>)
    ensures r.Ok? <==> WellFormed(d)
    ensures r.Ok? ==> r.value == d
  {
    DistinctIffSetSize(d.targets);
    if !FieldsInRange(d) then Err(FieldOutOfRange)
    else if d.action == Adopt && d.targets == [] then Err(AdoptWithoutTargets)
    else if d.action != Adopt && d.targets != [] then Err(TargetsWithoutAdopt)
    else
      match FirstAboveEnvelope(d.targets, d.maxPositionWeight)
      case Some(ticker) => Err(WeightAboveEnvelope(ticker))
      case None =>
        if TotalWeight(d.targets) > 1.0 then Err(WeightsAboveOne)
        else if |TickerSet(d.targets)| != |d.targets| then Err(DuplicateTickers)
        else Ok(d)
  }

  /** No targets weigh nothing, one weighs its weight, and lists weigh together what they weigh apart. */
  lemma {:induction false} TotalWeightAdds(a: seq<TargetPosition>, b: seq<TargetPosition>, t: TargetPosition)
    ensures TotalWeight([]) == 0.0 && TotalWeight([t]) == t.weight
    ensures TotalWeight(a + b) == TotalWeight(a) + TotalWeight(b)
  {
    assert [t][..0] == [];
    if b == [] {
      assert a + b == a;
    } else {
      var n := |b| - 1;
      assert (a + b)[..|a + b| - 1] == a + b[..n];
      TotalWeightAdds(a, b[..n], t);
    }
  }

  /** What a decision has to satisfy to be accepted. */
  lemma AcceptedIff(d: StrategyDecision)
    ensures Validate(d).Ok? <==>
      && |d.targets| <= 500 && d.notionalCap >= 0.0 && d.dailyLossLimit >= 0.0
      && d.maxPositionWeight > 0.0 && d.maxPositionWeight <= 1.0
      && (d.action == Adopt <==> |d.targets| > 0)
      && (forall i :: 0 <= i < |d.targets| ==> 0.0 < d.targets[i].weight && d.targets[i].weight <= d.maxPositionWeight)
      && TotalWeight(d.targets) <= 1.0
      && forall i, j :: 0 <= i < j < |d.targets| ==> d.targets[i].ticker != d.targets[j].ticker
  {
    if forall i :: 0 <= i < |d.targets| ==> 0.0 < d.targets[i].weight && d.targets[i].weight <= d.maxPositionWeight {
      assert forall t <- d.targets :: 0.0 < t.weight && t.weight <= d.maxPositionWeight;
    }
  }

  /** A refusal names a rule that the decision breaks; of several overweight targets, the first. */
  lemma RefusalNamesABrokenRule(d: StrategyDecision)
    requires Validate(d).Err?
    ensures match Validate(d).error
            case FieldOutOfRange =>
              || |d.targets| > 500 || d.notionalCap < 0.0 || d.dailyLossLimit < 0.0
              || d.maxPositionWeight <= 0.0 || d.maxPositionWeight > 1.0
              || exists t <- d.targets :: t.weight <= 0.0 || t.weight > 1.0
            case AdoptWithoutTargets => d.action == Adopt && d.targets == []
            case TargetsWithoutAdopt => d.action != Adopt && d.targets != []
            case WeightAboveEnvelope(ticker) =>
              exists i :: 0 <= i < |d.targets| && d.targets[i].ticker == ticker
                          && d.targets[i].weight > d.maxPositionWeight
                          && forall j :: 0 <= j < i ==> d.targets[j].weight <= d.maxPositionWeight
            case WeightsAboveOne => TotalWeight(d.targets) > 1.0
            case DuplicateTickers =>
              exists i, j :: 0 <= i < j < |d.targets| && d.targets[i].ticker == d.targets[j].ticker
  {
    DistinctIffSetSize(d.targets);
    if FirstAboveEnvelope(d.targets, d.maxPositionWeight).Some? {
      var i := FirstAbove(d.targets, d.maxPositionWeight);
    }
  }

  lemma {:induction false} FirstAbove(targets: seq<TargetPosition>, envelope: real) returns (i: nat)
    requires FirstAboveEnvelope(targets, envelope).Some?
    ensures i < |targets| && Some(targets[i].ticker) == FirstAboveEnvelope(targets, envelope)
    ensures targets[i].weight > envelope && forall j :: 0 <= j < i ==> targets[j].weight <= envelope
  {
    if targets[0].weight > envelope {
      i := 0;
    } else {
      i := FirstAbove(targets[1..], envelope);
      i := i + 1;
      assert forall j :: 1 <= j < i ==> targets[j] == targets[1..][j - 1];
    }
  }
}

/** `apply_policy_gateway`: a decision with any violation is demoted whole. */
module PolicyGateway {
  import opened Wrappers
  import opened Decisions
  import Seqs

  datatype PolicyViolation =
    | NotionalCapExceeded
    | LossBudgetExhausted
    | TickerDenyListed(ticker: Ticker)
    | TickerNotAllowed(ticker: Ticker)

  datatype PolicyGatewayConfig = PolicyGatewayConfig(
    accountNotionalCap: Option<real>,
    allowedTickers: Option<seq<Ticker>>,
    deniedTickers: seq<Ticker>,
    dailyRealizedLoss: real)

  datatype FeasibleAction = FeasibleAction(
    action: DecisionAction,
    targets: seq<TargetPosition>,
    violations: seq<PolicyViolation>,
    sourceDecisionRunId: string)

  predicate Consistent(a: FeasibleAction) {
    && (a.action == Adopt ==> a.targets != [] && a.violations == [])
    && (a.action != Adopt ==> a.targets == [])
  }

  predicate CapExceeded(d: StrategyDecision, c: PolicyGatewayConfig) {
    c.accountNotionalCap.Some? && d.notionalCap > c.accountNotionalCap.value
  }

  predicate BudgetExhausted(d: StrategyDecision, c: PolicyGatewayConfig) {
    d.dailyLossLimit - c.dailyRealizedLoss <= 0.0
  }

  predicate Denied(t: Ticker, c: PolicyGatewayConfig) {
    t in c.deniedTickers
  }

  predicate Unlisted(t: Ticker, c: PolicyGatewayConfig) {
    c.allowedTickers.Some? && t !in c.allowedTickers.value
  }

  /** The violation a given constraint raises against a decision, stated constraint by constraint. */
  ghost predicate Raised(v: PolicyViolation, d: StrategyDecision, c: PolicyGatewayConfig) {
    match v
    case NotionalCapExceeded => c.accountNotionalCap.Some? && c.accountNotionalCap.value < d.notionalCap
    case LossBudgetExhausted => d.dailyLossLimit <= c.dailyRealizedLoss
    case TickerDenyListed(t) => t in c.deniedTickers && exists p <- d.targets :: p.ticker == t
    case TickerNotAllowed(t) =>
      c.allowedTickers.Some? && t !in c.allowedTickers.value && exists p <- d.targets :: p.ticker == t
  }

  function TickerViolations(t: Ticker, c: PolicyGatewayConfig): seq<PolicyViolation> {
    (if Denied(t, c) then [TickerDenyListed(t)] else []) +
    (if Unlisted(t, c) then [TickerNotAllowed(t)] else [])
  }

  function AccountViolations(d: StrategyDecision, c: PolicyGatewayConfig): seq<PolicyViolation> {
    (if CapExceeded(d, c) then [NotionalCapExceeded] else []) +
    (if BudgetExhausted(d, c) then [LossBudgetExhausted] else [])
  }

  function TargetViolations(targets: seq<TargetPosition>, c: PolicyGatewayConfig): seq<PolicyViolation> {
    if targets == [] then []
    else TargetViolations(targets[..|targets| - 1], c) + TickerViolations(targets[|targets| - 1].ticker, c)
  }

  function Violations(d: StrategyDecision, c: PolicyGatewayConfig): seq<PolicyViolation> {
    AccountViolations(d, c) + TargetViolations(d.targets, c)
  }

  method CollectViolations(d: StrategyDecision, c: PolicyGatewayConfig) returns (violations: seq<PolicyViolation>)
    ensures violations == Violations(d, c)
  {
    violations := [];
    if CapExceeded(d, c) {
      violations := violations + [NotionalCapExceeded];
    }
    if BudgetExhausted(d, c) {
      violations := violations + [LossBudgetExhausted];
    }
    for i := 0 to |d.targets|
      invariant violations == AccountViolations(d, c) + TargetViolations(d.targets[..i], c)
    {
      ViolationsOneMore(AccountViolations(d, c), d.targets, i, c);
      violations := CollectTicker(d.targets[i].ticker, c, violations);
    }
    Seqs.FullPrefix(d.targets);
  }

  lemma ViolationsOneMore(account: seq<PolicyViolation>, targets: seq<TargetPosition>, i: nat, c: PolicyGatewayConfig)
    requires i < |targets|
    ensures account + TargetViolations(targets[..i + 1], c)
         == account + TargetViolations(targets[..i], c) + TickerViolations(targets[i].ticker, c)
  {
    assert targets[..i + 1][..i] == targets[..i];
    Seqs.Assoc(account, TargetViolations(targets[..i], c), TickerViolations(targets[i].ticker, c));
  }

  /** One turn of the loop: the deny list, then the allow list. */
  method CollectTicker(ticker: Ticker, c: PolicyGatewayConfig, before: seq<PolicyViolation>)
    returns (violations: seq<PolicyViolation>)
    ensures violations == before + TickerViolations(ticker, c)
  {
    violations := before;
    if Denied(ticker, c) {
      violations := violations + [TickerDenyListed(ticker)];
    }
    if Unlisted(ticker, c) {
      violations := violations + [TickerNotAllowed(ticker)];
    }
  }

  lemma {:induction false} TargetViolationsExact(targets: seq<TargetPosition>, c: PolicyGatewayConfig,
                                                 v: PolicyViolation)
    ensures v in TargetViolations(targets, c) <==>
            (v.TickerDenyListed? && v.ticker in TickerSet(targets) && Denied(v.ticker, c)) ||
            (v.TickerNotAllowed? && v.ticker in TickerSet(targets) && Unlisted(v.ticker, c))
  {
    if targets != [] {
      var n := |targets| - 1;
      TargetViolationsExact(targets[..n], c, v);
      assert targets == targets[..n] + [targets[n]];
      assert TickerSet(targets) == TickerSet(targets[..n]) + {targets[n].ticker};
    }
  }

  /** One pass collects every violation and nothing else. */
  lemma ViolationsExact(d: StrategyDecision, c: PolicyGatewayConfig, v: PolicyViolation)
    ensures v in Violations(d, c) <==> Raised(v, d, c)
  {
    TargetViolationsExact(d.targets, c, v);
  }

  /** Demotion is of the whole decision: targets pass through untouched or not at all. */
  function ApplyPolicyGateway(d: StrategyDecision, c: PolicyGatewayConfig): (a: FeasibleAction)
    requires WellFormed(d)
    ensures Consistent(a) && a.sourceDecisionRunId == d.runId
    ensures a.action == Adopt <==> d.action == Adopt && forall v :: !Raised(v, d, c)
    ensures a.targets == if a.action == Adopt then d.targets else []
    ensures d.action != Adopt ==> a.action == d.action && a.violations == []
    ensures d.action == Adopt ==> forall v :: v in a.violations <==> Raised(v, d, c)
  {
    assert forall v :: v in Violations(d, c) <==> Raised(v, d, c) by {
      forall v ensures v in Violations(d, c) <==> Raised(v, d, c) {
        ViolationsExact(d, c, v);
      }
    }
    if d.action != Adopt then FeasibleAction(d.action, [], [], d.runId)
    else
      var violations := Violations(d, c);
      if violations != [] then
        assert violations[0] in violations;
        FeasibleAction(Defer, [], violations, d.runId)
      else FeasibleAction(Adopt, d.targets, [], d.runId)
  }

  /** Limits that allow whatever others allow. */
  ghost predicate Looser(c: PolicyGatewayConfig, c': PolicyGatewayConfig) {
    && (c'.accountNotionalCap.Some? ==>
          c.accountNotionalCap.Some? && c.accountNotionalCap.value <= c'.accountNotionalCap.value)
    && c'.dailyRealizedLoss <= c.dailyRealizedLoss
    && (forall t <- c'.deniedTickers :: t in c.deniedTickers)
    && (c'.allowedTickers.Some? ==>
          c.allowedTickers.Some? && forall t <- c.allowedTickers.value :: t in c'.allowedTickers.value)
  }

  /** Loosening limits never adds a violation, and what was adopted stays adopted. */
  lemma LooserLimitsAdmitMore(d: StrategyDecision, c: PolicyGatewayConfig, c': PolicyGatewayConfig)
    requires WellFormed(d) && Looser(c, c')
    ensures forall v :: v in Violations(d, c') ==> v in Violations(d, c)
    ensures ApplyPolicyGateway(d, c).action == Adopt ==> ApplyPolicyGateway(d, c') == ApplyPolicyGateway(d, c)
  {
    forall v | v in Violations(d, c') ensures v in Violations(d, c) {
      ViolationsExact(d, c, v);
      ViolationsExact(d, c', v);
    }
    if Violations(d, c') != [] {
      assert Violations(d, c')[0] in Violations(d, c);
    }
  }

  /** A decision exactly at the account cap is within it; the loss limit itself is already too much loss. */
  lemma AtTheLimits(d: StrategyDecision, c: PolicyGatewayConfig)
    ensures c.accountNotionalCap == Some(d.notionalCap) ==> NotionalCapExceeded !in Violations(d, c)
    ensures c.dailyRealizedLoss == d.dailyLossLimit ==> LossBudgetExhausted in Violations(d, c)
  {
    ViolationsExact(d, c, NotionalCapExceeded);
    ViolationsExact(d, c, LossBudgetExhausted);
  }

  ghost predicate NeverTwice(violations: seq<PolicyViolation>) {
    forall i, j :: 0 <= i < j < |violations| ==> violations[i] != violations[j]
  }

  lemma NeverTwiceInBoth(a: seq<PolicyViolation>, b: seq<PolicyViolation>)
    requires NeverTwice(a) && NeverTwice(b) && forall v :: v in a ==> v !in b
    ensures NeverTwice(a + b)
  {
    forall i, j | 0 <= i < j < |a + b| ensures (a + b)[i] != (a + b)[j] {
      if i < |a| {
        assert a[i] in a;
        assert j < |a| || (a + b)[j] in b;
      } else {
        assert (a + b)[i] == b[i - |a|] && (a + b)[j] == b[j - |a|];
      }
    }
  }

  lemma {:induction false} EachTargetOnce(targets: seq<TargetPosition>, c: PolicyGatewayConfig)
    requires DistinctTickers(targets)
    ensures NeverTwice(TargetViolations(targets, c))
  {
    if targets != [] {
      var n := |targets| - 1;
      var before, now := TargetViolations(targets[..n], c), TickerViolations(targets[n].ticker, c);
      EachTargetOnce(targets[..n], c);
      forall v | v in before ensures v !in now {
        TargetViolationsExact(targets[..n], c, v);
      }
      NeverTwiceInBoth(before, now);
    }
  }

  /** A decision with distinct tickers is told each violation once, so they can be counted. */
  lemma EachViolationOnce(d: StrategyDecision, c: PolicyGatewayConfig)
    requires DistinctTickers(d.targets)
    ensures NeverTwice(Violations(d, c))
  {
    EachTargetOnce(d.targets, c);
    var account := AccountViolations(d, c);
    forall v | v in TargetViolations(d.targets, c) ensures v !in account {
      TargetViolationsExact(d.targets, c, v);
    }
    NeverTwiceInBoth(account, TargetViolations(d.targets, c));
  }
}
