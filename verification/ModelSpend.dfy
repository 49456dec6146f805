// The bounded model caller: what a request may cost is reserved before it is sent, and anything that leaves its
// cost unknown stops the run.
module ModelSpend {
  import opened Wrappers

  datatype Price = Price(input: real, cachedInput: real, output: real)

  datatype Scope = Scope(price: Price, maxRequests: nat, maxPromptTokens: nat, maxOutputTokens: nat, maxUsd: real,
                         timeoutMs: int, approvalExpires: Option<int>, revealsKey: bool)

  const PROMPT := "Reply with OK."
  const PROMPT_RESERVATION := 160

  function Repeated(text: string, times: nat): string {
    if times == 0 then "" else text + Repeated(text, times - 1)
  }

  // The larger prompt, and its reservation: that of the fixed one, and its own bytes besides.
  const BUDGET_PROMPT := PROMPT + "\n" + Repeated(". ", 240)
  const BUDGET_PROMPT_RESERVATION := PROMPT_RESERVATION + |BUDGET_PROMPT|

  // Prices that make a reservation an upper bound; a run at any other prices does not start.
  predicate PricesKnown(price: Price) {
    price.input > 0.0 && price.output > 0.0 && 0.0 <= price.cachedInput <= price.input
  }

  // What has been reserved so far, and whether the run has stopped.
  datatype Account = Account(requests: nat, prompt: nat, usd: real, stopped: bool)

  const FRESH := Account(0, 0, 0.0, false)

  // Dollars for a request of these many prompt and completion tokens, none of them cached.
  function Cost(price: Price, prompt: nat, completion: nat): real {
    (prompt as real * price.input + completion as real * price.output) / 1_000_000.0
  }

  // Dollars for a reply, with its cached prompt tokens at their own price.
  function TrueCost(price: Price, prompt: nat, cached: nat, completion: nat): real
    requires cached <= prompt
  {
    ((prompt - cached) as real * price.input + cached as real * price.cachedInput + completion as real * price.output)
    / 1_000_000.0
  }

  // A token of either kind costs a millionth of its price, and the cost of a request is that of its tokens.
  lemma CostLaw(price: Price, prompt: nat, completion: nat)
    ensures Cost(price, 1, 0) == price.input / 1_000_000.0 && Cost(price, 0, 1) == price.output / 1_000_000.0
    ensures Cost(price, 0, 0) == 0.0
    ensures Cost(price, prompt + 1, completion) == Cost(price, prompt, completion) + Cost(price, 1, 0)
    ensures Cost(price, prompt, completion + 1) == Cost(price, prompt, completion) + Cost(price, 0, 1)
  {
    assert (prompt + 1) as real * price.input == prompt as real * price.input + price.input;
    assert (completion + 1) as real * price.output == completion as real * price.output + price.output;
  }

  // With no cached token a reply costs what a request of its tokens does, and each cached token makes it cheaper by the
  // difference of the two input prices.
  lemma TrueCostLaw(price: Price, prompt: nat, cached: nat, completion: nat)
    requires cached <= prompt
    ensures TrueCost(price, prompt, 0, completion) == Cost(price, prompt, completion)
    ensures cached < prompt ==>
      TrueCost(price, prompt, cached + 1, completion)
      == TrueCost(price, prompt, cached, completion) - (price.input - price.cachedInput) / 1_000_000.0
  {
    if cached < prompt {
      assert (prompt - cached) as real * price.input == (prompt - (cached + 1)) as real * price.input + price.input;
      assert (cached + 1) as real * price.cachedInput == cached as real * price.cachedInput + price.cachedInput;
    }
  }

  lemma {:induction false} RepeatedLength(text: string, times: nat)
    ensures |Repeated(text, times)| == |text| * times
  {
    if times == 0 {
    } else {
      RepeatedLength(text, times - 1);
    }
  }

  lemma {:induction false} RepeatedAt(text: string, times: nat, k: nat)
    requires k < times
    ensures |Repeated(text, times)| == |text| * times && |text| * k + |text| <= |text| * times
    ensures Repeated(text, times)[|text| * k..|text| * k + |text|] == text
  {
    RepeatedLength(text, times);
    RepeatedLength(text, times - 1);
    if k == 0 {
    } else {
      RepeatedAt(text, times - 1, k - 1);
      var rest := Repeated(text, times - 1);
      var i := |text| * (k - 1);
      assert |text| * k == |text| + i;
      assert Repeated(text, times)[|text| + i..|text| + i + |text|] == rest[i..i + |text|];
    }
  }

  // The larger prompt is the fixed one and, on a line below it, 240 full stops, each with a space after it.
  lemma BudgetPromptText(k: nat)
    requires k < 240
    ensures |BUDGET_PROMPT| == 495 && BUDGET_PROMPT[..14] == PROMPT && BUDGET_PROMPT[14] == '\n'
    ensures BUDGET_PROMPT[15 + 2 * k] == '.' && BUDGET_PROMPT[16 + 2 * k] == ' '
  {
    hide Repeated;
    RepeatedLength(". ", 240);
    RepeatedAt(". ", 240, k);
    var dots := Repeated(". ", 240);
    assert dots[2 * k..2 * k + 2][0] == '.' && dots[2 * k..2 * k + 2][1] == ' ';
  }

  // Two readings of the clock, and when the run started.
  datatype Clock = Clock(approvalNow: int, boundNow: int, start: int)

  predicate Admits(scope: Scope, a: Account, clock: Clock, promptTokens: nat) {
    !( (scope.approvalExpires.Some? && clock.approvalNow >= scope.approvalExpires.value)
     || a.stopped || a.requests + 1 > scope.maxRequests || a.prompt + promptTokens > scope.maxPromptTokens
     || a.usd + Cost(scope.price, promptTokens, scope.maxOutputTokens) > scope.maxUsd
     || clock.boundNow - clock.start >= scope.timeoutMs)
  }

  function Reserved(scope: Scope, a: Account, promptTokens: nat): Account {
    Account(a.requests + 1, a.prompt + promptTokens, a.usd + Cost(scope.price, promptTokens, scope.maxOutputTokens),
            a.stopped)
  }

  class ModelAllowance {
    const scope: Scope
    const start: int
    var requests: nat
    var prompt: nat
    var usd: real
    var stopped: bool

    constructor (scope: Scope, start: int)
      requires PricesKnown(scope.price)
      ensures this.scope == scope && this.start == start && Abs() == FRESH
    {
      this.scope, this.start := scope, start;
      requests, prompt, usd, stopped := 0, 0, 0.0, false;
    }

    function Abs(): Account
      reads this
    {
      Account(requests, prompt, usd, stopped)
    }

    // Throws, changing nothing, unless every bound leaves room for the request.
    method Reserve(promptTokens: nat, approvalNow: int, boundNow: int) returns (admitted: bool)
      modifies this
      ensures admitted <==> Admits(scope, old(Abs()), Clock(approvalNow, boundNow, start), promptTokens)
      ensures Abs() == if admitted then Reserved(scope, old(Abs()), promptTokens) else old(Abs())
    {
      var cost := Cost(scope.price, promptTokens, scope.maxOutputTokens);
      if (scope.approvalExpires.Some? && approvalNow >= scope.approvalExpires.value)
         || stopped || requests + 1 > scope.maxRequests || prompt + promptTokens > scope.maxPromptTokens
         || usd + cost > scope.maxUsd || boundNow - start >= scope.timeoutMs
      {
        return false;
      }
      requests := requests + 1;
      prompt := prompt + promptTokens;
      usd := usd + cost;
      return true;
    }

    method Stop()
      modifies this
      ensures Abs() == old(Abs()).(stopped := true)
    {
      stopped := true;
    }
  }

  // Opening an allowance; at unknown prices no request is safe, and there is none.
  method Open(scope: Scope, start: int) returns (a: ModelAllowance?)
    ensures a != null <==> PricesKnown(scope.price)
    ensures a != null ==> fresh(a) && a.scope == scope && a.start == start && a.Abs() == FRESH
  {
    var price := scope.price;
    if price.input <= 0.0 || price.output <= 0.0 || price.cachedInput < 0.0 || price.cachedInput > price.input {
      return null;
    }
    a := new ModelAllowance(scope, start);
  }

  // ---- Replies ----

  // A count in a reply: a nonnegative safe integer, or anything else.
  type Count = Option<nat>

  datatype Details = NoDetails | BadDetails | CachedTokens(cached: Count)

  datatype UsageField = Undefined | Malformed | Tokens(prompt: Count, completion: Count, total: Count, details: Details)

  // A reply's body: no object at all, or an object that is or is not one chat completion, with its usage field.
  datatype Body = Plain(namesBudget: bool) | Nothing | Listing | Fields(oneCompletion: bool, usage: UsageField)

  // A remaining-tokens header: missing, unreadable, or a number.
  datatype Header = Absent | Unreadable | Remaining(tokens: nat)

  datatype Reply = Reply(status: int, body: Body, pool: Header, own: Header, ownQuota: Header)

  datatype Usage = Usage(prompt: nat, completion: nat, cached: Option<nat>)

  function ModelUsage(body: Body): Result<Usage> {
    if !body.Fields? || !body.oneCompletion || !body.usage.Tokens? then Error
    else
      var u := body.usage;
      if u.prompt.None? || u.completion.None? || u.prompt.value == 0
         || u.total != Some(u.prompt.value + u.completion.value) then Error
      else
        match u.details
        case NoDetails => Ok(Usage(u.prompt.value, u.completion.value, None))
        case BadDetails => Error
        case CachedTokens(cached) =>
          if cached.None? || cached.value > u.prompt.value then Error
          else Ok(Usage(u.prompt.value, u.completion.value, cached))
  }

  // A usage is taken from a chat completion whose counts are all there and add up: some of the prompt, and no more of
  // it cached than there is.
  lemma UsageMeaning(body: Body, usage: Usage)
    ensures ModelUsage(body) == Ok(usage) <==>
      && usage.prompt > 0 && (usage.cached.Some? ==> usage.cached.value <= usage.prompt)
      && body == Fields(true, Tokens(Some(usage.prompt), Some(usage.completion), Some(usage.prompt + usage.completion),
                                     if usage.cached.None? then NoDetails else CachedTokens(usage.cached)))
  {
  }

  datatype Expected = Success | Denied | Limited | Pool | Budget | BudgetSpend

  function Statuses(expected: Expected): set<int> {
    match expected
    case Success => {200}
    case Denied => {403}
    case Limited => {429}
    case Pool => {200, 429}
    case Budget => {200, 403}
    case BudgetSpend => {200, 403}
  }

  // A call may succeed unless it is to be refused; and only some calls may be refused, each in its own way.
  lemma StatusesMeaning(expected: Expected, status: int)
    ensures status in Statuses(expected) <==>
      || (status == 200 && expected !in {Denied, Limited})
      || (status == 403 && expected in {Denied, Budget, BudgetSpend})
      || (status == 429 && expected in {Limited, Pool})
  {
  }

  predicate IsBudget(expected: Expected) {
    expected.Budget? || expected.BudgetSpend?
  }

  function ReservedPrompt(expected: Expected): nat {
    if expected.BudgetSpend? then BUDGET_PROMPT_RESERVATION else PROMPT_RESERVATION
  }

  // What is reserved for the prompt of each call: 160 tokens, and 495 more for the larger one.
  lemma ReservedPrompts(expected: Expected)
    ensures ReservedPrompt(expected) == if expected == BudgetSpend then 655 else 160
  {
    RepeatedLength(". ", 240);
  }

  datatype Observation = Observation(status: int, promptTokens: Option<nat>, completionTokens: Option<nat>,
                                     pricedUsage: Option<real>, poolRemaining: Option<nat>, ownRemaining: Option<nat>,
                                     ownQuotaRemaining: Option<nat>)

  function Read(header: Header): Option<nat> {
    if header.Remaining? then Some(header.tokens) else None
  }

  // What the caller makes of a reply: an observation, or the error that stops the run.
  function Observed(scope: Scope, expected: Expected, reply: Reply): Result<Observation> {
    if reply.status !in Statuses(expected) then Error
    else if reply.pool.Unreadable? || reply.own.Unreadable? || reply.ownQuota.Unreadable? then Error
    else if reply.status == 200 then
      var usage :- ModelUsage(reply.body);
      if usage.prompt > ReservedPrompt(expected) || usage.completion > scope.maxOutputTokens then Error
      else if IsBudget(expected) && usage.cached.None? then Error
      else
        Ok(Observation(200, Some(usage.prompt), Some(usage.completion),
                       if IsBudget(expected) then
                         Some(TrueCost(scope.price, usage.prompt, CachedOf(usage), usage.completion))
                       else None,
                       Read(reply.pool), Read(reply.own), Read(reply.ownQuota)))
    else if reply.body.Listing? || (reply.body.Fields? && !reply.body.usage.Undefined?) then Error
    else if IsBudget(expected) && reply.status == 403 && reply.body != Plain(true) then Error
    else Ok(Observation(reply.status, None, None, None, Read(reply.pool), Read(reply.own), Read(reply.ownQuota)))
  }

  // The header that a remainder was read from.
  function HeaderOf(tokens: Option<nat>): Header {
    if tokens.Some? then Remaining(tokens.value) else Absent
  }

  // A refusal reports no usage, and one by the budget names the budget.
  predicate Refuses(expected: Expected, reply: Reply) {
    && (reply.body == Nothing || reply.body.Plain? || (reply.body.Fields? && reply.body.usage == Undefined))
    && (reply.status == 403 && expected in {Budget, BudgetSpend} ==> reply.body == Plain(true))
  }

  // Exactly the replies that are observed, and as what: each remainder from its own header; a success with its tokens,
  // within what was reserved, and priced where the budget is at stake; and a refusal with none.
  lemma ObservedMeaning(scope: Scope, expected: Expected, reply: Reply, o: Observation)
    ensures Observed(scope, expected, reply) == Ok(o) <==>
      && o.status == reply.status && reply.status in Statuses(expected)
      && reply.pool == HeaderOf(o.poolRemaining) && reply.own == HeaderOf(o.ownRemaining)
      && reply.ownQuota == HeaderOf(o.ownQuotaRemaining)
      && if reply.status != 200 then
           Refuses(expected, reply) && o.promptTokens.None? && o.completionTokens.None? && o.pricedUsage.None?
         else
           && o.promptTokens.Some? && o.completionTokens.Some?
           && exists cached :: UsageObserved(scope, expected, reply.body, o, cached)
  {
    if Observed(scope, expected, reply) == Ok(o) && reply.status == 200 {
      var usage := ModelUsage(reply.body).value;
      UsageMeaning(reply.body, usage);
      assert UsageObserved(scope, expected, reply.body, o, usage.cached);
    }
    if reply.status == 200 && o.promptTokens.Some? && o.completionTokens.Some? {
      if cached :| UsageObserved(scope, expected, reply.body, o, cached) {
        UsageMeaning(reply.body, Usage(o.promptTokens.value, o.completionTokens.value, cached));
      }
    }
  }

  // The body reports the observed tokens, within the reservation, and these of them cached; where the budget is at
  // stake that is known, and is the price.
  ghost predicate UsageObserved(scope: Scope, expected: Expected, body: Body, o: Observation, cached: Option<nat>)
    requires o.promptTokens.Some? && o.completionTokens.Some?
  {
    var (prompt, completion) := (o.promptTokens.value, o.completionTokens.value);
    && ModelUsage(body) == Ok(Usage(prompt, completion, cached)) && prompt <= ReservedPrompt(expected)
    && completion <= scope.maxOutputTokens
    && if expected in {Budget, BudgetSpend} then
         cached.Some? && cached.value <= prompt
         && o.pricedUsage == Some(TrueCost(scope.price, prompt, cached.value, completion))
       else o.pricedUsage.None?
  }

  function CachedOf(usage: Usage): (cached: nat) {
    if usage.cached.Some? && usage.cached.value <= usage.prompt then usage.cached.value else 0
  }

  // The checks of one reply, in the order they are made; the first that fails stops the allowance.
  method Settle(allowance: ModelAllowance, expected: Expected, reply: Reply) returns (r: Result<Observation>)
    modifies allowance
    ensures r == Observed(allowance.scope, expected, reply)
    ensures allowance.Abs() == if r.Ok? then old(allowance.Abs()) else old(allowance.Abs()).(stopped := true)
  {
    var scope := allowance.scope;
    var promptTokens, completionTokens, priced: Option<real> := None, None, None;
    if reply.status !in Statuses(expected) {
      allowance.Stop();
      return Error;
    }
    if reply.status == 200 {
      var usage := ModelUsage(reply.body);
      if usage.Error? || usage.value.prompt > ReservedPrompt(expected)
        || usage.value.completion > scope.maxOutputTokens {
        allowance.Stop();
        return Error;
      }
      promptTokens, completionTokens := Some(usage.value.prompt), Some(usage.value.completion);
      if IsBudget(expected) {
        if usage.value.cached.None? {
          allowance.Stop();
          return Error;
        }
        priced := Some(TrueCost(scope.price, usage.value.prompt, CachedOf(usage.value), usage.value.completion));
      }
    } else if reply.body.Listing? || (reply.body.Fields? && !reply.body.usage.Undefined?) {
      allowance.Stop();
      return Error;
    }
    if IsBudget(expected) && reply.status == 403 && reply.body != Plain(true) {
      allowance.Stop();
      return Error;
    }
    if reply.pool.Unreadable? || reply.own.Unreadable? || reply.ownQuota.Unreadable? {
      allowance.Stop();
      return Error;
    }
    return Ok(Observation(reply.status, promptTokens, completionTokens, priced,
                          Read(reply.pool), Read(reply.own), Read(reply.ownQuota)));
  }

  // ---- Whole runs of callers that share one allowance ----

  // A request in flight: what it expects.
  type Inflight = seq<Expected>

  // The account, the requests sent and not yet settled, and the dollars that accepted replies truly cost.
  datatype Run = Run(account: Account, inflight: Inflight, spent: real, sent: nat)

  // What can happen next, in any interleaving: a guard fails before a send, a caller tries to send, a transport
  // fails, or a reply comes back (with the cached tokens the provider truly priced).
  datatype Event =
    | GuardFails
    | Send(expected: Expected, clock: Clock)
    | TransportFails(i: nat)
    | Reply_(i: nat, reply: Reply, cached: nat)

  function Without(inflight: Inflight, i: nat): Inflight
    requires i < |inflight|
  {
    inflight[..i] + inflight[i + 1..]
  }

  function Next(scope: Scope, run: Run, event: Event): Run {
    match event
    case GuardFails => run.(account := run.account.(stopped := true))
    case Send(expected, clock) =>
      if Admits(scope, run.account, clock, ReservedPrompt(expected)) then
        run.(account := Reserved(scope, run.account, ReservedPrompt(expected)),
             inflight := run.inflight + [expected], sent := run.sent + 1)
      else run
    case TransportFails(i) =>
      if i < |run.inflight| then
        run.(account := run.account.(stopped := true), inflight := Without(run.inflight, i))
      else run
    case Reply_(i, reply, cached) =>
      if i >= |run.inflight| then run
      else if Observed(scope, run.inflight[i], reply).Error? then
        run.(account := run.account.(stopped := true), inflight := Without(run.inflight, i))
      else run.(inflight := Without(run.inflight, i), spent := run.spent + ReplyCost(scope, reply, cached))
  }

  // What a grant's connection says: its route, if it has one that is approved, and what it says of keys.
  datatype Connection = Connection(route: Option<string>, deployment: string, keysEnabled: bool, keyExists: bool,
                                   keysAllowed: bool, subscriptionHeader: string)

  datatype Credential = Bearer(token: string) | Key(key: string)

  // What is sent: where, as whom, for which cost center, and which prompt, with room for so many tokens.
  datatype Message = Message(url: string, credential: Credential, code: Option<string>, deployment: string,
                             content: string, maxTokens: nat)

  // A call has its connection, its token and an approved route; and if it is to use a key, that was approved, and the
  // grant has one, in the header it is sent in.
  predicate Ready(scope: Scope, connection: Option<Connection>, token: Option<string>, key: Option<string>) {
    connection.Some? && token.Some? && connection.value.route.Some?
    && (key.Some? ==>
          var c := connection.value;
          scope.revealsKey && c.keysEnabled && c.keyExists && c.keysAllowed
            && c.subscriptionHeader == "Ocp-Apim-Subscription-Key")
  }

  // What an accepted reply truly cost: nothing for a refusal, and otherwise its measured tokens at their prices.
  function ReplyCost(scope: Scope, reply: Reply, cached: nat): real {
    var usage := ModelUsage(reply.body);
    if reply.status != 200 || usage.Error? then 0.0
    else
      var known := if usage.value.cached.Some? then CachedOf(usage.value)
                   else if cached <= usage.value.prompt then cached else 0;
      TrueCost(scope.price, usage.value.prompt, known, usage.value.completion)
  }

  // A success costs its tokens, with those that the reply says were cached at their own price, or those that truly were
  // where it does not say; and a refusal costs nothing.
  lemma ReplyCostLaw(scope: Scope, reply: Reply, usage: Usage, cached: nat)
    requires ModelUsage(reply.body) == Ok(usage)
    ensures reply.status == 200 && usage.cached.Some? ==>
      usage.cached.value <= usage.prompt
      && ReplyCost(scope, reply, cached) == TrueCost(scope.price, usage.prompt, usage.cached.value, usage.completion)
    ensures reply.status == 200 && usage.cached.None? && cached <= usage.prompt ==>
      ReplyCost(scope, reply, cached) == TrueCost(scope.price, usage.prompt, cached, usage.completion)
    ensures reply.status != 200 ==> ReplyCost(scope, reply, cached) == 0.0
  {
    UsageMeaning(reply.body, usage);
  }

  // Settling a call takes it, and no other, out of flight; an accepted reply adds its cost, and anything else stops the
  // run and adds nothing.
  lemma SettlingMeaning(scope: Scope, run: Run, before: Inflight, expected: Expected, behind: Inflight, reply: Reply,
                        cached: nat)
    requires run.inflight == before + [expected] + behind
    ensures var (lost, next) := (Next(scope, run, TransportFails(|before|)),
                                 Next(scope, run, Reply_(|before|, reply, cached)));
      var accepted := Observed(scope, expected, reply).Ok?;
      && lost.inflight == next.inflight == before + behind && lost.sent == next.sent == run.sent
      && lost.spent == run.spent && lost.account == run.account.(stopped := true)
      && next.spent == (if accepted then run.spent + ReplyCost(scope, reply, cached) else run.spent)
      && next.account == (if accepted then run.account else run.account.(stopped := true))
  {
    assert run.inflight[..|before|] == before && run.inflight[|before| + 1..] == behind;
  }

  function After(scope: Scope, events: seq<Event>): Run {
    if events == [] then Run(FRESH, [], 0.0, 0)
    else Next(scope, After(scope, events[..|events| - 1]), events[|events| - 1])
  }

  // The dollars reserved for the requests in flight.
  function Outstanding(scope: Scope, inflight: Inflight): real {
    if inflight == [] then 0.0
    else
      var last := Cost(scope.price, ReservedPrompt(inflight[|inflight| - 1]), scope.maxOutputTokens);
      Outstanding(scope, inflight[..|inflight| - 1]) + last
  }

  ghost predicate Bounded(scope: Scope, run: Run) {
    var a := run.account;
    && a.requests == run.sent <= scope.maxRequests && a.prompt <= scope.maxPromptTokens && a.usd <= scope.maxUsd
    && 0.0 <= run.spent && run.spent + Outstanding(scope, run.inflight) <= a.usd
  }

  lemma CostMonotone(price: Price, prompt: nat, completion: nat, maxPrompt: nat, maxCompletion: nat)
    requires PricesKnown(price) && prompt <= maxPrompt && completion <= maxCompletion
    ensures 0.0 <= Cost(price, prompt, completion) <= Cost(price, maxPrompt, maxCompletion)
  {
    assert prompt as real * price.input <= maxPrompt as real * price.input;
    assert completion as real * price.output <= maxCompletion as real * price.output;
  }

  // Cached tokens are never dearer, so a reply never costs more than its tokens at the reserved prices.
  lemma TrueCostBound(price: Price, prompt: nat, cached: nat, completion: nat)
    requires PricesKnown(price) && cached <= prompt
    ensures 0.0 <= TrueCost(price, prompt, cached, completion) <= Cost(price, prompt, completion)
  {
    assert cached as real * price.cachedInput <= cached as real * price.input;
    assert (prompt - cached) as real * price.input + cached as real * price.input == prompt as real * price.input;
  }

  lemma ReplyCostBound(scope: Scope, expected: Expected, reply: Reply, cached: nat)
    requires PricesKnown(scope.price) && Observed(scope, expected, reply).Ok?
    ensures 0.0 <= ReplyCost(scope, reply, cached) <= Cost(scope.price, ReservedPrompt(expected), scope.maxOutputTokens)
  {
    CostMonotone(scope.price, 0, 0, ReservedPrompt(expected), scope.maxOutputTokens);
    if reply.status == 200 {
      var usage := ModelUsage(reply.body).value;
      var known := if usage.cached.Some? then CachedOf(usage) else if cached <= usage.prompt then cached else 0;
      TrueCostBound(scope.price, usage.prompt, known, usage.completion);
      CostMonotone(scope.price, usage.prompt, usage.completion, ReservedPrompt(expected), scope.maxOutputTokens);
    }
  }

  lemma {:induction false} OutstandingWithout(scope: Scope, inflight: Inflight, i: nat)
    requires i < |inflight|
    ensures Outstanding(scope, inflight)
         == Outstanding(scope, Without(inflight, i))
           + Cost(scope.price, ReservedPrompt(inflight[i]), scope.maxOutputTokens)
  {
    hide Cost, ReservedPrompt;
    var front, last := inflight[..|inflight| - 1], inflight[|inflight| - 1];
    if i == |front| {
      assert Without(inflight, i) == front;
    } else {
      OutstandingWithout(scope, front, i);
      var rest := Without(inflight, i);
      assert rest[..|rest| - 1] == Without(front, i) && rest[|rest| - 1] == last;
    }
  }

  lemma NextBounded(scope: Scope, run: Run, event: Event)
    requires PricesKnown(scope.price) && Bounded(scope, run)
    ensures Bounded(scope, Next(scope, run, event))
  {
    hide Cost, ReservedPrompt, Observed, ReplyCost;
    match event
    case GuardFails =>
    case Send(expected, clock) =>
      assert (run.inflight + [expected])[..|run.inflight|] == run.inflight;
    case TransportFails(i) =>
      if i < |run.inflight| {
        OutstandingWithout(scope, run.inflight, i);
        CostMonotone(scope.price, 0, 0, ReservedPrompt(run.inflight[i]), scope.maxOutputTokens);
      }
    case Reply_(i, reply, cached) =>
      if i < |run.inflight| {
        OutstandingWithout(scope, run.inflight, i);
        CostMonotone(scope.price, 0, 0, ReservedPrompt(run.inflight[i]), scope.maxOutputTokens);
        if Observed(scope, run.inflight[i], reply).Ok? {
          ReplyCostBound(scope, run.inflight[i], reply, cached);
        }
      }
  }

  // In every interleaving of callers that share an allowance, the requests sent, and the prompt tokens and dollars
  // reserved, stay within their bounds, and all accepted replies together truly cost no more than was reserved.
  lemma {:induction false} SpendBound(scope: Scope, events: seq<Event>)
    requires PricesKnown(scope.price) && scope.maxUsd >= 0.0
    ensures Bounded(scope, After(scope, events))
    ensures After(scope, events).spent <= After(scope, events).account.usd <= scope.maxUsd
  {
    if events == [] {
    } else {
      SpendBound(scope, events[..|events| - 1]);
      NextBounded(scope, After(scope, events[..|events| - 1]), events[|events| - 1]);
    }
    OutstandingNonnegative(scope, After(scope, events).inflight);
  }

  lemma {:induction false} OutstandingNonnegative(scope: Scope, inflight: Inflight)
    requires PricesKnown(scope.price)
    ensures Outstanding(scope, inflight) >= 0.0
  {
    if inflight == [] {
    } else {
      OutstandingNonnegative(scope, inflight[..|inflight| - 1]);
      CostMonotone(scope.price, 0, 0, ReservedPrompt(inflight[|inflight| - 1]), scope.maxOutputTokens);
    }
  }

  // A guard, a transport, or a reply that fails.
  predicate Fails(scope: Scope, run: Run, event: Event) {
    event.GuardFails? || (event.TransportFails? && event.i < |run.inflight|)
    || (event.Reply_? && event.i < |run.inflight| && Observed(scope, run.inflight[event.i], event.reply).Error?)
  }

  // After a failed guard, a failed transport or a rejected reply, no later call reaches the transport.
  lemma {:induction false} NothingSentAfterFailure(scope: Scope, before: seq<Event>, failure: Event, later: seq<Event>)
    requires Fails(scope, After(scope, before), failure)
    ensures After(scope, before + [failure] + later).account.stopped
    ensures After(scope, before + [failure] + later).sent == After(scope, before).sent
  {
    var events := before + [failure] + later;
    if later == [] {
      assert events[..|events| - 1] == before;
    } else {
      NothingSentAfterFailure(scope, before, failure, later[..|later| - 1]);
      assert events[..|events| - 1] == before + [failure] + later[..|later| - 1];
    }
  }

  // ---- The callers, whatever else is in flight ----

  // The first half of a call: its guard, what it needs, and the reservation, after which the message is sent. Whatever
  // the run so far, it takes the run through at most one event; what it sends, it sends with the token or the key,
  // never both.
  method SendCall(allowance: ModelAllowance, guarded: bool, connection: Option<Connection>, token: Option<string>,
                  key: Option<string>, code: Option<string>, expected: Expected, approvalNow: int, boundNow: int,
                  ghost run: Run) returns (sent: Option<Message>, ghost next: Run)
    requires run.account == allowance.Abs()
    modifies allowance
    ensures next.account == allowance.Abs()
    ensures var scope := allowance.scope;
      && next == (if !guarded then Next(scope, run, GuardFails)
                  else if !Ready(scope, connection, token, key) then run
                  else Next(scope, run, Send(expected, Clock(approvalNow, boundNow, allowance.start))))
      && (sent.Some? <==> next.sent != run.sent) && (sent.Some? ==> next.inflight == run.inflight + [expected])
      && (sent.Some? ==>
            sent.value == Message(connection.value.route.value,
                                  if key.Some? then Key(key.value) else Bearer(token.value), code,
                                  connection.value.deployment, if expected.BudgetSpend? then BUDGET_PROMPT else PROMPT,
                                  scope.maxOutputTokens))
    ensures PricesKnown(allowance.scope.price) && Bounded(allowance.scope, run) ==> Bounded(allowance.scope, next)
  {
    var scope := allowance.scope;
    next := if !guarded then Next(scope, run, GuardFails)
            else if !Ready(scope, connection, token, key) then run
            else Next(scope, run, Send(expected, Clock(approvalNow, boundNow, allowance.start)));
    if PricesKnown(scope.price) && Bounded(scope, run) {
      NextBounded(scope, run, GuardFails);
      NextBounded(scope, run, Send(expected, Clock(approvalNow, boundNow, allowance.start)));
    }
    if !guarded {
      allowance.Stop();
      return None, next;
    }
    if connection.None? || token.None? || connection.value.route.None? {
      return None, next;
    }
    var c, credential := connection.value, Bearer(token.value);
    if key.Some? {
      if !scope.revealsKey || !c.keysEnabled || !c.keyExists || !c.keysAllowed
         || c.subscriptionHeader != "Ocp-Apim-Subscription-Key" {
        return None, next;
      }
      credential := Key(key.value);
    }
    var admitted := allowance.Reserve(ReservedPrompt(expected), approvalNow, boundNow);
    if !admitted {
      return None, next;
    }
    sent := Some(Message(c.route.value, credential, code, c.deployment,
                         if expected.BudgetSpend? then BUDGET_PROMPT else PROMPT, scope.maxOutputTokens));
  }

  // The second half, after any events of other callers: the transport failed, or the reply came back, to call i of
  // those in flight. What the provider truly billed as cached is nothing that the caller sees.
  method SettleCall(allowance: ModelAllowance, expected: Expected, reply: Option<Reply>, ghost run: Run, ghost i: nat,
                    ghost cached: nat) returns (r: Result<Observation>, ghost next: Run)
    requires run.account == allowance.Abs() && i < |run.inflight| && run.inflight[i] == expected
    modifies allowance
    ensures next.account == allowance.Abs()
    ensures next == Next(allowance.scope, run,
                         if reply.None? then TransportFails(i) else Reply_(i, reply.value, cached))
    ensures r == if reply.None? then Error else Observed(allowance.scope, expected, reply.value)
    ensures PricesKnown(allowance.scope.price) && Bounded(allowance.scope, run) ==> Bounded(allowance.scope, next)
  {
    ghost var event := if reply.None? then TransportFails(i) else Reply_(i, reply.value, cached);
    next := Next(allowance.scope, run, event);
    if PricesKnown(allowance.scope.price) && Bounded(allowance.scope, run) {
      NextBounded(allowance.scope, run, event);
    }
    if reply.None? {
      allowance.Stop();
      return Error, next;
    }
    r := Settle(allowance, expected, reply.value);
  }

  // A whole call that nothing interrupts, with any others in flight.
  method CallModel(allowance: ModelAllowance, guarded: bool, connection: Option<Connection>, token: Option<string>,
                   key: Option<string>, code: Option<string>, expected: Expected, approvalNow: int, boundNow: int,
                   reply: Option<Reply>, ghost run: Run, ghost cached: nat)
    returns (r: Result<Observation>, sent: Option<Message>, ghost next: Run)
    requires run.account == allowance.Abs()
    modifies allowance
    ensures next.account == allowance.Abs()
    ensures var scope := allowance.scope;
      var afterSend := Next(scope, run, Send(expected, Clock(approvalNow, boundNow, allowance.start)));
      if !guarded then r.Error? && sent.None? && next == Next(scope, run, GuardFails)
      else if !Ready(scope, connection, token, key) || afterSend.sent == run.sent then
        r.Error? && sent.None? && next == run
      else
        && sent == Some(Message(connection.value.route.value,
                                if key.Some? then Key(key.value) else Bearer(token.value), code,
                                connection.value.deployment, if expected.BudgetSpend? then BUDGET_PROMPT else PROMPT,
                                  scope.maxOutputTokens))
        && next == Next(scope, afterSend, if reply.None? then TransportFails(|run.inflight|)
                                          else Reply_(|run.inflight|, reply.value, cached))
        && r == if reply.None? then Error else Observed(scope, expected, reply.value)
    ensures PricesKnown(allowance.scope.price) && Bounded(allowance.scope, run) ==> Bounded(allowance.scope, next)
  {
    hide Observed, Bounded;
    sent, next := SendCall(allowance, guarded, connection, token, key, code, expected, approvalNow, boundNow, run);
    if sent.None? {
      return Error, None, next;
    }
    r, next := SettleCall(allowance, expected, reply, next, |run.inflight|, cached);
  }
}
