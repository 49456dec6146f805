// A budget that has been used up blocks the calls of its cost center, and a higher one lets them through again.
module BudgetProof {
  import opened ModelConfig
  import opened ModelSpend
  import opened PooledTokens
  import opened Wrappers

  datatype Gateway = Gateway(id: string, enforcing: bool, synced: Option<int>, failed: bool)

  // What the service shows of a budget: whether it is the fixture's, in the current month, the spend measured, the
  // time the measure reaches (if it is a time), and the recipients of each notice.
  datatype View = View(isTarget: bool, isCurrent: bool, amount: real, recipients: nat, notifyOwners: bool,
                       action: string, monthToDate: Option<real>, unpricedTokens: int, failed: bool,
                       through: Option<int>, notices: seq<nat>, blocked: bool, gateways: seq<Gateway>)

  datatype Fixture = Fixture(id: string, isSeparate: bool, amount: real, raisedAmount: real, managed: seq<string>)

  datatype Journey = R12 | R14

  // What each step of a run meets: a view of the budget, a reply, and whether a save or a banner succeeds.
  datatype Io = Io(read: nat -> Option<View>, call: Replies, save: real -> bool, banner: bool -> bool)

  // The measured spend in cents, when the view is current, fully priced and has nobody to notify.
  function PricedBudget(view: View, fixture: Fixture): (r: Result<int>) {
    if !fixture.isSeparate || !view.isTarget || !view.isCurrent || view.monthToDate.None?
      || view.unpricedTokens != 0 || view.failed
       || view.through.None? then Error
    else if view.recipients != 0 || view.notifyOwners || exists n :: n in view.notices && n != 0 then Error
    else Cents(view.monthToDate.value)
  }

  // A view of the target in the current month, with a measured spend in which no token is unpriced, up to a time that
  // can be read, and with nobody to notify, now or before.
  predicate FullyPriced(view: View, fixture: Fixture) {
    && fixture.isSeparate && view.isTarget && view.isCurrent && view.monthToDate.Some? && view.unpricedTokens == 0
    && !view.failed && view.through.Some? && view.recipients == 0 && !view.notifyOwners
    && forall n :: n in view.notices ==> n == 0
  }

  // Only such a view has a priced spend, and it is what was measured, in cents.
  lemma PricedBudgetMeaning(view: View, fixture: Fixture, cents: int)
    ensures PricedBudget(view, fixture) == Ok(cents)
      <==> FullyPriced(view, fixture) && Cents(view.monthToDate.value) == Ok(cents)
  {
  }

  function Ids(gateways: seq<Gateway>): multiset<string> {
    if gateways == [] then multiset{} else Ids(gateways[..|gateways| - 1]) + multiset{gateways[|gateways| - 1].id}
  }

  // Every managed gateway, each once, and no other, reports the intended state and when it synced.
  predicate GatesHold(view: View, fixture: Fixture, blocked: bool) {
    && view.blocked == blocked && multiset(fixture.managed) == Ids(view.gateways)
    && (forall g :: g in view.gateways ==> !g.failed && g.enforcing == blocked && g.synced.Some?)
    && view.action == "block"
  }

  lemma {:induction false} IdsCount(gateways: seq<Gateway>, more: seq<Gateway>, g: Gateway)
    ensures Ids([]) == multiset{} && Ids([g]) == multiset{g.id} && Ids(gateways + more) == Ids(gateways) + Ids(more)
  {
    assert [g][..0] == [] && [g][0] == g;
    if more == [] {
      assert gateways + more == gateways;
    } else {
      var front := more[..|more| - 1];
      IdsCount(gateways, front, g);
      assert (gateways + more)[..|gateways + more| - 1] == gateways + front;
    }
  }

  lemma {:induction false} IdsSize(gateways: seq<Gateway>)
    ensures |Ids(gateways)| == |gateways| && forall g :: g in gateways ==> g.id in Ids(gateways)
  {
    if gateways == [] {
    } else {
      IdsSize(gateways[..|gateways| - 1]);
    }
  }

  // When the gates hold, the budget blocks or not, as intended; and as many gateways as are managed report, each of
  // them a managed one, in that state, synced and without an error.
  lemma GatesMeaning(view: View, fixture: Fixture, blocked: bool)
    requires GatesHold(view, fixture, blocked)
    ensures view.action == "block" && view.blocked == blocked && |view.gateways| == |fixture.managed|
    ensures forall g :: g in view.gateways ==>
      g.id in fixture.managed && g.enforcing == blocked && g.synced.Some? && !g.failed
  {
    IdsSize(view.gateways);
    assert |multiset(fixture.managed)| == |fixture.managed|;
    forall g | g in view.gateways ensures g.id in fixture.managed {
      assert g.id in multiset(fixture.managed);
    }
  }

  // And they hold where every managed gateway, named once, is the one in its place of those that so report.
  lemma GatesFollow(view: View, fixture: Fixture, blocked: bool)
    requires view.action == "block" && view.blocked == blocked && |view.gateways| == |fixture.managed|
    requires forall i :: 0 <= i < |view.gateways| ==>
      var g := view.gateways[i]; g.id == fixture.managed[i] && g.enforcing == blocked && g.synced.Some? && !g.failed
    ensures GatesHold(view, fixture, blocked)
  {
    IdsInOrder(view.gateways, fixture.managed);
  }

  lemma {:induction false} IdsInOrder(gateways: seq<Gateway>, ids: seq<string>)
    requires |gateways| == |ids| && forall i :: 0 <= i < |ids| ==> gateways[i].id == ids[i]
    ensures Ids(gateways) == multiset(ids)
  {
    if ids == [] {
    } else {
      var last := |ids| - 1;
      IdsInOrder(gateways[..last], ids[..last]);
      assert ids == ids[..last] + [ids[last]];
    }
  }

  lemma {:induction false} IdsHave(gateways: seq<Gateway>, id: string) returns (k: nat)
    requires id in Ids(gateways)
    ensures k < |gateways| && gateways[k].id == id
  {
    k := |gateways| - 1;
    if gateways[k].id == id {
    } else {
      k := IdsHave(gateways[..k], id);
    }
  }

  // So each managed gateway is among those that report the state.
  lemma GateOf(view: View, fixture: Fixture, blocked: bool, id: string) returns (g: Gateway)
    requires GatesHold(view, fixture, blocked) && id in fixture.managed
    ensures g in view.gateways && g.id == id && g.enforcing == blocked && !g.failed && g.synced.Some?
  {
    assert id in multiset(fixture.managed);
    var k := IdsHave(view.gateways, id);
    g := view.gateways[k];
  }

  // ---- The probes before the block ----

  function Mode(journey: Journey, fixture: Fixture, known: real): Expected {
    var (spent, limit) := (Cents(known), Cents(fixture.amount));
    if journey.R14? && spent.Ok? && limit.Ok? && spent.value < limit.value then BudgetSpend else Budget
  }

  function Measured(view: Option<View>): real {
    if view.Some? && view.value.monthToDate.Some? then view.value.monthToDate.value else 0.0
  }

  function Priced(reply: Result<Observation>): real {
    if reply.Ok? && reply.value.status == 200 && reply.value.pricedUsage.Some? then reply.value.pricedUsage.value
    else 0.0
  }

  // The spend known before probe i: what was measured at first, raised by each probe's cost and each later measure.
  function Known(io: Io, journey: Journey, fixture: Fixture, i: nat): real {
    if i == 0 then Measured(io.read(0))
    else
      var known := Known(io, journey, fixture, i - 1);
      var spent := known + Priced(io.call(i, Call(fixture.id, Mode(journey, fixture, known))));
      var measured := Measured(io.read(i));
      if spent < measured then measured else spent
  }

  function Probe(io: Io, journey: Journey, fixture: Fixture, i: nat): Call {
    Call(fixture.id, Mode(journey, fixture, Known(io, journey, fixture, i)))
  }

  predicate CostKnown(reply: Result<Observation>) {
    reply.Ok? && reply.value.status == 200 ==> reply.value.pricedUsage.Some? && reply.value.pricedUsage.value >= 0.0
  }

  // What each of the first n probes cost is known.
  ghost predicate AllPriced(io: Io, journey: Journey, fixture: Fixture, n: nat) {
    forall i :: 0 <= i < n ==> CostKnown(io.call(i + 1, Probe(io, journey, fixture, i)))
  }

  lemma {:induction false} KnownGrows(io: Io, journey: Journey, fixture: Fixture, i: nat, j: nat)
    requires i <= j && AllPriced(io, journey, fixture, j)
    ensures Known(io, journey, fixture, i) <= Known(io, journey, fixture, j)
  {
    if i == j {
    } else {
      KnownGrows(io, journey, fixture, i, j - 1);
      assert CostKnown(io.call(j, Probe(io, journey, fixture, j - 1)));
    }
  }

  predicate SameCents(a: real, b: real) {
    Cents(a).Ok? && Cents(a) == Cents(b)
  }

  predicate Below(a: real, b: real) {
    Cents(a).Ok? && Cents(b).Ok? && Cents(a).value < Cents(b).value
  }

  predicate AtLeast(a: real, b: real) {
    Cents(a).Ok? && Cents(b).Ok? && Cents(b).value <= Cents(a).value
  }

  // Of two amounts that are known the first is below the second or at least as much, in cents, and both are the same in
  // cents when neither is below the other.
  lemma ComparedInCents(a: real, b: real)
    ensures a < 0.0 || b < 0.0 ==> !Below(a, b) && !AtLeast(a, b) && !SameCents(a, b)
    ensures 0.0 <= a && 0.0 <= b ==> (AtLeast(a, b) <==> !Below(a, b))
    ensures 0.0 <= a && 0.0 <= b ==> (SameCents(a, b) <==> !Below(a, b) && !Below(b, a))
    ensures 0.0 <= a && 0.0 <= b ==> (Below(a, b) <==> Cents(a).value < Cents(b).value)
  {
    hide RoundTies;
  }

  // A view in which the spend has reached the amount, short of the raise, and every managed gateway blocks.
  predicate ShowsBlock(view: View, fixture: Fixture) {
    && PricedBudget(view, fixture).Ok? && SameCents(view.amount, fixture.amount)
    && AtLeast(view.monthToDate.value, fixture.amount) && Below(view.monthToDate.value, fixture.raisedAmount)
    && GatesHold(view, fixture, true)
  }

  // A view in which the spend is below the raised amount, and no managed gateway blocks.
  predicate ShowsRaise(view: View, fixture: Fixture) {
    && PricedBudget(view, fixture).Ok? && SameCents(view.amount, fixture.raisedAmount)
    && Below(view.monthToDate.value, fixture.raisedAmount) && GatesHold(view, fixture, false)
  }

  predicate HasStatus(reply: Result<Observation>, status: int) {
    reply.Ok? && reply.value.status == status
  }

  // Entry i of what a run sends while it probes for the block: the baseline, and then probes.
  function Sent(io: Io, journey: Journey, fixture: Fixture, i: nat): Call {
    if i == 0 then Call(fixture.id, Success) else Probe(io, journey, fixture, i - 1)
  }

  ghost predicate ProbesSent(io: Io, journey: Journey, fixture: Fixture, sent: seq<Call>) {
    |sent| > 0 && forall i :: 0 <= i < |sent| ==> sent[i] == Sent(io, journey, fixture, i)
  }

  // The first reply from call lo on, before call hi, that has a status.
  function FirstWith(io: Io, sent: seq<Call>, lo: nat, hi: nat, status: int): Option<Observation>
    requires hi <= |sent|
  {
    if hi <= lo then None
    else
      var earlier := FirstWith(io, sent, lo, hi - 1, status);
      var last := io.call(hi - 1, sent[hi - 1]);
      if earlier.Some? then earlier else if HasStatus(last, status) then Some(last.value) else None
  }

  lemma {:induction false} FirstWithMeaning(io: Io, sent: seq<Call>, lo: nat, hi: nat, status: int) returns (f: nat)
    requires lo <= hi <= |sent|
    ensures lo <= f <= hi && forall i :: lo <= i < f ==> !HasStatus(io.call(i, sent[i]), status)
    ensures FirstWith(io, sent, lo, hi, status).None? ==> f == hi
    ensures FirstWith(io, sent, lo, hi, status).Some? ==>
      f < hi && io.call(f, sent[f]) == Ok(FirstWith(io, sent, lo, hi, status).value)
        && HasStatus(io.call(f, sent[f]), status)
  {
    f := lo;
    if hi <= lo {
    } else {
      f := FirstWithMeaning(io, sent, lo, hi - 1, status);
      if f == hi - 1 && !HasStatus(io.call(f, sent[f]), status) {
        f := hi;
      }
    }
  }

  lemma {:induction false} FirstExtends(io: Io, sent: seq<Call>, call: Call, lo: nat, hi: nat, status: int)
    requires hi <= |sent|
    ensures FirstWith(io, sent + [call], lo, hi, status) == FirstWith(io, sent, lo, hi, status)
  {
    if hi <= lo {
    } else {
      FirstExtends(io, sent, call, lo, hi - 1, status);
    }
  }

  lemma FirstNext(io: Io, sent: seq<Call>, call: Call, lo: nat, status: int)
    requires lo <= |sent|
    ensures var (earlier, last) := (FirstWith(io, sent, lo, |sent|, status), io.call(|sent|, call));
      FirstWith(io, sent + [call], lo, |sent| + 1, status)
      == if earlier.Some? then earlier else if HasStatus(last, status) then Some(last.value) else None
  {
    FirstExtends(io, sent, call, lo, |sent|, status);
  }

  lemma ProbesStart(io: Io, journey: Journey, fixture: Fixture)
    ensures ProbesSent(io, journey, fixture, [Call(fixture.id, Success)]) && AllPriced(io, journey, fixture, 0)
    ensures Known(io, journey, fixture, 0) == Measured(io.read(0))
    ensures FirstWith(io, [Call(fixture.id, Success)], 1, 1, 403).None?
  {
  }

  lemma ProbesNext(io: Io, journey: Journey, fixture: Fixture, sent: seq<Call>)
    requires ProbesSent(io, journey, fixture, sent)
    ensures ProbesSent(io, journey, fixture, sent + [Probe(io, journey, fixture, |sent| - 1)])
  {
  }

  lemma KnownNext(io: Io, journey: Journey, fixture: Fixture, i: nat)
    requires AllPriced(io, journey, fixture, i) && CostKnown(io.call(i + 1, Probe(io, journey, fixture, i)))
    ensures AllPriced(io, journey, fixture, i + 1)
    ensures var spent := Known(io, journey, fixture, i) + Priced(io.call(i + 1, Probe(io, journey, fixture, i)));
      var measured := Measured(io.read(i + 1));
      Known(io, journey, fixture, i + 1) == if spent < measured then measured else spent
  {
  }

  // A run goes past a call only when it came back.
  ghost predicate CameBack(io: Io, sent: seq<Call>, n: nat)
    requires n <= |sent|
  {
    forall k :: 0 <= k < n ==> io.call(k, sent[k]).Ok?
  }

  // Probe i blocks: it is refused, and the view after it shows the block.
  ghost predicate BlocksAt(io: Io, journey: Journey, fixture: Fixture, i: nat) {
    HasStatus(io.call(i + 1, Probe(io, journey, fixture, i)), 403) && io.read(i + 1).Some?
      && ShowsBlock(io.read(i + 1).value, fixture)
  }

  // After probe i a run has its cost and a view of the amount saved, with a spend that is short of the raise.
  ghost predicate WaitsAt(io: Io, journey: Journey, fixture: Fixture, i: nat) {
    var (reply, view) := (io.call(i + 1, Probe(io, journey, fixture, i)), io.read(i + 1));
    && reply.Ok? && CostKnown(reply) && view.Some? && PricedBudget(view.value, fixture).Ok?
    && SameCents(view.value.amount, fixture.amount) && Below(view.value.monthToDate.value, fixture.raisedAmount)
  }

  // The block is seen after n more probes.
  ghost predicate BlocksAfter(io: Io, journey: Journey, fixture: Fixture, n: nat) {
    BlocksAt(io, journey, fixture, n)
    && forall i :: 0 <= i < n ==> WaitsAt(io, journey, fixture, i) && !BlocksAt(io, journey, fixture, i)
  }

  // A block that is not seen by probe i is seen after it only where the run waits after it.
  lemma StopsAt(io: Io, journey: Journey, fixture: Fixture, i: nat, n: nat)
    requires BlocksAfter(io, journey, fixture, n) && forall k :: 0 <= k < i ==> !BlocksAt(io, journey, fixture, k)
    ensures i <= n && WaitsAt(io, journey, fixture, i)
  {
    hide Probe, PricedBudget, SameCents, Below, AtLeast, GatesHold;
  }

  // Call k raises: it succeeds, and the view after it shows the raise.
  ghost predicate RaisesAt(io: Io, fixture: Fixture, k: nat)
    requires k > 0
  {
    HasStatus(io.call(k, Call(fixture.id, Budget)), 200) && io.read(k - 1).Some?
      && ShowsRaise(io.read(k - 1).value, fixture)
  }

  // After call k a run has a view of the amount raised, with a spend that is short of it.
  ghost predicate GoesOnAt(io: Io, fixture: Fixture, k: nat)
    requires k > 0
  {
    var view := io.read(k - 1);
    && io.call(k, Call(fixture.id, Budget)).Ok? && view.Some? && PricedBudget(view.value, fixture).Ok?
    && SameCents(view.value.amount, fixture.raisedAmount)
      && Below(view.value.monthToDate.value, fixture.raisedAmount)
  }

  // After k calls the raise is seen after n more probes.
  ghost predicate RaisesAfter(io: Io, fixture: Fixture, k: nat, n: nat)
    requires k > 0
  {
    RaisesAt(io, fixture, k + n)
    && forall i :: k <= i < k + n ==> GoesOnAt(io, fixture, i) && !RaisesAt(io, fixture, i)
  }

  lemma RaiseStopsAt(io: Io, fixture: Fixture, k: nat, i: nat, n: nat)
    requires 0 < k <= i && RaisesAfter(io, fixture, k, n)
      && forall c :: k <= c < i ==> !RaisesAt(io, fixture, c)
    ensures i <= k + n && GoesOnAt(io, fixture, i)
  {
    hide PricedBudget, SameCents, Below, GatesHold;
  }

  // The loop that waits for the block. Whether it finds one or gives up, what it sent is the baseline and probes.
  method BlockProbes(io: Io, journey: Journey, fixture: Fixture, before: View, maxRequests: nat)
    returns (r: Result<(Observation, View)>, sent: seq<Call>)
    requires Some(before) == io.read(0) && PricedBudget(before, fixture).Ok?
      && io.call(0, Call(fixture.id, Success)).Ok?
    ensures 1 <= |sent| <= maxRequests + 1 && ProbesSent(io, journey, fixture, sent)
    ensures CameBack(io, sent, if r.Ok? then |sent| else |sent| - 1)
    ensures AllPriced(io, journey, fixture, if |sent| < 2 then 0 else |sent| - 2)
    ensures r.Ok? ==> |sent| >= 2 && BlocksAfter(io, journey, fixture, |sent| - 2)
    ensures forall n :: 0 <= n < maxRequests && BlocksAfter(io, journey, fixture, n) ==> r.Ok? && |sent| == n + 2
    ensures r.Ok? ==>
      && 2 <= |sent| && AllPriced(io, journey, fixture, |sent| - 1)
      && io.read(|sent| - 1) == Some(r.value.1) && ShowsBlock(r.value.1, fixture)
      && HasStatus(io.call(|sent| - 1, sent[|sent| - 1]), 403) && FirstWith(io, sent, 1, |sent|, 403) == Some(r.value.0)
  {
    hide GatesHold, Known, ProbesSent, SameCents, Below, AtLeast, FirstWith, Cents;
    sent := [Call(fixture.id, Success)];
    var first403: Option<Observation> := None;
    var known := before.monthToDate.value;
    ProbesStart(io, journey, fixture);
    for i := 0 to maxRequests
      invariant |sent| == i + 1 && ProbesSent(io, journey, fixture, sent) && AllPriced(io, journey, fixture, i)
      invariant CameBack(io, sent, |sent|)
      invariant forall k :: 0 <= k < i ==> WaitsAt(io, journey, fixture, k) && !BlocksAt(io, journey, fixture, k)
      invariant known == Known(io, journey, fixture, i) && first403 == FirstWith(io, sent, 1, |sent|, 403)
    {
      var limit, spent := Cents(fixture.amount), Cents(known);
      var larger := journey.R14? && spent.Ok? && limit.Ok? && spent.value < limit.value;
      var call := Call(fixture.id, if larger then BudgetSpend else Budget);
      assert call.expected == Mode(journey, fixture, known);
      ProbesNext(io, journey, fixture, sent);
      forall n: nat | BlocksAfter(io, journey, fixture, n) ensures i <= n && WaitsAt(io, journey, fixture, i) {
        StopsAt(io, journey, fixture, i, n);
      }
      FirstNext(io, sent, call, 1, 403);
      sent := sent + [call];
      var probe := io.call(i + 1, call);
      if probe.Error? {
        return Error, sent;
      }
      if probe.value.status == 200 {
        if probe.value.pricedUsage.None? || probe.value.pricedUsage.value < 0.0 {
          return Error, sent;
        }
        known := known + probe.value.pricedUsage.value;
      }
      KnownNext(io, journey, fixture, i);
      if probe.value.status == 403 && first403.None? {
        first403 := Some(probe.value);
      }
      var view := io.read(i + 1);
      if view.None? {
        return Error, sent;
      }
      var spend := PricedBudget(view.value, fixture);
      if spend.Error? || !SameCents(view.value.amount, fixture.amount) {
        return Error, sent;
      }
      if known < view.value.monthToDate.value {
        known := view.value.monthToDate.value;
      }
      if !Below(view.value.monthToDate.value, fixture.raisedAmount) {
        return Error, sent;
      }
      if first403.Some? && probe.value.status == 403 && AtLeast(view.value.monthToDate.value, fixture.amount)
         && GatesHold(view.value, fixture, true)
      {
        return Ok((first403.value, view.value)), sent;
      }
    }
    return Error, sent;
  }

  // The loop that waits for the raise; calls number on from those already sent.
  method RaiseProbes(io: Io, fixture: Fixture, maxRequests: nat, before: seq<Call>)
    returns (r: Result<(Observation, View)>, sent: seq<Call>)
    requires |before| >= 1 && CameBack(io, before, |before|)
    ensures CameBack(io, sent, if r.Ok? || |sent| == 0 then |sent| else |sent| - 1)
    ensures |before| <= |sent| <= |before| + maxRequests && sent[..|before|] == before
    ensures forall k :: |before| <= k < |sent| ==> sent[k] == Call(fixture.id, Budget)
    ensures r.Ok? ==> |sent| > |before| && RaisesAfter(io, fixture, |before|, |sent| - |before| - 1)
    ensures forall n :: 0 <= n < maxRequests && RaisesAfter(io, fixture, |before|, n) ==> r.Ok?
    ensures r.Ok? ==>
      && |before| < |sent| && io.read(|sent| - 2) == Some(r.value.1) && ShowsRaise(r.value.1, fixture)
      && HasStatus(io.call(|sent| - 1, sent[|sent| - 1]), 200)
        && FirstWith(io, sent, |before|, |sent|, 200) == Some(r.value.0)
  {
    hide GatesHold, SameCents, Below, Cents;
    sent := before;
    var firstSuccess: Option<Observation> := None;
    for i := 0 to maxRequests
      invariant |sent| == |before| + i && sent[..|before|] == before && CameBack(io, sent, |sent|)
      invariant forall k :: |before| <= k < |sent| ==> sent[k] == Call(fixture.id, Budget)
      invariant forall k :: |before| <= k < |sent| ==> GoesOnAt(io, fixture, k) && !RaisesAt(io, fixture, k)
      invariant firstSuccess == FirstWith(io, sent, |before|, |sent|, 200)
    {
      var call := Call(fixture.id, Budget);
      FirstNext(io, sent, call, |before|, 200);
      forall n: nat | RaisesAfter(io, fixture, |before|, n)
        ensures |sent| <= |before| + n && GoesOnAt(io, fixture, |sent|)
      {
        RaiseStopsAt(io, fixture, |before|, |sent|, n);
      }
      var probe := io.call(|sent|, call);
      sent := sent + [call];
      if probe.Error? {
        return Error, sent;
      }
      if probe.value.status == 200 && firstSuccess.None? {
        firstSuccess := Some(probe.value);
      }
      var view := io.read(|sent| - 2);
      if view.None? || !SameCents(view.value.amount, fixture.raisedAmount) || PricedBudget(view.value, fixture).Error?
         || !Below(view.value.monthToDate.value, fixture.raisedAmount)
      {
        return Error, sent;
      }
      if firstSuccess.Some? && probe.value.status == 200 && GatesHold(view.value, fixture, false) {
        return Ok((firstSuccess.value, view.value)), sent;
      }
    }
    return Error, sent;
  }

  // ---- The whole run ----

  // What a run saves and sees in the page, and how many calls it had sent by then.
  datatype Write = Save(amount: real, at: nat) | Banner(blocked: bool, at: nat)

  datatype Proof = Proof(first403: Observation, firstSuccess: Observation, blocked: View, raised: View)

  // Where a run may start: R12 at or above the amount, R14 below it, and neither blocked.
  predicate Starts(before: View, journey: Journey, fixture: Fixture) {
    && PricedBudget(before, fixture).Ok? && !before.blocked
    && if journey.R12? then AtLeast(before.monthToDate.value, fixture.amount)
       else Below(before.monthToDate.value, fixture.amount)
  }

  // The spend to start from is known; R12 starts with at least the amount spent, R14 with less, in cents.
  lemma StartsMeaning(before: View, journey: Journey, fixture: Fixture)
    requires FullyPriced(before, fixture) && before.monthToDate.value >= 0.0 && fixture.amount >= 0.0
    ensures Starts(before, journey, fixture) <==>
      !before.blocked
      && (journey.R12? <==> Cents(before.monthToDate.value).value >= Cents(fixture.amount).value)
  {
    hide RoundTies;
    PricedBudgetMeaning(before, fixture, Cents(before.monthToDate.value).value);
  }

  // After p probes a run has seen the block: the last one was refused, and the view after it shows it.
  ghost predicate BlockSeen(io: Io, journey: Journey, fixture: Fixture, p: nat) {
    && io.read(0).Some? && Starts(io.read(0).value, journey, fixture)
    && p > 0 && HasStatus(io.call(p, Sent(io, journey, fixture, p)), 403)
    && io.read(p).Some? && ShowsBlock(io.read(p).value, fixture)
    && (journey.R14? ==> io.read(0).value.through.value < io.read(p).value.through.value)
  }

  // What a run may have sent and written when it returns, however it returns: a baseline, p probes whose prompts are
  // as large as the known spend allows, and, only once the block was seen, the other center's call and the raise.
  ghost predicate Orderly(io: Io, journey: Journey, fixture: Fixture, control: string, maxRequests: nat,
                          sent: seq<Call>, p: nat, writes: seq<Write>) {
    && p < |sent| && p <= maxRequests && |sent| <= p + 2 + maxRequests && CameBack(io, sent, |sent| - 1)
    && io.read(0).Some? && Starts(io.read(0).value, journey, fixture)
    && ProbesSent(io, journey, fixture, sent[..p + 1]) && AllPriced(io, journey, fixture, if p < 1 then 0 else p - 1)
    && (|sent| > p + 1 ==> BlockSeen(io, journey, fixture, p) && sent[p + 1] == Call(control, Success))
    && (forall k :: p + 2 <= k < |sent| ==> sent[k] == Call(fixture.id, Budget))
    && writes <= [Save(fixture.amount, 1), Banner(true, p + 2), Save(fixture.raisedAmount, p + 2),
                  Banner(false, |sent|)]
    && (|sent| > 1 ==> |writes| > 0 && io.save(fixture.amount)) && (|writes| > 1 ==> |sent| > p + 1)
    && (|sent| > p + 2 ==> |writes| > 2 && io.banner(true) && io.save(fixture.raisedAmount))
  }

  // What a proof stands on: the block was seen, then the raise was, and every step in between succeeded.
  ghost predicate Proven(io: Io, journey: Journey, fixture: Fixture, sent: seq<Call>, p: nat, writes: seq<Write>,
                         proof: Proof) {
    && |sent| > p + 2 && |writes| == 4 && CameBack(io, sent, |sent|) && BlockSeen(io, journey, fixture, p)
    && io.read(p) == Some(proof.blocked) && io.read(|sent| - 2) == Some(proof.raised)
      && ShowsRaise(proof.raised, fixture)
    && FirstWith(io, sent, 1, p + 1, 403) == Some(proof.first403)
    && FirstWith(io, sent, p + 2, |sent|, 200) == Some(proof.firstSuccess)
    && HasStatus(io.call(|sent| - 1, sent[|sent| - 1]), 200)
    && io.save(fixture.amount) && io.save(fixture.raisedAmount) && io.banner(true) && io.banner(false)
  }

  // Everything goes as it should: the run may start, the block is seen after n more probes and the raise after m more,
  // and every call and write in between succeeds.
  ghost predicate Works(io: Io, journey: Journey, fixture: Fixture, control: string, n: nat, m: nat) {
    && io.read(0).Some? && Starts(io.read(0).value, journey, fixture) && io.call(0, Call(fixture.id, Success)).Ok?
    && io.save(fixture.amount) && BlocksAfter(io, journey, fixture, n)
    && (journey.R14? ==> Later(io.read(0).value, io.read(n + 1).value))
    && io.call(n + 2, Call(control, Success)).Ok? && io.banner(true) && io.save(fixture.raisedAmount)
    && RaisesAfter(io, fixture, n + 3, m) && io.banner(false)
  }

  // The run, against any replies, views and writes. It returns a proof only when the block was seen, then the raise
  // was, and every step in between succeeded.
  method BudgetProof(io: Io, journey: Journey, fixture: Fixture, control: string, maxRequests: nat)
    returns (r: Result<Proof>, sent: seq<Call>, p: nat, writes: seq<Write>)
    ensures sent == [] ==> r.Error? && writes == []
    ensures sent != [] ==> Orderly(io, journey, fixture, control, maxRequests, sent, p, writes)
    ensures r.Ok? ==> Proven(io, journey, fixture, sent, p, writes, r.value)
    ensures r.Ok? <==> (exists n, m :: 0 <= n < maxRequests && 0 <= m < maxRequests
                          && Works(io, journey, fixture, control, n, m))
  {
    hide ShowsBlock, ShowsRaise, GatesHold, Below, AtLeast, AllPriced, FirstWith, Mode, Known, PricedBudget;
    p, sent, writes := 0, [], [];
    var before := io.read(0);
    if before.None? || !Starts(before.value, journey, fixture) {
      return Error, sent, p, writes;
    }
    sent := [Call(fixture.id, Success)];
    ProbesStart(io, journey, fixture);
    assert sent[..1] == sent;
    if io.call(0, sent[0]).Error? {
      return Error, sent, p, writes;
    }
    writes := [Save(fixture.amount, 1)];
    if !io.save(fixture.amount) {
      return Error, sent, p, writes;
    }
    var blocking;
    blocking, sent := BlockProbes(io, journey, fixture, before.value, maxRequests);
    p := |sent| - 1;
    assert sent[..p + 1] == sent;
    if blocking.Error? {
      return Error, sent, p, writes;
    }
    var (first403, blocked) := blocking.value;
    if journey.R14? && !Later(before.value, blocked) {
      return Error, sent, p, writes;
    }
    assert BlockSeen(io, journey, fixture, p);
    var controlled := io.call(p + 1, Call(control, Success));
    var probes := sent;
    sent := probes + [Call(control, Success)];
    assert sent[..p + 1] == probes;
    if controlled.Error? {
      return Error, sent, p, writes;
    }
    writes := writes + [Banner(true, p + 2)];
    if !io.banner(true) {
      return Error, sent, p, writes;
    }
    writes := writes + [Save(fixture.raisedAmount, p + 2)];
    if !io.save(fixture.raisedAmount) {
      return Error, sent, p, writes;
    }
    var raising;
    raising, sent := RaiseProbes(io, fixture, maxRequests, sent);
    assert sent[..p + 1] == probes;
    if raising.Error? {
      return Error, sent, p, writes;
    }
    FirstWithPrefix(io, probes, sent, 1, 403);
    writes := writes + [Banner(false, |sent|)];
    if !io.banner(false) {
      return Error, sent, p, writes;
    }
    assert Works(io, journey, fixture, control, p - 1, |sent| - p - 3);
    return Ok(Proof(first403, raising.value.0, blocked, raising.value.1)), sent, p, writes;
  }

  predicate Later(before: View, after: View) {
    before.through.Some? && after.through.Some? && before.through.value < after.through.value
  }

  lemma {:induction false} FirstWithPrefix(io: Io, front: seq<Call>, sent: seq<Call>, lo: nat, status: int)
    requires |front| <= |sent| && sent[..|front|] == front
    ensures FirstWith(io, sent, lo, |front|, status) == FirstWith(io, front, lo, |front|, status)
  {
    FirstWithSame(io, front, sent, lo, |front|, status);
  }

  lemma {:induction false} FirstWithSame(io: Io, front: seq<Call>, sent: seq<Call>, lo: nat, hi: nat, status: int)
    requires hi <= |front| <= |sent| && sent[..|front|] == front
    ensures FirstWith(io, sent, lo, hi, status) == FirstWith(io, front, lo, hi, status)
  {
    if hi <= lo {
    } else {
      FirstWithSame(io, front, sent, lo, hi - 1, status);
      assert sent[hi - 1] == sent[..|front|][hi - 1];
    }
  }

  // Once the spend known before probe i reaches the amount in cents, no later call sends the larger prompt.
  lemma LargerPromptNeverAgain(io: Io, journey: Journey, fixture: Fixture, control: string, maxRequests: nat,
                               sent: seq<Call>, p: nat, writes: seq<Write>, i: nat, j: nat)
    requires Orderly(io, journey, fixture, control, maxRequests, sent, p, writes) && 1 <= i <= j < |sent| && i <= p
    requires AtLeast(Known(io, journey, fixture, i - 1), fixture.amount)
    ensures !sent[j].expected.BudgetSpend?
  {
    hide GatesHold, ShowsBlock;
    if j <= p {
      KnownGrows(io, journey, fixture, i - 1, j - 1);
      CentsMonotone(Known(io, journey, fixture, i - 1), Known(io, journey, fixture, j - 1));
      assert sent[j] == sent[..p + 1][j] == Probe(io, journey, fixture, j - 1);
    }
  }

  // Call f is the first, from call lo on and before call hi, whose reply has the status; and this is the reply.
  ghost predicate IsFirstWith(io: Io, sent: seq<Call>, lo: nat, hi: nat, status: int, f: nat, entry: Observation)
    requires hi <= |sent|
  {
    && lo <= f < hi && io.call(f, sent[f]) == Ok(entry) && entry.status == status
    && forall i :: lo <= i < f ==> !HasStatus(io.call(i, sent[i]), status)
  }

  // What two views show that the run stopped at: the amount was reached, and the raise is more, in rounded cents, with
  // every managed gateway in the intended state in both.
  lemma ViewsMeaning(io: Io, journey: Journey, fixture: Fixture, p: nat, raised: View, id: string)
    requires BlockSeen(io, journey, fixture, p) && ShowsRaise(raised, fixture) && id in fixture.managed
    ensures fixture.amount >= 0.0 && fixture.raisedAmount >= 0.0
    ensures var (start, spent) := (io.read(0).value.monthToDate.value, io.read(p).value.monthToDate.value);
      && Cents(fixture.amount).value <= Cents(spent).value < Cents(fixture.raisedAmount).value
      && (journey.R14? ==> Cents(start).value < Cents(fixture.amount).value && start < spent)
      && Cents(raised.monthToDate.value).value < Cents(raised.amount).value
    ensures exists g :: g in io.read(p).value.gateways && g.id == id && g.enforcing && !g.failed && g.synced.Some?
    ensures exists g :: g in raised.gateways && g.id == id && !g.enforcing && !g.failed && g.synced.Some?
  {
    var blocking := GateOf(io.read(p).value, fixture, true, id);
    var letting := GateOf(raised, fixture, false, id);
    if journey.R14? {
      var (start, spent) := (io.read(0).value.monthToDate.value, io.read(p).value.monthToDate.value);
      if spent <= start {
        CentsMonotone(spent, start);
      }
    }
  }

  // What a returned proof shows: the run started, blocked and raised on fully priced views; the views as above, and
  // every gateway reported is a managed one; and the replies kept. The refusal is that of the first probe refused, no
  // later than the one that the block was seen after; the success is the first after the raise.
  lemma ProofMeaning(io: Io, journey: Journey, fixture: Fixture, sent: seq<Call>, p: nat, writes: seq<Write>,
                     proof: Proof, id: string) returns (refused: nat, succeeded: nat)
    requires Proven(io, journey, fixture, sent, p, writes, proof) && id in fixture.managed
    ensures fixture.amount >= 0.0 && fixture.raisedAmount >= 0.0 && p + 2 < |sent| && io.read(0).Some?
    ensures FullyPriced(io.read(0).value, fixture) && FullyPriced(proof.blocked, fixture)
    ensures FullyPriced(proof.raised, fixture)
    ensures !io.read(0).value.blocked && proof.blocked.blocked && !proof.raised.blocked
    ensures Cents(proof.blocked.amount) == Cents(fixture.amount)
    ensures Cents(proof.raised.amount) == Cents(fixture.raisedAmount)
    ensures var (start, spent) := (io.read(0).value.monthToDate.value, proof.blocked.monthToDate.value);
      && Cents(fixture.amount).value <= Cents(spent).value < Cents(fixture.raisedAmount).value
      && (journey.R12? ==> Cents(fixture.amount).value <= Cents(start).value)
      && (journey.R14? ==>
            Cents(start).value < Cents(fixture.amount).value && start < spent
            && io.read(0).value.through.value < proof.blocked.through.value)
      && Cents(proof.raised.monthToDate.value).value < Cents(proof.raised.amount).value
    ensures exists g :: g in proof.blocked.gateways && g.id == id && g.enforcing && !g.failed && g.synced.Some?
    ensures exists g :: g in proof.raised.gateways && g.id == id && !g.enforcing && !g.failed && g.synced.Some?
    ensures forall g :: g in proof.blocked.gateways + proof.raised.gateways ==> g.id in fixture.managed
    ensures |proof.blocked.gateways| == |proof.raised.gateways| == |fixture.managed|
    ensures proof.blocked.action == proof.raised.action == "block"
    ensures IsFirstWith(io, sent, 1, p + 1, 403, refused, proof.first403)
    ensures IsFirstWith(io, sent, p + 2, |sent|, 200, succeeded, proof.firstSuccess)
  {
    ViewsMeaning(io, journey, fixture, p, proof.raised, id);
    GatesMeaning(proof.blocked, fixture, true);
    GatesMeaning(proof.raised, fixture, false);
    ViewsPriced(io, journey, fixture, p, proof.raised);
    hide GatesHold, PricedBudget, FullyPriced, FirstWith;
    refused := FirstWithMeaning(io, sent, 1, p + 1, 403);
    succeeded := FirstWithMeaning(io, sent, p + 2, |sent|, 200);
  }

  lemma ViewsPriced(io: Io, journey: Journey, fixture: Fixture, p: nat, raised: View)
    requires BlockSeen(io, journey, fixture, p) && ShowsRaise(raised, fixture)
    ensures FullyPriced(io.read(0).value, fixture) && FullyPriced(io.read(p).value, fixture)
    ensures FullyPriced(raised, fixture)
  {
    hide GatesHold;
    PricedBudgetMeaning(io.read(0).value, fixture, PricedBudget(io.read(0).value, fixture).value);
    PricedBudgetMeaning(io.read(p).value, fixture, PricedBudget(io.read(p).value, fixture).value);
    PricedBudgetMeaning(raised, fixture, PricedBudget(raised, fixture).value);
  }
}
