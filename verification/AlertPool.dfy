/** The concurrent part of the alerting service (pkg/anomaly/alerting.go): any
    number of ProcessAnomaly calls feed a bounded queue, a pool of workers drains
    it into the tenants' histories, and Shutdown stops the workers. */
module AlertPool {
  import Alerting
  import opened Runs
  import opened Collections
  import opened Options

  datatype Alert = Alert(id: nat, tenant: nat, anomaly: nat, rule: nat)

  type Key = Alerting.Key

  /** What is fixed: AlertQueueSize and DeduplicationWindow. */
  datatype Config = Config(capacity: nat, window: int)

  /** The callers: alerts created, alerts past the throttler and about to be
      offered to the queue, and the throttler's table. */
  datatype Producers = Producers(made: multiset<Alert>, passed: multiset<Alert>, recent: map<Key, int>)

  datatype Worker = Idle | Sending(alert: Alert) | Exited

  /** What became of the alerts: all that were created, throttled or dropped, in
      order all that were accepted and all that were stored, and the calls of the
      throttler. */
  datatype Past = Past(
    created: multiset<Alert>, throttled: multiset<Alert>, dropped: multiset<Alert>,
    accepted: seq<Alert>, stored: seq<Alert>, checks: seq<Alerting.Call>)

  datatype State = State(
    conf: Config, clock: int, producers: Producers, queue: seq<Alert>, workers: seq<Worker>, stopping: bool,
    history: map<nat, seq<Alert>>, past: Past)

  datatype Action =
    | Wait(passed: nat)
    | Create(alert: Alert)
    | Check(alert: Alert, gap: nat)
    | Offer(alert: Alert)
    | HandOver(alert: Alert, w: nat)
    | Take(w: nat)
    | Store(w: nat)
    | Stop
    | Exit(w: nat)

  function KeyOf(a: Alert): Key { Alerting.Key(a.anomaly, a.rule) }

  /** Whether the throttler holds the alert back at the given time. */
  predicate Repeats(recent: map<Key, int>, window: int, a: Alert, now: int) {
    KeyOf(a) in recent && now - recent[KeyOf(a)] < window
  }

  // ----- steps -----

  function CreateStep(s: State, a: Alert): State {
    s.(producers := s.producers.(made := Put(s.producers.made, a)), past := s.past.(created := Put(s.past.created, a)))
  }

  /** The throttler reads the clock twice under its lock. */
  function CheckStep(s: State, a: Alert, gap: nat): State {
    if a !in s.producers.made then s else
    var rest := TakeOut(s.producers.made, a);
    if Repeats(s.producers.recent, s.conf.window, a, s.clock) then
      s.(producers := s.producers.(made := rest),
         past := s.past.(throttled := Put(s.past.throttled, a),
                         checks := s.past.checks + [Alerting.Call(KeyOf(a), s.clock, s.clock, true)]))
    else
      s.(clock := s.clock + gap,
         producers := Producers(rest, Put(s.producers.passed, a), s.producers.recent[KeyOf(a) := s.clock + gap]),
         past := s.past.(checks := s.past.checks + [Alerting.Call(KeyOf(a), s.clock, s.clock + gap, false)]))
  }

  function OfferStep(s: State, a: Alert): State {
    if a !in s.producers.passed then s else
    var producers := s.producers.(passed := TakeOut(s.producers.passed, a));
    if |s.queue| < s.conf.capacity then
      s.(producers := producers, queue := s.queue + [a], past := s.past.(accepted := s.past.accepted + [a]))
    else
      s.(producers := producers, past := s.past.(dropped := Put(s.past.dropped, a)))
  }

  /** A queue without room for any alert passes one straight to a waiting worker. */
  function HandOverStep(s: State, a: Alert, w: nat): State {
    if a !in s.producers.passed || s.conf.capacity > 0 || w >= |s.workers| || s.workers[w] != Idle then s else
    s.(producers := s.producers.(passed := TakeOut(s.producers.passed, a)), workers := s.workers[w := Sending(a)],
       past := s.past.(accepted := s.past.accepted + [a]))
  }

  function TakeStep(s: State, w: nat): State {
    if w >= |s.workers| || s.workers[w] != Idle || s.queue == [] then s else
    s.(queue := s.queue[1..], workers := s.workers[w := Sending(s.queue[0])])
  }

  /** SendAlert is over, delivered or not, and has stored the alert. */
  function StoreStep(s: State, w: nat): State {
    if w >= |s.workers| || !s.workers[w].Sending? then s else
    var a := s.workers[w].alert;
    s.(workers := s.workers[w := Idle], history := s.history[a.tenant := HistoryOf(s.history, a.tenant) + [a]],
       past := s.past.(stored := s.past.stored + [a]))
  }

  function ExitStep(s: State, w: nat): State {
    if w >= |s.workers| || s.workers[w] != Idle || !s.stopping then s else s.(workers := s.workers[w := Exited])
  }

  function Step(s: State, action: Action): State {
    match action
    case Wait(passed) => s.(clock := s.clock + passed)
    case Create(a) => CreateStep(s, a)
    case Check(a, gap) => CheckStep(s, a, gap)
    case Offer(a) => OfferStep(s, a)
    case HandOver(a, w) => HandOverStep(s, a, w)
    case Take(w) => TakeStep(s, w)
    case Store(w) => StoreStep(s, w)
    case Stop => s.(stopping := true)
    case Exit(w) => ExitStep(s, w)
  }

  ghost predicate Init(s: State) {
    && s.producers == Producers(multiset{}, multiset{}, map[]) && s.queue == [] && s.history == map[] && !s.stopping
    && (forall w | 0 <= w < |s.workers| :: s.workers[w] == Idle)
    && s.past == Past(multiset{}, multiset{}, multiset{}, [], [], [])
  }

  // ----- what every step keeps -----

  function Held(workers: seq<Worker>): multiset<Alert> {
    if workers == [] then multiset{}
    else if workers[0].Sending? then Put(Held(workers[1..]), workers[0].alert)
    else Held(workers[1..])
  }

  lemma {:induction false} HeldUpdate(workers: seq<Worker>, w: nat, now: Worker, a: Alert)
    requires w < |workers|
    ensures Held(workers[w := now])[a] + (if workers[w] == Sending(a) then 1 else 0)
         == Held(workers)[a] + (if now == Sending(a) then 1 else 0)
  {
    var after := workers[w := now];
    if w == 0 {
      assert after[1..] == workers[1..];
    } else {
      assert after[1..] == workers[1..][w - 1 := now];
      HeldUpdate(workers[1..], w - 1, now, a);
    }
  }

  lemma {:induction false} HeldNone(workers: seq<Worker>)
    requires forall w | 0 <= w < |workers| :: !workers[w].Sending?
    ensures Held(workers) == multiset{}
  {
    if workers != [] { HeldNone(workers[1..]); }
  }

  /** Copies of the alert with its caller, or given up by it. */
  ghost function Upstream(p: Producers, past: Past, a: Alert): nat {
    p.made[a] + p.passed[a] + past.throttled[a] + past.dropped[a]
  }

  /** Copies of the alert the queue has accepted. */
  ghost function Downstream(queue: seq<Alert>, workers: seq<Worker>, stored: seq<Alert>, a: Alert): nat {
    multiset(queue)[a] + Held(workers)[a] + multiset(stored)[a]
  }

  /** How many copies of the alert are somewhere in the service. */
  ghost function Copies(p: Producers, queue: seq<Alert>, workers: seq<Worker>, past: Past, a: Alert): nat {
    Upstream(p, past, a) + Downstream(queue, workers, past.stored, a)
  }

  ghost predicate Conserved(p: Producers, queue: seq<Alert>, workers: seq<Worker>, past: Past) {
    forall a: Alert :: past.created[a] == Copies(p, queue, workers, past, a)
  }

  function OfTenant(alerts: seq<Alert>, tenant: nat): (r: seq<Alert>)
    ensures forall a | a in r :: a in alerts && a.tenant == tenant
  {
    if alerts == [] then [] else
    var last := alerts[|alerts| - 1];
    var earlier := OfTenant(alerts[..|alerts| - 1], tenant);
    if last.tenant == tenant then earlier + [last] else earlier
  }

  /** A tenant's history is the stored alerts of the tenant, in order. */
  ghost predicate Filed(history: map<nat, seq<Alert>>, stored: seq<Alert>) {
    forall t: nat :: HistoryOf(history, t) == OfTenant(stored, t)
  }

  function Sent(workers: seq<Worker>): seq<Alert>
    requires |workers| == 1
  {
    match workers[0] case Sending(a) => [a] case _ => []
  }

  /** A single worker stores in the order of acceptance, and none stores nothing. */
  ghost predicate InOrder(queue: seq<Alert>, workers: seq<Worker>, past: Past) {
    && (|workers| == 1 ==> past.accepted == past.stored + Sent(workers) + queue)
    && (workers == [] ==> past.stored == [])
  }

  /** The throttler's table is that of its calls, each answered as all before it
      call for. */
  ghost predicate Throttling(s: State) {
    && (forall key: Key :: Alerting.LastPass(s.past.checks, key) ==
          if key in s.producers.recent then Some(s.producers.recent[key]) else None)
    && Alerting.Timed(s.past.checks, s.clock) && Alerting.Deduplicates(s.past.checks, s.conf.window)
    && |s.past.throttled| == |set j | 0 <= j < |s.past.checks| && s.past.checks[j].throttled|
  }

  ghost predicate Inv(s: State) {
    && Throttling(s)
    && Conserved(s.producers, s.queue, s.workers, s.past)
    && |s.queue| <= s.conf.capacity
    && Filed(s.history, s.past.stored)
    && InOrder(s.queue, s.workers, s.past)
  }

  lemma InitHolds(s: State)
    requires Init(s)
    ensures Inv(s)
  {
    HeldNone(s.workers);
  }

  lemma CallAppends(calls: seq<Alerting.Call>, c: Alerting.Call, key: Key)
    ensures Alerting.LastPass(calls + [c], key) ==
      if c.key == key && !c.throttled then Some(c.stamp) else Alerting.LastPass(calls, key)
    ensures var longer := calls + [c];
      |set j | 0 <= j < |longer| && longer[j].throttled|
        == |set j | 0 <= j < |calls| && calls[j].throttled| + if c.throttled then 1 else 0
  {
    var longer := calls + [c];
    assert longer[..|calls|] == calls;
    assert (set j | 0 <= j < |longer| && longer[j].throttled)
        == (set j | 0 <= j < |calls| && calls[j].throttled) + if c.throttled then {|calls|} else {};
  }

  lemma CheckKeepsThrottling(s: State, a: Alert, gap: nat)
    requires Throttling(s)
    ensures Throttling(CheckStep(s, a, gap))
  {
    if a in s.producers.made {
      var t, key := CheckStep(s, a, gap), KeyOf(a);
      var throttled := Repeats(s.producers.recent, s.conf.window, a, s.clock);
      var c := Alerting.Call(key, s.clock, if throttled then s.clock else s.clock + gap, throttled);
      assert t.past.checks == s.past.checks + [c];
      CallDecided(s, key);
      hide CheckStep, Throttling;
      ThrottlingMore(s, t, c);
    }
  }

  lemma CallDecided(s: State, key: Key)
    requires Throttling(s)
    ensures Alerting.Repeats(s.past.checks, key, s.clock, s.conf.window) <==>
      key in s.producers.recent && s.clock - s.producers.recent[key] < s.conf.window
  {
    Alerting.LastPassDecides(s.past.checks, s.clock, key, s.clock, s.conf.window);
    hide Alerting.LastPass, Alerting.Repeats, Alerting.Deduplicates;
  }

  lemma ThrottlingMore(s: State, t: State, c: Alerting.Call)
    requires Throttling(s) && s.clock <= c.checked <= c.stamp <= t.clock && t.conf == s.conf
    requires c.throttled <==> Alerting.Repeats(s.past.checks, c.key, c.checked, s.conf.window)
    requires t.past.checks == s.past.checks + [c]
    requires t.producers.recent == if c.throttled then s.producers.recent else s.producers.recent[c.key := c.stamp]
    requires |t.past.throttled| == |s.past.throttled| + if c.throttled then 1 else 0
    ensures Throttling(t)
  {
    Alerting.DeduplicatesMore(s.past.checks, c, s.conf.window);
    hide Alerting.LastPass, Alerting.Repeats, Alerting.Deduplicates;
    forall k: Key ensures Alerting.LastPass(t.past.checks, k) ==
      if k in t.producers.recent then Some(t.producers.recent[k]) else None
    {
      CallAppends(s.past.checks, c, k);
    }
    CallAppends(s.past.checks, c, c.key);
  }

  lemma OthersKeepThrottling(s: State, action: Action)
    requires Throttling(s) && !action.Check?
    ensures Throttling(Step(s, action))
  {
    hide Throttling, Put, TakeOut, HistoryOf, Repeats;
    var t := Step(s, action);
    assert t.past.checks == s.past.checks && t.past.throttled == s.past.throttled;
    assert t.conf == s.conf && t.producers.recent == s.producers.recent && s.clock <= t.clock;
    hide Step;
    ThrottlingStays(s, t);
  }

  lemma ThrottlingStays(s: State, t: State)
    requires Throttling(s) && t.past.checks == s.past.checks && t.past.throttled == s.past.throttled
    requires t.conf == s.conf && t.producers.recent == s.producers.recent && s.clock <= t.clock
    ensures Throttling(t)
  {
    hide Alerting.LastPass, Alerting.Deduplicates;
  }

  lemma QueueKeeps(s: State, action: Action)
    requires |s.queue| <= s.conf.capacity
    ensures |Step(s, action).queue| <= Step(s, action).conf.capacity
  {}

  lemma CreateMoves(s: State, b: Alert, a: Alert)
    ensures var t := CreateStep(s, b);
      t.past.created[a] - s.past.created[a] == Upstream(t.producers, t.past, a) - Upstream(s.producers, s.past, a)
  {}

  lemma CheckMoves(s: State, b: Alert, gap: nat, a: Alert)
    ensures var t := CheckStep(s, b, gap);
      t.past.created == s.past.created && Upstream(t.producers, t.past, a) == Upstream(s.producers, s.past, a)
  {
    hide Repeats;
  }

  lemma MakingConserves(s: State, action: Action)
    requires action.Create? || action.Check?
    requires Conserved(s.producers, s.queue, s.workers, s.past)
    ensures var t := Step(s, action); Conserved(t.producers, t.queue, t.workers, t.past)
  {
    var t := Step(s, action);
    assert t.queue == s.queue && t.workers == s.workers && t.past.stored == s.past.stored;
    hide Upstream, Downstream, CreateStep, CheckStep;
    forall a: Alert ensures t.past.created[a] == Copies(t.producers, t.queue, t.workers, t.past, a) {
      assert s.past.created[a] == Copies(s.producers, s.queue, s.workers, s.past, a);
      match action
      case Create(b) => CreateMoves(s, b, a);
      case Check(b, gap) => CheckMoves(s, b, gap, a);
    }
  }

  lemma OfferMoves(s: State, b: Alert, a: Alert)
    requires b in s.producers.passed
    ensures var t := OfferStep(s, b);
      var accepted := if a == b && |s.queue| < s.conf.capacity then 1 else 0;
      && Upstream(s.producers, s.past, a) == Upstream(t.producers, t.past, a) + accepted
      && Downstream(t.queue, t.workers, t.past.stored, a) == Downstream(s.queue, s.workers, s.past.stored, a) + accepted
  {
    hide Held;
  }

  lemma OfferConserves(s: State, b: Alert)
    requires Conserved(s.producers, s.queue, s.workers, s.past)
    ensures var t := OfferStep(s, b); Conserved(t.producers, t.queue, t.workers, t.past)
  {
    var t := OfferStep(s, b);
    if b in s.producers.passed {
      assert t.past.created == s.past.created;
      hide Upstream, Downstream, OfferStep;
      forall a: Alert ensures t.past.created[a] == Copies(t.producers, t.queue, t.workers, t.past, a) {
        assert s.past.created[a] == Copies(s.producers, s.queue, s.workers, s.past, a);
        OfferMoves(s, b, a);
      }
    }
  }

  lemma HandOverConserves(s: State, b: Alert, w: nat)
    requires Conserved(s.producers, s.queue, s.workers, s.past)
    ensures var t := HandOverStep(s, b, w); Conserved(t.producers, t.queue, t.workers, t.past)
  {
    hide Held;
    var t := HandOverStep(s, b, w);
    if t != s {
      forall a: Alert ensures t.past.created[a] == Copies(t.producers, t.queue, t.workers, t.past, a) {
        assert s.past.created[a] == Copies(s.producers, s.queue, s.workers, s.past, a);
        HeldUpdate(s.workers, w, Sending(b), a);
      }
    }
  }

  lemma WorkersConserve(s: State, action: Action)
    requires action.Take? || action.Store? || action.Exit?
    requires Conserved(s.producers, s.queue, s.workers, s.past)
    ensures var t := Step(s, action); Conserved(t.producers, t.queue, t.workers, t.past)
  {
    hide Held, Upstream;
    var t := Step(s, action);
    if t != s {
      assert action.Take? ==> s.queue == [s.queue[0]] + t.queue;
      forall a: Alert ensures t.past.created[a] == Copies(t.producers, t.queue, t.workers, t.past, a) {
        assert s.past.created[a] == Copies(s.producers, s.queue, s.workers, s.past, a);
        UpstreamSame(s.producers, s.past, t.past, a);
        HeldUpdate(s.workers, action.w, t.workers[action.w], a);
      }
    }
  }

  lemma UpstreamSame(p: Producers, before: Past, after: Past, a: Alert)
    requires after.throttled == before.throttled && after.dropped == before.dropped
    ensures Upstream(p, after, a) == Upstream(p, before, a)
  {}

  lemma FiledKeeps(s: State, action: Action)
    requires Filed(s.history, s.past.stored)
    ensures var t := Step(s, action); Filed(t.history, t.past.stored)
  {
    var t := Step(s, action);
    if t.past.stored != s.past.stored {
      var a := s.workers[action.w].alert;
      assert t.past.stored[..|s.past.stored|] == s.past.stored;
      forall tenant: nat ensures HistoryOf(t.history, tenant) == OfTenant(t.past.stored, tenant) {
        assert HistoryOf(s.history, tenant) == OfTenant(s.past.stored, tenant);
      }
    }
  }

  lemma OfferKeepsOrder(s: State, a: Alert)
    requires |s.workers| == 1 && InOrder(s.queue, s.workers, s.past)
    ensures var t := OfferStep(s, a); InOrder(t.queue, t.workers, t.past)
  {
    hide TakeOut, Put;
  }

  lemma HandOverKeepsOrder(s: State, a: Alert, w: nat)
    requires |s.workers| == 1 && InOrder(s.queue, s.workers, s.past) && |s.queue| <= s.conf.capacity
    ensures var t := HandOverStep(s, a, w); InOrder(t.queue, t.workers, t.past)
  {
    hide TakeOut;
  }

  lemma TakeKeepsOrder(s: State, w: nat)
    requires |s.workers| == 1 && InOrder(s.queue, s.workers, s.past)
    ensures var t := TakeStep(s, w); InOrder(t.queue, t.workers, t.past)
  {
    if s.queue != [] { assert s.queue == [s.queue[0]] + s.queue[1..]; }
  }

  lemma StoreKeepsOrder(s: State, w: nat)
    requires |s.workers| == 1 && InOrder(s.queue, s.workers, s.past)
    ensures var t := StoreStep(s, w); InOrder(t.queue, t.workers, t.past)
  {
    hide HistoryOf;
  }

  lemma OthersKeepOrder(s: State, action: Action)
    requires !action.Offer? && !action.HandOver? && !action.Take? && !action.Store?
    requires InOrder(s.queue, s.workers, s.past)
    ensures var t := Step(s, action); InOrder(t.queue, t.workers, t.past)
  {
    hide Put, TakeOut, Repeats;
  }

  lemma NoWorkerStoresNothing(s: State, action: Action)
    requires s.workers == [] && InOrder(s.queue, s.workers, s.past)
    ensures var t := Step(s, action); InOrder(t.queue, t.workers, t.past)
  {
    hide Put, TakeOut, Repeats;
  }

  lemma OrderKeeps(s: State, action: Action)
    requires InOrder(s.queue, s.workers, s.past) && |s.queue| <= s.conf.capacity
    ensures var t := Step(s, action); InOrder(t.queue, t.workers, t.past)
  {
    StepKeepsWorkers(s, action);
    if s.workers == [] {
      NoWorkerStoresNothing(s, action);
    } else if |s.workers| == 1 {
      hide InOrder, OfferStep, HandOverStep, TakeStep, StoreStep;
      match action
      case Offer(a) => OfferKeepsOrder(s, a);
      case HandOver(a, w) => HandOverKeepsOrder(s, a, w);
      case Take(w) => TakeKeepsOrder(s, w);
      case Store(w) => StoreKeepsOrder(s, w);
      case _ => OthersKeepOrder(s, action);
    }
  }

  lemma StepKeepsInv(s: State, action: Action)
    requires Inv(s)
    ensures Inv(Step(s, action))
  {
    hide Throttling, Conserved, Filed, InOrder;
    QueueKeeps(s, action);
    FiledKeeps(s, action);
    OrderKeeps(s, action);
    if action.Check? { CheckKeepsThrottling(s, action.alert, action.gap); } else { OthersKeepThrottling(s, action); }
    if action.Create? || action.Check? {
      MakingConserves(s, action);
    } else if action.Offer? {
      OfferConserves(s, action.alert);
    } else if action.HandOver? {
      HandOverConserves(s, action.alert, action.w);
    } else if action.Take? || action.Store? || action.Exit? {
      WorkersConserve(s, action);
    }
  }

  lemma RunKeepsInv(s: State, acts: seq<Action>)
    requires Init(s)
    ensures Inv(Run(Step, s, acts))
  {
    InitHolds(s);
    forall t: State, a: Action | Inv(t) ensures Inv(Step(t, a)) { StepKeepsInv(t, a); }
    RunKeeps(Step, Inv, s, acts);
  }

  // ----- main results -----

  /** Every alert created is throttled, dropped, on its way, queued, with a worker
      or stored, once for each time it was created; the queue is bounded; and a
      tenant's history holds the tenant's stored alerts and no others. */
  lemma AlertsAreConserved(s: State, acts: seq<Action>)
    requires Init(s)
    ensures var t := Run(Step, s, acts);
      && (forall a: Alert :: t.past.created[a] ==
            t.producers.made[a] + t.past.throttled[a] + t.producers.passed[a] + t.past.dropped[a]
            + multiset(t.queue)[a] + |set w | 0 <= w < |t.workers| && t.workers[w] == Sending(a)|
            + multiset(t.past.stored)[a])
      && |t.queue| <= t.conf.capacity
      && (forall tenant: nat :: HistoryOf(t.history, tenant) == OfTenant(t.past.stored, tenant))
  {
    RunKeepsInv(s, acts);
    var t := Run(Step, s, acts);
    forall a: Alert ensures Held(t.workers)[a] == |set w | 0 <= w < |t.workers| && t.workers[w] == Sending(a)| {
      HeldCounts(t.workers, a);
    }
    hide Step, Run, Held, OfTenant, Init, Throttling;
    forall a: Alert ensures t.past.created[a] == Copies(t.producers, t.queue, t.workers, t.past, a) {}
  }

  /** On every run an alert is throttled if and only if one of its anomaly and rule
      passed less than the window before the reading it is compared at. */
  lemma PoolThrottles(s: State, acts: seq<Action>, j: nat)
    requires Init(s) && j < |Run(Step, s, acts).past.checks|
    ensures var checks := Run(Step, s, acts).past.checks;
      checks[j].throttled <==> exists i :: 0 <= i < j && checks[i].key == checks[j].key && !checks[i].throttled
                                           && checks[j].checked - checks[i].stamp < s.conf.window
    ensures var t := Run(Step, s, acts);
      |t.past.throttled| == |set k | 0 <= k < |t.past.checks| && t.past.checks[k].throttled|
  {
    RunKeepsInv(s, acts);
    RunKeepsWorkers(s, acts);
    var t := Run(Step, s, acts);
    hide Step, Run, Conserved, Filed, InOrder, Init, Alerting.LastPass;
    assert t.past.checks[..j][..] == t.past.checks[..j];
    var checks := t.past.checks;
    if Alerting.Repeats(checks[..j], checks[j].key, checks[j].checked, s.conf.window) {
      var i :| 0 <= i < j && checks[..j][i].key == checks[j].key && !checks[..j][i].throttled
               && checks[j].checked - checks[..j][i].stamp < s.conf.window;
      assert checks[..j][i] == checks[i];
    }
    if i :| 0 <= i < j && checks[i].key == checks[j].key && !checks[i].throttled
            && checks[j].checked - checks[i].stamp < s.conf.window {
      assert checks[..j][i] == checks[i];
    }
  }

  /** An alert that passed is taken into the queue exactly when there is room. */
  lemma OfferTakesIfRoom(s: State, a: Alert)
    requires a in s.producers.passed
    ensures var t := Step(s, Offer(a));
      if |s.queue| < s.conf.capacity then t.queue == s.queue + [a] && t.past.dropped == s.past.dropped
      else t.queue == s.queue && t.past.dropped[a] == s.past.dropped[a] + 1
  {
  }

  /** The places of the workers sending the alert. */
  function Senders(workers: seq<Worker>, a: Alert): (places: set<int>)
    ensures forall w :: w in places <==> 0 <= w < |workers| && workers[w] == Sending(a)
  {
    set w | 0 <= w < |workers| && workers[w] == Sending(a)
  }

  lemma SendersLast(workers: seq<Worker>, a: Alert)
    requires workers != []
    ensures var n := |workers| - 1;
      |Senders(workers, a)| == |Senders(workers[..n], a)| + if workers[n] == Sending(a) then 1 else 0
  {
    var n := |workers| - 1;
    assert Senders(workers, a) == Senders(workers[..n], a) + if workers[n] == Sending(a) then {n} else {};
  }

  lemma {:induction false} SendersHold(workers: seq<Worker>, a: Alert)
    ensures Held(workers)[a] == |Senders(workers, a)|
  {
    if workers == [] {
      assert Senders([], a) == {};
    } else {
      HeldLast(workers);
      SendersLast(workers, a);
      hide Held, Senders;
      SendersHold(workers[..|workers| - 1], a);
    }
  }

  lemma HeldCounts(workers: seq<Worker>, a: Alert)
    ensures Held(workers)[a] == |set w | 0 <= w < |workers| && workers[w] == Sending(a)|
  {
    SendersHold(workers, a);
    assert Senders(workers, a) == set w | 0 <= w < |workers| && workers[w] == Sending(a);
  }

  lemma {:induction false} HeldLast(workers: seq<Worker>)
    requires workers != []
    ensures var n := |workers| - 1;
      Held(workers) == if workers[n].Sending? then Put(Held(workers[..n]), workers[n].alert) else Held(workers[..n])
  {
    if |workers| > 1 {
      HeldLast(workers[1..]);
      assert workers[1..][..|workers| - 2] == workers[..|workers| - 1][1..];
    }
  }

  lemma {:induction false} OfTenantCounts(alerts: seq<Alert>, tenant: nat, a: Alert)
    ensures multiset(OfTenant(alerts, tenant))[a] == if a.tenant == tenant then multiset(alerts)[a] else 0
  {
    if alerts != [] {
      var n := |alerts| - 1;
      OfTenantCounts(alerts[..n], tenant, a);
      assert alerts == alerts[..n] + [alerts[n]];
    }
  }

  /** An alert created once is stored at most once over all histories, and then
      is nowhere else. */
  lemma StoredAtMostOnce(s: State, acts: seq<Action>, a: Alert, tenant: nat)
    requires Init(s) && Run(Step, s, acts).past.created[a] <= 1
    ensures var t := Run(Step, s, acts);
      var times := multiset(HistoryOf(t.history, tenant))[a];
      && times <= 1 && (times == 1 ==> tenant == a.tenant)
      && (times == 1 ==> a !in t.queue && Sending(a) !in t.workers && a !in t.past.dropped && a !in t.past.throttled)
  {
    RunKeepsInv(s, acts);
    var t := Run(Step, s, acts);
    assert t.past.created[a] == Copies(t.producers, t.queue, t.workers, t.past, a);
    assert HistoryOf(t.history, tenant) == OfTenant(t.past.stored, tenant);
    OfTenantCounts(t.past.stored, tenant, a);
    assert a in t.queue <==> multiset(t.queue)[a] > 0;
    HeldCounts(t.workers, a);
    if w :| 0 <= w < |t.workers| && t.workers[w] == Sending(a) {
      var holders := set v | 0 <= v < |t.workers| && t.workers[v] == Sending(a);
      assert w in holders;
    }
  }

  /** No worker ends before Shutdown. */
  lemma {:induction false} WorkersLiveUntilStop(s: State, acts: seq<Action>, w: nat)
    requires Stop !in acts && !s.stopping && w < |s.workers| && !s.workers[w].Exited?
    ensures var t := Run(Step, s, acts); |t.workers| == |s.workers| && !t.workers[w].Exited? && !t.stopping
    decreases |acts|
  {
    if acts != [] {
      LiveStep(s, acts[0], w);
      hide Step;
      WorkersLiveUntilStop(Step(s, acts[0]), acts[1..], w);
    }
  }

  lemma LiveStep(s: State, action: Action, w: nat)
    requires action != Stop && !s.stopping && w < |s.workers| && !s.workers[w].Exited?
    ensures var t := Step(s, action); |t.workers| == |s.workers| && !t.workers[w].Exited? && !t.stopping
  {
    hide Put, TakeOut, Repeats, HistoryOf;
  }

  /** After it every worker that is not sending can end, whatever is queued. */
  lemma IdleWorkersCanEnd(s: State, w: nat)
    requires w < |s.workers| && s.workers[w] == Idle
    ensures Run(Step, s, [Stop, Exit(w)]) == s.(stopping := true, workers := s.workers[w := Exited])
  {
    RunTwo(Step, s, Stop, Exit(w));
  }

  /** No caller is under way and no worker has anything to do. */
  ghost predicate AtRest(s: State) {
    && s.producers.made == multiset{} && s.producers.passed == multiset{}
    && forall w | 0 <= w < |s.workers| :: s.workers[w].Exited? || (s.workers[w].Idle? && s.queue == [])
  }

  /** At rest every alert created has been throttled, dropped or stored, if and
      only if nothing was left behind in the queue; and that cannot happen while
      a worker lives. */
  lemma RestAccountsForAll(s: State, acts: seq<Action>)
    requires Init(s) && AtRest(Run(Step, s, acts))
    ensures var t := Run(Step, s, acts);
      && ((forall a: Alert :: t.past.created[a] == t.past.throttled[a] + t.past.dropped[a] + multiset(t.past.stored)[a])
          <==> t.queue == [])
      && ((exists w :: 0 <= w < |t.workers| && !t.workers[w].Exited?) ==> t.queue == [])
  {
    RunKeepsInv(s, acts);
    var t := Run(Step, s, acts);
    HeldNone(t.workers);
    forall a: Alert
      ensures t.past.created[a]
           == t.past.throttled[a] + t.past.dropped[a] + multiset(t.past.stored)[a] + multiset(t.queue)[a]
    {
      assert t.past.created[a] == Copies(t.producers, t.queue, t.workers, t.past, a);
    }
    if t.queue != [] { assert multiset(t.queue)[t.queue[0]] > 0; }
  }

  lemma {:induction false} OfTenantPrefix(first: seq<Alert>, second: seq<Alert>, tenant: nat)
    ensures OfTenant(first, tenant) <= OfTenant(first + second, tenant)
  {
    if second == [] {
      assert first + second == first;
    } else {
      var n := |second| - 1;
      OfTenantPrefix(first, second[..n], tenant);
      assert (first + second)[..|first + second| - 1] == first + second[..n];
    }
  }

  /** Each tenant's history is the alerts of the tenant accepted first, in the
      order of acceptance. */
  ghost predicate KeepsOrder(s: State) {
    forall tenant: nat :: HistoryOf(s.history, tenant) <= OfTenant(s.past.accepted, tenant)
  }

  lemma StepKeepsWorkers(s: State, action: Action)
    ensures |Step(s, action).workers| == |s.workers| && Step(s, action).conf == s.conf
  {
  }

  lemma {:induction false} RunKeepsWorkers(s: State, acts: seq<Action>)
    ensures |Run(Step, s, acts).workers| == |s.workers| && Run(Step, s, acts).conf == s.conf
    decreases |acts|
  {
    if acts != [] {
      hide Step;
      StepKeepsWorkers(s, acts[0]);
      RunKeepsWorkers(Step(s, acts[0]), acts[1..]);
    }
  }

  lemma TenantInOrder(history: map<nat, seq<Alert>>, queue: seq<Alert>, workers: seq<Worker>, past: Past, tenant: nat)
    requires Filed(history, past.stored) && InOrder(queue, workers, past) && |workers| <= 1
    ensures HistoryOf(history, tenant) <= OfTenant(past.accepted, tenant)
  {
    hide OfTenant, HistoryOf;
    if |workers| == 1 {
      hide Filed, Sent;
      assert past.accepted == past.stored + (Sent(workers) + queue);
      OfTenantPrefix(past.stored, Sent(workers) + queue, tenant);
    } else {
      OfTenantPrefix([], past.accepted, tenant);
      assert [] + past.accepted == past.accepted;
    }
  }

  lemma FewWorkersKeepOrder(s: State, acts: seq<Action>)
    requires Init(s) && |s.workers| <= 1
    ensures KeepsOrder(Run(Step, s, acts))
  {
    RunKeepsInv(s, acts);
    RunKeepsWorkers(s, acts);
    var t := Run(Step, s, acts);
    assert InOrder(t.queue, t.workers, t.past) && Filed(t.history, t.past.stored);
    hide Step, Run, Inv, OfTenant, Init, HistoryOf, InOrder, Filed;
    forall tenant: nat ensures HistoryOf(t.history, tenant) <= OfTenant(t.past.accepted, tenant) {
      TenantInOrder(t.history, t.queue, t.workers, t.past, tenant);
    }
  }

  /** The steps that bring one alert to an idle worker, through the queue or past it. */
  function Bring(capacity: nat, a: Alert, w: nat): seq<Action> {
    [Create(a), Check(a, 0)] + if capacity > 0 then [Offer(a), Take(w)] else [HandOver(a, w), Wait(0)]
  }

  /** Nobody but workers holds an alert. */
  ghost predicate Quiet(s: State) {
    s.producers.made == multiset{} && s.producers.passed == multiset{} && s.queue == []
  }

  lemma MakeAlert(s: State, a: Alert)
    requires Quiet(s) && KeyOf(a) !in s.producers.recent
    ensures var t := Step(Step(s, Create(a)), Check(a, 0));
      && t.producers.made == multiset{} && t.producers.passed == multiset{a}
      && t.producers.recent == s.producers.recent[KeyOf(a) := s.clock]
      && t.conf == s.conf && t.queue == [] && t.workers == s.workers && t.history == s.history
      && t.past.accepted == s.past.accepted && t.past.stored == s.past.stored
  {
    var m := Put(multiset{}, a);
    assert m == multiset{a} && TakeOut(m, a) == multiset{};
  }

  lemma DeliverAlert(s: State, a: Alert, w: nat)
    requires s.producers.made == multiset{} && s.producers.passed == multiset{a} && s.queue == []
    requires w < |s.workers| && s.workers[w] == Idle
    ensures var t := if s.conf.capacity > 0 then Step(Step(s, Offer(a)), Take(w))
                     else Step(Step(s, HandOver(a, w)), Wait(0));
      && Quiet(t) && t.producers.recent == s.producers.recent && t.conf == s.conf
      && t.workers == s.workers[w := Sending(a)] && t.history == s.history
      && t.past.accepted == s.past.accepted + [a] && t.past.stored == s.past.stored
  {
    assert TakeOut(multiset{a}, a) == multiset{};
  }

  lemma BringAlert(s: State, a: Alert, w: nat)
    requires Quiet(s) && KeyOf(a) !in s.producers.recent && w < |s.workers| && s.workers[w] == Idle
    ensures var t := Run(Step, s, Bring(s.conf.capacity, a, w));
      && Quiet(t) && t.producers.recent.Keys == s.producers.recent.Keys + {KeyOf(a)} && t.conf == s.conf
      && t.workers == s.workers[w := Sending(a)] && t.history == s.history
      && t.past.accepted == s.past.accepted + [a]
  {
    var acts := Bring(s.conf.capacity, a, w);
    RunFour(Step, s, acts[0], acts[1], acts[2], acts[3]);
    assert acts == [acts[0], acts[1], acts[2], acts[3]];
    MakeAlert(s, a);
    DeliverAlert(Step(Step(s, acts[0]), acts[1]), a, w);
    hide Step, Run, Quiet;
  }

  const FIRST := Alert(0, 0, 0, 0)
  const SECOND := Alert(1, 0, 1, 0)

  /** Two alerts of one tenant, for the two first workers, the second done first. */
  function Overtake(capacity: nat): seq<Action> {
    Bring(capacity, FIRST, 0) + Bring(capacity, SECOND, 1) + [Store(1)]
  }

  lemma TwoWorkersMayOvertake(s: State)
    requires Init(s) && |s.workers| >= 2
    ensures !KeepsOrder(Run(Step, s, Overtake(s.conf.capacity)))
  {
    var first, second := Bring(s.conf.capacity, FIRST, 0), Bring(s.conf.capacity, SECOND, 1);
    RunConcat(Step, s, first + second, [Store(1)]);
    RunConcat(Step, s, first, second);
    hide Run, Step, Bring;
    BringAlert(s, FIRST, 0);
    var a := Run(Step, s, first);
    BringAlert(a, SECOND, 1);
    StoreOvertakes(Run(Step, a, second));
  }

  lemma BothOfTenant()
    ensures OfTenant([FIRST, SECOND], 0) == [FIRST, SECOND]
  {
    assert [FIRST, SECOND][..1] == [FIRST] && [FIRST][..0] == [];
    assert OfTenant([FIRST], 0) == [FIRST];
  }

  lemma StoreOvertakes(s: State)
    requires 1 < |s.workers| && s.workers[1] == Sending(SECOND) && s.history == map[]
    requires s.past.accepted == [FIRST, SECOND]
    ensures !KeepsOrder(Run(Step, s, [Store(1)]))
  {
    assert [Store(1)][1..] == [];
    var t := Step(s, Store(1));
    assert Run(Step, s, [Store(1)]) == t && t.past.accepted == [FIRST, SECOND];
    assert HistoryOf(t.history, 0) == [SECOND];
    hide Step, Run, HistoryOf, OfTenant;
    BothOfTenant();
    assert OfTenant(t.past.accepted, 0)[0] == FIRST;
  }

  /** The pool stores each tenant's alerts in the order it accepted them, on every
      run, if and only if it has at most one worker, whatever the capacity of the
      queue and the window of the throttler. */
  lemma OrderIffOneWorker(s: State)
    requires Init(s)
    ensures (forall acts :: KeepsOrder(Run(Step, s, acts))) <==> |s.workers| <= 1
  {
    if |s.workers| <= 1 {
      forall acts ensures KeepsOrder(Run(Step, s, acts)) { FewWorkersKeepOrder(s, acts); }
    } else {
      TwoWorkersMayOvertake(s);
    }
  }

  // ----- the pool drains its queue -----

  /** Worker steps still to come: two for each queued alert, one for each held. */
  function Work(s: State): nat { 2 * |s.queue| + |Held(s.workers)| }

  lemma {:induction false} HeldSize(workers: seq<Worker>, w: nat, now: Worker)
    requires w < |workers|
    ensures |Held(workers[w := now])| + (if workers[w].Sending? then 1 else 0)
         == |Held(workers)| + (if now.Sending? then 1 else 0)
  {
    var after := workers[w := now];
    if w == 0 {
      assert after[1..] == workers[1..];
    } else {
      assert after[1..] == workers[1..][w - 1 := now];
      HeldSize(workers[1..], w - 1, now);
    }
  }

  lemma {:induction false} SomeoneHolds(workers: seq<Worker>)
    requires Held(workers) != multiset{}
    ensures exists w :: 0 <= w < |workers| && workers[w].Sending?
  {
    if forall w | 0 <= w < |workers| :: !workers[w].Sending? { HeldNone(workers); }
  }

  /** The step a pool with a living worker can take while there is work. */
  lemma WorkerCanMove(s: State, live: nat) returns (action: Action)
    requires live < |s.workers| && !s.workers[live].Exited? && Work(s) > 0
    ensures (action.Take? || action.Store?) && Work(Step(s, action)) == Work(s) - 1
    ensures var t := Step(s, action); |t.workers| == |s.workers| && !t.workers[live].Exited?
    ensures var t := Step(s, action); t.producers == s.producers && t.past == s.past.(stored := t.past.stored)
  {
    HeldSize(s.workers, live, Idle);
    if Held(s.workers) != multiset{} {
      SomeoneHolds(s.workers);
      var w: nat :| w < |s.workers| && s.workers[w].Sending?;
      HeldSize(s.workers, w, Idle);
      action := Store(w);
    } else {
      HeldSize(s.workers, live, Sending(s.queue[0]));
      action := Take(live);
    }
    hide Held;
  }

  lemma WorkIs(s: State)
    ensures Work(s) == 2 * |s.queue| + |set w | 0 <= w < |s.workers| && s.workers[w].Sending?|
  {
    HeldBy(s.workers);
  }

  lemma {:induction false} HeldBy(workers: seq<Worker>)
    ensures |Held(workers)| == |set w | 0 <= w < |workers| && workers[w].Sending?|
  {
    if workers != [] {
      HeldLast(workers);
      BusyLast(workers);
      hide Held;
      HeldBy(workers[..|workers| - 1]);
    }
  }

  lemma BusyLast(workers: seq<Worker>)
    requires workers != []
    ensures var n := |workers| - 1;
      |set w | 0 <= w < |workers| && workers[w].Sending?|
        == |set w | 0 <= w < |workers[..n]| && workers[..n][w].Sending?| + if workers[n].Sending? then 1 else 0
  {
    var n := |workers| - 1;
    assert (set w | 0 <= w < |workers| && workers[w].Sending?)
        == (set w | 0 <= w < |workers[..n]| && workers[..n][w].Sending?) + if workers[n].Sending? then {n} else {};
  }

  /** As long as one worker lives, the pool can empty its queue and its hands in
      exactly Work(s) steps of its own. */
  lemma {:induction false} PoolDrains(s: State, live: nat) returns (acts: seq<Action>)
    requires live < |s.workers| && !s.workers[live].Exited?
    ensures |acts| == Work(s) == 2 * |s.queue| + |set w | 0 <= w < |s.workers| && s.workers[w].Sending?|
    ensures forall i | 0 <= i < |acts| :: acts[i].Take? || acts[i].Store?
    ensures var t := Run(Step, s, acts);
      t.queue == [] && forall w | 0 <= w < |t.workers| :: !t.workers[w].Sending?
    decreases Work(s)
  {
    WorkIs(s);
    if Work(s) == 0 {
      acts := [];
      var holders := set w | 0 <= w < |s.workers| && s.workers[w].Sending?;
      forall w | 0 <= w < |s.workers| ensures !s.workers[w].Sending? {
        assert w !in holders;
      }
    } else {
      var action := WorkerCanMove(s, live);
      var rest := PoolDrains(Step(s, action), live);
      acts := [action] + rest;
      assert acts[1..] == rest;
    }
  }
}
