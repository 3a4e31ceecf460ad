/** The sequential parts of the alerting service (pkg/anomaly/alerting.go): the
    rule engine with its cooldowns, the deduplicating throttler, and the
    delivery of one alert over its channels. */
module Alerting {
  import opened Options
  import opened Collections

  type Id = nat

  datatype Anomaly = Anomaly(id: Id, tenant: Id)

  datatype Condition = Condition(field: string, operator: string, value: string)

  datatype Rule = Rule(id: Id, tenant: Id, enabled: bool, cooldown: int, conditions: seq<Condition>)

  /** Readings of the wall clock do not go back. */
  class Clock {
    var now: int

    constructor () {}

    method Read() returns (t: int)
      modifies this
      ensures t == now && old(now) <= now
    {
      var later :| now <= later;
      now, t := later, later;
    }
  }

  // ----- rules and cooldowns -----

  /** What happened to the rules: a trigger with the reading its cooldown was
      checked against, its stamp and the rule's cooldown at the time, or a removal. */
  datatype RuleEvent =
    | Triggered(id: Id, checked: int, stamp: int, cooldown: int)
    | Removed(id: Id)

  function Lookup(m: map<Id, int>, id: Id): Option<int> {
    if id in m then Some(m[id]) else None
  }

  /** The stamp of the rule's last trigger since its last removal. */
  function LastTrigger(log: seq<RuleEvent>, id: Id): Option<int> {
    if log == [] then None else
    var e := log[|log| - 1];
    if e.id != id then LastTrigger(log[..|log| - 1], id)
    else if e.Removed? then None
    else Some(e.stamp)
  }

  ghost predicate RemovedBetween(log: seq<RuleEvent>, id: Id, i: int, j: int)
    requires 0 <= i && j <= |log|
  {
    exists k :: i <= k < j && log[k] == Removed(id)
  }

  /** Any two triggers of a rule with no removal in between are at least the
      cooldown of the later one apart. */
  ghost predicate Spaced(log: seq<RuleEvent>) {
    forall i, j | 0 <= i < j < |log| && log[i].Triggered? && log[j].Triggered? && log[i].id == log[j].id ::
      RemovedBetween(log, log[i].id, i, j) || log[j].checked - log[i].stamp >= log[j].cooldown
  }

  ghost predicate Stamped(log: seq<RuleEvent>, now: int) {
    && (forall i | 0 <= i < |log| && log[i].Triggered? :: log[i].checked <= log[i].stamp <= now)
    && (forall i, j | 0 <= i < j < |log| && log[i].Triggered? && log[j].Triggered? :: log[i].stamp <= log[j].checked)
  }

  /** The trigger remembered is no older than any other still in force. */
  lemma {:induction false} LastTriggerIsLast(log: seq<RuleEvent>, now: int, id: Id, i: nat)
    requires Stamped(log, now) && i < |log| && log[i].Triggered? && log[i].id == id
    ensures LastTrigger(log, id) == None ==> RemovedBetween(log, id, i, |log|)
    ensures LastTrigger(log, id).Some? ==>
      RemovedBetween(log, id, i, |log|) || log[i].stamp <= LastTrigger(log, id).value
  {
    var n := |log| - 1;
    if log[n] == Removed(id) {
      assert RemovedBetween(log, id, i, |log|);
    } else if i < n && log[n].id != id {
      LastTriggerIsLast(log[..n], now, id, i);
      if RemovedBetween(log[..n], id, i, n) {
        var k :| i <= k < n && log[..n][k] == Removed(id);
        assert log[k] == Removed(id);
      }
    }
  }

  /** A trigger that waited for the cooldown after the remembered one keeps the
      whole log spaced. */
  lemma SpacedAfterTrigger(log: seq<RuleEvent>, now: int, id: Id, checked: int, stamp: int, cooldown: int)
    requires Stamped(log, now) && Spaced(log) && now <= checked <= stamp
    requires LastTrigger(log, id).Some? ==> checked - LastTrigger(log, id).value >= cooldown
    ensures Spaced(log + [Triggered(id, checked, stamp, cooldown)])
    ensures Stamped(log + [Triggered(id, checked, stamp, cooldown)], stamp)
  {
    var longer := log + [Triggered(id, checked, stamp, cooldown)];
    forall i, j | 0 <= i < j < |longer| && longer[i].Triggered? && longer[j].Triggered? && longer[i].id == longer[j].id
      ensures RemovedBetween(longer, longer[i].id, i, j) || longer[j].checked - longer[i].stamp >= longer[j].cooldown
    {
      if j == |log| { LastTriggerIsLast(log, now, id, i); }
      if RemovedBetween(log, log[i].id, i, j) {
        var k :| i <= k < j && log[k] == Removed(log[i].id);
        assert longer[k] == Removed(longer[i].id);
      }
    }
  }

  lemma SpacedAfterRemoval(log: seq<RuleEvent>, now: int, id: Id)
    requires Stamped(log, now) && Spaced(log)
    ensures Spaced(log + [Removed(id)]) && Stamped(log + [Removed(id)], now)
  {
    var longer := log + [Removed(id)];
    forall i, j | 0 <= i < j < |longer| && longer[i].Triggered? && longer[j].Triggered? && longer[i].id == longer[j].id
      ensures RemovedBetween(longer, longer[i].id, i, j) || longer[j].checked - longer[i].stamp >= longer[j].cooldown
    {
      if RemovedBetween(log, log[i].id, i, j) {
        var k :| i <= k < j && log[k] == Removed(log[i].id);
        assert longer[k] == Removed(longer[i].id);
      }
    }
  }

  lemma LastTriggerAppend(log: seq<RuleEvent>, e: RuleEvent, id: Id)
    ensures LastTrigger(log + [e], id) ==
            if e.id != id then LastTrigger(log, id) else if e.Removed? then None else Some(e.stamp)
  {
    assert (log + [e])[..|log|] == log;
  }

  type Comparison = (Condition, Anomaly) -> bool

  /** Whether the rule fires on the anomaly when its cooldown is checked at the
      given time. */
  ghost predicate Due(holds: Comparison, rule: Rule, anomaly: Anomaly, last: Option<int>, checked: int) {
    && rule.enabled && rule.tenant == anomaly.tenant
    && (last.Some? ==> checked - last.value >= rule.cooldown)
    && forall c | c in rule.conditions :: holds(c, anomaly)
  }

  /** Of the rules checked, those that fired are the ones that were due. */
  ghost predicate Decided(holds: Comparison, rules: map<Id, Rule>, anomaly: Anomaly, last: map<Id, int>,
                          checks: map<Id, int>, fired: set<Id>)
  {
    && fired <= checks.Keys <= rules.Keys
    && forall id | id in checks :: id in fired <==> Due(holds, rules[id], anomaly, Lookup(last, id), checks[id])
  }

  lemma DecidedMore(holds: Comparison, rules: map<Id, Rule>, anomaly: Anomaly, last: map<Id, int>,
                    checks: map<Id, int>, fired: set<Id>, id: Id, checked: int)
    requires Decided(holds, rules, anomaly, last, checks, fired) && id in rules && id !in checks
    ensures if Due(holds, rules[id], anomaly, Lookup(last, id), checked)
            then Decided(holds, rules, anomaly, last, checks[id := checked], fired + {id})
            else Decided(holds, rules, anomaly, last, checks[id := checked], fired)
  {
    hide Due, Lookup;
  }

  /** `holds` stands for the comparison of one condition with the anomaly. */
  class RuleEngine {
    const clock: Clock
    const holds: Comparison
    var rules: map<Id, Rule>
    var lastTriggered: map<Id, int>
    ghost var log: seq<RuleEvent>

    /** The table agrees with the history, and the history is spaced. */
    ghost predicate Valid()
      reads this, clock
    {
      && (forall id | id in rules :: rules[id].id == id)
      && (forall id: Id :: LastTrigger(log, id) == Lookup(lastTriggered, id))
      && Stamped(log, clock.now) && Spaced(log)
    }

    constructor (clock: Clock, holds: Comparison)
      ensures Valid() && this.clock == clock && this.holds == holds
      ensures rules == map[] && lastTriggered == map[] && log == []
    {
      this.clock, this.holds, rules, lastTriggered, log := clock, holds, map[], map[], [];
    }

    /** Any two triggers of a rule with no removal in between are at least the later
        one's cooldown apart. */
    lemma TriggersAreSpaced(i: nat, j: nat)
      requires Valid() && i < j < |log| && log[i].Triggered? && log[j].Triggered? && log[i].id == log[j].id
      ensures (exists k :: i <= k < j && log[k] == Removed(log[i].id))
              || log[j].checked - log[i].stamp >= log[j].cooldown
    {
    }

    /** Adding and updating write the same entry and leave the cooldown be. */
    method PutRule(rule: Rule)
      requires Valid()
      modifies `rules
      ensures Valid() && rules == old(rules)[rule.id := rule]
    {
      rules := rules[rule.id := rule];
    }

    method RemoveRule(id: Id)
      requires Valid()
      modifies `rules, `lastTriggered, `log
      ensures Valid() && rules == old(rules) - {id} && lastTriggered == old(lastTriggered) - {id}
      ensures log == old(log) + [Removed(id)]
    {
      rules, lastTriggered := rules - {id}, lastTriggered - {id};
      SpacedAfterRemoval(log, clock.now, id);
      forall other: Id { LastTriggerAppend(log, Removed(id), other); }
      log := log + [Removed(id)];
    }

    method EvaluateConditions(conditions: seq<Condition>, anomaly: Anomaly) returns (all: bool)
      ensures all <==> forall c | c in conditions :: holds(c, anomaly)
    {
      for i := 0 to |conditions|
        invariant forall k | 0 <= k < i :: holds(conditions[k], anomaly)
      {
        if !holds(conditions[i], anomaly) { return false; }
      }
      all := true;
    }

    /** One turn of the loop of FindMatchingRules. */
    method Consider(rule: Rule, anomaly: Anomaly) returns (chosen: bool, ghost checked: int, ghost stamp: int)
      requires Valid()
      modifies clock, `lastTriggered, `log
      ensures Valid() && old(clock.now) <= checked <= clock.now
      ensures chosen <==> Due(holds, rule, anomaly, Lookup(old(lastTriggered), rule.id), checked)
      ensures chosen <==>
        && rule.enabled && rule.tenant == anomaly.tenant
        && (rule.id in old(lastTriggered) ==> checked - old(lastTriggered)[rule.id] >= rule.cooldown)
        && forall c | c in rule.conditions :: holds(c, anomaly)
      ensures chosen ==>
        && checked <= stamp <= clock.now
        && lastTriggered == old(lastTriggered)[rule.id := stamp]
        && log == old(log) + [Triggered(rule.id, checked, stamp, rule.cooldown)]
      ensures !chosen ==> lastTriggered == old(lastTriggered) && log == old(log)
    {
      chosen := false;
      var now := clock.Read();
      checked, stamp := now, now;
      if !rule.enabled { return; }
      if rule.tenant != anomaly.tenant { return; }
      if rule.id in lastTriggered && now - lastTriggered[rule.id] < rule.cooldown { return; }
      chosen := EvaluateConditions(rule.conditions, anomaly);
      if chosen {
        var later := clock.Read();
        stamp := later;
        SpacedAfterTrigger(log, now, rule.id, now, stamp, rule.cooldown);
        forall other: Id { LastTriggerAppend(log, Triggered(rule.id, now, stamp, rule.cooldown), other); }
        log := log + [Triggered(rule.id, now, stamp, rule.cooldown)];
        lastTriggered := lastTriggered[rule.id := later];
      }
    }

    /** Goes over the rules in any order. A rule fires if and only if it is enabled,
        of the tenant, past its cooldown when it is checked, and all its conditions
        hold; the rules that fire are returned once each, stamped and logged, and
        no other stamp moves. */
    method FindMatchingRules(anomaly: Anomaly) returns (matching: seq<Rule>, ghost checks: map<Id, int>)
      requires Valid()
      modifies clock, `lastTriggered, `log
      ensures Valid() && checks.Keys == rules.Keys
      ensures forall id | id in checks :: old(clock.now) <= checks[id] <= clock.now
      ensures forall id | id in rules :: rules[id] in matching <==>
        && rules[id].enabled && rules[id].tenant == anomaly.tenant
        && (id in old(lastTriggered) ==> checks[id] - old(lastTriggered)[id] >= rules[id].cooldown)
        && forall c | c in rules[id].conditions :: holds(c, anomaly)
      ensures forall i | 0 <= i < |matching| :: matching[i].id in rules && matching[i] == rules[matching[i].id]
      ensures forall i, j | 0 <= i < j < |matching| :: matching[i].id != matching[j].id
      ensures forall id: Id | id !in rules || rules[id] !in matching ::
        && (id in lastTriggered <==> id in old(lastTriggered))
        && (id in lastTriggered ==> lastTriggered[id] == old(lastTriggered)[id])
      ensures forall id | id in rules && rules[id] in matching ::
        id in lastTriggered && checks[id] <= lastTriggered[id]
      ensures |log| == |old(log)| + |matching| && old(log) <= log
      ensures forall k | |old(log)| <= k < |log| :: log[k].Triggered? && log[k].id == matching[k - |old(log)|].id
    {
      ghost var fired;
      matching, checks, fired := Search(anomaly);
      SearchMeans(holds, rules, anomaly, old(lastTriggered), lastTriggered, checks, fired, matching);
      hide Valid, Due, Decided, Lists, Restamped, Lookup;
    }

    /** The loop of FindMatchingRules. */
    method Search(anomaly: Anomaly)
      returns (matching: seq<Rule>, ghost checks: map<Id, int>, ghost fired: set<Id>)
      requires Valid()
      modifies clock, `lastTriggered, `log
      ensures Valid() && checks.Keys == rules.Keys
      ensures Within(checks, old(clock.now), clock.now)
      ensures Decided(holds, rules, anomaly, old(lastTriggered), checks, fired)
      ensures Lists(matching, rules, fired)
      ensures Restamped(old(lastTriggered), lastTriggered, checks, fired)
      ensures Logged(old(log), log, matching)
    {
      matching, checks, fired := [], map[], {};
      var rest := rules.Keys;
      assert forall id | id in rules :: rules[id].id == id;
      assert Progress(this, anomaly, lastTriggered, log, matching, checks, fired)
        && Within(checks, clock.now, clock.now);
      hide *;
      while rest != {}
        invariant Valid() && old(clock.now) <= clock.now
        invariant rest == rules.Keys - checks.Keys && fired <= checks.Keys <= rules.Keys
        invariant Within(checks, old(clock.now), clock.now)
        invariant Progress(this, anomaly, old(lastTriggered), old(log), matching, checks, fired)
      {
        HasElement(rest);
        var id :| id in rest;
        rest := rest - {id};
        var chosen;
        ghost var checked;
        ghost var earlier := clock.now;
        chosen, checked := Next(id, anomaly, old(lastTriggered), old(log), matching, checks, fired);
        WithinMore(checks, old(clock.now), earlier, id, checked, clock.now);
        checks := checks[id := checked];
        if chosen { matching, fired := matching + [rules[id]], fired + {id}; }
      }
      ProgressSays(this, anomaly, old(lastTriggered), old(log), matching, checks, fired);
    }

    /** Considers one more rule, and what that adds. */
    method Next(id: Id, anomaly: Anomaly, ghost stamps: map<Id, int>, ghost events: seq<RuleEvent>,
                ghost matching: seq<Rule>, ghost checks: map<Id, int>, ghost fired: set<Id>)
      returns (chosen: bool, ghost checked: int)
      requires Valid() && id in rules && rules[id].id == id && id !in checks
      requires Progress(this, anomaly, stamps, events, matching, checks, fired)
      modifies clock, `lastTriggered, `log
      ensures Valid() && old(clock.now) <= checked <= clock.now
      ensures chosen ==>
        Progress(this, anomaly, stamps, events, matching + [rules[id]], checks[id := checked], fired + {id})
      ensures !chosen ==> Progress(this, anomaly, stamps, events, matching, checks[id := checked], fired)
    {
      hide Valid, Decided, Due, Lists, Restamped, Logged, LastTrigger, Lookup;
      assert id !in fired by { ProgressSays(this, anomaly, stamps, events, matching, checks, fired); }
      StampUnmoved(stamps, lastTriggered, checks, fired, id);
      ghost var stamp;
      ghost var before, past := lastTriggered, log;
      chosen, checked, stamp := Consider(rules[id], anomaly);
      DecidedMore(holds, rules, anomaly, stamps, checks, fired, id, checked);
      RestampedMore(stamps, before, checks, fired, id, checked, stamp);
      if chosen {
        ListsMore(matching, rules, fired, id);
        LoggedMore(events, past, matching, rules[id], Triggered(id, checked, stamp, rules[id].cooldown));
      }
    }
  }

  /** What a finished search says of each rule. */
  lemma SearchMeans(holds: Comparison, rules: map<Id, Rule>, anomaly: Anomaly, before: map<Id, int>,
                    after: map<Id, int>, checks: map<Id, int>, fired: set<Id>, matching: seq<Rule>)
    requires checks.Keys == rules.Keys && forall id | id in rules :: rules[id].id == id
    requires Decided(holds, rules, anomaly, before, checks, fired)
    requires Lists(matching, rules, fired) && Restamped(before, after, checks, fired)
    ensures forall id | id in rules :: rules[id] in matching <==>
      && rules[id].enabled && rules[id].tenant == anomaly.tenant
      && (id in before ==> checks[id] - before[id] >= rules[id].cooldown)
      && forall c | c in rules[id].conditions :: holds(c, anomaly)
    ensures forall i | 0 <= i < |matching| :: matching[i].id in rules && matching[i] == rules[matching[i].id]
    ensures forall i, j | 0 <= i < j < |matching| :: matching[i].id != matching[j].id
    ensures forall id: Id | id !in rules || rules[id] !in matching ::
      (id in after <==> id in before) && (id in after ==> after[id] == before[id])
    ensures forall id | id in rules && rules[id] in matching :: id in after && checks[id] <= after[id]
  {
    forall id | id in rules ensures rules[id] in matching <==> id in fired {
      if rules[id] in matching { var i :| 0 <= i < |matching| && matching[i] == rules[id]; }
    }
    hide Lists;
    forall id | id in rules
      ensures id in fired <==> Due(holds, rules[id], anomaly, Lookup(before, id), checks[id])
    {}
    forall id: Id | id !in fired ensures Lookup(after, id) == Lookup(before, id) {}
  }

  /** The rules were checked at readings from `lo` to `hi`. */
  ghost predicate Within(checks: map<Id, int>, lo: int, hi: int) {
    forall id | id in checks :: lo <= checks[id] <= hi
  }

  lemma WithinMore(checks: map<Id, int>, lo: int, hi: int, id: Id, checked: int, later: int)
    requires Within(checks, lo, hi) && lo <= hi <= checked <= later
    ensures Within(checks[id := checked], lo, later)
  {
  }

  /** How far a search has come: which of the rules checked have fired, and what
      the list, the stamps and the log have of it, against those at its start. */
  ghost predicate Progress(engine: RuleEngine, anomaly: Anomaly, stamps: map<Id, int>, events: seq<RuleEvent>,
                           matching: seq<Rule>, checks: map<Id, int>, fired: set<Id>)
    reads engine
  {
    && Decided(engine.holds, engine.rules, anomaly, stamps, checks, fired)
    && Lists(matching, engine.rules, fired)
    && Restamped(stamps, engine.lastTriggered, checks, fired)
    && Logged(events, engine.log, matching)
  }

  lemma ProgressSays(engine: RuleEngine, anomaly: Anomaly, stamps: map<Id, int>, events: seq<RuleEvent>,
                     matching: seq<Rule>, checks: map<Id, int>, fired: set<Id>)
    requires Progress(engine, anomaly, stamps, events, matching, checks, fired)
    ensures Decided(engine.holds, engine.rules, anomaly, stamps, checks, fired) && fired <= checks.Keys
    ensures Lists(matching, engine.rules, fired)
    ensures Restamped(stamps, engine.lastTriggered, checks, fired)
    ensures Logged(events, engine.log, matching)
  {
  }

  /** The list holds the rules with the given ids, each once. */
  ghost predicate Lists(list: seq<Rule>, rules: map<Id, Rule>, ids: set<Id>) {
    && ids <= rules.Keys
    && (forall i | 0 <= i < |list| :: list[i].id in ids && list[i] == rules[list[i].id])
    && (forall i, j | 0 <= i < j < |list| :: list[i].id != list[j].id)
    && (forall id | id in ids :: rules[id] in list)
  }

  lemma ListsMore(list: seq<Rule>, rules: map<Id, Rule>, ids: set<Id>, id: Id)
    requires Lists(list, rules, ids) && id !in ids && id in rules && rules[id].id == id
    ensures Lists(list + [rules[id]], rules, ids + {id})
  {
    var longer := list + [rules[id]];
    forall k | k in ids + {id} ensures rules[k] in longer {
      if k == id { assert longer[|list|] == rules[k]; }
    }
  }

  /** Only the rules that fired are stamped, each no earlier than it was checked. */
  ghost predicate Restamped(before: map<Id, int>, after: map<Id, int>, checks: map<Id, int>, fired: set<Id>) {
    && (forall id | id !in fired :: Lookup(after, id) == Lookup(before, id))
    && (forall id | id in fired :: id in checks && id in after && checks[id] <= after[id])
  }

  lemma StampUnmoved(before: map<Id, int>, after: map<Id, int>, checks: map<Id, int>, fired: set<Id>, id: Id)
    requires Restamped(before, after, checks, fired) && id !in fired
    ensures Lookup(after, id) == Lookup(before, id)
  {}

  lemma RestampedMore(before: map<Id, int>, after: map<Id, int>, checks: map<Id, int>, fired: set<Id>, id: Id,
                      checked: int, stamp: int)
    requires Restamped(before, after, checks, fired) && id !in checks
    ensures Restamped(before, after, checks[id := checked], fired)
    ensures checked <= stamp ==> Restamped(before, after[id := stamp], checks[id := checked], fired + {id})
  {}

  /** The log grew by one trigger for each rule of the list, in its order. */
  ghost predicate Logged(before: seq<RuleEvent>, after: seq<RuleEvent>, list: seq<Rule>) {
    && |after| == |before| + |list| && before <= after
    && forall k | |before| <= k < |after| :: after[k].Triggered? && after[k].id == list[k - |before|].id
  }

  lemma LoggedMore(before: seq<RuleEvent>, after: seq<RuleEvent>, list: seq<Rule>, rule: Rule, e: RuleEvent)
    requires Logged(before, after, list) && e.Triggered? && e.id == rule.id
    ensures Logged(before, after + [e], list + [rule])
  {
    assert (after + [e])[..|before|] == after[..|before|] == before;
  }

  // ----- deduplication -----

  /** An alert stands for the anomaly and the rule it came from. */
  datatype Key = Key(anomaly: Id, rule: Id)

  /** One call of ShouldThrottle: the reading it compared, the stamp it would
      leave, and its answer. */
  datatype Call = Call(key: Key, checked: int, stamp: int, throttled: bool)

  /** The stamp of the key's last alert that passed. */
  function LastPass(calls: seq<Call>, key: Key): Option<int> {
    if calls == [] then None else
    var c := calls[|calls| - 1];
    if c.key == key && !c.throttled then Some(c.stamp) else LastPass(calls[..|calls| - 1], key)
  }

  ghost predicate Timed(calls: seq<Call>, now: int) {
    && (forall i | 0 <= i < |calls| :: calls[i].checked <= calls[i].stamp <= now)
    && (forall i, j | 0 <= i < j < |calls| :: calls[i].stamp <= calls[j].checked)
  }

  /** An earlier alert with the key passed less than the window before `checked`. */
  ghost predicate Repeats(calls: seq<Call>, key: Key, checked: int, window: int) {
    exists i :: 0 <= i < |calls| && calls[i].key == key && !calls[i].throttled && checked - calls[i].stamp < window
  }

  /** Every answer is the one the whole history before it calls for. */
  ghost predicate Deduplicates(calls: seq<Call>, window: int) {
    forall j | 0 <= j < |calls| :: calls[j].throttled <==> Repeats(calls[..j], calls[j].key, calls[j].checked, window)
  }

  lemma RepeatsLast(calls: seq<Call>, key: Key, checked: int, window: int)
    requires calls != []
    ensures var n := |calls| - 1;
      var c := calls[n];
      Repeats(calls, key, checked, window) <==>
        Repeats(calls[..n], key, checked, window) || (c.key == key && !c.throttled && checked - c.stamp < window)
  {
    var n := |calls| - 1;
    if Repeats(calls[..n], key, checked, window) {
      var i :| 0 <= i < n && calls[..n][i].key == key && !calls[..n][i].throttled
        && checked - calls[..n][i].stamp < window;
      assert calls[i] == calls[..n][i];
    }
    if Repeats(calls, key, checked, window) {
      var i :| 0 <= i < |calls| && calls[i].key == key && !calls[i].throttled && checked - calls[i].stamp < window;
      assert i < n ==> calls[..n][i] == calls[i];
    }
  }

  /** Only the last alert that passed need be remembered. */
  lemma {:induction false} LastPassDecides(calls: seq<Call>, now: int, key: Key, checked: int, window: int)
    requires Timed(calls, now)
    ensures Repeats(calls, key, checked, window) <==>
            LastPass(calls, key).Some? && checked - LastPass(calls, key).value < window
    ensures LastPass(calls, key).Some? ==> LastPass(calls, key).value <= now
  {
    if calls != [] {
      var n := |calls| - 1;
      RepeatsLast(calls, key, checked, window);
      hide Repeats;
      LastPassDecides(calls[..n], calls[n].checked, key, checked, window);
    } else {
      NoCallRepeats(key, checked, window);
    }
  }

  lemma NoCallRepeats(key: Key, checked: int, window: int)
    ensures !Repeats([], key, checked, window)
  {
  }

  lemma DeduplicatesMore(calls: seq<Call>, c: Call, window: int)
    requires Deduplicates(calls, window) && (c.throttled <==> Repeats(calls, c.key, c.checked, window))
    ensures Deduplicates(calls + [c], window)
  {
    var longer := calls + [c];
    forall j | 0 <= j < |longer|
      ensures longer[j].throttled <==> Repeats(longer[..j], longer[j].key, longer[j].checked, window)
    {
      assert longer[..j] == calls[..j];
      if j == |calls| { assert calls[..j] == calls; }
    }
  }

  /** Alerts of one key that pass are at least the window apart; the throttled
      ones in between do not push the next one back. */
  lemma PassesAreApart(calls: seq<Call>, window: int, i: nat, j: nat)
    requires Deduplicates(calls, window) && i < j < |calls|
    requires calls[i].key == calls[j].key && !calls[i].throttled
    ensures !calls[j].throttled ==> calls[j].checked - calls[i].stamp >= window
    ensures calls[j].checked - calls[i].stamp < window ==> calls[j].throttled
  {
    assert calls[..j][i] == calls[i];
  }

  class AlertThrottler {
    const clock: Clock
    const window: int
    var recentAlerts: map<Key, int>
    ghost var calls: seq<Call>

    ghost predicate Valid()
      reads this, clock
    {
      && (forall key: Key :: LastPass(calls, key) == if key in recentAlerts then Some(recentAlerts[key]) else None)
      && Timed(calls, clock.now) && Deduplicates(calls, window)
    }

    constructor (clock: Clock, window: int)
      ensures Valid() && this.clock == clock && this.window == window && calls == []
    {
      this.clock, this.window, recentAlerts, calls := clock, window, map[], [];
    }

    /** An alert is held back if and only if one of its key passed less than the
        window before the reading it is compared at. */
    method ShouldThrottle(key: Key) returns (throttled: bool, ghost checked: int, ghost stamp: int)
      requires Valid()
      modifies this, clock
      ensures Valid() && old(clock.now) <= checked <= stamp <= clock.now
      ensures throttled <==> exists i :: 0 <= i < |old(calls)| && old(calls)[i].key == key
                                         && !old(calls)[i].throttled && checked - old(calls)[i].stamp < window
      ensures calls == old(calls) + [Call(key, checked, stamp, throttled)]
    {
      var now := clock.Read();
      checked, stamp := now, now;
      LastPassDecides(calls, checked, key, checked, window);
      if key in recentAlerts && now - recentAlerts[key] < window {
        ghost var c := Call(key, checked, checked, true);
        DeduplicatesMore(calls, c, window);
        assert (calls + [c])[..|calls|] == calls;
        calls := calls + [c];
        return true, checked, stamp;
      }
      var later := clock.Read();
      stamp := later;
      ghost var c := Call(key, checked, stamp, false);
      DeduplicatesMore(calls, c, window);
      assert (calls + [c])[..|calls|] == calls;
      recentAlerts := recentAlerts[key := later];
      calls := calls + [c];
      throttled := false;
    }
  }

  // ----- delivery -----

  datatype AlertStatus = Pending | Sent | Failed

  class Alert {
    const id: Id
    const tenant: Id
    const channels: seq<string>
    /** By channel name, whether the delivery went through. */
    var deliveryStatus: map<string, bool>
    var status: AlertStatus

    constructor (id: Id, tenant: Id, channels: seq<string>) {
      this.id, this.tenant, this.channels, deliveryStatus, status := id, tenant, channels, map[], Pending;
    }
  }

  /** A delivery is attempted when the channel is registered and enabled. */
  predicate Attempted(registry: map<string, bool>, channel: string) {
    channel in registry && registry[channel]
  }

  /** The last of the first `n` attempts on a channel; sends[i] is what the i-th
      send would return. */
  function LastAttempt(channels: seq<string>, sends: seq<bool>, registry: map<string, bool>, n: nat,
                       channel: string): Option<bool>
    requires n <= |channels| == |sends|
  {
    if n == 0 then None
    else if channels[n - 1] == channel && Attempted(registry, channel) then Some(sends[n - 1])
    else LastAttempt(channels, sends, registry, n - 1, channel)
  }

  lemma {:induction false} LastAttemptOfMember(channels: seq<string>, sends: seq<bool>, registry: map<string, bool>,
                                               n: nat, channel: string)
    requires n <= |channels| == |sends|
    ensures LastAttempt(channels, sends, registry, n, channel).Some? <==>
      channel in channels[..n] && channel in registry && registry[channel]
    ensures forall i | 0 <= i < n && channels[i] == channel && channel in registry && registry[channel]
                       && (forall j | i < j < n :: channels[j] != channel) ::
      LastAttempt(channels, sends, registry, n, channel) == Some(sends[i])
  {
    if n > 0 {
      LastAttemptOfMember(channels, sends, registry, n - 1, channel);
      assert channels[..n] == channels[..n - 1] + [channels[n - 1]];
    }
  }

  /** The outcomes kept by channel name are those of the last attempts. */
  lemma AttemptsAre(channels: seq<string>, sends: seq<bool>, registry: map<string, bool>, kept: map<string, bool>)
    requires |channels| == |sends|
    requires forall c: string ::
      LastAttempt(channels, sends, registry, |sends|, c) == if c in kept then Some(kept[c]) else None
    ensures forall c :: c in kept <==> c in channels && c in registry && registry[c]
    ensures forall i | 0 <= i < |sends| && channels[i] in kept
                       && (forall j | i < j < |sends| :: channels[j] != channels[i]) :: kept[channels[i]] == sends[i]
  {
    assert channels[..|channels|] == channels;
    forall c ensures c in kept <==> c in channels && c in registry && registry[c] {
      LastAttemptOfMember(channels, sends, registry, |sends|, c);
    }
    forall i | 0 <= i < |sends| && channels[i] in kept
               && (forall j | i < j < |sends| :: channels[j] != channels[i])
      ensures kept[channels[i]] == sends[i]
    {
      LastAttemptOfMember(channels, sends, registry, |sends|, channels[i]);
    }
  }

  class AlertingService {
    /** The registered channels, each with whether it is enabled. */
    var channels: map<string, bool>
    var alertHistory: map<Id, seq<Alert>>

    constructor ()
      ensures channels == map[] && alertHistory == map[]
    {
      channels, alertHistory := map[], map[];
    }

    method RegisterChannel(name: string, enabled: bool, valid: bool) returns (ok: bool)
      modifies `channels
      ensures ok == valid
      ensures channels == if valid then old(channels)[name := enabled] else old(channels)
    {
      if !valid { return false; }
      channels := channels[name := enabled];
      ok := true;
    }

    method AllChannelsDelivered(alert: Alert) returns (all: bool)
      ensures all <==> forall c | c in alert.channels :: c in alert.deliveryStatus && alert.deliveryStatus[c]
    {
      for i := 0 to |alert.channels|
        invariant forall k | 0 <= k < i ::
          alert.channels[k] in alert.deliveryStatus && alert.deliveryStatus[alert.channels[k]]
      {
        var c := alert.channels[i];
        if c !in alert.deliveryStatus || !alert.deliveryStatus[c] { return false; }
      }
      all := true;
    }

    method AnyChannelDelivered(alert: Alert) returns (any: bool)
      ensures any <==> exists c :: c in alert.deliveryStatus && alert.deliveryStatus[c]
    {
      var rest := alert.deliveryStatus.Keys;
      while rest != {}
        invariant rest <= alert.deliveryStatus.Keys
        invariant forall c | c in alert.deliveryStatus && c !in rest :: !alert.deliveryStatus[c]
      {
        HasElement(rest);
        var c :| c in rest;
        if alert.deliveryStatus[c] { return true; }
        rest := rest - {c};
      }
      any := false;
    }

    method StoreAlert(alert: Alert)
      modifies `alertHistory
      ensures alertHistory == old(alertHistory)[alert.tenant :=
        (if alert.tenant in old(alertHistory) then old(alertHistory)[alert.tenant] else []) + [alert]]
    {
      var alerts := HistoryOf(alertHistory, alert.tenant);
      alerts := alerts + [alert];
      alertHistory := alertHistory[alert.tenant := alerts];
    }

    /** The alert ends as sent if and only if it names no channel or the last
        attempt on some channel went through, and is then stored with its tenant. */
    method SendAlert(alert: Alert, sends: seq<bool>)
      requires |sends| == |alert.channels|
      modifies `alertHistory, alert
      ensures forall c: string ::
        LastAttempt(alert.channels, sends, channels, |sends|, c) ==
        if c in alert.deliveryStatus then Some(alert.deliveryStatus[c]) else None
      ensures forall c :: c in alert.deliveryStatus <==> c in alert.channels && c in channels && channels[c]
      ensures forall i | 0 <= i < |sends| && alert.channels[i] in alert.deliveryStatus
                         && (forall j | i < j < |sends| :: alert.channels[j] != alert.channels[i]) ::
        alert.deliveryStatus[alert.channels[i]] == sends[i]
      ensures alert.status ==
        if alert.channels == [] || (exists c :: c in alert.deliveryStatus && alert.deliveryStatus[c])
        then Sent else Failed
      ensures alertHistory == old(alertHistory)[alert.tenant :=
        (if alert.tenant in old(alertHistory) then old(alertHistory)[alert.tenant] else []) + [alert]]
    {
      alert.deliveryStatus := map[];
      for i := 0 to |alert.channels|
        invariant forall c: string ::
          LastAttempt(alert.channels, sends, channels, i, c) ==
          if c in alert.deliveryStatus then Some(alert.deliveryStatus[c]) else None
        invariant alertHistory == old(alertHistory)
      {
        var c := alert.channels[i];
        if c in channels && channels[c] {
          alert.deliveryStatus := alert.deliveryStatus[c := sends[i]];
        }
      }
      var all := AllChannelsDelivered(alert);
      var any := AnyChannelDelivered(alert);
      if all && alert.channels != [] {
        assert alert.channels[0] in alert.deliveryStatus;
      }
      AttemptsAre(alert.channels, sends, channels, alert.deliveryStatus);
      if all { alert.status := Sent; } else if any { alert.status := Sent; } else { alert.status := Failed; }
      StoreAlert(alert);
    }
  }
}
