/** Batch analysis (internal/services/ml_analysis.go): AnalyzeBatch over slices
    of the requests, each slice processed in order or by one goroutine a request. */
module BatchAnalysis {
  import opened Options
  import opened Collections

  /** What AnalyzeContent does with a request: a response, an error (its own, a
      recovered panic or a cancelled context), or neither. */
  datatype Outcome = Response(body: string) | Failure(error: string) | Nothing

  datatype Reply = Completed(body: string) | Error(message: string)

  function ReplyTo(out: Outcome): Reply {
    match out
    case Response(body) => Completed(body)
    case Failure(error) => Error(error)
    case Nothing => Error("nil response from analysis")
  }

  /** The replies in request order. */
  function Replies<R(!new)>(analyze: R -> Outcome, requests: seq<R>): (replies: seq<Reply>)
    ensures |replies| == |requests|
    ensures forall i | 0 <= i < |requests| :: replies[i] == ReplyTo(analyze(requests[i]))
  {
    seq(|requests|, i requires 0 <= i < |requests| => ReplyTo(analyze(requests[i])))
  }

  method ProcessBatchSequentially<R(!new)>(analyze: R -> Outcome, requests: seq<R>) returns (responses: seq<Reply>)
    ensures responses == Replies(analyze, requests)
    ensures |responses| == |requests| && forall i | 0 <= i < |requests| ::
      && (analyze(requests[i]).Response? ==> responses[i] == Completed(analyze(requests[i]).body))
      && (analyze(requests[i]).Failure? ==> responses[i] == Error(analyze(requests[i]).error))
      && (analyze(requests[i]).Nothing? ==> responses[i].Error?)
  {
    responses := seq(|requests|, _ => Error(""));
    for i := 0 to |requests|
      invariant |responses| == |requests|
      invariant forall k | 0 <= k < i :: responses[k] == ReplyTo(analyze(requests[k]))
    {
      responses := responses[i := ReplyTo(analyze(requests[i]))];
    }
  }

  /** Where goroutine i stands. */
  datatype Goroutine = NotSpawned | Running | Sent

  /** A message on the channel. */
  datatype Message = Message(index: nat, out: Outcome)

  /** The state of the fan-out: goroutine i has sent its message exactly when
      slot i is filled or the message is on the channel, and no message is twice
      on the channel. */
  ghost predicate FanOut<R(!new)>(analyze: R -> Outcome, requests: seq<R>, spawned: nat, goroutines: seq<Goroutine>,
                           channel: seq<Message>, slots: seq<Option<Reply>>)
  {
    && |goroutines| == |slots| == |requests| && spawned <= |requests|
    && (forall i | 0 <= i < |requests| :: goroutines[i] == NotSpawned <==> i >= spawned)
    && (forall m | m in channel :: m.index < |requests| && goroutines[m.index] == Sent
          && slots[m.index] == None && m.out == analyze(requests[m.index]))
    && (forall j, k | 0 <= j < k < |channel| :: channel[j].index != channel[k].index)
    && (forall i | 0 <= i < |requests| && goroutines[i] != Sent :: slots[i] == None)
    && (forall i | 0 <= i < |requests| && goroutines[i] == Sent && slots[i] == None ::
          Message(i, analyze(requests[i])) in channel)
    && (forall i | 0 <= i < |requests| && slots[i].Some? :: slots[i].value == ReplyTo(analyze(requests[i])))
  }

  function FilledSlots(slots: seq<Option<Reply>>): set<nat> {
    set i | 0 <= i < |slots| && slots[i].Some?
  }

  function Below(n: nat): (s: set<nat>)
    ensures forall i: nat :: i in s <==> i < n
    ensures |s| == n
  {
    if n == 0 then {} else Below(n - 1) + {n - 1}
  }

  function OnChannel(channel: seq<Message>): set<nat> {
    set m | m in channel :: m.index
  }

  /** Steps left: spawn, send and receive once a request. */
  function StepsLeft(goroutines: seq<Goroutine>): nat {
    if goroutines == [] then 0 else
    StepsLeft(goroutines[..|goroutines| - 1])
    + match goroutines[|goroutines| - 1] case NotSpawned => 2 case Running => 1 case Sent => 0
  }

  lemma {:induction false} StepsLeftUpdate(goroutines: seq<Goroutine>, i: nat, g: Goroutine)
    requires i < |goroutines|
    requires (goroutines[i] == NotSpawned && g == Running) || (goroutines[i] == Running && g == Sent)
    ensures StepsLeft(goroutines[i := g]) == StepsLeft(goroutines) - 1
  {
    var last := |goroutines| - 1;
    if i < last {
      StepsLeftUpdate(goroutines[..last], i, g);
      assert goroutines[i := g][..last] == goroutines[..last][i := g];
    } else {
      assert goroutines[i := g][..last] == goroutines[..last];
    }
  }

  lemma {:induction false} OnChannelSize(channel: seq<Message>)
    requires forall j, k | 0 <= j < k < |channel| :: channel[j].index != channel[k].index
    ensures |OnChannel(channel)| == |channel|
  {
    if channel != [] {
      var last := |channel| - 1;
      OnChannelSize(channel[..last]);
      assert channel == channel[..last] + [channel[last]];
      assert OnChannel(channel) == OnChannel(channel[..last]) + {channel[last].index};
    }
  }

  /** The channel holds one message a request, so a running goroutine can send. */
  lemma SendDoesNotBlock<R(!new)>(analyze: R -> Outcome, requests: seq<R>, spawned: nat, goroutines: seq<Goroutine>,
                            channel: seq<Message>, slots: seq<Option<Reply>>, i: nat)
    requires FanOut(analyze, requests, spawned, goroutines, channel, slots)
    requires i < |requests| && goroutines[i] == Running
    ensures |channel| < |requests|
  {
    OnChannelSize(channel);
    SubsetSize(OnChannel(channel), Below(|requests|) - {i});
  }

  /** When nothing runs and nothing is on the channel, every slot is filled. */
  lemma AllFilled<R(!new)>(analyze: R -> Outcome, requests: seq<R>, goroutines: seq<Goroutine>,
                           slots: seq<Option<Reply>>)
    requires FanOut(analyze, requests, |requests|, goroutines, [], slots)
    requires forall i | 0 <= i < |requests| :: goroutines[i] != Running
    ensures |FilledSlots(slots)| == |requests|
  {
    assert FilledSlots(slots) == Below(|requests|);
  }

  lemma SpawnKeeps<R(!new)>(analyze: R -> Outcome, requests: seq<R>, spawned: nat, goroutines: seq<Goroutine>,
                     channel: seq<Message>, slots: seq<Option<Reply>>)
    requires FanOut(analyze, requests, spawned, goroutines, channel, slots) && spawned < |requests|
    ensures FanOut(analyze, requests, spawned + 1, goroutines[spawned := Running], channel, slots)
    ensures StepsLeft(goroutines[spawned := Running]) == StepsLeft(goroutines) - 1
  {
    StepsLeftUpdate(goroutines, spawned, Running);
  }

  lemma SendKeeps<R(!new)>(analyze: R -> Outcome, requests: seq<R>, spawned: nat, goroutines: seq<Goroutine>,
                    channel: seq<Message>, slots: seq<Option<Reply>>, i: nat)
    requires FanOut(analyze, requests, spawned, goroutines, channel, slots)
    requires i < |goroutines| == |requests| && goroutines[i] == Running
    ensures FanOut(analyze, requests, spawned, goroutines[i := Sent],
                   channel + [Message(i, analyze(requests[i]))], slots)
    ensures StepsLeft(goroutines[i := Sent]) == StepsLeft(goroutines) - 1
  {
    StepsLeftUpdate(goroutines, i, Sent);
    var after := channel + [Message(i, analyze(requests[i]))];
    forall j, k | 0 <= j < k < |after| ensures after[j].index != after[k].index {
      assert channel[j] in channel;
    }
    forall m | m in channel ensures m in after {
      var k :| 0 <= k < |channel| && channel[k] == m;
      assert after[k] == m;
    }
    assert after[|channel|] == Message(i, analyze(requests[i]));
  }

  lemma ReceiveKeeps<R(!new)>(analyze: R -> Outcome, requests: seq<R>, spawned: nat, goroutines: seq<Goroutine>,
                       channel: seq<Message>, slots: seq<Option<Reply>>)
    requires FanOut(analyze, requests, spawned, goroutines, channel, slots) && channel != []
    ensures var m := channel[0];
      && m.index < |slots| && slots[m.index] == None
      && FanOut(analyze, requests, spawned, goroutines, channel[1..], slots[m.index := Some(ReplyTo(m.out))])
      && |FilledSlots(slots[m.index := Some(ReplyTo(m.out))])| == |FilledSlots(slots)| + 1
  {
    var m := channel[0];
    assert m in channel;
    var after := slots[m.index := Some(ReplyTo(m.out))];
    assert FilledSlots(after) == FilledSlots(slots) + {m.index};
    forall x | x in channel ensures x == m || x in channel[1..] {
      var k :| 0 <= k < |channel| && channel[k] == x;
      if k > 0 { assert channel[1..][k - 1] == x; }
    }
  }

  lemma FilledSize<R(!new)>(analyze: R -> Outcome, requests: seq<R>, spawned: nat, goroutines: seq<Goroutine>,
                     channel: seq<Message>, slots: seq<Option<Reply>>)
    requires FanOut(analyze, requests, spawned, goroutines, channel, slots)
    ensures |goroutines| == |slots| == |requests| && spawned <= |requests|
    ensures |FilledSlots(slots)| <= |requests|
    ensures |FilledSlots(slots)| == |requests| ==>
      forall i | 0 <= i < |requests| :: slots[i] == Some(ReplyTo(analyze(requests[i])))
  {
    SubsetSize(FilledSlots(slots), Below(|requests|));
    if FilledSlots(slots) == Below(|requests|) {
      forall i | 0 <= i < |requests| ensures slots[i].Some? { assert i in FilledSlots(slots); }
    }
  }

  /** The concurrent form. The guarded `if` lets any enabled step go next: the
      main goroutine spawns all goroutines and then receives, each goroutine
      sends once. That it verifies says some step is always enabled until all
      responses are in, and that the steps run out, on every schedule. */
  method ProcessBatchConcurrently<R(!new)>(analyze: R -> Outcome, requests: seq<R>) returns (responses: seq<Reply>)
    ensures responses == Replies(analyze, requests)
    ensures |responses| == |requests| && forall i | 0 <= i < |requests| ::
      && (analyze(requests[i]).Response? ==> responses[i] == Completed(analyze(requests[i]).body))
      && (analyze(requests[i]).Failure? ==> responses[i] == Error(analyze(requests[i]).error))
      && (analyze(requests[i]).Nothing? ==> responses[i].Error?)
  {
    var n := |requests|;
    var slots: seq<Option<Reply>> := seq(n, _ => None);
    var goroutines: seq<Goroutine> := seq(n, _ => NotSpawned);
    var channel: seq<Message> := [];
    var spawned, received: nat := 0, 0;
    assert FilledSlots(slots) == {};
    assert FanOut(analyze, requests, 0, goroutines, channel, slots);
    hide FanOut, FilledSlots, StepsLeft;
    FilledSize(analyze, requests, spawned, goroutines, channel, slots);
    while received < n
      invariant |goroutines| == |slots| == n && spawned <= n
      invariant FanOut(analyze, requests, spawned, goroutines, channel, slots)
      invariant received == |FilledSlots(slots)| <= n
      decreases StepsLeft(goroutines) + n - received
    {
      if spawned == n && channel == [] && forall i | 0 <= i < n :: goroutines[i] != Running {
        AllFilled(analyze, requests, goroutines, slots);
      }
      if
      case spawned < n =>
        SpawnKeeps(analyze, requests, spawned, goroutines, channel, slots);
        goroutines := goroutines[spawned := Running];
        spawned := spawned + 1;
      case exists i :: 0 <= i < n && goroutines[i] == Running =>
        var i :| 0 <= i < n && goroutines[i] == Running;
        SendDoesNotBlock(analyze, requests, spawned, goroutines, channel, slots, i);
        assert |channel| < n;
        SendKeeps(analyze, requests, spawned, goroutines, channel, slots, i);
        goroutines := goroutines[i := Sent];
        channel := channel + [Message(i, analyze(requests[i]))];
      case spawned == n && channel != [] =>
        ReceiveKeeps(analyze, requests, spawned, goroutines, channel, slots);
        var m := channel[0];
        assert slots[m.index] == None;
        channel := channel[1..];
        slots := slots[m.index := Some(ReplyTo(m.out))];
        received := received + 1;
      FilledSize(analyze, requests, spawned, goroutines, channel, slots);
    }
    FilledSize(analyze, requests, spawned, goroutines, channel, slots);
    responses := seq(n, i requires 0 <= i < n => slots[i].GetOr(Error("")));
  }

  /** Both modes and every batch size give the replies in request order: completed
      with the response, or an error with what went wrong. */
  method AnalyzeBatch<R(!new)>(analyze: R -> Outcome, requests: seq<R>, enableAsync: bool, configuredSize: int)
    returns (responses: seq<Reply>, completed: nat, failed: nat)
    ensures |responses| == |requests| && forall i | 0 <= i < |requests| ::
      && (analyze(requests[i]).Response? ==> responses[i] == Completed(analyze(requests[i]).body))
      && (analyze(requests[i]).Failure? ==> responses[i] == Error(analyze(requests[i]).error))
      && (analyze(requests[i]).Nothing? ==> responses[i].Error?)
    ensures completed == |set i | 0 <= i < |requests| && analyze(requests[i]).Response?|
    ensures failed == |set i | 0 <= i < |requests| && !analyze(requests[i]).Response?|
    ensures completed + failed == |requests|
  {
    var batchSize := if configuredSize <= 0 then 10 else configuredSize;
    assert Replies(analyze, requests[..0]) == [];
    hide ReplyTo, Replies;
    responses := [];
    var i := 0;
    while i < |requests|
      invariant 0 <= i
      invariant responses == Replies(analyze, requests[..if i < |requests| then i else |requests|])
    {
      var end := if i + batchSize < |requests| then i + batchSize else |requests|;
      var batch := requests[i..end];
      var batchResponses;
      RepliesJoin(analyze, requests, i, end);
      if enableAsync {
        batchResponses := ProcessBatchConcurrently(analyze, batch);
      } else {
        batchResponses := ProcessBatchSequentially(analyze, batch);
      }
      responses := responses + batchResponses;
      i := i + batchSize;
    }
    assert requests[..|requests|] == requests;
    completed, failed := CountStatuses(responses);
    SameIndices(analyze, requests, responses);
  }

  /** The requests completed are those that got a response. */
  lemma SameIndices<R(!new)>(analyze: R -> Outcome, requests: seq<R>, responses: seq<Reply>)
    requires responses == Replies(analyze, requests)
    ensures (set i | 0 <= i < |responses| && responses[i].Completed?)
         == (set i | 0 <= i < |requests| && analyze(requests[i]).Response?)
    ensures (set i | 0 <= i < |responses| && !responses[i].Completed?)
         == (set i | 0 <= i < |requests| && !analyze(requests[i]).Response?)
  {
  }

  lemma RepliesJoin<R(!new)>(analyze: R -> Outcome, requests: seq<R>, i: nat, end: nat)
    requires i <= end <= |requests|
    ensures Replies(analyze, requests[..end]) == Replies(analyze, requests[..i]) + Replies(analyze, requests[i..end])
  {
  }

  method CountStatuses(responses: seq<Reply>) returns (completed: nat, failed: nat)
    ensures completed == |set i | 0 <= i < |responses| && responses[i].Completed?|
    ensures failed == |set i | 0 <= i < |responses| && !responses[i].Completed?|
    ensures completed + failed == |responses|
  {
    completed, failed := 0, 0;
    for k := 0 to |responses|
      invariant completed == |set i | 0 <= i < k && responses[i].Completed?|
      invariant failed == |set i | 0 <= i < k && !responses[i].Completed?| && completed + failed == k
    {
      ghost var done := set i | 0 <= i < k && responses[i].Completed?;
      ghost var rest := set i | 0 <= i < k && !responses[i].Completed?;
      if responses[k].Completed? {
        assert (set i | 0 <= i < k + 1 && responses[i].Completed?) == done + {k};
        assert (set i | 0 <= i < k + 1 && !responses[i].Completed?) == rest;
        completed := completed + 1;
      } else {
        assert (set i | 0 <= i < k + 1 && responses[i].Completed?) == done;
        assert (set i | 0 <= i < k + 1 && !responses[i].Completed?) == rest + {k};
        failed := failed + 1;
      }
    }
  }
}
