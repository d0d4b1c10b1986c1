/** The default mode: discover the retained messages under the configured
    topic, erase each with an empty retained publish (retrying), re-subscribe to
    see whether any is still retained, and report. */
module Cleaner {
  import opened Broker
  import opened Collector

  /** Publish calls the clearing loop makes per topic before giving up. */
  const MaxAttempts: nat := 3

  /** The broker's answers to the clearing publishes: `acks(t, k)` holds when
      the k-th (counting from 0) empty retained publish to `t` completes
      without error. */
  type Acks = (Topic, nat) -> bool

  /** The line the summary prints. */
  datatype Report =
    | NoneFound     // "No retained messages found under: <topic>"
    | AllCleared    // "All retained messages successfully cleared!"
    | SomeFailed    // "Some retained messages could not be cleared."

  /** One of the publishes the loop may make for `t` is acknowledged. */
  predicate Clearable(acks: Acks, t: Topic) {
    exists k :: 0 <= k < MaxAttempts && acks(t, k)
  }

  /** What the retry loop does for one topic: it makes `tries` publish calls,
      every call before the last was refused, the last was acknowledged exactly
      when `ok`, and it only gives up after the third refusal. */
  predicate RetryOutcome(acks: Acks, t: Topic, ok: bool, tries: nat) {
    && 1 <= tries <= MaxAttempts
    && (forall k :: 0 <= k < tries - 1 ==> !acks(t, k))
    && (ok <==> acks(t, tries - 1))
    && (!ok ==> tries == MaxAttempts)
  }

  /** The retry loop for one topic: publish the empty retained payload, and on
      an error try again, at most `MaxAttempts` times in all. */
  method ClearTopic(t: Topic, acks: Acks) returns (ok: bool, tries: nat)
    ensures RetryOutcome(acks, t, ok, tries)
    ensures ok <==> Clearable(acks, t)
  {
    ok, tries := false, 0;
    var retry := 0;
    while retry < MaxAttempts
      invariant 0 <= retry <= MaxAttempts
      invariant tries == retry && !ok
      invariant forall k :: 0 <= k < retry ==> !acks(t, k)
    {
      tries := tries + 1;
      if !acks(t, retry) {
        retry := retry + 1;
        continue;
      }
      ok := true;
      break;
    }
  }

  /** The contract of the retry loop fixes its behaviour: for given broker
      answers there is one number of attempts and one verdict. */
  lemma {:induction false} RetryOutcomeUnique(acks: Acks, t: Topic, ok1: bool, n1: nat, ok2: bool, n2: nat)
    requires RetryOutcome(acks, t, ok1, n1) && RetryOutcome(acks, t, ok2, n2)
    ensures ok1 == ok2 && n1 == n2
  {
  }

  /** Two refusals do not make the loop give up: a topic whose third publish
      is acknowledged is cleared, after three calls. */
  lemma {:induction false} ThirdAttemptClears(acks: Acks, t: Topic, ok: bool, tries: nat)
    requires !acks(t, 0) && !acks(t, 1) && acks(t, 2)
    requires RetryOutcome(acks, t, ok, tries)
    ensures ok && tries == 3
  {
  }

  /** The `cleared` map right after the clearing loop: `true` for every
      discovered topic one of whose publishes was acknowledged, and no entry for
      the others. */
  function ClearedMap(found: set<Topic>, acks: Acks): map<Topic, bool> {
    map t | t in found && Clearable(acks, t) :: true
  }

  /** The clearing loop over the discovered topics, in an arbitrary order.
      `tries` records how many publish calls each topic received. */
  method ClearAll(found: set<Topic>, acks: Acks) returns (cleared: map<Topic, bool>, tries: map<Topic, nat>)
    ensures tries.Keys == found
    ensures forall t :: t in found ==> RetryOutcome(acks, t, t in cleared, tries[t])
    ensures forall t :: t in cleared <==> t in found && Clearable(acks, t)
    ensures forall t :: t in cleared ==> cleared[t]
    ensures cleared == ClearedMap(found, acks)
  {
    cleared, tries := map[], map[];
    var remaining := found;
    while remaining != {}
      invariant remaining <= found
      invariant tries.Keys == found - remaining
      invariant forall t :: t in tries ==> RetryOutcome(acks, t, t in cleared, tries[t])
      invariant forall t :: t in cleared <==> t in tries && Clearable(acks, t)
      invariant forall t :: t in cleared ==> cleared[t]
      decreases remaining
    {
      var topic :| topic in remaining;
      var ok, n := ClearTopic(topic, acks);
      if ok {
        cleared := cleared[topic := true];
      }
      tries := tries[topic := n];
      remaining := remaining - {topic};
    }
  }

  /** The `cleared` map once the verification window has closed: every topic
      with a retained delivery in `w` is marked `false`, whatever it held
      before; every other entry is kept. */
  function AfterVerification(cleared: map<Topic, bool>, w: Window): map<Topic, bool> {
    map t | t in cleared.Keys + RetainedSet(w) :: t !in RetainedSet(w) && cleared[t]
  }

  /** Runs the verification handler on every message of the window. */
  method VerifyWindow(cleared: map<Topic, bool>, w: Window) returns (after: map<Topic, bool>)
    ensures after.Keys == cleared.Keys + RetainedSet(w)
    ensures forall t :: DeliveredRetained(w, t) ==> t in after && !after[t]
    ensures forall t :: t in cleared && !DeliveredRetained(w, t) ==> after[t] == cleared[t]
    ensures after == AfterVerification(cleared, w)
  {
    after := cleared;
    for n := 0 to |w|
      invariant after.Keys == cleared.Keys + RetainedSet(w[..n])
      invariant forall t :: t in RetainedSet(w[..n]) ==> !after[t]
      invariant forall t :: t in cleared && t !in RetainedSet(w[..n]) ==> after[t] == cleared[t]
    {
      var msg := w[n];
      if msg.retained {
        after := after[msg.topic := false];
      }
      assert RetainedSet(w[..n + 1]) == RetainedSet(w[..n]) + (if msg.retained then {msg.topic} else {}) by {
        assert w[..n + 1] == w[..n] + [msg];
      }
    }
    assert w[..|w|] == w;
  }

  /** The entries of `cleared` that hold `false`: the topics listed as failed. */
  function FailedTopics(cleared: map<Topic, bool>): set<Topic> {
    set t | t in cleared && !cleared[t]
  }

  /** The summary line chosen from `found` and the final `cleared` map. */
  function SummaryOf(found: set<Topic>, cleared: map<Topic, bool>): Report {
    if found == {} then NoneFound
    else if exists t :: t in cleared && !cleared[t] then SomeFailed
    else AllCleared
  }

  /** The summary loop: walks `cleared` in an arbitrary order, collects the
      entries that are `false` and picks the summary line. */
  method Summarize(found: set<Topic>, cleared: map<Topic, bool>) returns (failed: set<Topic>, report: Report)
    ensures failed == FailedTopics(cleared)
    ensures report == NoneFound <==> found == {}
    ensures report == AllCleared <==> found != {} && failed == {}
    ensures report == SomeFailed <==> found != {} && failed != {}
    ensures report == SummaryOf(found, cleared)
  {
    failed := {};
    var allCleared := true;
    var pending := cleared.Keys;
    while pending != {}
      invariant pending <= cleared.Keys
      invariant forall t :: t in failed <==> t in cleared && t !in pending && !cleared[t]
      invariant allCleared <==> failed == {}
      decreases pending
    {
      var topic :| topic in pending;
      if !cleared[topic] {
        failed := failed + {topic};
        allCleared := false;
      }
      pending := pending - {topic};
    }
    if |found| == 0 {
      report := NoneFound;
    } else if allCleared {
      report := AllCleared;
    } else {
      assert exists t :: t in failed;
      report := SomeFailed;
    }
  }

  /** The list of topics the verification step subscribes to, built from the
      discovered set in an arbitrary order. */
  method SubscriptionList(found: set<Topic>) returns (topics: seq<Topic>)
    ensures forall t :: t in topics <==> t in found
    ensures forall i, j :: 0 <= i < j < |topics| ==> topics[i] != topics[j]
  {
    topics := [];
    var remaining := found;
    while remaining != {}
      invariant remaining <= found
      invariant forall t :: t in topics <==> t in found && t !in remaining
      invariant forall i, j :: 0 <= i < j < |topics| ==> topics[i] != topics[j]
      decreases remaining
    {
      var topic :| topic in remaining;
      topics := topics + [topic];
      remaining := remaining - {topic};
    }
  }

  /** The whole default mode, with the broker given as its two subscription
      windows and its answers to the clearing publishes. */
  method Reconcile(discovery: Window, acks: Acks, verification: Window)
    returns (found: set<Topic>, tries: map<Topic, nat>, cleared: map<Topic, bool>, failed: set<Topic>, report: Report)
    ensures found == RetainedSet(discovery)
    ensures tries.Keys == found
    ensures forall t :: t in found ==> RetryOutcome(acks, t, Clearable(acks, t), tries[t])
    ensures cleared == AfterVerification(ClearedMap(found, acks), verification)
    ensures failed == RetainedSet(verification)
    ensures report == (if found == {} then NoneFound
                       else if failed == {} then AllCleared
                       else SomeFailed)
  {
    found := CollectWindow(discovery);
    var afterClearing;
    afterClearing, tries := ClearAll(found, acks);
    var topics := SubscriptionList(found);
    cleared := VerifyWindow(afterClearing, verification);
    failed, report := Summarize(found, cleared);
    SummaryIgnoresPublishOutcomes(found, acks, verification);
  }

  /** The verdict never depends on the publish acknowledgements: the final
      map holds `false` exactly for the topics retained in the verification
      window, so only that window separates success from failure. */
  lemma {:induction false} SummaryIgnoresPublishOutcomes(found: set<Topic>, acks: Acks, w: Window)
    ensures FailedTopics(AfterVerification(ClearedMap(found, acks), w)) == RetainedSet(w)
    ensures SummaryOf(found, AfterVerification(ClearedMap(found, acks), w))
         == if found == {} then NoneFound else if RetainedSet(w) == {} then AllCleared else SomeFailed
  {
    var final := AfterVerification(ClearedMap(found, acks), w);
    forall t | t in RetainedSet(w) ensures t in final && !final[t] { }
    if found != {} && RetainedSet(w) != {} {
      var t :| t in RetainedSet(w);
      assert t in final && !final[t];
    }
  }

  /** A retained delivery during verification overrides an acknowledged clear:
      the run reports a failure. */
  lemma {:induction false} StillRetainedIsFailure(found: set<Topic>, acks: Acks, w: Window, t: Topic)
    requires t in found && Clearable(acks, t) && DeliveredRetained(w, t)
    ensures t in AfterVerification(ClearedMap(found, acks), w)
    ensures !AfterVerification(ClearedMap(found, acks), w)[t]
    ensures SummaryOf(found, AfterVerification(ClearedMap(found, acks), w)) == SomeFailed
  {
    assert t in RetainedSet(w);
    SummaryIgnoresPublishOutcomes(found, acks, w);
  }

  /** A topic all of whose three publishes were refused gets no entry in
      `cleared`; unless a retained message for it turns up during verification
      it is not reported, and on its own it yields the all-cleared line. */
  lemma {:induction false} ExhaustedTopicUnreported(t: Topic, acks: Acks)
    requires !acks(t, 0) && !acks(t, 1) && !acks(t, 2)
    ensures ClearedMap({t}, acks) == map[]
    ensures SummaryOf({t}, AfterVerification(ClearedMap({t}, acks), [])) == AllCleared
  {
    assert !Clearable(acks, t);
    assert RetainedSet([]) == {};
    SummaryIgnoresPublishOutcomes({t}, acks, []);
  }

  /** The run against a broker whose windows are long enough: discovery
      replays the retained messages of the subtree; an acknowledged empty
      retained publish erases the retained message (section 3.3.1.3 of MQTT
      Version 3.1.1) while a refused one leaves it; verification then replays
      what is left of the discovered topics. The run reports the all-cleared
      line exactly when something was found and every found topic had one of
      its three publishes acknowledged, and a failure exactly when one did not. */
  lemma {:induction false} ReconcileAgainstBroker(store: Store, base: Topic, discovery: Window, acks: Acks, verification: Window)
    requires Replays(discovery, Subtree(store, base))
    requires Replays(verification, set t | t in RetainedSet(discovery) && !Clearable(acks, t))
    ensures var found := RetainedSet(discovery);
            var final := AfterVerification(ClearedMap(found, acks), verification);
            && found == Subtree(store, base)
            && FailedTopics(final) == set t | t in found && !Clearable(acks, t)
            && (SummaryOf(found, final) == AllCleared <==> found != {} && forall t :: t in found ==> Clearable(acks, t))
            && (SummaryOf(found, final) == SomeFailed <==> exists t :: t in found && !Clearable(acks, t))
  {
    var found := RetainedSet(discovery);
    CollectsReplay(discovery, Subtree(store, base));
    var left := set t | t in found && !Clearable(acks, t);
    CollectsReplay(verification, left);
    SummaryIgnoresPublishOutcomes(found, acks, verification);
    if exists t :: t in found && !Clearable(acks, t) {
      var t :| t in found && !Clearable(acks, t);
      assert t in left;
    }
  }
}
