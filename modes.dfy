/** The two fixture modes: `--verify` publishes three retained fixtures,
    discovers and clears them and checks that none is still retained;
    `--pollute` publishes five retained fixtures and checks that the broker
    retained each of them. Random draws and the broker are inputs. */
module Modes {
  import opened Broker
  import opened Collector
  import opened Fixtures

  /** Fixtures the verify mode publishes. */
  const VerifyFixtureCount: nat := 3

  /** Fixtures the pollute mode publishes. */
  const PolluteFixtureCount: nat := 5

  /** How a verify run ends: a fixture publish failed, which ends the
      process at once, or the per-fixture verdicts (`stillPresent[i]` is the
      "Retained still present" line for `fixtures[i]`) and whether the
      all-cleared line was printed. */
  datatype VerifyReport =
    | PublishFatal(topic: Topic)
    | VerifyDone(fixtures: seq<Topic>, stillPresent: seq<bool>, allCleared: bool)

  /** The verify mode's clearing loop: one empty retained publish per
      discovered topic, no retry; `erased` holds the topics whose publish was
      acknowledged (the "Cleared retained on" lines). */
  method ClearOnce(found: set<Topic>, acks: Topic -> bool) returns (erased: set<Topic>)
    ensures forall t :: t in erased <==> t in found && acks(t)
  {
    erased := {};
    var remaining := found;
    while remaining != {}
      invariant remaining <= found
      invariant forall t :: t in erased <==> t in found && t !in remaining && acks(t)
      decreases remaining
    {
      var topic :| topic in remaining;
      if acks(topic) {
        erased := erased + {topic};
      }
      remaining := remaining - {topic};
    }
  }

  /** The verify mode's verification handler over its window: a retained
      message marks its topic as still present. */
  method PresenceWindow(w: Window) returns (present: map<Topic, bool>)
    ensures forall t :: t in present <==> DeliveredRetained(w, t)
    ensures forall t :: t in present ==> present[t]
  {
    present := map[];
    for n := 0 to |w|
      invariant forall t :: t in present <==> DeliveredRetained(w[..n], t)
      invariant forall t :: t in present ==> present[t]
    {
      var msg := w[n];
      if msg.retained {
        present := present[msg.topic := true];
      }
      assert forall i :: 0 <= i < n ==> w[..n + 1][i] == w[..n][i];
    }
    assert w[..|w|] == w;
  }

  /** The verify mode. `draws[i]` is the random number in the i-th fixture's
      topic, `published[i]` whether its retained publish succeeded, `discovery`
      and `verification` the two subscription windows and `clearAcks` the
      broker's answer to each clearing publish. */
  method VerifyMode(base: Topic, draws: seq<nat>, published: seq<bool>, discovery: Window,
                    clearAcks: Topic -> bool, verification: Window)
    returns (report: VerifyReport, erased: set<Topic>)
    requires |draws| == VerifyFixtureCount && |published| == VerifyFixtureCount
    ensures report.PublishFatal? <==> exists i :: 0 <= i < |published| && !published[i]
    ensures report.PublishFatal? ==>
              && erased == {}
              && exists i :: && 0 <= i < |published| && !published[i]
                             && (forall j :: 0 <= j < i ==> published[j])
                             && report.topic == FixtureTopic(VerifyBase(base), draws[i])
    ensures report.VerifyDone? ==>
              && (forall t :: t in erased <==> DeliveredRetained(discovery, t) && clearAcks(t))
              && |report.fixtures| == VerifyFixtureCount
              && |report.stillPresent| == VerifyFixtureCount
              && (forall i :: 0 <= i < VerifyFixtureCount ==>
                    && report.fixtures[i] == FixtureTopic(VerifyBase(base), draws[i])
                    && (report.stillPresent[i] <==> DeliveredRetained(verification, report.fixtures[i])))
              && (report.allCleared <==>
                    forall i :: 0 <= i < VerifyFixtureCount ==> !DeliveredRetained(verification, report.fixtures[i]))
              && (forall i, j :: 0 <= i < VerifyFixtureCount && 0 <= j < VerifyFixtureCount && draws[i] != draws[j] ==>
                    report.fixtures[i] != report.fixtures[j])
  {
    var prefix := VerifyBase(base);
    var topics: seq<Topic> := [];
    for i := 0 to VerifyFixtureCount
      invariant |topics| == i
      invariant forall j :: 0 <= j < i ==> topics[j] == FixtureTopic(prefix, draws[j]) && published[j]
    {
      var topic := FixtureTopic(prefix, draws[i]);
      if !published[i] {
        report, erased := PublishFatal(topic), {};
        return;
      }
      topics := topics + [topic];
    }

    var found := CollectWindow(discovery);
    erased := ClearOnce(found, clearAcks);
    var present := PresenceWindow(verification);

    var stillPresent: seq<bool> := [];
    var allCleared := true;
    for j := 0 to |topics|
      invariant |stillPresent| == j
      invariant forall k :: 0 <= k < j ==> (stillPresent[k] <==> DeliveredRetained(verification, topics[k]))
      invariant allCleared <==> forall k :: 0 <= k < j ==> !DeliveredRetained(verification, topics[k])
    {
      var still := topics[j] in present && present[topics[j]];
      if still {
        allCleared := false;
      }
      stillPresent := stillPresent + [still];
    }
    forall i, j | 0 <= i < |topics| && 0 <= j < |topics| && topics[i] == topics[j]
      ensures draws[i] == draws[j]
    {
      FixtureTopicInjective(prefix, draws[i], draws[j]);
    }
    report := VerifyDone(topics, stillPresent, allCleared);
  }

  /** The topics the pollute loop generates, one per list of segment draws. */
  function Generated(base: Topic, draws: seq<seq<nat>>): (ts: seq<Topic>)
    ensures |ts| == |draws|
    ensures forall i :: 0 <= i < |draws| ==> ts[i] == PolluteTopic(base, draws[i])
  {
    seq(|draws|, i requires 0 <= i < |draws| => PolluteTopic(base, draws[i]))
  }

  /** The topics of `ts` whose publish succeeded, in order. */
  function Accepted(ts: seq<Topic>, ok: seq<bool>): seq<Topic>
    requires |ts| == |ok|
    decreases |ts|
  {
    if ts == [] then []
    else Accepted(ts[..|ts| - 1], ok[..|ok| - 1]) + (if ok[|ok| - 1] then [ts[|ts| - 1]] else [])
  }

  /** A topic is listed exactly when some publish of it succeeded. */
  lemma {:induction false} AcceptedMembers(ts: seq<Topic>, ok: seq<bool>, t: Topic)
    requires |ts| == |ok|
    ensures t in Accepted(ts, ok) <==> exists i :: 0 <= i < |ts| && ok[i] && ts[i] == t
    decreases |ts|
  {
    if ts != [] {
      var n := |ts| - 1;
      AcceptedMembers(ts[..n], ok[..n], t);
      if exists i :: 0 <= i < |ts| && ok[i] && ts[i] == t {
        var i :| 0 <= i < |ts| && ok[i] && ts[i] == t;
        if i < n {
          assert ts[..n][i] == t && ok[..n][i];
        }
      }
      if t in Accepted(ts[..n], ok[..n]) {
        var i :| 0 <= i < n && ok[..n][i] && ts[..n][i] == t;
        assert ok[i] && ts[i] == t;
      }
    }
  }

  /** The outcome of a pollute run: the topics whose publish succeeded, in
      publish order, whether each was seen retained, and whether the
      all-published line was printed. */
  datatype PolluteReport = PolluteDone(listed: seq<Topic>, confirmed: seq<bool>, allPublished: bool)

  /** The inner loop of the pollute mode: one `level<n>` segment per draw,
      joined with `/` under `<base>/pollute`. */
  method BuildPolluteTopic(base: Topic, draws: seq<nat>) returns (topic: Topic)
    requires 1 <= |draws| <= 3
    ensures topic == PolluteTopic(base, draws)
    ensures PolluteShaped(base, topic)
  {
    var parts: seq<string> := [];
    for j := 0 to |draws|
      invariant |parts| == j
      invariant forall k :: 0 <= k < j ==> parts[k] == LevelName(draws[k])
    {
      parts := parts + [LevelName(draws[j])];
    }
    assert parts == LevelNames(draws);
    topic := PolluteBase(base) + "/" + Join(parts, '/');
    PolluteTopicShape(base, draws);
  }

  /** The publishing loop of the pollute mode: a topic enters the list only
      when its retained publish succeeded. */
  method PublishPollution(base: Topic, draws: seq<seq<nat>>, published: seq<bool>) returns (topics: seq<Topic>)
    requires |draws| == |published|
    requires forall i :: 0 <= i < |draws| ==> 1 <= |draws[i]| <= 3
    ensures topics == Accepted(Generated(base, draws), published)
    ensures forall t :: t in topics ==> PolluteShaped(base, t)
  {
    topics := [];
    for i := 0 to |draws|
      invariant topics == Accepted(Generated(base, draws)[..i], published[..i])
      invariant forall t :: t in topics ==> PolluteShaped(base, t)
    {
      var topic := BuildPolluteTopic(base, draws[i]);
      assert Generated(base, draws)[..i + 1][..i] == Generated(base, draws)[..i];
      assert published[..i + 1][..i] == published[..i];
      if published[i] {
        topics := topics + [topic];
      }
    }
    assert Generated(base, draws)[..|draws|] == Generated(base, draws);
    assert published[..|draws|] == published;
  }

  /** The pollute mode's result loop: each listed topic is confirmed when the
      subscriptions to the listed topics saw a retained message on it. */
  method ConfirmRetained(topics: seq<Topic>, check: Window) returns (confirmed: seq<bool>, allPublished: bool)
    ensures |confirmed| == |topics|
    ensures forall i :: 0 <= i < |topics| ==> (confirmed[i] <==> DeliveredRetained(check, topics[i]))
    ensures allPublished <==> forall t :: t in topics ==> DeliveredRetained(check, t)
  {
    var found := CollectWindow(check);
    confirmed, allPublished := [], true;
    for j := 0 to |topics|
      invariant |confirmed| == j
      invariant forall k :: 0 <= k < j ==> (confirmed[k] <==> topics[k] in found)
      invariant allPublished <==> forall k :: 0 <= k < j ==> topics[k] in found
    {
      var seen := topics[j] in found;
      if !seen {
        allPublished := false;
      }
      confirmed := confirmed + [seen];
    }
  }

  /** The pollute mode. `draws[i]` holds the random numbers of the i-th
      topic's segments (its depth, one to three, is their count);
      `published[i]` tells whether its retained publish succeeded; `check` is
      the window of the subscriptions to the listed topics. */
  method PolluteMode(base: Topic, draws: seq<seq<nat>>, published: seq<bool>, check: Window)
    returns (report: PolluteReport)
    requires |draws| == PolluteFixtureCount && |published| == PolluteFixtureCount
    requires forall i :: 0 <= i < |draws| ==> 1 <= |draws[i]| <= 3
    ensures report.listed == Accepted(Generated(base, draws), published)
    ensures forall t :: t in report.listed ==> PolluteShaped(base, t)
    ensures |report.confirmed| == |report.listed|
    ensures forall i :: 0 <= i < |report.listed| ==>
              (report.confirmed[i] <==> DeliveredRetained(check, report.listed[i]))
    ensures report.allPublished <==> forall t :: t in report.listed ==> DeliveredRetained(check, t)
  {
    var topics := PublishPollution(base, draws, published);
    var confirmed, allPublished := ConfirmRetained(topics, check);
    report := PolluteDone(topics, confirmed, allPublished);
  }

  /** Every listed pollute topic was generated by the loop and its publish
      succeeded; a topic whose publish failed is listed only if another
      iteration generated the same name and published it. */
  lemma {:induction false} PolluteListsPublishedOnly(base: Topic, draws: seq<seq<nat>>, published: seq<bool>, t: Topic)
    requires |draws| == |published|
    ensures t in Accepted(Generated(base, draws), published) <==>
              exists i :: 0 <= i < |draws| && published[i] && t == PolluteTopic(base, draws[i])
  {
    AcceptedMembers(Generated(base, draws), published, t);
  }
}
