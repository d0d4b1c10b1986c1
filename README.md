# MQTT retained-message cleaner, modelled in Dafny

The cleaner removes the retained messages a broker holds under a topic. It
subscribes to the topic and its `#` subtree, collects the topics of the
retained messages it is sent, erases each one by publishing an empty retained
payload (at most three attempts each), subscribes again to see whether any
retained message remains, and prints a summary. Two further modes manufacture
fixtures: `--verify` publishes three retained messages under `<topic>/verify`
and runs discovery, clearing and verification on them; `--pollute` publishes
five under `<topic>/pollute/level<n>[/level<n>[/level<n>]]` and checks that the
broker retained each.

The broker is an input. A subscription window is the finite sequence of
`(topic, retained)` messages the client library hands to the handler before the
fixed sleep ends; a publish is acknowledged or refused according to an input
(`Acks` for the default mode's clearing loop, a `Topic -> bool` for the
verify mode's single clearing publish, a `seq<bool>` per fixture for the
fixture publishes). Go's map iteration order is unspecified, so every loop over a set
or map picks its next element arbitrarily (`var t :| t in remaining`), and the
contracts hold for every order.

Files, one module each:

- `broker.dfy` (`Broker`): topics, messages, windows, the subtree selected by
  the two discovery subscriptions, and what a complete replay window is.
- `collector.dfy` (`Collector`): the handler that folds retained deliveries
  into `found`, shared by all three modes.
- `cleaner.dfy` (`Cleaner`): the default mode, namely the clearing loop with
  retries, the verification handler, the summary and the whole pipeline.
- `fixtures.dfy` (`Fixtures`): fixture topic names, decimal numbers and
  `strings.Join`, with `Split` (behaving as Go's `strings.Split`) as the
  inverse used to state the shape of a pollute topic.
- `modes.dfy` (`Modes`): the `--verify` and `--pollute` pipelines.

Points of the code that the model keeps as written:

- A topic whose three clearing publishes all fail gets no entry in `cleared`
  (main.go:237 is the only write on that path). It is reported as failed only
  if the verification window delivers a retained message for it.
  `Cleaner.SummaryIgnoresPublishOutcomes` shows that the summary line depends
  only on `found` and on the verification window, never on the publish
  acknowledgements. `Cleaner.ExhaustedTopicUnreported` gives a run where every
  publish fails and the all-cleared line is still printed.
- Pollute segment names are `level<n>`, where `<n>` is a non-negative 63-bit
  draw in decimal, and the depth is `rand.Intn(3) + 1`.
- In `--verify` mode the verification map is named `cleared`, but the code
  sets it to `true` when a retained message *is* still present. The model
  calls it `present`.

## Model

| member | source | states |
|---|---|---|
| `Collector.CollectWindow` | main.go:210-215 | after a window, `found` holds exactly the topics of the retained deliveries; non-retained deliveries are ignored |
| `Collector.OrderFree` | main.go:211-215 | two windows with the same delivered messages give the same set, whatever the order of arrival or number of repeats |
| `Collector.RedeliveryIsNoOp` | main.go:211-215 | a repeated delivery, or any non-retained one, leaves `found` unchanged |
| `Collector.CollectsReplay` | main.go:217-223 | a window that replays the retained messages of a topic set yields exactly that set |
| `Collector.DiscoversSubtreeExample` | main.go:217-223 | with retained messages on `a/x`, `a/y/z` and `ab/c`, discovery under `a` finds exactly `a/x` and `a/y/z` |
| `Cleaner.ClearTopic` | main.go:229-240 | at most three publish calls, stopping at the first acknowledged one; every earlier call was refused; giving up happens only after the third refusal; success iff one of the three calls is acknowledged |
| `Cleaner.RetryOutcomeUnique` | main.go:229-240 | the retry contract determines the number of attempts and the verdict from the broker's answers |
| `Cleaner.ThirdAttemptClears` | main.go:229-240 | two refusals followed by an acknowledgement clear the topic on the third call |
| `Cleaner.ClearAll` | main.go:226-241 | every discovered topic gets one to three attempts; `cleared` gets a `true` entry exactly for discovered topics with an acknowledged publish; failed topics get no entry and no other key is added |
| `Cleaner.SubscriptionList` | main.go:251-255 | the verification subscription list holds each discovered topic exactly once |
| `Cleaner.VerifyWindow` | main.go:244-248 | a retained delivery sets its topic to `false`, overriding `true`; all other entries are kept; non-retained deliveries change nothing |
| `Cleaner.Summarize` | main.go:260-274 | the failed topics are exactly the `false` entries; empty `found` gives "No retained messages found"; otherwise no failures give "All ... cleared!" and any failure gives "Some ... could not be cleared" |
| `Cleaner.Reconcile` | main.go:210-274 | the default run: `found` is the discovery window's retained topics; the failed topics are exactly the verification window's retained topics; the summary line follows from those two |
| `Cleaner.SummaryIgnoresPublishOutcomes` | main.go:226-274 | for any publish answers, the final `false` entries are the verification window's retained topics, so the summary does not depend on the publish outcomes |
| `Cleaner.StillRetainedIsFailure` | main.go:244-266 | a retained delivery during verification makes an acknowledged topic `false` and the summary reports failure |
| `Cleaner.ExhaustedTopicUnreported` | main.go:229-241 | a topic refused three times gets no entry in `cleared`; with an empty verification window the summary is still all-cleared |
| `Cleaner.ReconcileAgainstBroker` | main.go:210-274 | against a broker whose windows are complete replays, and where an acknowledged empty retained publish erases the message, the run finds exactly the subtree's retained topics and reports all-cleared iff at least one topic was found and every topic it found had an acknowledged publish |
| `Fixtures.Decimal` | main.go:149 | a draw is written as a non-empty string of decimal digits |
| `Fixtures.DecimalRoundTrip` | main.go:149 | reading the decimal text gives the draw back |
| `Fixtures.LevelName` | main.go:77 | a pollute segment is `level` followed by digits and contains no `/` |
| `Fixtures.SplitJoin` | main.go:79 | splitting the `/`-joined segments on `/` gives back the segments |
| `Fixtures.PolluteTopicShape` | main.go:68-79 | a topic built from one to three draws is `<topic>/pollute/` followed by one to three `/`-separated `level<digits>` segments, namely the draws' level names |
| `Fixtures.FixtureTopicInjective` | main.go:149 | different draws give different verify fixture topics |
| `Modes.ClearOnce` | main.go:172-178 | the verify mode makes one clearing publish per discovered topic, without retry; the erased topics are those whose publish was acknowledged |
| `Modes.PresenceWindow` | main.go:181-191 | a topic is marked present iff a retained delivery for it arrived in the window |
| `Modes.VerifyMode` | main.go:141-206 | a failed fixture publish ends the run with the first failing topic; otherwise the fixtures are `<topic>/verify/<draw>`, distinct draws give distinct fixtures, each is reported still present iff a retained delivery for it was observed, and the all-cleared line is printed iff there was none |
| `Modes.AcceptedMembers` | main.go:84-88 | a topic is listed iff some publish of it succeeded |
| `Modes.BuildPolluteTopic` | main.go:73-79 | the topic built from one to three draws is `<topic>/pollute/` followed by their `level<n>` names joined with `/`, and it has the pollute shape |
| `Modes.PublishPollution` | main.go:72-90 | the list holds the generated topics whose retained publish succeeded, in publish order, each of pollute shape |
| `Modes.ConfirmRetained` | main.go:93-116 | each listed topic is confirmed iff a retained delivery for it arrived; `allPublished` iff every listed topic was confirmed |
| `Modes.PolluteMode` | main.go:64-124 | the listed topics are the generated topics whose publish succeeded, in order, each of pollute shape; each is reported retained iff a retained delivery for it arrived; `allPublished` iff all were |
| `Modes.PolluteListsPublishedOnly` | main.go:84-88 | a topic is listed iff some iteration generated it and its publish succeeded |

## Left out

- The MQTT client library (connect, subscribe, unsubscribe, disconnect) is
  replaced by the input windows and publish answers. The subscription filters
  are not modelled as code. `Broker.Subtree` and `Broker.Replays` state what a
  complete window delivers, and only the lemmas that assume them use them.
- The broker's retained store is not modelled as state.
  `Cleaner.ReconcileAgainstBroker` states erase-on-acknowledgement (section
  3.3.1.3 of MQTT Version 3.1.1) as a hypothesis about the verification window.
  It assumes a refused publish left the retained message in place.
- The configured QoS level passed to every publish and subscribe is left out.
  A publish counts as acknowledged when its token completes without error;
  under QoS 0 that is not an acknowledgement from the broker, so the
  erase-on-acknowledgement hypothesis of `Cleaner.ReconcileAgainstBroker` is
  only justified at QoS 1 or 2.
- `Broker.InSubtree` compares the configured topic literally. A configured
  topic containing `+` or `#`, which the code would subscribe to as a filter,
  selects topics that `Broker.Subtree` does not describe.
- The fixed sleeps and the one-second backoff between retries are wall-clock
  timing. A window is a finite list, and a too-short window is any list
  missing deliveries.
- Handlers run on the client's delivery goroutines, unsynchronised with the
  main thread. The model processes each window's deliveries in sequence before
  the window closes.
- Configuration loading, flag parsing, and the process exits from `log.Fatalf`
  are left out. The verify mode's publish failure is returned as
  `PublishFatal` instead of exiting.
- The `--test` mode is left out: it is one non-retained publish with no logic.
- Payloads are left out: the handlers never read them, and the fixture
  payloads carry only an index and a timestamp. The clearing payload is always
  the empty string.
- Console output is left out; the per-topic lines and the summary are returned
  as values.
- Random draws are inputs. A pollute topic's depth is the number of draws
  given for it, so `rand.Intn(3) + 1` is the requirement of one to three
  draws.
- Modes.PolluteMode: does not promise distinct topics. The code does not
  either, because two random draws may coincide.
