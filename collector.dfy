/** The retained-set collector: the handler that folds the messages of a
    discovery window into the set `found`, used by all three modes. */
module Collector {
  import opened Broker

  /** The message at some position of `w` is a retained one on topic `t`. */
  predicate DeliveredRetained(w: Window, t: Topic) {
    exists i :: 0 <= i < |w| && w[i].retained && w[i].topic == t
  }

  /** The topics of the retained messages of `w`. */
  function RetainedSet(w: Window): set<Topic> {
    set i | 0 <= i < |w| && w[i].retained :: w[i].topic
  }

  /** Runs the collect handler on every message of the window, in order:
      a retained message adds its topic to `found`, any other is ignored. */
  method CollectWindow(w: Window) returns (found: set<Topic>)
    ensures forall t :: t in found <==> DeliveredRetained(w, t)
    ensures found == RetainedSet(w)
  {
    found := {};
    for n := 0 to |w|
      invariant forall t :: t in found <==> DeliveredRetained(w[..n], t)
    {
      var msg := w[n];
      if msg.retained {
        found := found + {msg.topic};
      }
      assert forall i :: 0 <= i < n ==> w[..n + 1][i] == w[..n][i];
    }
    assert w[..|w|] == w;
  }

  /** The collected set does not depend on the order of arrival or on how
      often a message is delivered: only on which messages were delivered. */
  lemma {:induction false} OrderFree(w1: Window, w2: Window)
    requires forall m :: m in w1 <==> m in w2
    ensures RetainedSet(w1) == RetainedSet(w2)
  {
    forall t | t in RetainedSet(w1) ensures t in RetainedSet(w2) {
      var i :| 0 <= i < |w1| && w1[i].retained && w1[i].topic == t;
      assert w1[i] in w2;
      var j :| 0 <= j < |w2| && w2[j] == w1[i];
    }
    forall t | t in RetainedSet(w2) ensures t in RetainedSet(w1) {
      var i :| 0 <= i < |w2| && w2[i].retained && w2[i].topic == t;
      assert w2[i] in w1;
      var j :| 0 <= j < |w1| && w1[j] == w2[i];
    }
  }

  /** A further delivery of a message already seen, or of a non-retained
      message, leaves the collected set as it was. */
  lemma {:induction false} RedeliveryIsNoOp(w: Window, m: Message)
    requires m in w || !m.retained
    ensures RetainedSet(w + [m]) == RetainedSet(w)
  {
    var w' := w + [m];
    forall t | t in RetainedSet(w') ensures t in RetainedSet(w) {
      var i :| 0 <= i < |w'| && w'[i].retained && w'[i].topic == t;
      if i == |w| {
        var j :| 0 <= j < |w| && w[j] == m;
        assert w[j].topic == t;
      } else {
        assert w[i] == w'[i];
      }
    }
    forall t | t in RetainedSet(w) ensures t in RetainedSet(w') {
      var i :| 0 <= i < |w| && w[i].retained && w[i].topic == t;
      assert w'[i] == w[i];
    }
  }

  /** When the window is a complete replay of the retained messages the
      subscriptions select, the collector finds exactly those topics; in
      particular, discovery under `base` finds the retained topics of its subtree. */
  lemma {:induction false} CollectsReplay(w: Window, expected: set<Topic>)
    requires Replays(w, expected)
    ensures RetainedSet(w) == expected
  {
    forall t | t in expected ensures t in RetainedSet(w) {
      var i :| 0 <= i < |w| && w[i].retained && w[i].topic == t;
    }
  }

  /** With retained messages on `a/x` and `a/y/z` (and one outside the
      subtree), a complete discovery window under `a` finds exactly both. */
  lemma DiscoversSubtreeExample(w: Window)
    requires Replays(w, Subtree({"a/x", "a/y/z", "ab/c"}, "a"))
    ensures RetainedSet(w) == {"a/x", "a/y/z"}
  {
    var store: Store := {"a/x", "a/y/z", "ab/c"};
    assert InSubtree("a", "a/x") && InSubtree("a", "a/y/z");
    assert !InSubtree("a", "ab/c") by {
      assert "ab/c"[..2][1] == 'b' && ("a" + "/")[1] == '/';
    }
    assert Subtree(store, "a") == {"a/x", "a/y/z"};
    CollectsReplay(w, Subtree(store, "a"));
  }
}
