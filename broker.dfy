/** What the cleaner sees of an MQTT 3.1.1 broker.

    The client library is not modelled: a subscription window is the finite
    sequence of messages the library hands to the handler before the fixed sleep
    ends, and a publish is an acknowledgement the caller receives or not.
 */
module Broker {

  /** A concrete, slash-delimited topic name. */
  type Topic = string

  /** A message handed to a subscription's callback. The handlers only look at
      the topic and at the RETAIN flag, so the payload is left out. */
  datatype Message = Message(topic: Topic, retained: bool)

  /** The messages delivered during one subscription window, in arrival order. */
  type Window = seq<Message>

  /** Topics on which the broker holds a retained message. */
  type Store = set<Topic>

  /** The topics selected by subscribing to both `base` and `base + "/#"`:
      the base topic itself and every topic below it. */
  predicate InSubtree(base: Topic, t: Topic) {
    t == base || (|base| < |t| && t[..|base| + 1] == base + "/")
  }

  /** The topics of `store` that the two discovery subscriptions select. */
  function Subtree(store: Store, base: Topic): (sel: set<Topic>)
    ensures sel <= store
    ensures forall t :: t in store && InSubtree(base, t) ==> t in sel
    ensures forall t :: t in sel ==> InSubtree(base, t)
  {
    set t | t in store && InSubtree(base, t)
  }

  /** A window in which the broker replayed exactly the retained messages on
      the topics of `expected` (each at least once, in any order, possibly
      interleaved with live non-retained traffic): the window was long enough. */
  predicate Replays(w: Window, expected: set<Topic>) {
    && (forall i :: 0 <= i < |w| && w[i].retained ==> w[i].topic in expected)
    && (forall t :: t in expected ==> exists i :: 0 <= i < |w| && w[i].retained && w[i].topic == t)
  }
}
