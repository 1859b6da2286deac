/**
 * Token listeners as both mock engines keep them: callbacks identified by a number, a registry that
 * is a sequence (an insertion-ordered `Set` in one engine, a plain array in the other), and the log
 * of calls the engines make to them.
 */
module TokenListeners {
  import opened Common

  /** The identity of a callback function. */
  type ListenerId = nat

  /** One call `listener(token)`. */
  datatype Delivery = Delivery(listener: ListenerId, token: string)

  /** `listeners.forEach(l => l(token))`: each listener is called once, in registry order. */
  function Broadcast(listeners: seq<ListenerId>, token: string): seq<Delivery>
    decreases |listeners|
  {
    if listeners == [] then []
    else Broadcast(listeners[..|listeners| - 1], token) + [Delivery(Last(listeners), token)]
  }

  /** Broadcasting a series of tokens, one after the other. */
  function Stream(listeners: seq<ListenerId>, tokens: seq<string>): seq<Delivery>
    decreases |tokens|
  {
    if tokens == [] then []
    else Stream(listeners, tokens[..|tokens| - 1]) + Broadcast(listeners, Last(tokens))
  }

  /** The tokens a listener received, in the order it received them. */
  function Received(log: seq<Delivery>, listener: ListenerId): seq<string>
    decreases |log|
  {
    if log == [] then []
    else Received(log[..|log| - 1], listener)
         + (if Last(log).listener == listener then [Last(log).token] else [])
  }

  /** How often a listener occurs in the registry. */
  function Count(listeners: seq<ListenerId>, listener: ListenerId): nat
    decreases |listeners|
  {
    if listeners == [] then 0
    else Count(listeners[..|listeners| - 1], listener) + (if Last(listeners) == listener then 1 else 0)
  }

  /** `n` copies of one token. */
  function Repeat(token: string, n: nat): seq<string>
    decreases n
  {
    if n == 0 then [] else Repeat(token, n - 1) + [token]
  }

  /** A registry without duplicates, as a JavaScript `Set` is. */
  predicate NoDup(listeners: seq<ListenerId>) {
    forall i, j :: 0 <= i < j < |listeners| ==> listeners[i] != listeners[j]
  }

  /** `Set.add`: a callback already present stays where it is, a new one goes last. */
  function SetAdd(listeners: seq<ListenerId>, listener: ListenerId): seq<ListenerId> {
    if listener in listeners then listeners else listeners + [listener]
  }

  /** `listeners.filter(l => l !== listener)`, which is also `Set.delete` on a registry without duplicates. */
  function RemoveAll(listeners: seq<ListenerId>, listener: ListenerId): seq<ListenerId>
    decreases |listeners|
  {
    if listeners == [] then []
    else RemoveAll(listeners[..|listeners| - 1], listener)
         + (if Last(listeners) == listener then [] else [Last(listeners)])
  }

  /** What a listener receives from a log is what it receives from each part, in order. */
  lemma {:induction false} ReceivedAppend(a: seq<Delivery>, b: seq<Delivery>, listener: ListenerId)
    ensures Received(a + b, listener) == Received(a, listener) + Received(b, listener)
    decreases |b|
  {
    if b == [] {
      assert a + b == a;
    } else {
      assert (a + b)[..|a + b| - 1] == a + b[..|b| - 1];
      assert Last(a + b) == Last(b);
      ReceivedAppend(a, b[..|b| - 1], listener);
    }
  }

  /** A broadcast hands the token to a listener once per registration of it. */
  lemma {:induction false} ReceivedBroadcast(listeners: seq<ListenerId>, token: string, listener: ListenerId)
    ensures Received(Broadcast(listeners, token), listener) == Repeat(token, Count(listeners, listener))
    decreases |listeners|
  {
    if listeners != [] {
      var init := listeners[..|listeners| - 1];
      ReceivedBroadcast(init, token, listener);
      ReceivedAppend(Broadcast(init, token), [Delivery(Last(listeners), token)], listener);
      assert [Delivery(Last(listeners), token)][..0] == [];
    }
  }

  /**
   * A listener registered once receives every streamed token exactly once and in order; a listener
   * not registered receives nothing.
   */
  lemma {:induction false} ReceivedStream(listeners: seq<ListenerId>, tokens: seq<string>, listener: ListenerId)
    requires Count(listeners, listener) <= 1
    ensures Received(Stream(listeners, tokens), listener)
      == if Count(listeners, listener) == 1 then tokens else []
    decreases |tokens|
  {
    if tokens != [] {
      var init := tokens[..|tokens| - 1];
      var t := Last(tokens);
      assert Stream(listeners, tokens) == Stream(listeners, init) + Broadcast(listeners, t);
      ReceivedStream(listeners, init, listener);
      ReceivedAppend(Stream(listeners, init), Broadcast(listeners, t), listener);
      ReceivedBroadcast(listeners, t, listener);
      assert Repeat(t, 0) == [];
      if Count(listeners, listener) == 1 {
        assert Repeat(t, 1) == [t];
        assert init + [t] == tokens;
      }
    }
  }

  /** Streaming two series of tokens one after the other is streaming their concatenation. */
  lemma {:induction false} StreamAppend(listeners: seq<ListenerId>, a: seq<string>, b: seq<string>)
    ensures Stream(listeners, a + b) == Stream(listeners, a) + Stream(listeners, b)
    decreases |b|
  {
    if b == [] {
      assert a + b == a;
    } else {
      var init := b[..|b| - 1];
      assert (a + b)[..|a + b| - 1] == a + init;
      assert Last(a + b) == Last(b);
      StreamAppend(listeners, a, init);
      calc {
        Stream(listeners, a + b);
        Stream(listeners, a + init) + Broadcast(listeners, Last(b));
        Stream(listeners, a) + Stream(listeners, init) + Broadcast(listeners, Last(b));
        Stream(listeners, a) + Stream(listeners, b);
      }
    }
  }

  /** A listener occurs in the registry exactly when it is counted there. */
  lemma {:induction false} CountIn(listeners: seq<ListenerId>, listener: ListenerId)
    ensures Count(listeners, listener) > 0 <==> listener in listeners
    decreases |listeners|
  {
    if listeners != [] {
      var init := listeners[..|listeners| - 1];
      CountIn(init, listener);
      assert listeners == init + [Last(listeners)];
    }
  }

  /** In a registry without duplicates every listener is counted at most once. */
  lemma {:induction false} NoDupCount(listeners: seq<ListenerId>, listener: ListenerId)
    requires NoDup(listeners)
    ensures Count(listeners, listener) == if listener in listeners then 1 else 0
    decreases |listeners|
  {
    if listeners != [] {
      var init := listeners[..|listeners| - 1];
      NoDupCount(init, listener);
      CountIn(init, listener);
      assert listeners == init + [Last(listeners)];
    }
  }

  /**
   * `Set.add` keeps the registry free of duplicates, registers the listener once, keeps everything
   * else, and adding the same callback twice is the same as adding it once.
   */
  lemma SetAddSpec(listeners: seq<ListenerId>, listener: ListenerId)
    requires NoDup(listeners)
    ensures NoDup(SetAdd(listeners, listener))
    ensures Count(SetAdd(listeners, listener), listener) == 1
    ensures forall l :: l in SetAdd(listeners, listener) <==> l in listeners || l == listener
    ensures SetAdd(SetAdd(listeners, listener), listener) == SetAdd(listeners, listener)
  {
    NoDupCount(SetAdd(listeners, listener), listener);
  }

  /**
   * Removing a callback drops every occurrence of it, keeps every other callback as often as it
   * was registered, and keeps a registry without duplicates free of them.
   */
  lemma {:induction false} RemoveAllSpec(listeners: seq<ListenerId>, listener: ListenerId)
    ensures listener !in RemoveAll(listeners, listener)
    ensures forall l :: l != listener ==> Count(RemoveAll(listeners, listener), l) == Count(listeners, l)
    ensures NoDup(listeners) ==> NoDup(RemoveAll(listeners, listener))
    ensures forall l :: l in RemoveAll(listeners, listener) ==> l in listeners
    decreases |listeners|
  {
    if listeners != [] {
      var init := listeners[..|listeners| - 1];
      RemoveAllSpec(init, listener);
      assert listeners == init + [Last(listeners)];
      var rest := RemoveAll(init, listener);
      var tail := if Last(listeners) == listener then [] else [Last(listeners)];
      forall l | l != listener
        ensures Count(rest + tail, l) == Count(listeners, l)
      {
        if tail == [] {
          assert rest + tail == rest;
        } else {
          assert (rest + tail)[..|rest + tail| - 1] == rest;
        }
      }
      if NoDup(listeners) {
        assert NoDup(init);
        assert Last(listeners) !in init;
      }
    }
  }

  /** Removing distributes over concatenation, so the remaining callbacks keep their order. */
  lemma {:induction false} RemoveAllAppend(a: seq<ListenerId>, b: seq<ListenerId>, listener: ListenerId)
    ensures RemoveAll(a + b, listener) == RemoveAll(a, listener) + RemoveAll(b, listener)
    decreases |b|
  {
    if b == [] {
      assert a + b == a;
    } else {
      assert (a + b)[..|a + b| - 1] == a + b[..|b| - 1];
      assert Last(a + b) == Last(b);
      RemoveAllAppend(a, b[..|b| - 1], listener);
    }
  }

  /** Removing a callback that is not registered changes nothing. */
  lemma {:induction false} RemoveAbsent(listeners: seq<ListenerId>, listener: ListenerId)
    requires listener !in listeners
    ensures RemoveAll(listeners, listener) == listeners
    decreases |listeners|
  {
    if listeners != [] {
      var init := listeners[..|listeners| - 1];
      RemoveAbsent(init, listener);
      assert listeners == init + [Last(listeners)];
    }
  }
}
