/**
 * A model of SystemAbstractions::DiagnosticsSender: a named publisher of
 * levelled diagnostic messages to subscribers.
 *
 * Each subscription is kept under a token (1, 2, 3, ...) with the lowest
 * level its subscriber wants; the sender caches the lowest of those levels
 * so that a message below every subscriber's level is dropped at once. A
 * stack of context strings is prepended to every message published.
 *
 * Delegates are foreign functions in the source. Here a delegate is a value:
 * a subscriber's own callback is `Callback(id)`, the delegate returned by
 * `Chain()` is `Chained(outer)`. Publishing returns the delegate calls it
 * makes, in order; the caller performs them (a `Chained` call by calling
 * `ReceiveChained` on the outer sender).
 */
module Diagnostics {
  import opened Types

  /** The informal levels of the public interface. */
  const WARNING: SizeT := 5
  const ERROR: SizeT := 10

  /** Subscription tokens, handed out 1, 2, 3, ... */
  type Token = nat

  datatype Delegate =
    | Callback(id: nat)
    | Chained(outer: DiagnosticsSender)

  /** One subscriber: the function to call and the lowest level it wants. */
  datatype Subscription = Subscription(delegate: Delegate, minLevel: SizeT)

  /** One call of a subscriber's delegate with (senderName, level, message). */
  datatype Delivery = Delivery(delegate: Delegate, senderName: string, level: SizeT, message: string)

  /**
   * `m` is the lowest level any subscriber wants, or the largest `size_t`
   * when there is no subscriber.
   */
  ghost predicate IsMinLevel(m: SizeT, subs: map<Token, Subscription>)
  {
    && (forall t :: t in subs ==> m <= subs[t].minLevel)
    && (subs == map[] ==> m == SIZE_MAX)
    && (subs != map[] ==> exists t :: t in subs && subs[t].minLevel == m)
  }

  /** `t` is the smallest token of `s`. */
  predicate IsLeast(t: Token, s: set<Token>)
  {
    t in s && forall u :: u in s ==> t <= u
  }

  lemma {:induction false} LeastExists(s: set<Token>)
    requires s != {}
    ensures exists t :: IsLeast(t, s)
    decreases s
  {
    var x :| x in s;
    if s - {x} == {} {
      assert s == {x};
      assert IsLeast(x, s);
    } else {
      LeastExists(s - {x});
      var y :| IsLeast(y, s - {x});
      if x < y {
        forall u | u in s
          ensures x <= u
        {
          if u != x {
            assert u in s - {x};
          }
        }
        assert IsLeast(x, s);
      } else {
        forall u | u in s
          ensures y <= u
        {
          if u != x {
            assert u in s - {x};
          }
        }
        assert IsLeast(y, s);
      }
    }
  }

  /** The tokens of `s` in ascending order: the order a `std::map` is walked in. */
  ghost function Ascending(s: set<Token>): (r: seq<Token>)
    ensures |r| == |s|
    decreases s
  {
    if s == {} then []
    else
      LeastExists(s);
      var t :| IsLeast(t, s);
      [t] + Ascending(s - {t})
  }

  lemma AscendingFront(s: set<Token>, t: Token)
    requires IsLeast(t, s)
    ensures Ascending(s) == [t] + Ascending(s - {t})
  {
  }

  lemma AppendAssoc(a: seq<Token>, b: seq<Token>, c: seq<Token>)
    ensures a + (b + c) == (a + b) + c
  {
  }

  ghost predicate Increasing(ts: seq<Token>)
  {
    forall i, j :: 0 <= i < j < |ts| ==> ts[i] < ts[j]
  }

  /** Walking a map visits every token exactly once, in strictly ascending order. */
  lemma {:induction false} AscendingExact(s: set<Token>)
    ensures forall t :: t in Ascending(s) <==> t in s
    ensures Increasing(Ascending(s))
    decreases s
  {
    if s != {} {
      LeastExists(s);
      var t :| IsLeast(t, s);
      var r := Ascending(s);
      var rest := Ascending(s - {t});
      assert r == [t] + rest by { AscendingFront(s, t); }
      AscendingExact(s - {t});
      forall i, j | 0 <= i < j < |r|
        ensures r[i] < r[j]
      {
        assert r[j] == rest[j - 1] && rest[j - 1] in s - {t};
        if i > 0 {
          assert r[i] == rest[i - 1];
        }
      }
    }
  }

  /** The tokens of `ts` whose subscriber wants messages at `level`, in the order of `ts`. */
  ghost function Selected(subs: map<Token, Subscription>, ts: seq<Token>, level: SizeT): (r: seq<Token>)
    requires forall i :: 0 <= i < |ts| ==> ts[i] in subs
    ensures |r| <= |ts|
    ensures forall i :: 0 <= i < |r| ==> r[i] in subs && level >= subs[r[i]].minLevel
  {
    if ts == [] then []
    else
      var last := ts[|ts| - 1];
      Selected(subs, ts[..|ts| - 1], level) + (if level >= subs[last].minLevel then [last] else [])
  }

  /** Visiting one more token selects it exactly when its subscriber wants the level. */
  lemma SelectedPush(subs: map<Token, Subscription>, ts: seq<Token>, t: Token, level: SizeT)
    requires forall i :: 0 <= i < |ts| ==> ts[i] in subs
    requires t in subs
    ensures forall i :: 0 <= i < |ts + [t]| ==> (ts + [t])[i] in subs
    ensures Selected(subs, ts + [t], level) == Selected(subs, ts, level) + (if level >= subs[t].minLevel then [t] else [])
  {
    assert (ts + [t])[..|ts|] == ts;
  }

  lemma {:induction false} SelectedExact(subs: map<Token, Subscription>, ts: seq<Token>, level: SizeT)
    requires forall i :: 0 <= i < |ts| ==> ts[i] in subs
    ensures forall t :: t in Selected(subs, ts, level) <==> t in ts && level >= subs[t].minLevel
    ensures Increasing(ts) ==> Increasing(Selected(subs, ts, level))
    decreases |ts|
  {
    if ts != [] {
      var front := ts[..|ts| - 1];
      SelectedExact(subs, front, level);
      assert ts == front + [ts[|ts| - 1]];
      if Increasing(ts) {
        assert Increasing(front);
        var last := ts[|ts| - 1];
        var r := Selected(subs, ts, level);
        var p := Selected(subs, front, level);
        forall i, j | 0 <= i < j < |r|
          ensures r[i] < r[j]
        {
          if j >= |p| {
            assert r[j] == last && r[i] == p[i];
            assert p[i] in front;
            var k :| 0 <= k < |front| && front[k] == p[i];
            assert ts[k] == p[i];
          } else {
            assert r[i] == p[i] && r[j] == p[j];
          }
        }
      }
    }
  }

  /** The subscribers a message at `level` reaches, in the order they are called. */
  ghost function Recipients(subs: map<Token, Subscription>, level: SizeT): (r: seq<Token>)
    ensures |r| <= |subs|
    ensures forall k :: 0 <= k < |r| ==> r[k] in subs && level >= subs[r[k]].minLevel
  {
    AscendingExact(subs.Keys);
    Selected(subs, Ascending(subs.Keys), level)
  }

  /**
   * A message at `level` reaches exactly the subscribers whose minimum level
   * it meets, each once, in ascending token order.
   */
  lemma RecipientsExact(subs: map<Token, Subscription>, level: SizeT)
    ensures forall t :: t in Recipients(subs, level) <==> t in subs && level >= subs[t].minLevel
    ensures Increasing(Recipients(subs, level))
  {
    AscendingExact(subs.Keys);
    SelectedExact(subs, Ascending(subs.Keys), level);
  }

  /** Below the cached minimum, nobody is reached: the early return loses no message. */
  lemma RecipientsBelowMin(subs: map<Token, Subscription>, m: SizeT, level: SizeT)
    requires IsMinLevel(m, subs) && level < m
    ensures Recipients(subs, level) == []
  {
    AscendingExact(subs.Keys);
    SelectedNone(subs, Ascending(subs.Keys), level);
  }

  /** A level below every subscriber's minimum selects nobody. */
  lemma {:induction false} SelectedNone(subs: map<Token, Subscription>, ts: seq<Token>, level: SizeT)
    requires forall i :: 0 <= i < |ts| ==> ts[i] in subs && level < subs[ts[i]].minLevel
    ensures Selected(subs, ts, level) == []
    decreases |ts|
  {
    if ts != [] {
      SelectedNone(subs, ts[..|ts| - 1], level);
    }
  }

  /** A subscriber alone is reached exactly when the level meets its minimum. */
  lemma RecipientsOfOne(t: Token, s: Subscription, level: SizeT)
    ensures Recipients(map[t := s], level) == if level >= s.minLevel then [t] else []
  {
    var subs := map[t := s];
    assert subs.Keys == {t};
    assert IsLeast(t, {t});
    AscendingFront({t}, t);
    assert {t} - {t} == {};
    assert Ascending({t}) == [t];
    assert [t][..0] == [];
    assert Recipients(subs, level) == Selected(subs, [t], level);
    assert Selected(subs, [t], level) == Selected(subs, [], level) + (if level >= s.minLevel then [t] else []);
  }

  /** Subscribing at `level` makes the minimum the smaller of the old one and `level`. */
  lemma SubscribeKeepsMin(m: SizeT, subs: map<Token, Subscription>, token: Token, sub: Subscription)
    requires IsMinLevel(m, subs) && token !in subs
    ensures IsMinLevel(if m <= sub.minLevel then m else sub.minLevel, subs[token := sub])
  {
    var subs' := subs[token := sub];
    assert token in subs';
    if m <= sub.minLevel && subs != map[] {
      var w :| w in subs && subs[w].minLevel == m;
      assert w in subs' && subs'[w].minLevel == m;
    }
  }

  /** Dropping a subscriber that does not hold the minimum leaves the minimum as it is. */
  lemma UnsubscribeKeepsMin(m: SizeT, subs: map<Token, Subscription>, token: Token)
    requires IsMinLevel(m, subs) && token in subs && subs[token].minLevel != m
    ensures IsMinLevel(m, subs - {token})
  {
    var w :| w in subs && subs[w].minLevel == m;
    assert w in subs - {token};
  }

  /** The `a: b: ` prefix built from a context stack, bottom of the stack first. */
  function ContextPrefix(stack: seq<string>): (r: string)
    ensures |r| >= 2 * |stack|
    ensures stack == [] ==> r == ""
    ensures stack != [] ==> r[|r| - 2] == ':' && r[|r| - 1] == ' '
  {
    if stack == [] then "" else ContextPrefix(stack[..|stack| - 1]) + stack[|stack| - 1] + ": "
  }

  /** The prefix opens with the bottom context and its separator. */
  lemma {:induction false} ContextPrefixFront(c: string, stack: seq<string>)
    ensures ContextPrefix([c] + stack) == c + ": " + ContextPrefix(stack)
    decreases |stack|
  {
    if stack == [] {
      assert ([c] + stack)[..0] == [];
    } else {
      var init, last := stack[..|stack| - 1], stack[|stack| - 1];
      assert ([c] + stack)[..|stack|] == [c] + init && ([c] + stack)[|stack|] == last;
      assert ContextPrefix([c] + stack) == ContextPrefix([c] + init) + last + ": ";
      ContextPrefixFront(c, init);
      assert ContextPrefix(stack) == ContextPrefix(init) + last + ": ";
    }
  }

  /** Pushing a context appends that context and its separator to the prefix. */
  lemma ContextPrefixPush(stack: seq<string>, c: string)
    ensures ContextPrefix(stack + [c]) == ContextPrefix(stack) + c + ": "
  {
    assert (stack + [c])[..|stack|] == stack;
  }

  /** The calls made to the subscribers `ts`, in order, with (name, level, message). */
  function Deliveries(subs: map<Token, Subscription>, ts: seq<Token>, name: string, level: SizeT, message: string)
    : (r: seq<Delivery>)
    requires forall i :: 0 <= i < |ts| ==> ts[i] in subs
    ensures |r| == |ts|
    ensures forall k :: 0 <= k < |r| ==> r[k] == Delivery(subs[ts[k]].delegate, name, level, message)
  {
    if ts == [] then []
    else
      Deliveries(subs, ts[..|ts| - 1], name, level, message)
      + [Delivery(subs[ts[|ts| - 1]].delegate, name, level, message)]
  }

  /**
   * The walk over the subscriber map, in ascending token order, calling each
   * subscriber whose minimum level `level` meets with (name, level, message).
   */
  method DeliverToSubscribers(subscribers: map<Token, Subscription>, name: string, level: SizeT, message: string)
    returns (calls: seq<Delivery>)
    ensures |calls| == |Recipients(subscribers, level)|
    ensures forall k :: 0 <= k < |calls| ==>
              var t := Recipients(subscribers, level)[k];
              t in subscribers && calls[k] == Delivery(subscribers[t].delegate, name, level, message)
  {
    calls := [];
    var remaining := subscribers.Keys;
    ghost var visited: seq<Token> := [];
    ghost var reached: seq<Token> := [];
    while remaining != {}
      invariant remaining <= subscribers.Keys
      invariant Ascending(subscribers.Keys) == visited + Ascending(remaining)
      invariant forall i :: 0 <= i < |visited| ==> visited[i] in subscribers
      invariant reached == Selected(subscribers, visited, level)
      invariant calls == Deliveries(subscribers, reached, name, level, message)
      decreases remaining
    {
      LeastExists(remaining);
      var t :| IsLeast(t, remaining);
      assert Ascending(subscribers.Keys) == (visited + [t]) + Ascending(remaining - {t}) by {
        AscendingFront(remaining, t);
        AppendAssoc(visited, [t], Ascending(remaining - {t}));
      }
      var subscriber := subscribers[t];
      if level >= subscriber.minLevel {
        calls := calls + [Delivery(subscriber.delegate, name, level, message)];
        assert (reached + [t])[..|reached|] == reached;
        reached := reached + [t];
      }
      SelectedPush(subscribers, visited, t, level);
      visited := visited + [t];
      remaining := remaining - {t};
    }
    assert visited == Ascending(subscribers.Keys);
  }

  /** The loop that joins the contexts, bottom of the stack first, each followed by `": "`. */
  method ContextChain(contextStack: seq<string>) returns (contextChain: string)
    ensures contextChain == ContextPrefix(contextStack)
  {
    contextChain := "";
    for k := 0 to |contextStack|
      invariant contextChain == ContextPrefix(contextStack[..k])
    {
      assert contextStack[..k + 1] == contextStack[..k] + [contextStack[k]];
      ContextPrefixPush(contextStack[..k], contextStack[k]);
      contextChain := contextChain + contextStack[k] + ": ";
    }
    assert contextStack[..|contextStack|] == contextStack;
  }

  /** The message a subscriber receives: the context prefix, then the message itself. */
  function Decorated(stack: seq<string>, message: string): (r: string)
    ensures stack == [] ==> r == message
  {
    ContextPrefix(stack) + message
  }

  /** The message a `Chain()` delegate republishes: `senderName: message`. */
  function ChainedMessage(senderName: string, message: string): (r: string)
    ensures |r| == |senderName| + 2 + |message|
    ensures r[..|senderName|] == senderName && r[|senderName|..|senderName| + 2] == ": "
    ensures r[|senderName| + 2..] == message
  {
    senderName + ": " + message
  }

  class DiagnosticsSender {
    /** The name delivered with every message published by this sender. */
    const name: string
    /** The current subscriptions, by token. */
    var subscribers: map<Token, Subscription>
    /** The token the next subscription gets. */
    var nextSubscriptionToken: Token
    /** The lowest level of all subscriptions, cached. */
    var minLevel: SizeT
    /** The contexts prepended to every message, bottom first. */
    var contextStack: seq<string>
    /** False once the sender is destroyed (all its weak references expire). */
    var alive: bool

    /**
     * The cached minimum is the minimum, and every token in use was handed
     * out before `nextSubscriptionToken`.
     */
    ghost predicate Valid()
      reads this
    {
      && IsMinLevel(minLevel, subscribers)
      && 1 <= nextSubscriptionToken
      && (forall t :: t in subscribers ==> 1 <= t < nextSubscriptionToken)
    }

    constructor (name: string)
      ensures Valid() && alive
      ensures this.name == name && subscribers == map[] && nextSubscriptionToken == 1
      ensures minLevel == SIZE_MAX && contextStack == []
    {
      this.name := name;
      subscribers := map[];
      nextSubscriptionToken := 1;
      minLevel := SIZE_MAX;
      contextStack := [];
      alive := true;
    }

    /**
     * Subscribes `delegate` to messages at `level` and above, returning the
     * token that identifies the subscription to `Unsubscribe`.
     */
    method SubscribeToDiagnostics(delegate: Delegate, level: SizeT := 0) returns (token: Token)
      requires Valid() && alive
      modifies this
      ensures Valid() && alive
      ensures token == old(nextSubscriptionToken) && token !in old(subscribers)
      ensures nextSubscriptionToken == old(nextSubscriptionToken) + 1
      ensures subscribers == old(subscribers)[token := Subscription(delegate, level)]
      ensures minLevel == Min(old(minLevel), level)
      ensures contextStack == old(contextStack)
    {
      token := nextSubscriptionToken;
      nextSubscriptionToken := nextSubscriptionToken + 1;
      SubscribeKeepsMin(minLevel, subscribers, token, Subscription(delegate, level));
      subscribers := subscribers[token := Subscription(delegate, level)];
      minLevel := if minLevel <= level then minLevel else level;
    }

    /**
     * The closure returned by a subscription, for `token`: does nothing once
     * the sender is gone or the token is no longer subscribed; otherwise
     * removes that one subscription and, if it held the cached minimum,
     * rescans the rest for the new minimum.
     */
    method Unsubscribe(token: Token)
      requires Valid()
      modifies this
      ensures Valid() && alive == old(alive)
      ensures !old(alive) || token !in old(subscribers) ==>
                subscribers == old(subscribers) && minLevel == old(minLevel)
      ensures old(alive) ==> subscribers == old(subscribers) - {token}
      ensures nextSubscriptionToken == old(nextSubscriptionToken) && contextStack == old(contextStack)
    {
      if !alive || token !in subscribers {
        return;
      }
      var oldSubscription := subscribers[token];
      if oldSubscription.minLevel != minLevel {
        UnsubscribeKeepsMin(minLevel, subscribers, token);
      }
      subscribers := subscribers - {token};
      if oldSubscription.minLevel == minLevel {
        minLevel := SIZE_MAX;
        var remaining := subscribers.Keys;
        while remaining != {}
          invariant subscribers == old(subscribers) - {token} && alive == old(alive)
          invariant nextSubscriptionToken == old(nextSubscriptionToken) && contextStack == old(contextStack)
          invariant remaining <= subscribers.Keys
          invariant forall t :: t in subscribers && t !in remaining ==> minLevel <= subscribers[t].minLevel
          invariant minLevel == SIZE_MAX
                 || exists t :: t in subscribers && t !in remaining && subscribers[t].minLevel == minLevel
          decreases remaining
        {
          var t :| t in remaining;
          var subscriber := subscribers[t];
          minLevel := if minLevel <= subscriber.minLevel then minLevel else subscriber.minLevel;
          remaining := remaining - {t};
        }
      }
    }

    /**
     * Publishes `message` at `level`: every subscriber whose minimum the
     * level meets is called, in token order, with this sender's name, the
     * level, and the message behind the context prefix.
     */
    method SendDiagnosticInformationString(level: SizeT, message: string) returns (calls: seq<Delivery>)
      requires Valid() && alive
      ensures |calls| == |Recipients(subscribers, level)|
      ensures forall k :: 0 <= k < |calls| ==>
                var t := Recipients(subscribers, level)[k];
                t in subscribers
                && calls[k] == Delivery(subscribers[t].delegate, name, level, Decorated(contextStack, message))
    {
      calls := [];
      if level < minLevel {
        RecipientsBelowMin(subscribers, minLevel, level);
        return;
      }
      var decorated := message;
      if contextStack != [] {
        var contextChain := ContextChain(contextStack);
        decorated := contextChain + message;
      }
      calls := DeliverToSubscribers(subscribers, name, level, decorated);
    }

    /**
     * The format-string publisher, on the message it formats: the level gate
     * comes first, and the rest is `SendDiagnosticInformationString`.
     */
    method SendDiagnosticInformationFormatted(level: SizeT, formatted: string) returns (calls: seq<Delivery>)
      requires Valid() && alive
      ensures level < minLevel ==> calls == []
      ensures |calls| == |Recipients(subscribers, level)|
      ensures forall k :: 0 <= k < |calls| ==>
                var t := Recipients(subscribers, level)[k];
                t in subscribers
                && calls[k] == Delivery(subscribers[t].delegate, name, level, Decorated(contextStack, formatted))
    {
      if level < minLevel {
        RecipientsBelowMin(subscribers, minLevel, level);
        return [];
      }
      calls := SendDiagnosticInformationString(level, formatted);
    }

    /** The delegate `Chain()` returns: it republishes on this sender. */
    function Chain(): (d: Delegate)
      ensures d.Chained? && d.outer == this
    {
      Chained(this)
    }

    /**
     * What a `Chain()` delegate does when an inner sender calls it: nothing
     * once this sender is gone; otherwise this sender publishes the message
     * at the same level, as `senderName: message`.
     */
    method ReceiveChained(senderName: string, level: SizeT, message: string) returns (calls: seq<Delivery>)
      requires Valid()
      ensures !alive ==> calls == []
      ensures alive ==> |calls| == |Recipients(subscribers, level)|
      ensures alive ==> forall k :: 0 <= k < |calls| ==>
                var t := Recipients(subscribers, level)[k];
                t in subscribers
                && calls[k] == Delivery(subscribers[t].delegate, name, level,
                                        Decorated(contextStack, ChainedMessage(senderName, message)))
    {
      if !alive {
        return [];
      }
      calls := SendDiagnosticInformationString(level, senderName + ": " + message);
    }

    /** The lowest level any subscriber wants; the largest `size_t` with no subscriber. */
    function GetMinLevel(): (m: SizeT)
      reads this
      requires Valid()
      ensures IsMinLevel(m, subscribers)
    {
      minLevel
    }

    method PushContext(context: string)
      requires Valid() && alive
      modifies this
      ensures Valid() && alive
      ensures contextStack == old(contextStack) + [context]
      ensures subscribers == old(subscribers) && minLevel == old(minLevel)
      ensures nextSubscriptionToken == old(nextSubscriptionToken)
    {
      contextStack := contextStack + [context];
    }

    /** Removes the top context; the stack must not be empty (`pop_back` on an empty deque is undefined). */
    method PopContext()
      requires Valid() && alive && contextStack != []
      modifies this
      ensures Valid() && alive
      ensures contextStack == old(contextStack)[..|old(contextStack)| - 1]
      ensures subscribers == old(subscribers) && minLevel == old(minLevel)
      ensures nextSubscriptionToken == old(nextSubscriptionToken)
    {
      contextStack := contextStack[..|contextStack| - 1];
    }

    /** The destructor: the shared state goes, and every weak reference to it expires. */
    method Destroy()
      modifies this
      ensures !alive
      ensures subscribers == old(subscribers) && minLevel == old(minLevel)
      ensures nextSubscriptionToken == old(nextSubscriptionToken) && contextStack == old(contextStack)
    {
      alive := false;
    }
  }
}
