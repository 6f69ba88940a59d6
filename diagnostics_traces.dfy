/**
 * The message traces of the DiagnosticsSender and DiagnosticsContext unit
 * tests, derived from the model. Each subscriber of a test records what its
 * callback receives; here a callback is `Callback(0)` and what it receives
 * is read off the delegate calls a publish returns.
 */
module DiagnosticsTraces {
  import opened Types
  import opened Diagnostics
  import opened DiagnosticsScopes

  /** One message as a test's subscriber records it. */
  datatype Received = Received(senderName: string, level: SizeT, message: string)

  /** What callback `id` receives from the delegate calls `calls`, in order. */
  function Record(calls: seq<Delivery>, id: nat): (r: seq<Received>)
    ensures |r| <= |calls|
    ensures forall c :: c in calls && c.delegate == Callback(id) ==> Received(c.senderName, c.level, c.message) in r
    ensures forall x :: x in r ==>
              exists c :: c in calls && c.delegate == Callback(id) && x == Received(c.senderName, c.level, c.message)
  {
    if calls == [] then []
    else
      var c := calls[0];
      (if c.delegate == Callback(id) then [Received(c.senderName, c.level, c.message)] else [])
      + Record(calls[1..], id)
  }

  /** The record keeps the order of the calls: recording two runs of calls is recording each in turn. */
  lemma {:induction false} RecordAppend(a: seq<Delivery>, b: seq<Delivery>, id: nat)
    ensures Record(a + b, id) == Record(a, id) + Record(b, id)
    decreases |a|
  {
    if a == [] {
      assert a + b == b;
    } else {
      var c := a[0];
      var head := if c.delegate == Callback(id) then [Received(c.senderName, c.level, c.message)] else [];
      assert (a + b)[0] == c && (a + b)[1..] == a[1..] + b;
      assert Record(a + b, id) == head + Record(a[1..] + b, id);
      RecordAppend(a[1..], b, id);
      assert Record(a, id) == head + Record(a[1..], id);
      assert head + (Record(a[1..], id) + Record(b, id)) == (head + Record(a[1..], id)) + Record(b, id);
    }
  }

  /** Nobody subscribed: nobody is reached. */
  lemma RecipientsOfNone(level: SizeT)
    ensures Recipients(map[], level) == []
  {
    var empty: map<Token, Subscription> := map[];
    assert empty.Keys == {};
  }

  /** One publish to a sender whose only subscriber is `Callback(0)` under `token`. */
  method SendToOne(sender: DiagnosticsSender, token: Token, minLevel: SizeT, level: SizeT, message: string)
    returns (r: seq<Received>)
    requires sender.Valid() && sender.alive
    requires sender.subscribers == map[token := Subscription(Callback(0), minLevel)]
    ensures level >= minLevel ==> r == [Received(sender.name, level, Decorated(sender.contextStack, message))]
    ensures level < minLevel ==> r == []
  {
    var calls := sender.SendDiagnosticInformationString(level, message);
    RecipientsOfOne(token, Subscription(Callback(0), minLevel), level);
    r := Record(calls, 0);
  }

  /**
   * BasicSubscriptionAndTransmission: subscribe at 5, publish at 10, 3,
   * then 4 and 5 under the context "spam", then 6; unsubscribe; publish at 5.
   */
  method BasicSubscriptionAndTransmission() returns (minLevelAfterSubscribe: SizeT, received: seq<Received>)
    ensures minLevelAfterSubscribe == 5
    ensures received == [
      Received("Joe", 10, "PogChamp"),
      Received("Joe", 5, "spam: Level 5, can you dig it?"),
      Received("Joe", 6, "Level 6 FOR THE WIN")]
  {
    var sender := new DiagnosticsSender("Joe");
    var calls := sender.SendDiagnosticInformationString(100, "Very important message nobody will hear; FeeksBadMan");
    RecipientsOfNone(100);
    var unsubscribeToken := sender.SubscribeToDiagnostics(Callback(0), 5);
    minLevelAfterSubscribe := sender.GetMinLevel();
    received := BasicTransmissions(sender, unsubscribeToken);
    sender.Unsubscribe(unsubscribeToken);
    assert sender.subscribers == map[];
    var late := sender.SendDiagnosticInformationString(5, "Are you still there?");
    RecipientsOfNone(5);
    assert calls == [] && late == [];
    received := Record(calls, 0) + received + Record(late, 0);
  }

  /** The publishes of BasicSubscriptionAndTransmission while its subscription is in place. */
  method BasicTransmissions(sender: DiagnosticsSender, token: Token) returns (received: seq<Received>)
    requires sender.Valid() && sender.alive && sender.contextStack == []
    requires sender.subscribers == map[token := Subscription(Callback(0), 5)]
    modifies sender
    ensures sender.Valid() && sender.alive && sender.contextStack == []
    ensures sender.subscribers == old(sender.subscribers)
    ensures received == [
      Received(sender.name, 10, "PogChamp"),
      Received(sender.name, 5, "spam: Level 5, can you dig it?"),
      Received(sender.name, 6, "Level 6 FOR THE WIN")]
  {
    var r1 := SendToOne(sender, token, 5, 10, "PogChamp");
    var r2 := SendToOne(sender, token, 5, 3, "Did you hear that?");
    sender.PushContext("spam");
    var r3 := SendToOne(sender, token, 5, 4, "Level 4 whisper...");
    var r4 := SendToOne(sender, token, 5, 5, "Level 5, can you dig it?");
    SpamApplied();
    sender.PopContext();
    var r5 := SendToOne(sender, token, 5, 6, "Level 6 FOR THE WIN");
    received := r1 + r2 + r3 + r4 + r5;
  }

  /** FormattedMessage: the default subscription (level 0) receives a formatted message at level 0. */
  method FormattedMessage() returns (received: seq<Received>)
    ensures received == [Received("Joe", 0, "The answer is 42.")]
  {
    var sender := new DiagnosticsSender("Joe");
    var token := sender.SubscribeToDiagnostics(Callback(0));
    var calls := sender.SendDiagnosticInformationFormatted(0, "The answer is 42.");
    RecipientsOfOne(token, Subscription(Callback(0), 0), 0);
    received := Record(calls, 0);
  }

  /**
   * Chaining: `inner` is subscribed to `outer.Chain()`; a message published
   * on `inner` reaches `outer`'s subscriber as `inner: message`, from `outer`.
   */
  method Chaining() returns (received: seq<Received>)
    ensures received == [Received("outer", 0, "inner: The answer is 42.")]
  {
    var outer := new DiagnosticsSender("outer");
    var inner := new DiagnosticsSender("inner");
    var outerToken := outer.SubscribeToDiagnostics(Callback(0));
    var innerToken := inner.SubscribeToDiagnostics(outer.Chain());
    var calls := inner.SendDiagnosticInformationFormatted(0, "The answer is 42.");
    RecipientsOfOne(innerToken, Subscription(Chained(outer), 0), 0);
    assert calls == [Delivery(Chained(outer), "inner", 0, "The answer is 42.")];
    var forwarded := outer.ReceiveChained(calls[0].senderName, calls[0].level, calls[0].message);
    RecipientsOfOne(outerToken, Subscription(Callback(0), 0), 0);
    assert forwarded == [Delivery(Callback(0), "outer", 0, ChainedMessage("inner", "The answer is 42."))];
    ChainedAnswer();
    received := Record(calls, 0) + Record(forwarded, 0);
  }

  /** Under a single context `c`, a message `m` reads `c: m`. */
  lemma ContextApplied(c: string, m: string)
    ensures Decorated([c], m) == c + ": " + m
  {
    assert [c][..0] == [];
    assert ContextPrefix([c]) == "" + c + ": ";
    assert "" + c == c;
  }

  lemma SpamApplied()
    ensures Decorated(["spam"], "Level 5, can you dig it?") == "spam: Level 5, can you dig it?"
  {
    ContextApplied("spam", "Level 5, can you dig it?");
  }

  lemma BarApplied()
    ensures Decorated(["bar"], "world") == "bar: world"
  {
    ContextApplied("bar", "world");
  }

  lemma ChainedAnswer()
    ensures ChainedMessage("inner", "The answer is 42.") == "inner: The answer is 42."
  {
  }

  /** PublishAfterChainedSenderDestroyed: with `outer` gone, the chained delegate delivers nothing. */
  method PublishAfterChainedSenderDestroyed() returns (received: seq<Received>)
    ensures received == []
  {
    var outer := new DiagnosticsSender("outer");
    var inner := new DiagnosticsSender("inner");
    var outerToken := outer.SubscribeToDiagnostics(Callback(0));
    var innerToken := inner.SubscribeToDiagnostics(outer.Chain());
    outer.Destroy();
    var calls := inner.SendDiagnosticInformationFormatted(0, "The answer is 42.");
    RecipientsOfOne(innerToken, Subscription(Chained(outer), 0), 0);
    assert calls == [Delivery(Chained(outer), "inner", 0, "The answer is 42.")];
    var forwarded := outer.ReceiveChained(calls[0].senderName, calls[0].level, calls[0].message);
    received := Record(calls, 0) + Record(forwarded, 0);
  }

  /** UnsubscribeAfterSenderDestroyed: the closure outliving its sender does nothing. */
  method UnsubscribeAfterSenderDestroyed() returns (left: map<Token, Subscription>, wasAlive: bool)
    ensures left == map[1 := Subscription(Callback(0), 0)] && !wasAlive
  {
    var sender := new DiagnosticsSender("sender");
    var unsubscribeToken := sender.SubscribeToDiagnostics(Callback(0));
    sender.Destroy();
    sender.Unsubscribe(unsubscribeToken);
    left, wasAlive := sender.subscribers, sender.alive;
  }

  /**
   * Two subscribers at 5 (token 1) and 3 (token 2): removing token 2 makes
   * the rescan find 5; removing it again changes nothing; a message at 4
   * then reaches nobody.
   */
  method UnsubscribeRescan() returns (minAfterFirst: SizeT, minAfterSecond: SizeT, received: seq<Received>)
    ensures minAfterFirst == 5 && minAfterSecond == 5 && received == []
  {
    var sender := new DiagnosticsSender("Joe");
    var first := sender.SubscribeToDiagnostics(Callback(0), 5);
    var second := sender.SubscribeToDiagnostics(Callback(1), 3);
    assert sender.minLevel == 3;
    sender.Unsubscribe(second);
    assert sender.subscribers == map[1 := Subscription(Callback(0), 5)];
    minAfterFirst := sender.GetMinLevel();
    sender.Unsubscribe(second);
    minAfterSecond := sender.GetMinLevel();
    received := SendToOne(sender, first, 5, 4, "whisper");
  }

  /**
   * PushAndPopContext: a message inside a guard for "bar" carries the
   * prefix "bar: "; the messages before and after it do not.
   */
  method PushAndPopContext() returns (received: seq<Received>)
    ensures received == [
      Received("foo", 0, "hello"),
      Received("foo", 0, "bar: world"),
      Received("foo", 0, "last message")]
  {
    var sender := new DiagnosticsSender("foo");
    var token := sender.SubscribeToDiagnostics(Callback(0));
    var r1 := SendToOne(sender, token, 0, 0, "hello");
    var testContext := new DiagnosticsContext(sender, "bar");
    var r2 := SendToOne(sender, token, 0, 0, "world");
    BarApplied();
    testContext.Destroy();
    var r3 := SendToOne(sender, token, 0, 0, "last message");
    received := r1 + r2 + r3;
  }
}
