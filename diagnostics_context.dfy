/**
 * A model of SystemAbstractions::DiagnosticsContext: a scope guard that
 * pushes a context string onto a sender for as long as it lives. A scope
 * ending is modelled by calling `Destroy`.
 */
module DiagnosticsScopes {
  import opened Diagnostics

  class DiagnosticsContext {
    /** The sender whose context stack this guard holds an entry on. */
    const diagnosticsSender: DiagnosticsSender

    /** Pushes `context` onto `diagnosticsSender`'s context stack. */
    constructor (diagnosticsSender: DiagnosticsSender, context: string)
      requires diagnosticsSender.Valid() && diagnosticsSender.alive
      modifies diagnosticsSender
      ensures this.diagnosticsSender == diagnosticsSender
      ensures diagnosticsSender.Valid() && diagnosticsSender.alive
      ensures diagnosticsSender.contextStack == old(diagnosticsSender.contextStack) + [context]
      ensures diagnosticsSender.subscribers == old(diagnosticsSender.subscribers)
      ensures diagnosticsSender.minLevel == old(diagnosticsSender.minLevel)
      ensures diagnosticsSender.nextSubscriptionToken == old(diagnosticsSender.nextSubscriptionToken)
    {
      this.diagnosticsSender := diagnosticsSender;
      new;
      diagnosticsSender.PushContext(context);
    }

    /** The destructor: pops the top entry of the sender's context stack. */
    method Destroy()
      requires diagnosticsSender.Valid() && diagnosticsSender.alive && diagnosticsSender.contextStack != []
      modifies diagnosticsSender
      ensures diagnosticsSender.Valid() && diagnosticsSender.alive
      ensures diagnosticsSender.contextStack == old(diagnosticsSender.contextStack)[..|old(diagnosticsSender.contextStack)| - 1]
      ensures diagnosticsSender.subscribers == old(diagnosticsSender.subscribers)
      ensures diagnosticsSender.minLevel == old(diagnosticsSender.minLevel)
      ensures diagnosticsSender.nextSubscriptionToken == old(diagnosticsSender.nextSubscriptionToken)
    {
      diagnosticsSender.PopContext();
    }
  }

  /**
   * A guard's lifetime on a sender: construction and destruction with
   * nothing else touching the stack in between leave the stack as it was.
   */
  method GuardedScope(sender: DiagnosticsSender, context: string) returns (inside: seq<string>, after: seq<string>)
    requires sender.Valid() && sender.alive
    modifies sender
    ensures sender.Valid() && sender.alive
    ensures inside == old(sender.contextStack) + [context]
    ensures after == old(sender.contextStack) && sender.contextStack == after
    ensures sender.subscribers == old(sender.subscribers) && sender.minLevel == old(sender.minLevel)
    ensures sender.nextSubscriptionToken == old(sender.nextSubscriptionToken)
  {
    var guard := new DiagnosticsContext(sender, context);
    inside := sender.contextStack;
    guard.Destroy();
    after := sender.contextStack;
    assert inside[..|inside| - 1] == after;
  }
}
