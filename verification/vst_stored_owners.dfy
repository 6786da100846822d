/** Whether all items in the store own their requests, which minimumTimeout relies on: the exact
    condition over all runs. */
module VstStoredOwners {
  import opened VstConnections
  import opened VstConnectionRuns
  import opened VstConservation
  import opened VstLedger

  predicate StoredOwn(s: State) {
    s.c.req.messageStore <= s.c.req.owned
  }

  /** A request that has been handed over is added to the store, or one is answered while it is in
      the store. */
  predicate MixesUp(s: State, a: Action) {
    match a
    case OfWriter(w, AddToStore) => s.dequeue.Peeked? && s.dequeue.id !in s.c.req.owned
    case OfWriter(w, AnswerFailed) => exists id :: id in s.c.req.messageStore && s.WriterAt(w, Writer.Answering(id))
    case OfReader(r, Answer) => exists id :: id in s.c.req.messageStore && s.ReaderAt(r, Completing(id))
    case _ => false
  }

  lemma MixUpBreaks(s: State, a: Action)
    requires Enabled(s, a) && MixesUp(s, a)
    ensures !StoredOwn(Step(s, a))
  {
    match a {
      case OfWriter(w, AddToStore) =>
        assert s.dequeue.id in Step(s, a).c.req.messageStore && s.dequeue.id !in Step(s, a).c.req.owned;
      case OfWriter(w, AnswerFailed) =>
        var id := s.writers[w].id;
        assert id in Step(s, a).c.req.messageStore && id !in Step(s, a).c.req.owned;
      case OfReader(r, Answer) =>
        var id := s.readers[r].id;
        assert id in Step(s, a).c.req.messageStore && id !in Step(s, a).c.req.owned;
    }
  }

  lemma SenderKeepsOwners(s: State, a: SenderAction)
    requires Enabled(s, OfSender(a)) && StoredOwn(s)
    ensures StoredOwn(SenderStep(s, a))
  {
  }

  lemma ConnectKeepsOwners(s: State, a: ConnectAction)
    requires ConnectEnabled(s, a) && StoredOwn(s)
    ensures StoredOwn(ConnectStep(s, a))
  {
    if !a.InsertAuthentication? {
      assert ConnectStep(s, a).c.req == s.c.req;
    }
  }

  lemma ShutdownKeepsOwners(s: State, a: ShutdownAction)
    requires Enabled(s, OfShutdown(a)) && StoredOwn(s)
    ensures StoredOwn(ShutdownStep(s, a))
  {
  }

  lemma WriteKeepsOwners(s: State, w: Loop, a: WriteAction)
    requires WriteEnabled(s, w, a) && StoredOwn(s) && !MixesUp(s, OfWriter(w, a))
    ensures StoredOwn(WriteStep(s, w, a))
  {
    if a.AnswerFailed? {
      assert s.WriterAt(w, Writer.Answering(s.writers[w].id));
    }
  }

  lemma ReadKeepsOwners(s: State, r: Loop, a: ReadAction)
    requires ReadEnabled(s, r, a) && StoredOwn(s) && !MixesUp(s, OfReader(r, a))
    ensures StoredOwn(ReadStep(s, r, a))
  {
    if a.Answer? {
      assert s.ReaderAt(r, Completing(s.readers[r].id));
    }
  }

  lemma StepKeepsOwners(s: State, a: Action)
    requires Enabled(s, a) && StoredOwn(s) && !MixesUp(s, a)
    ensures StoredOwn(Step(s, a))
  {
    match a {
      case OfSender(sender) => SenderKeepsOwners(s, sender);
      case OfConnect(connect) => ConnectKeepsOwners(s, connect);
      case OfShutdown(shutdown) => ShutdownKeepsOwners(s, shutdown);
      case OfWriter(w, write) => WriteKeepsOwners(s, w, write);
      case OfReader(r, read) => ReadKeepsOwners(s, r, read);
    }
  }

  ghost predicate AlwaysStoredOwn(actions: seq<Action>)
    requires IsRun(actions)
  {
    StoredOwn(After(actions)) && (actions == [] || AlwaysStoredOwn(actions[..|actions| - 1]))
  }

  ghost predicate NeverMixedUp(actions: seq<Action>)
    requires IsRun(actions)
  {
    actions == [] ||
    (NeverMixedUp(actions[..|actions| - 1]) && !MixesUp(After(actions[..|actions| - 1]), actions[|actions| - 1]))
  }

  lemma NowStoredOwn(actions: seq<Action>)
    requires IsRun(actions) && AlwaysStoredOwn(actions)
    ensures StoredOwn(After(actions))
  {
  }

  /** For every run: all stored items own their requests all along if and only if getNextRequestToSend
      never stores a request that has been handed over, and no request is answered while it is in
      the store. */
  lemma {:induction false} StoredOwnExactlyWhenNotMixedUp(actions: seq<Action>)
    requires IsRun(actions)
    ensures AlwaysStoredOwn(actions) <==> NeverMixedUp(actions)
  {
    if actions != [] {
      var before, a := actions[..|actions| - 1], actions[|actions| - 1];
      StoredOwnExactlyWhenNotMixedUp(before);
      if MixesUp(After(before), a) {
        MixUpBreaks(After(before), a);
      } else if AlwaysStoredOwn(before) {
        NowStoredOwn(before);
        StepKeepsOwners(After(before), a);
      }
    }
  }

  /** In orderly runs nothing is mixed up. */
  lemma {:induction false} OrderlyRunsDoNotMixUp(actions: seq<Action>)
    requires IsRun(actions) && RunsOrderly(actions)
    ensures AlwaysStoredOwn(actions) && NeverMixedUp(actions)
  {
    OrderlyRunsConserve(actions);
    if actions != [] {
      OrderlyRunsDoNotMixUp(actions[..|actions| - 1]);
    }
    StoredOwnExactlyWhenNotMixedUp(actions);
  }
}
