/** The assertions at the head of restartConnection, that neither a read loop nor a write loop
    is current, and the exact condition for them. */
module VstRestartAssertions {
  import opened Bytes
  import opened VstConnections
  import opened VstConnectionRuns

  /** A restart has reset the loops and not yet got to stopWriting: the assertions are due. */
  predicate RestartPending(s: State) {
    ShutdownWriting(true) in s.tasks
  }

  predicate NoLoop(s: State) {
    s.c.loops.readLoop == None && s.c.loops.writeLoop == None
  }

  predicate AssertionsHold(s: State) {
    RestartPending(s) ==> NoLoop(s)
  }

  /** The steps that call startWriting or startReading. */
  predicate CallsStart(a: Action) {
    match a
    case OfSender(SenderStart) => true
    case OfConnect(FirstWriting) | OfConnect(FirstReading) => true
    case OfWriter(_, WakeReader) => true
    case _ => false
  }

  /** The assertions hold all along the run. */
  ghost predicate AlwaysAsserted(actions: seq<Action>)
    requires IsRun(actions)
  {
    AssertionsHold(After(actions)) && (actions == [] || AlwaysAsserted(actions[..|actions| - 1]))
  }

  /** No thread calls startWriting or startReading while a restart is pending. */
  ghost predicate NoStartWhilePending(actions: seq<Action>)
    requires IsRun(actions)
  {
    actions == [] ||
    (var before := actions[..|actions| - 1];
     && NoStartWhilePending(before)
     && !(RestartPending(After(before)) && CallsStart(actions[|actions| - 1])))
  }

  // A start while a restart is pending leaves a loop behind.

  lemma FirstWritingBreaks(s: State)
    requires RestartPending(s)
    ensures !AssertionsHold(ConnectStep(s, FirstWriting))
  {
    assert ConnectStep(s, FirstWriting).c.loops.writeLoop.Some?;
  }

  lemma FirstReadingBreaks(s: State)
    requires RestartPending(s)
    ensures !AssertionsHold(ConnectStep(s, FirstReading))
  {
    assert ConnectStep(s, FirstReading).c.loops.readLoop.Some?;
  }

  lemma StartBreaks(s: State, a: Action)
    requires Enabled(s, a) && RestartPending(s) && CallsStart(a)
    ensures !AssertionsHold(Step(s, a))
  {
    match a {
      case OfSender(sender) => assert SenderStep(s, sender).c.loops.writeLoop.Some?;
      case OfConnect(FirstWriting) => FirstWritingBreaks(s);
      case OfConnect(FirstReading) => FirstReadingBreaks(s);
      case OfWriter(w, write) => assert WriteStep(s, w, write).c.loops.readLoop.Some?;
    }
  }

  // Any other step keeps the assertions.

  lemma SenderKeepsAssertions(s: State, a: SenderAction)
    requires Enabled(s, OfSender(a)) && AssertionsHold(s) && !(RestartPending(s) && a.SenderStart?)
    ensures AssertionsHold(SenderStep(s, a))
  {
  }

  lemma SetupKeepsAssertions(s: State, a: ConnectAction)
    requires ConnectEnabled(s, a) && AssertionsHold(s) && !CallsStart(OfConnect(a))
    ensures AssertionsHold(ConnectStep(s, a))
  {
  }

  lemma ConnectKeepsAssertions(s: State, a: ConnectAction)
    requires ConnectEnabled(s, a) && AssertionsHold(s) && !(RestartPending(s) && CallsStart(OfConnect(a)))
    ensures AssertionsHold(ConnectStep(s, a))
  {
    if CallsStart(OfConnect(a)) {
      assert !RestartPending(ConnectStep(s, a));
    } else {
      SetupKeepsAssertions(s, a);
    }
  }

  lemma ShutdownKeepsAssertions(s: State, a: ShutdownAction)
    requires Enabled(s, OfShutdown(a)) && AssertionsHold(s)
    ensures AssertionsHold(ShutdownStep(s, a))
  {
  }

  lemma WriteKeepsAssertions(s: State, w: Loop, a: WriteAction)
    requires WriteEnabled(s, w, a) && AssertionsHold(s) && !(RestartPending(s) && a.WakeReader?)
    ensures AssertionsHold(WriteStep(s, w, a))
  {
  }

  lemma ReadKeepsAssertions(s: State, r: Loop, a: ReadAction)
    requires ReadEnabled(s, r, a) && AssertionsHold(s)
    ensures AssertionsHold(ReadStep(s, r, a))
  {
  }

  lemma StepKeepsAssertions(s: State, a: Action)
    requires Enabled(s, a) && AssertionsHold(s) && !(RestartPending(s) && CallsStart(a))
    ensures AssertionsHold(Step(s, a))
  {
    match a {
      case OfSender(sender) => SenderKeepsAssertions(s, sender);
      case OfConnect(connect) => ConnectKeepsAssertions(s, connect);
      case OfShutdown(shutdown) => ShutdownKeepsAssertions(s, shutdown);
      case OfWriter(w, write) => WriteKeepsAssertions(s, w, write);
      case OfReader(r, read) => ReadKeepsAssertions(s, r, read);
    }
  }

  /** For every run: the assertions hold all along if and only if no thread calls startWriting or
      startReading between the reset of the loops by a restart and its stopWriting. */
  lemma {:induction false} AssertedExactlyWhenNoStart(actions: seq<Action>)
    requires IsRun(actions)
    ensures AlwaysAsserted(actions) <==> NoStartWhilePending(actions)
  {
    if actions != [] {
      var before, a := actions[..|actions| - 1], actions[|actions| - 1];
      AssertedExactlyWhenNoStart(before);
      if RestartPending(After(before)) && CallsStart(a) {
        StartBreaks(After(before), a);
      } else if AlwaysAsserted(before) {
        Asserted(before);
        StepKeepsAssertions(After(before), a);
      }
    }
  }

  lemma Asserted(actions: seq<Action>)
    requires IsRun(actions) && AlwaysAsserted(actions)
    ensures AssertionsHold(After(actions))
  {
  }
}
