/**
 * A Pylon's life from `new()`: a sequence of `gen_code` calls, each with the
 * outcome its connect would have. `Run` folds `GenCodeStep` over the calls;
 * the lemmas state what every such history guarantees.
 */
module Session {
  import opened Wrappers
  import opened Wormhole
  import opened Errors
  import opened PylonCore

  /** One `gen_code(codeLength)` call and what connecting would yield. */
  datatype Call = Call(codeLength: usize, outcome: ConnectResult)

  /** The state after a sequence of calls, and what each call returned. */
  datatype Trace = Trace(final: State, results: seq<Result<string, PylonError>>)

  /** The calls applied one after another, starting from `s`. */
  function Run(s: State, calls: seq<Call>): (t: Trace)
    // One result per call; the wormhole slot and the configuration never change, so every
    // state reachable from `new()` has no wormhole and the configuration `new()` built.
    ensures |t.results| == |calls|
    ensures t.final.wormhole == s.wormhole && t.final.config == s.config
    decreases |calls|
  {
    if calls == [] then
      Trace(s, [])
    else
      var step := GenCodeStep(s, calls[0].codeLength, calls[0].outcome);
      var rest := Run(step.next, calls[1..]);
      Trace(rest.final, [step.result] + rest.results)
  }

  /** The number of calls that returned a code. */
  function CountCodes(results: seq<Result<string, PylonError>>): nat
  {
    if results == [] then 0
    else (if results[0].Ok? then 1 else 0) + CountCodes(results[1..])
  }

  /** A Pylon generates at most one code, and none once a handshake is pending. */
  lemma {:induction false} AtMostOneCode(s: State, calls: seq<Call>)
    ensures CountCodes(Run(s, calls).results) <= (if s.handshake.None? then 1 else 0)
    decreases |calls|
  {
    if calls != [] {
      var step := GenCodeStep(s, calls[0].codeLength, calls[0].outcome);
      var rest := Run(step.next, calls[1..]);
      AtMostOneCode(step.next, calls[1..]);
      assert ([step.result] + rest.results)[1..] == rest.results;
    }
  }

  /**
   * While a handshake is pending every call reports it and changes nothing.
   */
  lemma {:induction false} StuckWhileHandshaking(s: State, calls: seq<Call>)
    requires s.handshake.Some?
    ensures Run(s, calls).final == s
    ensures forall i :: 0 <= i < |calls| ==>
              Run(s, calls).results[i] == Err(CodegenError(PendingHandshakeMsg))
    decreases |calls|
  {
    if calls != [] {
      StuckWhileHandshaking(s, calls[1..]);
    }
  }

  /** A history in which every call failed leaves the state as it was. */
  lemma {:induction false} ErrorsChangeNothing(s: State, calls: seq<Call>)
    requires forall i :: 0 <= i < |calls| ==> Run(s, calls).results[i].Err?
    ensures Run(s, calls).final == s
    decreases |calls|
  {
    if calls != [] {
      var step := GenCodeStep(s, calls[0].codeLength, calls[0].outcome);
      assert Run(s, calls).results[0] == step.result;
      var rest := Run(step.next, calls[1..]);
      forall i | 0 <= i < |calls| - 1
        ensures rest.results[i].Err?
      {
        assert Run(s, calls).results[i + 1] == rest.results[i];
      }
      ErrorsChangeNothing(s, calls[1..]);
    }
  }

  /**
   * From an idle Pylon, a call that returns a code returns the welcome code
   * of its own connect, every other call fails, and the handshake of that
   * connect is the one left pending.
   */
  lemma {:induction false} TheOneCode(s: State, calls: seq<Call>, i: nat)
    requires Idle(s)
    requires i < |calls| && Run(s, calls).results[i].Ok?
    ensures calls[i].outcome.Connected?
    ensures Run(s, calls).results[i] == Ok(calls[i].outcome.welcomeCode)
    ensures Run(s, calls).final.handshake == Some(calls[i].outcome.handshake)
    ensures forall j :: 0 <= j < |calls| && j != i ==> Run(s, calls).results[j].Err?
    decreases |calls|
  {
    var step := GenCodeStep(s, calls[0].codeLength, calls[0].outcome);
    var rest := Run(step.next, calls[1..]);
    assert Run(s, calls).results == [step.result] + rest.results;
    if step.result.Ok? {
      if i != 0 {
        assert Run(s, calls).results[i] == rest.results[i - 1];
        StuckWhileHandshaking(step.next, calls[1..]);
        assert false;
      }
      StuckWhileHandshaking(step.next, calls[1..]);
    } else {
      if i == 0 {
        assert false;
      }
      assert rest.results[i - 1].Ok?;
      TheOneCode(step.next, calls[1..], i - 1);
      forall j | 0 <= j < |calls| && j != i
        ensures Run(s, calls).results[j].Err?
      {
        if j > 0 {
          assert Run(s, calls).results[j] == rest.results[j - 1];
        }
      }
    }
  }

  /**
   * Nothing assigns the wormhole slot, so from `new()` the "already been
   * initialized" refusal is never returned.
   */
  lemma {:induction false} NeverAlreadyInitialized(config: AppConfig, calls: seq<Call>)
    ensures forall i :: 0 <= i < |calls| ==>
              Run(Initial(config), calls).results[i] != Err(CodegenError(AlreadyInitializedMsg))
  {
    NoInitializedRefusal(Initial(config), calls);
  }

  /**
   * The induction behind `NeverAlreadyInitialized`: a Pylon without a
   * wormhole keeps none, so the refusal that needs one never comes.
   */
  lemma {:induction false} NoInitializedRefusal(s: State, calls: seq<Call>)
    requires s.wormhole.None?
    ensures forall i :: 0 <= i < |calls| ==>
              Run(s, calls).results[i] != Err(CodegenError(AlreadyInitializedMsg))
    decreases |calls|
  {
    if calls != [] {
      var step := GenCodeStep(s, calls[0].codeLength, calls[0].outcome);
      var rest := Run(step.next, calls[1..]);
      assert PendingHandshakeMsg[18] == 'a' && AlreadyInitializedMsg[18] == 'h';
      assert Run(s, calls).results == [step.result] + rest.results;
      NoInitializedRefusal(step.next, calls[1..]);
    }
  }
}
