/**
 * The Pylon session: a high-level wrapper over one magic wormhole. It holds
 * two optional slots, the pending handshake and the established wormhole,
 * and an immutable configuration. `GenCodeStep` is the specification of
 * code generation on the session's value; the class `Pylon` is the object
 * itself, whose `GenCode` updates the handshake slot in place.
 */
module PylonCore {
  import opened Wrappers
  import opened Wormhole
  import opened Errors

  /** The observable value of a Pylon: its three fields. */
  datatype State = State(handshake: Option<Handshake>, wormhole: Option<WormholeChannel>, config: AppConfig)

  const PendingHandshakeMsg: string := "The current Pylon already has a pending handshake"
  const AlreadyInitializedMsg: string := "The current Pylon has already been initialized"

  /**
   * The configuration `new()` builds: the application's identifier and the
   * library's default rendezvous server, both foreign constants, given here
   * as parameters.
   */
  function DefaultConfig(appId: string, rendezvousServer: string): AppConfig
  {
    AppConfig(AppId(appId), rendezvousServer, AppVersion)
  }

  /** The value of a freshly built Pylon: no handshake, no wormhole. */
  function Initial(config: AppConfig): State
  {
    State(None, None, config)
  }

  /** Neither a handshake is pending nor a wormhole established. */
  predicate Idle(s: State)
  {
    s.handshake.None? && s.wormhole.None?
  }

  /**
   * One call of `gen_code`: the state afterwards, the value returned, and
   * the arguments `connect_without_code` was called with (`None` when it
   * was not called).
   */
  datatype Step = Step(next: State, result: Result<string, PylonError>, request: Option<ConnectRequest>)

  /**
   * `gen_code(code_length)` on a Pylon in state `s`, where `outcome` is what
   * awaiting `connect_without_code` yields if it is called.
   */
  function GenCodeStep(s: State, codeLength: usize, outcome: ConnectResult): (r: Step)
    // Guard order: a pending handshake is reported first, whatever the wormhole slot holds.
    ensures s.handshake.Some? ==> r == Step(s, Err(CodegenError(PendingHandshakeMsg)), None)
    ensures s.handshake.None? && s.wormhole.Some? ==>
              r == Step(s, Err(CodegenError(AlreadyInitializedMsg)), None)
    // The library is contacted exactly when the Pylon is idle, with its own configuration.
    ensures r.request.Some? <==> Idle(s)
    ensures r.request.Some? ==> r.request.value == ConnectRequest(s.config, codeLength)
    // A failed connect surfaces as the wrapped library error.
    ensures Idle(s) && outcome.ConnectFailed? ==> r.result == Err(FromWormhole(outcome.error))
    // Every error leaves the state as it was.
    ensures r.result.Err? ==> r.next == s
    // A code is returned exactly when the Pylon was idle and the connect succeeded; it is the
    // welcome code, and the handshake from the same outcome is now pending.
    ensures r.result.Ok? <==> Idle(s) && outcome.Connected?
    ensures r.result.Ok? ==>
              r.result.value == outcome.welcomeCode && r.next.handshake == Some(outcome.handshake)
    // Only the handshake slot can change.
    ensures r.next.wormhole == s.wormhole && r.next.config == s.config
  {
    if s.handshake.Some? then
      Step(s, Err(CodegenError(PendingHandshakeMsg)), None)
    else if s.wormhole.Some? then
      Step(s, Err(CodegenError(AlreadyInitializedMsg)), None)
    else
      var request := Some(ConnectRequest(s.config, codeLength));
      match outcome
      case ConnectFailed(e) => Step(s, Err(FromWormhole(e)), request)
      case Connected(code, hs) => Step(s.(handshake := Some(hs)), Ok(code), request)
  }

  class Pylon {
    var handshake: Option<Handshake>
    var wormhole: Option<WormholeChannel>
    const config: AppConfig
    /** False once `destroy` has consumed the Pylon; Rust's ownership forbids any use after that. */
    ghost var live: bool

    /** The value of the three fields. */
    function View(): State
      reads this
    {
      State(handshake, wormhole, config)
    }

    /** `Pylon::new()`: both slots empty, the default configuration. */
    constructor (appId: string, rendezvousServer: string)
      ensures live
      ensures View() == Initial(DefaultConfig(appId, rendezvousServer))
    {
      handshake := None;
      wormhole := None;
      config := DefaultConfig(appId, rendezvousServer);
      live := true;
    }

    /**
     * `gen_code(code_length)`: refuse when a handshake is pending or a
     * wormhole exists, otherwise connect and keep the pending handshake.
     * `outcome` is what the awaited `connect_without_code` yields; `request`
     * records whether, and with what, it was called.
     */
    method GenCode(codeLength: usize, outcome: ConnectResult)
      returns (r: Result<string, PylonError>, ghost request: Option<ConnectRequest>)
      requires live
      modifies this`handshake
      ensures Step(View(), r, request) == GenCodeStep(old(View()), codeLength, outcome)
    {
      if handshake.Some? {
        return Err(CodegenError(PendingHandshakeMsg)), None;
      }
      if wormhole.Some? {
        return Err(CodegenError(AlreadyInitializedMsg)), None;
      }
      request := Some(ConnectRequest(config, codeLength));
      match outcome
      case ConnectFailed(e) =>
        r := Err(FromWormhole(e));
      case Connected(code, hs) =>
        handshake := Some(hs);
        r := Ok(code);
    }

    /** `destroy(self)`: the Pylon is consumed and its resources dropped. */
    method Destroy()
      requires live
      modifies this`live
      ensures !live
    {
      live := false;
    }
  }
}
