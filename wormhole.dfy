/**
 * The interface of the magic-wormhole library as the Pylon core sees it.
 * Its source is not part of this model, so every value it produces is an
 * opaque token: the model can store, compare and hand them back, but it
 * knows nothing of what is inside.
 */
module Wormhole {
  import opened Wrappers

  /** An `AppID`: the application identifier sent to the rendezvous server. */
  datatype AppId = AppId(name: string)

  /** `transfer::AppVersion`, an empty struct. */
  datatype AppVersion = AppVersion

  /** `AppConfig<AppVersion>`: identity and rendezvous endpoint of a session. */
  datatype AppConfig = AppConfig(id: AppId, rendezvousUrl: string, appVersion: AppVersion)

  /** The pending client-client handshake (`Box<dyn Future<Output = Result<Wormhole, WormholeError>>>`). */
  datatype Handshake = Handshake(token: nat)

  /** An established `Wormhole`. */
  datatype WormholeChannel = WormholeChannel(token: nat)

  /** A `WormholeError`: any failure the library reports. */
  datatype WormholeError = WormholeError(token: nat)

  /** The arguments handed to `Wormhole::connect_without_code`. */
  datatype ConnectRequest = ConnectRequest(config: AppConfig, codeLength: usize)

  /**
   * The outcome of awaiting `Wormhole::connect_without_code`: either the
   * welcome message's code together with the pending handshake, or an error.
   */
  datatype ConnectResult =
    | Connected(welcomeCode: string, handshake: Handshake)
    | ConnectFailed(error: WormholeError)
}
