# Pylon core: the session state machine

Pylon wraps a magic wormhole for secure file transfer. Its core, `core/src/lib.rs`,
is a session object `Pylon` with two optional slots, a pending `handshake` and an
established `wormhole`, plus an immutable `config` (application id, rendezvous
server, application version), and the error type `PylonError` every fallible
operation returns. This project models:

- `wrappers.dfy`: `Option` and `Result` (module `Wrappers`).
- `wormhole.dfy`: the magic-wormhole library as the core sees it (module `Wormhole`).
  Handshakes, wormholes and library errors are opaque tokens. Awaiting
  `Wormhole::connect_without_code` is one step whose outcome (`ConnectResult`:
  a welcome code and a handshake, or an error) is a parameter. `code_length` is a `usize`.
- `errors.dfy`: `PylonError` with its three variants, their display texts, the
  `#[from]` conversion from a library error and `source()` (module `Errors`).
- `pylon.dfy`: the session (module `PylonCore`). `GenCodeStep` specifies one
  `gen_code` call on the session's value. The class `Pylon` has the source's
  fields: `config` is a `const`, so nothing can change it after construction.
  `GenCode` updates `handshake` in place and may modify only that field.
  `Destroy` consumes the object.
- `session.dfy`: a session's history from `new()`, a sequence of `gen_code`
  calls (module `Session`), and what every such history guarantees.

The foreign constants `APP_ID` and `DEFAULT_RENDEZVOUS_SERVER` are not part of this model.
They are the parameters of the `Pylon` constructor.

`core/src/lib.rs` has only two operations besides `new()`: `gen_code` and `destroy`.
`PylonError` has three variants: `CodegenError`, `InternalError` and `Error`. Nothing in
the file ever assigns `wormhole`, so its "already been initialized" refusal cannot occur
for a Pylon built by `new()`.

## Model

| member | source | states |
|---|---|---|
| `Errors.MessageDeterminesError` | core/src/lib.rs:27-42 | `Message` gives the `Display` text of each variant as its `#[error(...)]` attribute formats it (lines 30, 33 and 40); two errors with the same display text have the same variant; for `CodegenError` and `Error` they also have the same message |
| `Errors.FromWormhole` | core/src/lib.rs:34-38 | the `#[from]` conversion wraps the library error so that `source()` gives it back |
| `Errors.SourceInvertsFrom` | core/src/lib.rs:34-38 | `Source` models `source()` (`#[source]`); an error's source is the library error `w` exactly when the error is the `#[from]` conversion of `w` |
| `PylonCore.Pylon.constructor` | core/src/lib.rs:54-63 | `new()` leaves both slots empty and holds `DefaultConfig`, the `AppConfig` literal of lines 58-62: the application id, the rendezvous server and the empty `AppVersion` |
| `PylonCore.GenCodeStep` | core/src/lib.rs:72-90 | a pending handshake is reported first, before the wormhole check; an established wormhole alone gives the "already been initialized" refusal; connect is called exactly when both slots are empty, with the session's config and `code_length`; a failed connect returns `InternalError` of that error; every error leaves the state unchanged; a code is returned exactly when the session was idle and connect succeeded; that code is the welcome code and the handshake from the same connect is now pending; the wormhole slot and config never change |
| `PylonCore.Pylon.GenCode` | core/src/lib.rs:72-90 | the in-place method returns exactly what `GenCodeStep` gives for the old field values; afterwards the fields match `GenCodeStep`'s new state; only `handshake` may be modified |
| `PylonCore.Pylon.Destroy` | core/src/lib.rs:98-100 | the Pylon is consumed and cannot be used again |
| `Session.Run` | core/src/lib.rs:72-90 | over any sequence of calls, each call gives one result; the wormhole slot and config stay as they were, so every state reachable from `new()` has no wormhole and the original config |
| `Session.AtMostOneCode` | core/src/lib.rs:73-87 | a Pylon returns at most one code over its whole history, and none once a handshake is pending |
| `Session.StuckWhileHandshaking` | core/src/lib.rs:73-77 | while a handshake is pending, every further call returns the pending-handshake `CodegenError` and changes nothing |
| `Session.ErrorsChangeNothing` | core/src/lib.rs:72-86 | a history where every call failed leaves the state exactly as it was |
| `Session.TheOneCode` | core/src/lib.rs:85-89 | from an idle Pylon, the call that returns a code returns its own connect's welcome code; every other call fails; that connect's handshake is the pending one at the end |
| `Session.NoInitializedRefusal` | core/src/lib.rs:79-83 | a Pylon without a wormhole never returns the "already been initialized" refusal, whatever calls follow |
| `Session.NeverAlreadyInitialized` | core/src/lib.rs:79-83 | starting from `new()`, the "already been initialized" refusal is never returned, because nothing sets the wormhole |

## Left out

- `Wormhole::connect_without_code` and the handshake future: this is the network call into the magic-wormhole library, which is not part of this model. Its awaited outcome is a parameter of `GenCode`. Async scheduling is not modelled; the await is one atomic step.
- `APP_ID`, the `consts` module and `DEFAULT_RENDEZVOUS_SERVER` are foreign constants. They enter as constructor parameters.
- `PylonCore.Pylon.Destroy`: models only that the Pylon is consumed. A ghost flag `live` stands for Rust's move of `self`, and `GenCode` requires it because the compiler rejects any use after the move. Releasing the resources (`drop`) has nothing to model.
- Send and receive, relay hints, transfer offers, progress and cancellation are not modelled. They do not appear in `core/src/lib.rs`.
- `gui/src-tauri/src/main.rs` is not part of this model. It holds UI command bindings that return build metadata.
- `PylonError`'s `Debug` formatting is not modelled. The `Error` variant is never constructed in the core; it is modelled only as a value.
