# Playlist secret gate — a Dafny model

This project models the secret gate of the Stepzz live-TV relay: the access
code check a viewer passes before the aggregate playlist link is shown, the
viewer's session state, and the admin session that logs in with the
administrator password and rotates the shared playlist secret. The two
sessions meet in one process-wide configuration object whose
`playlist_secret` the admin overwrites and every viewer check reads, so the
model can state that a code let in under one secret is refused after a
rotation to another.

Modules, one per concern:

- `Text` (`text.dfy`): Python's `str.strip()` over the exact character set
  of `str.isspace()`, with its characterisation: the input is the result
  padded by whitespace on both sides, a whitespace-padded trimmed core strips
  to that core, and stripping is idempotent.
- `AppConfig` (`app_config.dfy`): the shared `Config` object (`api_url`,
  `playlist_secret`).
- `SecretManager` (`secret_manager.dfy`): the persisted secret behind
  `load_secret` and `generate_secret`.
- `Playlist` (`playlist.dfy`): `validate_access_code`, the playlist link
  derivation with its inverse `EmbeddedCode`, and the `PlaylistState` class.
- `Admin` (`admin.dfy`): the `AdminState` class and the joined rotation
  scenario.

Where the sources shape the model:

- `validate_access_code` compares with plain `==` (playlist.py line 12),
  which is not timing-safe. The admin login uses `secrets.compare_digest`,
  modelled as equality on ASCII input; on non-ASCII input it raises
  `TypeError`, which `Login` reports through its `raised` result.
- The admin page's initial `playlist_secret` is a class-level default, so the
  secret manager is consulted once, at import. The constructor of
  `AdminState` takes that import-time value as a parameter rather than
  reading the store again.
- `verify_code` reads the secret with a `getattr` default of `""`. The model's
  `Config` always has the field, so the default never applies.
- `StepDaddyLiveHD/secret_manager.py` only re-exports `Stepzz.secret_manager`,
  and that module is not part of this model. `SecretStore` models
  it by its interface. The secret in force is an environment override when
  that is non-empty, else the persisted value. Generating persists the new
  token, and a later load returns it when no override is set.

## Model

| member | source | states |
|---|---|---|
| Text.Strip | StepDaddyLiveHD/pages/playlist.py:12 | the stripped string has no whitespace at either end and is no longer than the input |
| Text.StripSplit | StepDaddyLiveHD/pages/playlist.py:12 | strip removes only whitespace: the input is the result with whitespace-only padding on each side |
| Text.StripPadded | StepDaddyLiveHD/pages/playlist.py:12 | any whitespace padding around a trimmed core strips to exactly that core |
| Text.StripFixedPoint | StepDaddyLiveHD/pages/playlist.py:46 | strip leaves a string unchanged exactly when it has no whitespace at either end |
| Text.StripIdempotent | StepDaddyLiveHD/pages/playlist.py:34 | stripping an already stripped code changes nothing |
| Playlist.ValidateAccessCode | StepDaddyLiveHD/pages/playlist.py:6-15 | the verdict is either (True, "") or (False, "Invalid access code."), and it grants exactly when the secret is empty or the stripped candidate equals the secret |
| Playlist.OpenAccessGrantsAll | StepDaddyLiveHD/pages/playlist.py:9-10 | with an empty secret every candidate, the empty one included, gets (True, "") |
| Playlist.PaddedSecretGranted | StepDaddyLiveHD/pages/playlist.py:12-13 | a non-empty trimmed secret typed with any surrounding whitespace is granted |
| Playlist.GrantedOnlyIfPadded | StepDaddyLiveHD/pages/playlist.py:12-15 | a candidate granted under a non-empty secret is that secret with whitespace-only padding on each side |
| Playlist.UntrimmedSecretNeverGranted | StepDaddyLiveHD/pages/playlist.py:12 | the secret is not stripped, so a non-empty secret with whitespace at either end denies every candidate |
| Playlist.RotationRejectsOldCode | StepDaddyLiveHD/pages/playlist.py:28-29 | a code granted under non-empty S1 is denied under a different non-empty S2 |
| Playlist.PlaylistUrlFor | StepDaddyLiveHD/pages/playlist.py:44-49 | the link starts with the API base and carries exactly the stripped code, or no code when that is empty |
| Playlist.EmbeddedCode | StepDaddyLiveHD/pages/playlist.py:47-49 | reading a code back from a link means the link is the base, "/", the code and "/playlist.m3u8"; an empty code means the open link |
| Playlist.StaleLinkRejected | StepDaddyLiveHD/pages/playlist.py:33-48 | the link built after a grant under non-empty S1 carries S1, and S1 is denied after rotation to a different non-empty S2 |
| Playlist.PlaylistState.constructor | StepDaddyLiveHD/pages/playlist.py:18-22 | a new session has all four fields at their defaults |
| Playlist.PlaylistState.SetAccessCode | StepDaddyLiveHD/pages/playlist.py:24-25 | only the typed code changes, to the given value |
| Playlist.PlaylistState.VerifyCode | StepDaddyLiveHD/pages/playlist.py:27-36 | the authorized flag and message are the validator's verdict on the typed code under the configured secret; the remembered code is the stripped typed code when granted, else empty; the typed code and configuration are untouched; a state already holding the verdict is left unchanged |
| Playlist.VerifyTwice | StepDaddyLiveHD/pages/playlist.py:27-36 | usage scenario of verify_code's contract: two verifications in a row end in the state the first one produced |
| Playlist.PlaylistState.RevokeAccess | StepDaddyLiveHD/pages/playlist.py:38-42 | all four fields are back at their defaults |
| Playlist.PlaylistState.PlaylistUrl | StepDaddyLiveHD/pages/playlist.py:44-49 | the viewer's link carries the remembered code exactly, and no code while access is not granted |
| AppConfig.Config.constructor | rxconfig.py:48-63 | the configuration holds the API base and the secret loaded at start-up |
| SecretManager.SecretStore.Load | Stepzz/pages/admin.py:35 | loading returns the secret in force and changes nothing |
| SecretManager.SecretStore.Generate | scripts/test_playlist_secret.py:51-53 | the generated secret is non-empty, is persisted, and is what a later load returns when no override is set |
| Admin.AdminState.constructor | Stepzz/pages/admin.py:11-16 | a new admin session is logged out, without messages, and shows the secret loaded once at import, not the store's current value |
| Admin.AdminState.SetPassword | Stepzz/pages/admin.py:18-19 | only the typed password changes |
| Admin.AdminState.ClearMessages | Stepzz/pages/admin.py:21-23 | both messages are emptied and nothing else changes |
| Admin.AdminState.Login | Stepzz/pages/admin.py:25-40 | the four outcomes (password not configured, non-ASCII input making the digest comparison raise, match, mismatch) with their messages and exactly which fields and configuration change in each; on exit at most one message is shown, and on exit from a configured login that did not raise this session's secret equals the configured one |
| Admin.AdminState.Logout | Stepzz/pages/admin.py:42-45 | messages cleared, logged out, password emptied, session secret kept, configuration untouched |
| Admin.AdminState.GenerateSecret | Stepzz/pages/admin.py:47-56 | logged out: only the login-required error, store and configuration untouched; logged in: the new token is persisted and becomes both the session's and the configuration's secret, with the success message |
| Admin.AdminState.PlaylistUrl | Stepzz/pages/admin.py:58-63 | the admin's link carries exactly the stripped session secret, or no code when that is empty |
| Admin.ReverifyAfterRotation | Stepzz/pages/admin.py:53-56 | a viewer code granted under a non-empty secret is denied after the admin rotates to a different non-empty token; afterwards only a code stripping to the new token is granted |

## Left out

- The page builders (access form, playlist content, login form, admin panel and both page functions) are presentation only.
- `secrets.compare_digest` is modelled as plain equality on ASCII strings; constant-time behaviour cannot be expressed.
- Admin.AdminState.GenerateSecret: the random token is a parameter that must be non-empty, standing for the URL-safe token the generator draws; the entropy of that token is not modelled.
- Admin.AdminState.Login: the `ADMIN_PASSWORD` environment entry is a parameter (empty when unset); reading the environment is not modelled. The `TypeError` that `compare_digest` raises on non-ASCII input is a `raised` result, not an exception propagating to the framework.
- SecretManager.SecretStore.Load: persistence to disk and its failure modes are not modelled; the store is one string field.
- Process configuration: `PROXY_CONTENT` and `SOCKS5` parsing, the plugin list and the fallback loader chosen by module lookup in rxconfig.py are process plumbing.
- The compatibility re-export modules of the `StepDaddyLiveHD` and `Stepzz` packages have no domain logic.
- The HTTP endpoints, relay engine, manifest resolver, channel catalog and playlist synthesis are not part of this model.
- The UI framework runs each session's event handlers one at a time; the model's methods are likewise sequential, and concurrent sessions are not modelled beyond sharing the configuration object.
