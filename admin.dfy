/** The admin side of the playlist secret gate: logging in with the
    administrator password, logging out, and rotating the secret that the
    shared configuration hands to every viewer check. */
module Admin {
  import opened Text
  import opened AppConfig
  import opened SecretManager
  import Playlist

  const PasswordNotConfigured := "ADMIN_PASSWORD environment variable is not configured."
  const InvalidPassword := "Invalid admin password."
  const AccessGranted := "Admin access granted."
  const LoginRequired := "Please log in to rotate the playlist secret."
  const SecretGenerated := "Generated a new playlist secret."

  /** `secrets.compare_digest` accepts two `str` arguments only when both
      are pure ASCII; otherwise it raises `TypeError`. */
  predicate IsAscii(s: string) {
    forall i :: 0 <= i < |s| ==> s[i] <= '\U{7F}'
  }

  /** `AdminState`: one admin session. */
  class AdminState {
    var password: string
    var isAuthenticated: bool
    var errorMessage: string
    var successMessage: string
    var playlistSecret: string

    /** At most one message is shown, and a success message only to an
        authenticated admin. */
    predicate Valid()
      reads this
    {
      (errorMessage == "" || successMessage == "")
      && (successMessage != "" ==> isAuthenticated)
    }

    /** While authenticated, the secret on display is the one viewers are
        checked against. */
    predicate SyncedWith(config: Config)
      reads this, config
    {
      isAuthenticated ==> playlistSecret == config.playlistSecret
    }

    /** A fresh session. `importSecret` is the value the secret loader
        returned once, when the admin page module was imported: every
        session starts from it, whatever the store holds by now. */
    constructor (importSecret: string)
      ensures Valid()
      ensures password == "" && !isAuthenticated && errorMessage == "" && successMessage == ""
      ensures playlistSecret == importSecret
    {
      password, isAuthenticated, errorMessage, successMessage := "", false, "", "";
      playlistSecret := importSecret;
    }

    /** `set_password`: replaces the typed password; nothing else changes. */
    method SetPassword(value: string)
      requires Valid()
      modifies this`password
      ensures Valid() && password == value
    {
      password := value;
    }

    /** `_clear_messages`: both messages emptied, nothing else changes. */
    method ClearMessages()
      modifies this`errorMessage, this`successMessage
      ensures errorMessage == "" && successMessage == ""
    {
      errorMessage := "";
      successMessage := "";
    }

    /** `login` with `adminPassword` the value of the `ADMIN_PASSWORD`
        environment entry (empty when unset). Messages are cleared first.
        Unset: only the not-configured error. Either side of the comparison
        holding a non-ASCII character: the digest comparison raises, which
        `raised` reports, and nothing but the cleared messages changes.
        Matching stripped password: authenticated, password cleared, secret
        reloaded from the store into both the session and the shared
        configuration, success message. Otherwise: logged out with the
        invalid-password error, password and secrets untouched. */
    method Login(config: Config, store: SecretStore, adminPassword: string) returns (raised: bool)
      modifies this, config
      ensures old(SyncedWith(config)) ==> SyncedWith(config)
      ensures raised <==> adminPassword != "" && !(IsAscii(Strip(old(password))) && IsAscii(adminPassword))
      ensures Valid()
      ensures adminPassword == "" ==>
                errorMessage == PasswordNotConfigured && successMessage == ""
                && isAuthenticated == old(isAuthenticated) && password == old(password)
                && playlistSecret == old(playlistSecret) && unchanged(config)
      ensures raised ==>
                errorMessage == "" && successMessage == ""
                && isAuthenticated == old(isAuthenticated) && password == old(password)
                && playlistSecret == old(playlistSecret) && unchanged(config)
      ensures adminPassword != "" && !raised && Strip(old(password)) == adminPassword ==>
                isAuthenticated && password == ""
                && playlistSecret == store.Current() && config.playlistSecret == store.Current()
                && errorMessage == "" && successMessage == AccessGranted
      ensures adminPassword != "" && !raised && Strip(old(password)) != adminPassword ==>
                !isAuthenticated && password == old(password)
                && playlistSecret == old(playlistSecret) && unchanged(config)
                && errorMessage == InvalidPassword && successMessage == ""
      ensures adminPassword != "" && !raised ==> SyncedWith(config)
    {
      raised := false;
      ClearMessages();
      if adminPassword == "" {
        errorMessage := PasswordNotConfigured;
        return;
      }
      var typed := Strip(password);
      if !(IsAscii(typed) && IsAscii(adminPassword)) {
        raised := true;
        return;
      }
      if typed == adminPassword {
        isAuthenticated := true;
        password := "";
        playlistSecret := store.Load();
        config.playlistSecret := playlistSecret;
        successMessage := AccessGranted;
      } else {
        errorMessage := InvalidPassword;
        isAuthenticated := false;
      }
    }

    /** `logout`: messages cleared, session unauthenticated, password
        emptied; the secret shown and the shared configuration are kept. */
    method Logout()
      modifies this`errorMessage, this`successMessage, this`isAuthenticated, this`password
      ensures Valid()
      ensures errorMessage == "" && successMessage == ""
      ensures !isAuthenticated && password == ""
      ensures playlistSecret == old(playlistSecret)
    {
      ClearMessages();
      isAuthenticated := false;
      password := "";
    }

    /** `generate_secret` with `token` the freshly drawn random token.
        Messages are cleared first. Unauthenticated: only the login-required
        error; neither the store, the session secret nor the configuration
        changes. Authenticated: the token is persisted and becomes both the
        session secret and the configuration's secret, with a success
        message. */
    method GenerateSecret(config: Config, store: SecretStore, token: string)
      requires token != ""
      modifies this`errorMessage, this`successMessage, this`playlistSecret, config, store
      ensures Valid() && SyncedWith(config)
      ensures isAuthenticated == old(isAuthenticated) && password == old(password)
      ensures !isAuthenticated ==>
                errorMessage == LoginRequired && successMessage == ""
                && playlistSecret == old(playlistSecret) && unchanged(config) && unchanged(store)
      ensures isAuthenticated ==>
                playlistSecret == token && config.playlistSecret == token
                && store.persisted == token
                && errorMessage == "" && successMessage == SecretGenerated
    {
      ClearMessages();
      if !isAuthenticated {
        errorMessage := LoginRequired;
        return;
      }
      var newSecret := store.Generate(token);
      playlistSecret := newSecret;
      config.playlistSecret := newSecret;
      successMessage := SecretGenerated;
    }

    /** `playlist_url`: the link for the session secret, stripped, so it
        carries exactly that stripped secret. */
    function PlaylistUrl(config: Config): (url: string)
      reads this, config
      ensures Playlist.EmbeddedCode(config.apiUrl, url) == Playlist.Some(Strip(playlistSecret))
      ensures Strip(playlistSecret) == "" ==> url == config.apiUrl + Playlist.PlaylistFile
    {
      Playlist.PlaylistUrlFor(config.apiUrl, playlistSecret)
    }
  }

  /** The two sessions joined through the shared configuration: a viewer
      code is checked under the current secret, the admin rotates to the
      fresh non-empty `token`, and the same code is checked again. A code
      let in under a non-empty secret is refused after the rotation. */
  method ReverifyAfterRotation(config: Config, store: SecretStore, admin: AdminState,
                               viewer: Playlist.PlaylistState, code: string, token: string)
      returns (before: bool, after: bool)
    requires admin.isAuthenticated && viewer.Valid()
    requires token != "" && token != config.playlistSecret
    modifies config, store, admin, viewer
    ensures before == Playlist.ValidateAccessCode(code, old(config.playlistSecret)).authorized
    ensures config.playlistSecret == token && store.persisted == token
    ensures after <==> Strip(code) == token
    ensures before && old(config.playlistSecret) != "" ==> !after
    ensures viewer.errorMessage == (if after then "" else Playlist.InvalidAccessCode)
  {
    viewer.SetAccessCode(code);
    viewer.VerifyCode(config);
    before := viewer.isAuthorized;
    admin.GenerateSecret(config, store, token);
    viewer.VerifyCode(config);
    after := viewer.isAuthorized;
  }
}
