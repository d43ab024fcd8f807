/** The process-wide application configuration object. Only the two values
    the secret gate uses are modelled: the public base URL of the API and
    the playlist secret, which the admin page overwrites in place. */
module AppConfig {

  class Config {
    /** `config.api_url`: base of every playlist link handed to viewers. */
    const apiUrl: string
    /** `config.playlist_secret`: the secret viewers are checked against. */
    var playlistSecret: string

    /** The configuration as the process builds it at start-up, with the
        secret that the secret loader returned at that moment. */
    constructor (apiUrl: string, loadedSecret: string)
      ensures this.apiUrl == apiUrl && playlistSecret == loadedSecret
    {
      this.apiUrl := apiUrl;
      playlistSecret := loadedSecret;
    }
  }
}
