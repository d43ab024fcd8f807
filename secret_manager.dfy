/** The persisted playlist secret behind `secret_manager.load_secret` and
    `secret_manager.generate_secret`. Storage is a single string; an
    environment override, fixed for the life of the process, wins over it
    whenever it is non-empty. Randomness is not modelled: the freshly drawn
    URL-safe token is passed in by the caller. */
module SecretManager {

  class SecretStore {
    /** The environment override of the secret (empty when unset). */
    const envOverride: string
    /** The value last persisted. */
    var persisted: string

    constructor (envOverride: string, persisted: string)
      ensures this.envOverride == envOverride && this.persisted == persisted
    {
      this.envOverride := envOverride;
      this.persisted := persisted;
    }

    /** The secret currently in force: the override if set, else the
        persisted value; empty means open access. */
    function Current(): (s: string)
      reads this
      ensures envOverride != "" ==> s == envOverride
      ensures envOverride == "" ==> s == persisted
    {
      if envOverride != "" then envOverride else persisted
    }

    /** `load_secret`: read the secret in force, changing nothing. */
    method Load() returns (s: string)
      ensures s == Current()
    {
      s := if envOverride != "" then envOverride else persisted;
    }

    /** `generate_secret`: persist the freshly drawn `token` and return it.
        The token is never empty, so neither is the result; without an
        override a later `Load` returns exactly it. */
    method Generate(token: string) returns (s: string)
      requires token != ""
      modifies this`persisted
      ensures s == token && s != ""
      ensures persisted == token
      ensures envOverride == "" ==> Current() == s
    {
      persisted := token;
      s := token;
    }
  }
}
