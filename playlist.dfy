/** The viewer side of the playlist secret gate: the access-code validator,
    the playlist link derivation, and the per-viewer state that remembers
    which code was accepted. */
module Playlist {
  import opened Text
  import opened AppConfig

  datatype Option<T> = None | Some(value: T)

  /** Outcome of checking an access code: whether it grants access, and
      the message to show the viewer (empty on success). */
  datatype Verdict = Verdict(authorized: bool, message: string)

  const InvalidAccessCode := "Invalid access code."

  /** File name at the end of every playlist link. */
  const PlaylistFile := "/playlist.m3u8"

  const Granted := Verdict(true, "")
  const Denied := Verdict(false, InvalidAccessCode)

  /** `validate_access_code`: an empty secret leaves the playlist open to
      every candidate; otherwise the candidate, with surrounding whitespace
      removed, must equal the secret exactly (the secret itself is taken
      as it is). */
  function ValidateAccessCode(candidate: string, secret: string): (v: Verdict)
    ensures v == Granted || v == Denied
    ensures v.authorized <==> secret == "" || Strip(candidate) == secret
  {
    if secret == "" then Granted
    else if Strip(candidate) == secret then Granted
    else Denied
  }

  /** With no secret configured every candidate, the empty one included,
      is let in. */
  lemma OpenAccessGrantsAll(candidate: string)
    ensures ValidateAccessCode(candidate, "") == Granted
  {
  }

  /** A non-empty, trimmed secret is accepted when it is typed with any
      whitespace around it. */
  lemma PaddedSecretGranted(pre: string, secret: string, post: string)
    requires secret != "" && IsTrimmed(secret)
    requires AllWhitespace(pre) && AllWhitespace(post)
    ensures ValidateAccessCode(pre + secret + post, secret) == Granted
  {
    StripPadded(pre, secret, post);
  }

  /** Conversely, a candidate accepted under a non-empty secret is that
      secret with whitespace around it and nothing else. */
  lemma GrantedOnlyIfPadded(candidate: string, secret: string) returns (pre: string, post: string)
    requires secret != ""
    requires ValidateAccessCode(candidate, secret).authorized
    ensures candidate == pre + secret + post
    ensures AllWhitespace(pre) && AllWhitespace(post)
  {
    pre, post := StripSplit(candidate);
  }

  /** The secret is not stripped: a non-empty secret that starts or ends
      with whitespace can never be matched, whatever is typed. */
  lemma UntrimmedSecretNeverGranted(candidate: string, secret: string)
    requires secret != "" && !IsTrimmed(secret)
    ensures ValidateAccessCode(candidate, secret) == Denied
  {
  }

  /** Rotation: a code accepted under the non-empty secret `s1` is refused
      once the secret has been replaced by a different non-empty `s2`. */
  lemma RotationRejectsOldCode(code: string, s1: string, s2: string)
    requires s1 != "" && s2 != "" && s1 != s2
    requires ValidateAccessCode(code, s1).authorized
    ensures ValidateAccessCode(code, s2) == Denied
  {
  }

  /** The playlist link for a code: the code, stripped, as a path segment
      between the API base and the playlist file, or no segment at all when
      the stripped code is empty. */
  function PlaylistUrlFor(apiUrl: string, code: string): (url: string)
    ensures |apiUrl| <= |url| && url[..|apiUrl|] == apiUrl
    ensures EmbeddedCode(apiUrl, url) == Some(Strip(code))
  {
    var c := Strip(code);
    if c != "" then
      var url := apiUrl + "/" + c + PlaylistFile;
      assert url[..|apiUrl| + 1] == apiUrl + "/";
      assert url[|url| - |PlaylistFile|..] == PlaylistFile;
      assert url[|apiUrl| + 1 .. |url| - |PlaylistFile|] == c;
      url
    else
      apiUrl + PlaylistFile
  }

  /** Reads back the code carried by a playlist link under the API base:
      `Some("")` for the open link, `Some(c)` for a link with the non-empty
      segment `c`, `None` for anything else. It is the inverse of
      `PlaylistUrlFor` on stripped codes. */
  function EmbeddedCode(apiUrl: string, url: string): (code: Option<string>)
    ensures code.Some? && code.value != "" ==>
              url == apiUrl + "/" + code.value + PlaylistFile
    ensures code == Some("") ==> url == apiUrl + PlaylistFile
  {
    var n, m := |apiUrl|, |PlaylistFile|;
    if url == apiUrl + PlaylistFile then Some("")
    else if |url| > n + 1 + m && url[..n + 1] == apiUrl + "/" && url[|url| - m..] == PlaylistFile then
      var c := url[n + 1 .. |url| - m];
      assert url == url[..n + 1] + c + url[|url| - m..];
      Some(c)
    else None
  }

  /** A link derived from a code accepted under the non-empty secret `s1`
      carries exactly `s1`, and after rotation to a different non-empty
      `s2` the code it carries is refused. */
  lemma StaleLinkRejected(apiUrl: string, code: string, s1: string, s2: string)
    requires s1 != "" && s2 != "" && s1 != s2
    requires ValidateAccessCode(code, s1).authorized
    ensures EmbeddedCode(apiUrl, PlaylistUrlFor(apiUrl, Strip(code))) == Some(s1)
    ensures ValidateAccessCode(s1, s2) == Denied
  {
    StripIdempotent(code);
    StripFixedPoint(s1);
  }

  /** `PlaylistState`: what one viewer's session remembers. */
  class PlaylistState {
    var accessCode: string
    var authorizedCode: string
    var isAuthorized: bool
    var errorMessage: string

    /** The remembered code is stored stripped, and is only ever remembered
        while access is granted. */
    predicate Valid()
      reads this
    {
      IsTrimmed(authorizedCode) && (authorizedCode != "" ==> isAuthorized)
    }

    /** The fields hold what verifying the current access code against
        `secret` yields. */
    predicate VerifiedAgainst(secret: string)
      reads this
    {
      var v := ValidateAccessCode(accessCode, secret);
      isAuthorized == v.authorized && errorMessage == v.message
      && authorizedCode == (if v.authorized then Strip(accessCode) else "")
    }

    constructor ()
      ensures Valid()
      ensures accessCode == "" && authorizedCode == "" && !isAuthorized && errorMessage == ""
    {
      accessCode, authorizedCode, isAuthorized, errorMessage := "", "", false, "";
    }

    /** `set_access_code`: replaces the typed code; nothing else changes. */
    method SetAccessCode(value: string)
      requires Valid()
      modifies this`accessCode
      ensures Valid() && accessCode == value
    {
      accessCode := value;
    }

    /** `verify_code`: checks the typed code against the secret in the
        shared configuration, records the verdict and remembers the stripped
        code on success. The typed code and the configuration are left as
        they are; on a state that already holds the verdict it changes
        nothing, so verifying twice is verifying once. */
    method VerifyCode(config: Config)
      modifies this`isAuthorized, this`errorMessage, this`authorizedCode
      ensures Valid() && VerifiedAgainst(config.playlistSecret)
      ensures isAuthorized <==> config.playlistSecret == "" || Strip(accessCode) == config.playlistSecret
      ensures errorMessage == (if isAuthorized then "" else InvalidAccessCode)
      ensures old(VerifiedAgainst(config.playlistSecret)) ==> unchanged(this)
    {
      var secret := config.playlistSecret;
      var v := ValidateAccessCode(accessCode, secret);
      isAuthorized := v.authorized;
      errorMessage := v.message;
      if v.authorized {
        authorizedCode := Strip(accessCode);
      } else {
        authorizedCode := "";
      }
    }

    /** `revoke_access`: back to the initial, unauthorized state. */
    method RevokeAccess()
      modifies this
      ensures Valid()
      ensures accessCode == "" && authorizedCode == "" && !isAuthorized && errorMessage == ""
    {
      isAuthorized := false;
      accessCode := "";
      errorMessage := "";
      authorizedCode := "";
    }

    /** `playlist_url`: the link for the remembered code, stripped; in a
        valid state it carries that code exactly, and no code while access
        is not granted. */
    function PlaylistUrl(config: Config): (url: string)
      reads this, config
      ensures EmbeddedCode(config.apiUrl, url) == Some(Strip(authorizedCode))
      ensures Valid() ==> EmbeddedCode(config.apiUrl, url) == Some(authorizedCode)
      ensures Valid() && !isAuthorized ==> url == config.apiUrl + PlaylistFile
    {
      StripFixedPoint(authorizedCode);
      PlaylistUrlFor(config.apiUrl, authorizedCode)
    }
  }

  /** A client of `VerifyCode` (a viewer pressing the button twice):
      verifying twice with nothing changed in between leaves the state the
      first verification produced. */
  method VerifyTwice(viewer: PlaylistState, config: Config)
    modifies viewer
    ensures viewer.Valid() && viewer.VerifiedAgainst(config.playlistSecret)
    ensures viewer.accessCode == old(viewer.accessCode)
  {
    viewer.VerifyCode(config);
    ghost var once := (viewer.accessCode, viewer.authorizedCode, viewer.isAuthorized, viewer.errorMessage);
    viewer.VerifyCode(config);
    assert (viewer.accessCode, viewer.authorizedCode, viewer.isAuthorized, viewer.errorMessage) == once;
  }
}
