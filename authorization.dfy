/**
 * The bearer-header gate that GetUserProfile, AddStory and GetStory each run
 * before anything else (controllers/auth_controller.go and
 * controllers/user_story_controller.go): the raw Authorization header is
 * either missing, badly formatted, or yields a token for the verifier.
 */
module Authorization {
  import opened Wrappers

  /** The prefix removed from the header, case-sensitively and at most once. */
  const BearerPrefix: string := "Bearer "

  /** unicode.IsSpace, the test strings.TrimSpace applies to each character. */
  predicate IsSpace(c: char)
  {
    c == ' ' || c == '\t' || c == '\n' || c == '\U{B}' || c == '\U{C}' || c == '\r'
    || c == '\U{85}' || c == '\U{A0}' || c == '\U{1680}'
    || ('\U{2000}' <= c <= '\U{200A}')
    || c == '\U{2028}' || c == '\U{2029}' || c == '\U{202F}' || c == '\U{205F}' || c == '\U{3000}'
  }

  predicate AllSpace(s: string)
  {
    forall k :: 0 <= k < |s| ==> IsSpace(s[k])
  }

  /** strings.TrimPrefix: drops the prefix once if the string starts with it. */
  function TrimPrefix(s: string, prefix: string): (r: string)
    ensures prefix <= s ==> prefix + r == s
    ensures !(prefix <= s) ==> r == s
  {
    if prefix <= s then s[|prefix|..] else s
  }

  /** Drops leading white space: what is left is a suffix that does not start with a space. */
  function TrimLeftSpace(s: string): (r: string)
    ensures |r| <= |s| && r == s[|s| - |r|..]
    ensures AllSpace(s[..|s| - |r|])
    ensures r != "" ==> !IsSpace(r[0])
  {
    if s != "" && IsSpace(s[0]) then TrimLeftSpace(s[1..]) else s
  }

  /** Drops trailing white space: what is left is a prefix that does not end with a space. */
  function TrimRightSpace(s: string): (r: string)
    ensures |r| <= |s| && r == s[..|r|]
    ensures AllSpace(s[|r|..])
    ensures r != "" ==> !IsSpace(r[|r| - 1])
  {
    if s != "" && IsSpace(s[|s| - 1]) then TrimRightSpace(s[..|s| - 1]) else s
  }

  /** strings.TrimSpace: leading, then trailing white space removed. */
  function TrimSpace(s: string): string
  {
    TrimRightSpace(TrimLeftSpace(s))
  }

  /** TrimSpace leaves nothing exactly when the string is all white space. */
  lemma TrimSpaceEmpty(s: string)
    ensures TrimSpace(s) == "" <==> AllSpace(s)
    ensures TrimSpace(s) != "" ==> !IsSpace(TrimSpace(s)[0]) && !IsSpace(TrimSpace(s)[|TrimSpace(s)| - 1])
  {
    var l := TrimLeftSpace(s);
    assert s == s[..|s| - |l|] + l;
    if TrimSpace(s) == "" {
      assert l[0..] == l;
    }
  }

  /** How much leading white space TrimSpace removes. */
  function LeadingSpace(s: string): nat
  {
    |s| - |TrimLeftSpace(s)|
  }

  /**
   * Trimming removes only white space: the result is the piece of the string
   * that starts after the leading white space, and all that follows it is
   * white space.
   */
  lemma TrimSpaceWithin(s: string)
    ensures LeadingSpace(s) + |TrimSpace(s)| <= |s|
    ensures s[LeadingSpace(s) .. LeadingSpace(s) + |TrimSpace(s)|] == TrimSpace(s)
    ensures AllSpace(s[..LeadingSpace(s)]) && AllSpace(s[LeadingSpace(s) + |TrimSpace(s)|..])
  {
    var l := TrimLeftSpace(s);
    var m := TrimRightSpace(l);
    var i := LeadingSpace(s);
    assert TrimSpace(s) == m;
    assert i == |s| - |l| && s[i..] == l;
    assert AllSpace(s[..i]);
    assert m == l[..|m|] && AllSpace(l[|m|..]);
    assert s[i .. i + |m|] == l[..|m|];
    assert s[i + |m|..] == l[|m|..];
  }

  /** What the gate makes of the raw header. */
  datatype TokenExtraction = MissingHeader | MalformedHeader | BearerToken(token: string)

  /** The header with one leading "Bearer " removed and the surrounding white space trimmed. */
  function ExtractToken(header: string): (r: TokenExtraction)
    ensures r.MissingHeader? <==> header == ""
    ensures r.MalformedHeader? <==> header != "" && AllSpace(TrimPrefix(header, BearerPrefix))
    ensures r.BearerToken? ==> r.token != "" && !IsSpace(r.token[0]) && !IsSpace(r.token[|r.token| - 1])
    ensures r.BearerToken? ==>
      var s := TrimPrefix(header, BearerPrefix);
      var i := LeadingSpace(s);
      i + |r.token| <= |s| && s[i .. i + |r.token|] == r.token &&
      AllSpace(s[..i]) && AllSpace(s[i + |r.token|..])
  {
    if header == "" then MissingHeader
    else
      var s := TrimPrefix(header, BearerPrefix);
      TrimSpaceEmpty(s);
      var t := TrimSpace(s);
      if t == "" then MalformedHeader
      else
        TrimSpaceWithin(s);
        BearerToken(t)
  }

  /** Why a request was refused at the gate. */
  datatype AuthError = MissingToken | InvalidTokenFormat | InvalidOrExpiredToken

  /** The message each refusal is reported with. */
  function AuthErrorMessage(e: AuthError): string
  {
    match e
    case MissingToken => "Missing authorization token"
    case InvalidTokenFormat => "Invalid token format"
    case InvalidOrExpiredToken => "Invalid or expired token"
  }

  /**
   * The gate: the header's token is handed to the token verifier (ParseToken,
   * a parameter here), and the user id it returns is the caller's identity.
   */
  function Authorize(header: string, parseToken: string -> Option<int>): (r: Result<int, AuthError>)
    ensures r == Err(MissingToken) <==> header == ""
    ensures r == Err(InvalidTokenFormat) <==> header != "" && AllSpace(TrimPrefix(header, BearerPrefix))
    ensures r == Err(InvalidOrExpiredToken) <==>
      ExtractToken(header).BearerToken? && parseToken(ExtractToken(header).token).None?
    ensures r.Ok? ==> ExtractToken(header).BearerToken? && parseToken(ExtractToken(header).token) == Some(r.value)
  {
    match ExtractToken(header)
    case MissingHeader => Err(MissingToken)
    case MalformedHeader => Err(InvalidTokenFormat)
    case BearerToken(t) =>
      match parseToken(t)
      case None => Err(InvalidOrExpiredToken)
      case Some(userId) => Ok(userId)
  }

  /** The prefix is removed only once: "Bearer Bearer x" hands "Bearer x" to the verifier. */
  lemma PrefixStrippedOnce()
    ensures ExtractToken("Bearer Bearer x") == BearerToken("Bearer x")
  {
    var rest := "Bearer x";
    assert BearerPrefix + rest == "Bearer Bearer x";
    assert TrimPrefix("Bearer Bearer x", BearerPrefix) == rest;
    assert TrimLeftSpace(rest) == rest by { assert !IsSpace(rest[0]); }
    assert TrimRightSpace(rest) == rest by { assert !IsSpace(rest[|rest| - 1]); }
  }

  /** The ordinary header "Bearer <jwt>" hands exactly <jwt> to the verifier. */
  lemma OrdinaryBearerHeader(jwt: string)
    requires jwt != "" && !IsSpace(jwt[0]) && !IsSpace(jwt[|jwt| - 1])
    ensures ExtractToken(BearerPrefix + jwt) == BearerToken(jwt)
  {
    assert TrimPrefix(BearerPrefix + jwt, BearerPrefix) == jwt;
    assert TrimLeftSpace(jwt) == jwt;
    assert TrimRightSpace(jwt) == jwt;
  }

  /**
   * The prefix is matched case-sensitively: a header without the exact
   * "Bearer " prefix is only trimmed and handed to the verifier, not refused
   * as badly formatted.
   */
  lemma PrefixCaseSensitive(header: string)
    requires !(BearerPrefix <= header) && !AllSpace(header)
    ensures ExtractToken(header) == BearerToken(TrimSpace(header))
  {
    TrimSpaceEmpty(header);
  }

  /** A lower-case scheme is not the prefix: the whole header goes to the verifier. */
  lemma LowerCaseSchemeKept()
    ensures ExtractToken("bearer abc") == BearerToken("bearer abc")
  {
    var h := "bearer abc";
    assert h[0] != BearerPrefix[0];
    assert TrimPrefix(h, BearerPrefix) == h;
    assert TrimLeftSpace(h) == h by { assert !IsSpace(h[0]); }
    assert TrimRightSpace(h) == h by { assert !IsSpace(h[|h| - 1]); }
  }

  /** "Bearer" without the space is not the prefix either: it is itself taken as the token. */
  lemma SchemeWithoutSpaceKept()
    ensures ExtractToken("Bearer") == BearerToken("Bearer")
  {
    var h := "Bearer";
    assert TrimPrefix(h, BearerPrefix) == h;
    assert TrimLeftSpace(h) == h by { assert !IsSpace(h[0]); }
    assert TrimRightSpace(h) == h by { assert !IsSpace(h[|h| - 1]); }
  }

  /** The prefix followed only by white space is badly formatted. */
  lemma PrefixAloneMalformed()
    ensures ExtractToken("Bearer ") == MalformedHeader
    ensures ExtractToken("Bearer  \t ") == MalformedHeader
  {
    assert BearerPrefix + "" == "Bearer ";
    assert BearerPrefix + " \t " == "Bearer  \t ";
    assert TrimPrefix("Bearer  \t ", BearerPrefix) == " \t ";
  }
}
