/**
 * Tokens and the request guard. A token is the text a codec makes of a
 * claims record {sub, type, iat, exp}; the signature scheme is abstract:
 * a sound codec decodes every token it made back to its claims. Times are
 * integer seconds and "now" is a parameter.
 */
module Tokens {
  import opened Seqs
  import opened Model
  import opened Dao

  /** Access tokens live 30 minutes, refresh tokens 7 days. */
  const AccessLifetime: int := 30 * 60
  const RefreshLifetime: int := 7 * Day

  const AccessType: string := "access"
  const RefreshType: string := "refresh"

  /** A token payload; `kind` is the `type` claim. */
  datatype Claims = Claims(sub: int, kind: string, iat: int, exp: int)

  /** Encoding and decoding under the service's fixed secret; decoding checks the signature. */
  datatype Codec = Codec(encode: Claims -> string, decode: string -> Option<Claims>)

  /** A sound codec decodes what it encoded, and its tokens are one non-empty word. */
  ghost predicate Sound(c: Codec) {
    forall claims: Claims {:trigger c.encode(claims)} ::
      && c.decode(c.encode(claims)) == Some(claims)
      && c.encode(claims) != []
      && ' ' !in c.encode(claims)
  }

  lemma SoundInjective(c: Codec, a: Claims, b: Claims)
    requires Sound(c) && a != b
    ensures c.encode(a) != c.encode(b)
  {
    assert c.decode(c.encode(a)) == Some(a);
    assert c.decode(c.encode(b)) == Some(b);
  }

  // ---------------------------------------------------------------------
  // Issuing

  function AccessClaims(userId: int, now: int): Claims {
    Claims(userId, AccessType, now, now + AccessLifetime)
  }

  function RefreshClaims(userId: int, now: int): Claims {
    Claims(userId, RefreshType, now, now + RefreshLifetime)
  }

  /** generate_access_token */
  function GenerateAccessToken(codec: Codec, userId: int, now: int): string {
    codec.encode(AccessClaims(userId, now))
  }

  /** generate_refresh_token */
  function GenerateRefreshToken(codec: Codec, userId: int, now: int): string {
    codec.encode(RefreshClaims(userId, now))
  }

  // ---------------------------------------------------------------------
  // Decoding

  /**
   * jwt.decode: the claims of a token whose signature checks, unless the
   * token has expired (its exp is not after now).
   */
  function JwtDecode(codec: Codec, token: string, now: int): (r: Option<Claims>)
    ensures r.Some? <==> codec.decode(token).Some? && now < codec.decode(token).value.exp
    ensures r.Some? ==> r == codec.decode(token)
  {
    match codec.decode(token)
    case None => None
    case Some(c) => if c.exp <= now then None else Some(c)
  }

  /** An access token decodes to its claims for exactly 30 minutes from issue. */
  lemma AccessTokenDecodes(codec: Codec, userId: int, iat: int, now: int)
    requires Sound(codec)
    ensures var r := JwtDecode(codec, GenerateAccessToken(codec, userId, iat), now);
      && (r.Some? <==> now < iat + AccessLifetime)
      && (r.Some? ==> r.value.sub == userId && r.value.kind == AccessType && r.value.exp == r.value.iat + AccessLifetime)
  {
    assert codec.decode(codec.encode(AccessClaims(userId, iat))) == Some(AccessClaims(userId, iat));
  }

  /** A refresh token decodes to its claims for exactly 7 days from issue. */
  lemma RefreshTokenDecodes(codec: Codec, userId: int, iat: int, now: int)
    requires Sound(codec)
    ensures var r := JwtDecode(codec, GenerateRefreshToken(codec, userId, iat), now);
      && (r.Some? <==> now < iat + RefreshLifetime)
      && (r.Some? ==> r.value.sub == userId && r.value.kind == RefreshType && r.value.exp == r.value.iat + RefreshLifetime)
  {
    assert codec.decode(codec.encode(RefreshClaims(userId, iat))) == Some(RefreshClaims(userId, iat));
  }

  /**
   * decode_token: the payload of a valid token that is not blacklisted.
   * The blacklist is read only for a token that decodes, and a failed
   * read counts as blacklisted.
   */
  function DecodeToken(codec: Codec, blacklist: seq<BlacklistedToken>, token: string, now: int, lookupError: bool)
    : (r: Option<Claims>)
    ensures r.Some? <==> JwtDecode(codec, token, now).Some? && !IsTokenBlacklisted(blacklist, token, lookupError)
    ensures r.Some? ==> r == JwtDecode(codec, token, now)
  {
    match JwtDecode(codec, token, now)
    case None => None
    case Some(payload) => if IsTokenBlacklisted(blacklist, token, lookupError) then None else Some(payload)
  }

  /** Blacklisting one token leaves what every other token decodes to as it was. */
  lemma BlacklistAffectsOnlyItsToken(codec: Codec, blacklist: seq<BlacklistedToken>, e: BlacklistedToken,
                                     token: string, now: int)
    requires token != e.token
    ensures DecodeToken(codec, blacklist + [e], token, now, false) == DecodeToken(codec, blacklist, token, now, false)
  {
    var after := blacklist + [e];
    if IsTokenBlacklisted(after, token, false) {
      var k :| 0 <= k < |after| && after[k].token == token;
      assert k < |blacklist| && blacklist[k] == after[k];
    }
    if IsTokenBlacklisted(blacklist, token, false) {
      var k :| 0 <= k < |blacklist| && blacklist[k].token == token;
      assert after[k] == blacklist[k];
    }
  }

  // ---------------------------------------------------------------------
  // The Authorization header

  /** Python's str.split(sep): every occurrence separates, so empty words are kept. */
  function Split(s: string, sep: char): (r: seq<string>)
    ensures |r| >= 1
    ensures forall k :: 0 <= k < |r| ==> sep !in r[k]
  {
    if s == [] then [""]
    else
      var rest := Split(s[1..], sep);
      if s[0] == sep then [""] + rest
      else [[s[0]] + rest[0]] + rest[1..]
  }

  /** str.join: the words with one separator between neighbours. */
  function Join(words: seq<string>, sep: char): string
    requires |words| >= 1
  {
    if |words| == 1 then words[0] else words[0] + [sep] + Join(words[1..], sep)
  }

  /** Splitting loses nothing: joining the words back gives the text. */
  lemma {:induction false} JoinSplit(s: string, sep: char)
    ensures Join(Split(s, sep), sep) == s
  {
    if s != [] {
      var rest := Split(s[1..], sep);
      JoinSplit(s[1..], sep);
      if s[0] == sep {
        assert ([""] + rest)[1..] == rest;
      } else if |rest| > 1 {
        var r := [[s[0]] + rest[0]] + rest[1..];
        assert r[1..] == rest[1..];
        assert Join(rest, sep) == rest[0] + [sep] + Join(rest[1..], sep);
      }
      assert s == [s[0]] + s[1..];
    }
  }

  lemma {:induction false} SplitOneWord(w: string, sep: char)
    requires sep !in w
    ensures Split(w, sep) == [w]
  {
    if w != [] {
      SplitOneWord(w[1..], sep);
      assert w == [w[0]] + w[1..];
    }
  }

  /** A prefix without the separator joins the first word. */
  lemma {:induction false} SplitPrefix(w: string, rest: string, sep: char)
    requires sep !in w
    ensures Split(w + rest, sep) == [w + Split(rest, sep)[0]] + Split(rest, sep)[1..]
  {
    var r := Split(rest, sep);
    if w != [] {
      SplitPrefix(w[1..], rest, sep);
      assert (w + rest)[0] == w[0] && (w + rest)[1..] == w[1..] + rest;
      var inner := Split(w[1..] + rest, sep);
      assert inner[0] == w[1..] + r[0] && inner[1..] == r[1..];
      assert [w[0]] + (w[1..] + r[0]) == w + r[0];
    } else {
      assert w + rest == rest && w + r[0] == r[0];
      assert r == [r[0]] + r[1..];
    }
  }

  lemma SplitTwoWords(w: string, t: string, sep: char)
    requires sep !in w && sep !in t
    ensures Split(w + [sep] + t, sep) == [w, t]
  {
    var tail := [sep] + t;
    SplitOneWord(t, sep);
    assert tail[0] == sep && tail[1..] == t;
    assert Split(tail, sep) == [""] + [t];
    assert w + [sep] + t == w + tail;
    SplitPrefix(w, tail, sep);
    assert w + "" == w;
  }

  /**
   * The token of an Authorization header: its second space-separated word.
   * No header, an empty one, a single word and an empty second word all
   * give no token; the first word is not looked at.
   */
  function BearerToken(header: Option<string>): (r: Option<string>)
    ensures r.Some? ==> r.value != "" && ' ' !in r.value
  {
    if !Truthy(header) then None
    else
      var words := Split(header.value, ' ');
      if |words| < 2 || words[1] == "" then None else Some(words[1])
  }

  /** "<scheme> <token>" yields the token, whatever the scheme word. */
  lemma BearerTokenOfHeader(scheme: string, token: string)
    requires ' ' !in scheme && ' ' !in token && token != ""
    ensures BearerToken(Some(scheme + " " + token)) == Some(token)
  {
    SplitTwoWords(scheme, token, ' ');
  }

  /** A header that is one word, or whose second word is empty, yields no token. */
  lemma BearerTokenMissing(scheme: string, rest: string)
    requires ' ' !in scheme
    ensures BearerToken(Some(scheme)) == None
    ensures BearerToken(Some(scheme + " " + " " + rest)) == None
  {
    SplitOneWord(scheme, ' ');
    var tail := " " + rest;
    assert scheme + " " + " " + rest == scheme + ([' '] + tail);
    assert ([' '] + tail)[1..] == tail;
    assert tail[1..] == rest;
    assert Split(tail, ' ') == [""] + Split(rest, ' ');
    assert Split([' '] + tail, ' ') == [""] + Split(tail, ' ');
    SplitPrefix(scheme, [' '] + tail, ' ');
  }

  // ---------------------------------------------------------------------
  // The guards

  datatype GuardError = TokenMissing | TokenInvalid | TokenTypeInvalid | UserNotFound

  function ErrorCode(e: GuardError): string {
    match e
    case TokenMissing => "token_missing"
    case TokenInvalid => "token_invalid"
    case TokenTypeInvalid => "token_type_invalid"
    case UserNotFound => "user_not_found"
  }

  /** Every guard failure answers 401. */
  const GuardStatus: int := 401

  /** A guard either admits the request with the token's user or rejects it. */
  datatype Guard = Admit(user: User) | Reject(error: GuardError)

  /**
   * The check chain shared by token_required and refresh_token_required:
   * a token, that decodes and is not blacklisted, of the wanted type, whose
   * user exists. Whether that user is active is not consulted.
   */
  function Authenticate(codec: Codec, users: seq<User>, blacklist: seq<BlacklistedToken>, header: Option<string>,
                        now: int, lookupError: bool, wanted: string): (g: Guard)
    ensures g.Admit? ==>
      && BearerToken(header).Some?
      && var p := DecodeToken(codec, blacklist, BearerToken(header).value, now, lookupError);
      && p.Some? && p.value.kind == wanted
      && g.user in users && g.user.id == p.value.sub
  {
    match BearerToken(header)
    case None => Reject(TokenMissing)
    case Some(token) =>
      match DecodeToken(codec, blacklist, token, now, lookupError)
      case None => Reject(TokenInvalid)
      case Some(payload) =>
        if payload.kind != wanted then Reject(TokenTypeInvalid)
        else match GetUserById(users, payload.sub)
          case None => Reject(UserNotFound)
          case Some(u) => Admit(u)
  }

  /** token_required */
  function TokenRequired(codec: Codec, users: seq<User>, blacklist: seq<BlacklistedToken>, header: Option<string>,
                         now: int, lookupError: bool): Guard {
    Authenticate(codec, users, blacklist, header, now, lookupError, AccessType)
  }

  /** refresh_token_required */
  function RefreshTokenRequired(codec: Codec, users: seq<User>, blacklist: seq<BlacklistedToken>, header: Option<string>,
                                now: int, lookupError: bool): Guard {
    Authenticate(codec, users, blacklist, header, now, lookupError, RefreshType)
  }

  /**
   * The failure precedence: a missing token, then an invalid one (bad
   * signature, expired, revoked or unreadable blacklist), then the wrong
   * type, then an unknown user; the request is admitted only past all four.
   */
  lemma GuardPrecedence(codec: Codec, users: seq<User>, blacklist: seq<BlacklistedToken>, header: Option<string>,
                        now: int, lookupError: bool, wanted: string)
    ensures var g := Authenticate(codec, users, blacklist, header, now, lookupError, wanted);
      var token := BearerToken(header);
      var p := if token.Some? then DecodeToken(codec, blacklist, token.value, now, lookupError) else None;
      && (g == Reject(TokenMissing) <==> token.None?)
      && (g == Reject(TokenInvalid) <==> token.Some? && p.None?)
      && (g == Reject(TokenTypeInvalid) <==> p.Some? && p.value.kind != wanted)
      && (g == Reject(UserNotFound) <==> p.Some? && p.value.kind == wanted && GetUserById(users, p.value.sub).None?)
      && (g.Admit? <==> p.Some? && p.value.kind == wanted && GetUserById(users, p.value.sub).Some?)
  {
  }

  /** A blacklisted token is rejected as invalid by either guard, before type or user are looked at. */
  lemma RevokedTokenRejected(codec: Codec, users: seq<User>, blacklist: seq<BlacklistedToken>, header: Option<string>,
                             now: int, lookupError: bool, wanted: string)
    requires BearerToken(header).Some? && IsTokenBlacklisted(blacklist, BearerToken(header).value, false)
    ensures Authenticate(codec, users, blacklist, header, now, lookupError, wanted) == Reject(TokenInvalid)
  {
  }

  /** A refresh token never passes token_required, whatever the time, blacklist or users. */
  lemma RefreshTokenNeverAccess(codec: Codec, users: seq<User>, blacklist: seq<BlacklistedToken>, header: Option<string>,
                                now: int, lookupError: bool, userId: int, iat: int)
    requires Sound(codec)
    requires BearerToken(header) == Some(GenerateRefreshToken(codec, userId, iat))
    ensures !TokenRequired(codec, users, blacklist, header, now, lookupError).Admit?
  {
    RefreshTokenDecodes(codec, userId, iat, now);
  }

  /** An access token never passes refresh_token_required, whatever the time, blacklist or users. */
  lemma AccessTokenNeverRefresh(codec: Codec, users: seq<User>, blacklist: seq<BlacklistedToken>, header: Option<string>,
                                now: int, lookupError: bool, userId: int, iat: int)
    requires Sound(codec)
    requires BearerToken(header) == Some(GenerateAccessToken(codec, userId, iat))
    ensures !RefreshTokenRequired(codec, users, blacklist, header, now, lookupError).Admit?
  {
    AccessTokenDecodes(codec, userId, iat, now);
  }

  /**
   * An unexpired, unrevoked access token in an Authorization header admits
   * the request with its user, active or not.
   */
  lemma AccessTokenAdmitted(codec: Codec, users: seq<User>, blacklist: seq<BlacklistedToken>, scheme: string,
                            userId: int, iat: int, now: int)
    requires Sound(codec) && ' ' !in scheme
    requires now < iat + AccessLifetime
    requires !IsTokenBlacklisted(blacklist, GenerateAccessToken(codec, userId, iat), false)
    requires GetUserById(users, userId).Some?
    ensures TokenRequired(codec, users, blacklist, Some(scheme + " " + GenerateAccessToken(codec, userId, iat)), now, false)
      == Admit(GetUserById(users, userId).value)
  {
    var token := GenerateAccessToken(codec, userId, iat);
    assert codec.decode(codec.encode(AccessClaims(userId, iat))) == Some(AccessClaims(userId, iat));
    BearerTokenOfHeader(scheme, token);
  }

  /** The same for a refresh token and refresh_token_required. */
  lemma RefreshTokenAdmitted(codec: Codec, users: seq<User>, blacklist: seq<BlacklistedToken>, scheme: string,
                             userId: int, iat: int, now: int)
    requires Sound(codec) && ' ' !in scheme
    requires now < iat + RefreshLifetime
    requires !IsTokenBlacklisted(blacklist, GenerateRefreshToken(codec, userId, iat), false)
    requires GetUserById(users, userId).Some?
    ensures RefreshTokenRequired(codec, users, blacklist, Some(scheme + " " + GenerateRefreshToken(codec, userId, iat)), now, false)
      == Admit(GetUserById(users, userId).value)
  {
    var token := GenerateRefreshToken(codec, userId, iat);
    assert codec.decode(codec.encode(RefreshClaims(userId, iat))) == Some(RefreshClaims(userId, iat));
    BearerTokenOfHeader(scheme, token);
  }

  // ---------------------------------------------------------------------
  // Passwords

  /** The salted one-way digest behind werkzeug's password hashing: (salt, password) to digest. */
  datatype Hasher = Hasher(digest: (string, string) -> string)

  /** hash_password, with the random salt as a parameter: the hash it makes checks against its password. */
  function HashPassword(h: Hasher, salt: string, password: string): (r: PasswordHash)
    ensures CheckPassword(h, r, password)
  {
    PasswordHash(salt, h.digest(salt, password))
  }

  /** check_password: digest the candidate with the stored salt and compare. */
  predicate CheckPassword(h: Hasher, stored: PasswordHash, password: string) {
    h.digest(stored.salt, password) == stored.digest
  }
}
