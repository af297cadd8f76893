/** `get_plaintext_token` of tools/token_util.py: read credentials.json, return the raw
    cookies entry, the parsed cookie dictionary and the JWT payload, and on an expired
    JWT clear the in-memory credentials and delete the file.

    The decision chain is the function Decide; the cookie parser (`SimpleCookie`), the
    base64url-plus-UTF-8 decoder and `json.loads` are partial functions supplied as
    Decoders, and so is the range of seconds `datetime.fromtimestamp` accepts, which the
    log lines of both expiry branches call on `exp`. Clock readings are milliseconds since
    the epoch. */
module TokenUtil {
  import opened Values
  import opened Text
  import opened CredentialsConfig

  /** The triple `(raw_cookies_str, parsed_cookies_dict, jwt_payload_dict)`. */
  datatype TokenResult = TokenResult(
    rawCookies: Option<Json>,
    cookies: Option<map<string, string>>,
    payload: Option<map<string, Json>>)

  const NoToken: TokenResult := TokenResult(None, None, None)

  /** Partial decoders; None stands for the exception the Python decoder raises.
      `fromTimestampOk(s)` says whether `datetime.fromtimestamp(s)` returns rather than
      raising (ValueError, OverflowError or OSError, depending on the platform). */
  datatype Decoders = Decoders(
    parseCookies: Json -> Option<map<string, string>>,
    base64UrlUtf8: string -> Option<string>,
    parseJson: string -> Option<Json>,
    fromTimestampOk: int -> bool)

  /** Either a triple to return as-is, or an expired token. An expired token is answered
      with (None, None, None) once the clean-up has run; `fallback` is the triple returned
      instead when deleting the file raises (the raw entry and the dictionary, no payload). */
  datatype Decision = Keep(result: TokenResult) | Expire(fallback: TokenResult)

  /** The payload part after the expiry check, or the verdict that the token has expired. */
  datatype PayloadStep = Payload(claims: Option<map<string, Json>>) | Expired

  /** Base64url padding. The result is the input followed by the fewest '='
      that make its length a multiple of four. */
  function PadBase64(s: string): (r: string)
    ensures |r| % 4 == 0
    ensures |s| <= |r| < |s| + 4
    ensures r[..|s|] == s
    ensures forall i :: |s| <= i < |r| ==> r[i] == '='
  {
    var missing := |s| % 4;
    if missing != 0 then s + seq(4 - missing, _ => '=') else s
  }

  /** The expiry check: `exp` absent or null skips the check; a number is compared strictly with
      now (`now > exp` expires, equality is still valid); any other value makes the
      comparison raise, which discards the payload. Python's bool compares as 0 or 1. Both
      branches then log `fromtimestamp(exp)` before anything else, so an `exp` outside its
      range raises there and discards the payload too, with nothing cleared. */
  function CheckExpiry(claims: map<string, Json>, nowMs: int, fromTimestampOk: int -> bool): PayloadStep {
    var expiry: Option<Json> := Get(claims, "exp");
    match expiry
    case None => Payload(Some(claims))
    case Some(JNull) => Payload(Some(claims))
    case Some(JNum(exp)) => ComparedExpiry(claims, exp, nowMs, fromTimestampOk)
    case Some(JBool(b)) => ComparedExpiry(claims, if b then 1 else 0, nowMs, fromTimestampOk)
    case Some(_) => Payload(None)
  }

  /** The expiry check for a numeric `exp` of `exp` seconds. */
  function ComparedExpiry(claims: map<string, Json>, exp: int, nowMs: int, fromTimestampOk: int -> bool): PayloadStep {
    if !fromTimestampOk(exp) then Payload(None)
    else if nowMs > exp * 1000 then Expired
    else Payload(Some(claims))
  }

  /** The payload of a non-empty JWTUserToken: split it, pad and decode its middle part,
      parse that as JSON and check the expiry; any failure on the way drops the payload. */
  function JwtPayload(jwt: string, nowMs: int, dec: Decoders): PayloadStep {
    var parts := Split(jwt, '.');
    if |parts| != 3 then Payload(None)
    else
      match dec.base64UrlUtf8(PadBase64(parts[1]))
      case None => Payload(None)
      case Some(text) =>
        match dec.parseJson(text)
        case Some(JObj(claims)) => CheckExpiry(claims, nowMs, dec.fromTimestampOk)
        case _ => Payload(None)  // `.get` on a non-object raises
  }

  /** The whole decision chain of `get_plaintext_token`, without its side effects. */
  function Decide(read: FileRead<Json>, nowMs: int, dec: Decoders): Decision {
    match read
    case Missing => Keep(NoToken)
    case Malformed => Keep(NoToken)
    case Parsed(JObj(data)) =>
      var raw := Get(data, "cookies");
      if raw.None? || !Truthy(raw.value) then Keep(NoToken)
      else
        (match dec.parseCookies(raw.value)
         case None => Keep(TokenResult(raw, None, None))
         case Some(cookies) =>
           var jwt := Get(cookies, JwtCookie);
           if jwt.None? || jwt.value == "" then Keep(TokenResult(raw, Some(cookies), None))
           else
             match JwtPayload(jwt.value, nowMs, dec)
             case Expired => Expire(TokenResult(raw, Some(cookies), None))
             case Payload(p) => Keep(TokenResult(raw, Some(cookies), p)))
    case Parsed(_) => Keep(NoToken)  // `.get` on a non-object file raises and the outer handler returns nothing
  }

  /** Whether the file holds a truthy `cookies` entry. */
  predicate CookiesPresent(read: FileRead<Json>) {
    read.Parsed? && read.data.JObj? && "cookies" in read.data.fields && Truthy(read.data.fields["cookies"])
  }

  /** The shape of every returned triple: the raw entry is returned exactly when it is
      present and truthy (and the token has not expired), and it is the file's own entry;
      a parsed dictionary comes only with the raw entry, a payload only with a dictionary
      that holds a non-empty JWTUserToken. */
  lemma DecideShape(read: FileRead<Json>, nowMs: int, dec: Decoders)
    ensures !CookiesPresent(read) ==> Decide(read, nowMs, dec) == Keep(NoToken)
    ensures Decide(read, nowMs, dec).Keep? ==>
      var r := Decide(read, nowMs, dec).result;
      && (r.rawCookies.Some? <==> CookiesPresent(read))
      && (r.rawCookies.Some? ==> r.rawCookies == Get(read.data.fields, "cookies"))
      && (r.cookies.Some? ==> r.rawCookies.Some? && dec.parseCookies(r.rawCookies.value) == r.cookies)
      && (r.payload.Some? ==> r.cookies.Some? && JwtCookie in r.cookies.value && r.cookies.value[JwtCookie] != "")
    ensures Decide(read, nowMs, dec).Expire? ==> CookiesPresent(read)
  {
  }

  /** A JWT with other than exactly two dots (so other than three parts) yields no payload,
      while the raw entry and the parsed cookies are still returned. */
  lemma NotThreePartsNoPayload(data: map<string, Json>, cookies: map<string, string>, nowMs: int, dec: Decoders)
    requires "cookies" in data && Truthy(data["cookies"])
    requires dec.parseCookies(data["cookies"]) == Some(cookies)
    requires JwtCookie in cookies && cookies[JwtCookie] != ""
    requires Count(cookies[JwtCookie], '.') != 2
    ensures Decide(Parsed(JObj(data)), nowMs, dec) == Keep(TokenResult(Some(data["cookies"]), Some(cookies), None))
  {
    SplitCount(cookies[JwtCookie], '.');
  }

  /** For a JWT that splits in three and whose padded middle part decodes to a JSON object,
      the payload is that object unless `exp` is present and strictly before now; a numeric
      `exp` outside `fromtimestamp`'s range drops the payload and never expires. */
  lemma ExpiryIsStrict(jwt: string, claims: map<string, Json>, exp: int, nowMs: int, dec: Decoders)
    requires |Split(jwt, '.')| == 3
    requires var t := dec.base64UrlUtf8(PadBase64(Split(jwt, '.')[1]));
      t.Some? && dec.parseJson(t.value) == Some(JObj(claims))
    ensures "exp" !in claims ==> JwtPayload(jwt, nowMs, dec) == Payload(Some(claims))
    ensures Get(claims, "exp") == Some(JNum(exp)) && dec.fromTimestampOk(exp) ==>
      (JwtPayload(jwt, nowMs, dec).Expired? <==> nowMs > exp * 1000)
    ensures Get(claims, "exp") == Some(JNum(exp)) && dec.fromTimestampOk(exp) && nowMs == exp * 1000 ==>
      JwtPayload(jwt, nowMs, dec) == Payload(Some(claims))
    ensures Get(claims, "exp") == Some(JNum(exp)) && !dec.fromTimestampOk(exp) ==>
      JwtPayload(jwt, nowMs, dec) == Payload(None)
  {
  }

  /** A cookie-parse failure returns only the raw entry; a parsed dictionary without a
      non-empty JWTUserToken returns the raw entry and the dictionary, without a payload. */
  lemma NoJwtNoPayload(data: map<string, Json>, nowMs: int, dec: Decoders)
    requires "cookies" in data && Truthy(data["cookies"])
    ensures dec.parseCookies(data["cookies"]).None? ==>
      Decide(Parsed(JObj(data)), nowMs, dec) == Keep(TokenResult(Some(data["cookies"]), None, None))
    ensures var c := dec.parseCookies(data["cookies"]);
      c.Some? && (JwtCookie !in c.value || c.value[JwtCookie] == "") ==>
      Decide(Parsed(JObj(data)), nowMs, dec) == Keep(TokenResult(Some(data["cookies"]), c, None))
  {
  }

  /** A well-formed JWT whose `exp` lies strictly before now makes the whole call expire; at
      exactly `exp` the payload is still returned with the cookies; an `exp` outside
      `fromtimestamp`'s range returns the cookies without a payload, whatever the time. */
  lemma ExpiredJwtExpires(data: map<string, Json>, cookies: map<string, string>, claims: map<string, Json>,
                          exp: int, nowMs: int, dec: Decoders)
    requires "cookies" in data && Truthy(data["cookies"])
    requires dec.parseCookies(data["cookies"]) == Some(cookies)
    requires JwtCookie in cookies && |Split(cookies[JwtCookie], '.')| == 3
    requires var t := dec.base64UrlUtf8(PadBase64(Split(cookies[JwtCookie], '.')[1]));
      t.Some? && dec.parseJson(t.value) == Some(JObj(claims))
    requires Get(claims, "exp") == Some(JNum(exp))
    ensures dec.fromTimestampOk(exp) && nowMs > exp * 1000 ==>
      Decide(Parsed(JObj(data)), nowMs, dec) == Expire(TokenResult(Some(data["cookies"]), Some(cookies), None))
    ensures dec.fromTimestampOk(exp) && nowMs == exp * 1000 ==>
      Decide(Parsed(JObj(data)), nowMs, dec) == Keep(TokenResult(Some(data["cookies"]), Some(cookies), Some(claims)))
    ensures !dec.fromTimestampOk(exp) ==>
      Decide(Parsed(JObj(data)), nowMs, dec) == Keep(TokenResult(Some(data["cookies"]), Some(cookies), None))
  {
    assert cookies[JwtCookie] != "" by {
      assert Split("", '.') == [""];
    }
  }

  /** A decoder or JSON failure discards the payload only: the cookies stay. */
  lemma DecodeFailureKeepsCookies(data: map<string, Json>, cookies: map<string, string>, nowMs: int, dec: Decoders)
    requires "cookies" in data && Truthy(data["cookies"])
    requires dec.parseCookies(data["cookies"]) == Some(cookies)
    requires JwtCookie in cookies && |Split(cookies[JwtCookie], '.')| == 3
    requires var t := dec.base64UrlUtf8(PadBase64(Split(cookies[JwtCookie], '.')[1]));
      t.None? || dec.parseJson(t.value).None?
    ensures Decide(Parsed(JObj(data)), nowMs, dec) == Keep(TokenResult(Some(data["cookies"]), Some(cookies), None))
  {
    assert cookies[JwtCookie] != "" by {
      assert Split("", '.') == [""];
    }
  }

  /** On an expired JWT the credentials are cleared and the file is deleted (so afterwards
      there is none at the store's path) and (None, None, None) is returned; when the
      deletion raises because the config directory cannot be made, the exception is caught
      by the payload's handler: memory stays cleared, and the raw entry and the dictionary
      come back without a payload (there is no file there either, the config path not being a
      directory). Otherwise the triple of Decide is returned
      and the credentials are untouched. */
  method GetPlaintextToken(read: FileRead<Json>, nowMs: int, dec: Decoders, dirReady: bool, credentials: Credentials)
    returns (result: TokenResult)
    requires credentials.Valid()
    modifies credentials
    ensures credentials.Valid()
    ensures credentials.projectRootDir == old(credentials.projectRootDir)
    ensures Decide(read, nowMs, dec).Keep? ==>
      && result == Decide(read, nowMs, dec).result
      && credentials.fileOnDisk == old(credentials.fileOnDisk)
      && credentials.cookies == old(credentials.cookies)
      && credentials.localStorage == old(credentials.localStorage)
      && credentials.sessionStorage == old(credentials.sessionStorage)
      && credentials.jwtUserToken == old(credentials.jwtUserToken)
    ensures Decide(read, nowMs, dec).Expire? ==>
      && credentials.cookies == map[] && credentials.localStorage == map[]
      && credentials.sessionStorage == map[] && credentials.jwtUserToken == None
      && !credentials.fileOnDisk
      && result == if credentials.PathRaises(dirReady) then Decide(read, nowMs, dec).fallback else NoToken
  {
    match Decide(read, nowMs, dec) {
      case Keep(r) =>
        result := r;
      case Expire(fallback) =>
        credentials.ClearCredentials();
        var raised := credentials.DeleteCredentialsFile(dirReady);
        result := if raised then fallback else NoToken;
    }
  }
}
