/**
  Session tokens of `sentinel/auth.py`: claims as JSON, base64url without padding, and an HMAC
  signature over the JSON text. Clock, nonce and key are parameters.
 */
module Tokens {
  import opened Prelude
  import opened Base64Url

  datatype Role =
    | SUPER_ADMIN | SECURITY_ADMIN | COMPLIANCE_OFFICER | AUDITOR | SYSTEM_USER | VIEWER | UNAUTHENTICATED

  datatype Identity = Identity(userId: string, role: Role, email: string, tenant: string, service: bool)

  datatype Claims = Claims(uid: string, email: string, role: string, tid: string, sa: bool, exp: int, nonce: string)

  /** What a JSON object gives for the claims; None where the key is absent. */
  datatype Parsed = Parsed(
    uid: Option<string>, email: Option<string>, role: Option<string>, tid: Option<string>, sa: bool, exp: Option<real>)

  /** JSON in UTF-8, the decoder's answer to malformed base64, and HMAC-SHA-256 in hexadecimal. */
  datatype Codec = Codec(
    dumps: Claims -> Octets,
    loads: Octets -> Option<Parsed>,
    lenient: string -> Option<Octets>,
    mac: (string, Octets) -> string)

  function AsParsed(c: Claims): Parsed {
    Parsed(Some(c.uid), Some(c.email), Some(c.role), Some(c.tid), c.sa, Some(c.exp as real))
  }

  ghost predicate ReadsBack(k: Codec, c: Claims) {
    k.loads(k.dumps(c)) == Some(AsParsed(c))
  }

  const PREFIX := "sentinel_"

  function RoleName(r: Role): string {
    match r
    case SUPER_ADMIN => "SUPER_ADMIN"
    case SECURITY_ADMIN => "SECURITY_ADMIN"
    case COMPLIANCE_OFFICER => "COMPLIANCE_OFFICER"
    case AUDITOR => "AUDITOR"
    case SYSTEM_USER => "SYSTEM_USER"
    case VIEWER => "VIEWER"
    case UNAUTHENTICATED => "UNAUTHENTICATED"
  }

  function RoleNamed(name: string): Option<Role> {
    if name == "SUPER_ADMIN" then Some(SUPER_ADMIN)
    else if name == "SECURITY_ADMIN" then Some(SECURITY_ADMIN)
    else if name == "COMPLIANCE_OFFICER" then Some(COMPLIANCE_OFFICER)
    else if name == "AUDITOR" then Some(AUDITOR)
    else if name == "SYSTEM_USER" then Some(SYSTEM_USER)
    else if name == "VIEWER" then Some(VIEWER)
    else if name == "UNAUTHENTICATED" then Some(UNAUTHENTICATED)
    else None
  }

  /** Constructing an identity fills in a missing e-mail address. */
  function Completed(u: Identity): Identity {
    if u.email == "" then u.(email := u.userId + "@sentinel.local") else u
  }

  /** `int()` of the clock. */
  function Truncate(t: real): int {
    if t >= 0.0 then t.Floor else -((-t).Floor)
  }

  function ClaimsFor(u: Identity, now: real, lifetime: int, nonce: string): Claims {
    Claims(u.userId, u.email, RoleName(u.role), u.tenant, u.service, Truncate(now) + lifetime, nonce)
  }

  function CreateToken(k: Codec, key: string, u: Identity, now: real, lifetime: int, nonce: string): string {
    var raw := k.dumps(ClaimsFor(u, now, lifetime, nonce));
    PREFIX + StripPadding(Encode(raw)) + "." + k.mac(key, raw)
  }

  /** The text before the first dot and the text after it. */
  function SplitAtDot(s: string): (string, string)
    requires '.' in s
  {
    if s[0] == '.' then ("", s[1..])
    else
      var (a, b) := SplitAtDot(s[1..]);
      ([s[0]] + a, b)
  }

  function Decode(k: Codec, s: string): Option<Octets> {
    match DecodeGroups(s) case Some(b) => Some(b) case None => k.lenient(s)
  }

  function Identify(p: Parsed, now: real): Option<Identity> {
    var exp := match p.exp case None => 0.0 case Some(t) => t;
    if exp < now || p.role == None || p.uid == None then None
    else match RoleNamed(p.role.value)
      case None => None
      case Some(role) =>
        var email := match p.email case None => "" case Some(e) => e;
        var tid := match p.tid case None => "default" case Some(t) => t;
        Some(Completed(Identity(p.uid.value, role, email, tid, p.sa)))
  }

  /** Accepts a payload text with its signature. */
  function VerifyParts(k: Codec, key: string, payload: string, signature: string, now: real): Option<Identity> {
    match Decode(k, Repad(payload))
    case None => None
    case Some(raw) =>
      if k.mac(key, raw) != signature then None
      else match k.loads(raw)
        case None => None
        case Some(p) => Identify(p, now)
  }

  function VerifyToken(k: Codec, key: string, token: string, now: real): Option<Identity> {
    if !(PREFIX <= token) || '.' !in token then None
    else
      var body := token[|PREFIX|..];
      assert '.' in body by { assert token == PREFIX + body; }
      var (payload, signature) := SplitAtDot(body);
      VerifyParts(k, key, payload, signature, now)
  }

  // ----- round trip -------------------------------------------------------------------------------

  lemma {:induction false} SplitAtJoin(a: string, b: string)
    requires '.' !in a
    ensures '.' in a + "." + b && SplitAtDot(a + "." + b) == (a, b)
  {
    var s := a + "." + b;
    assert s[|a|] == '.';
    if a != [] {
      assert s[0] == a[0] && s[1..] == a[1..] + "." + b;
      SplitAtJoin(a[1..], b);
      assert [a[0]] + a[1..] == a;
    } else {
      assert s[1..] == b;
    }
  }

  lemma TokenParts(k: Codec, key: string, payload: string, signature: string, now: real)
    requires '.' !in payload
    ensures VerifyToken(k, key, PREFIX + payload + "." + signature, now) == VerifyParts(k, key, payload, signature, now)
  {
    var token := PREFIX + payload + "." + signature;
    assert token[|PREFIX|..] == payload + "." + signature;
    SplitAtJoin(payload, signature);
    assert token == PREFIX + (payload + "." + signature);
  }

  lemma EncodedPayloadDecodes(k: Codec, raw: Octets)
    ensures Decode(k, Repad(StripPadding(Encode(raw)))) == Some(raw)
  {
    RepadRestores(raw);
    DecodeOfEncode(raw);
  }

  lemma RoleReadsBack(r: Role)
    ensures RoleNamed(RoleName(r)) == Some(r)
  {
    assert |RoleName(r)| == match r
      case SUPER_ADMIN => 11
      case SECURITY_ADMIN => 14
      case COMPLIANCE_OFFICER => 18
      case AUDITOR => 7
      case SYSTEM_USER => 11
      case VIEWER => 6
      case UNAUTHENTICATED => 15;
  }

  lemma ClaimsIdentify(u: Identity, issued: real, lifetime: int, nonce: string, now: real)
    ensures Identify(AsParsed(ClaimsFor(u, issued, lifetime, nonce)), now) ==
      if now <= (Truncate(issued) + lifetime) as real then Some(Completed(u)) else None
  {
    RoleReadsBack(u.role);
  }

  lemma TokenIsItsParts(k: Codec, key: string, other: string, u: Identity, issued: real, lifetime: int, nonce: string, now: real)
    ensures var raw := k.dumps(ClaimsFor(u, issued, lifetime, nonce));
      VerifyToken(k, other, CreateToken(k, key, u, issued, lifetime, nonce), now) ==
        if k.mac(other, raw) != k.mac(key, raw) then None
        else match k.loads(raw) case None => None case Some(p) => Identify(p, now)
  {
    var raw := k.dumps(ClaimsFor(u, issued, lifetime, nonce));
    RepadRestores(raw);
    TokenParts(k, other, StripPadding(Encode(raw)), k.mac(key, raw), now);
    EncodedPayloadDecodes(k, raw);
  }

  /** A token is worth its identity up to and including its expiry second, and nothing afterwards. */
  lemma TokenRoundTrip(k: Codec, key: string, u: Identity, issued: real, lifetime: int, nonce: string, now: real)
    requires ReadsBack(k, ClaimsFor(u, issued, lifetime, nonce))
    ensures VerifyToken(k, key, CreateToken(k, key, u, issued, lifetime, nonce), now) ==
      if now <= (Truncate(issued) + lifetime) as real then Some(Completed(u)) else None
  {
    TokenIsItsParts(k, key, key, u, issued, lifetime, nonce, now);
    ClaimsIdentify(u, issued, lifetime, nonce, now);
  }

  /**
    What comes back while the token lives is the user it was made for: id, role, tenant and service flag, and
    the e-mail address, which for a user without one is made from the id.
   */
  lemma TokenGivesUserBack(k: Codec, key: string, u: Identity, issued: real, lifetime: int, nonce: string, now: real)
    requires ReadsBack(k, ClaimsFor(u, issued, lifetime, nonce)) && now <= (Truncate(issued) + lifetime) as real
    ensures var v := VerifyToken(k, key, CreateToken(k, key, u, issued, lifetime, nonce), now);
      && v.Some? && v.value.userId == u.userId && v.value.role == u.role
      && v.value.tenant == u.tenant && v.value.service == u.service
      && (u.email != "" ==> v.value == u)
      && (u.email == "" ==> v.value.email == u.userId + "@sentinel.local")
  {
    TokenRoundTrip(k, key, u, issued, lifetime, nonce, now);
  }

  lemma PrefixOff(prefix: string, payload: string, signature: string)
    ensures var t := prefix + payload + "." + signature;
      t[..|prefix|] == prefix && t[|prefix|..] == payload + "." + signature
  {
  }

  /** A token is the nine letters "sentinel_", the claims in unpadded base64, a dot and the code of the claims. */
  lemma TokenText(k: Codec, key: string, u: Identity, issued: real, lifetime: int, nonce: string)
    ensures var t, raw := CreateToken(k, key, u, issued, lifetime, nonce), k.dumps(ClaimsFor(u, issued, lifetime, nonce));
      |t| >= 9 && t[..9] == "sentinel_" && t[9..] == StripPadding(Encode(raw)) + "." + k.mac(key, raw)
  {
    var raw := k.dumps(ClaimsFor(u, issued, lifetime, nonce));
    PrefixOff(PREFIX, StripPadding(Encode(raw)), k.mac(key, raw));
  }

  /** The claims a token carries, by name, and that it expires `lifetime` seconds after the second it was issued in. */
  lemma ClaimsCarried(u: Identity, issued: real, lifetime: int, nonce: string)
    ensures var c := ClaimsFor(u, issued, lifetime, nonce);
      && c.uid == u.userId && c.email == u.email && c.tid == u.tenant && c.sa == u.service && c.nonce == nonce
      && (issued >= 0.0 ==> c.exp as real <= issued + lifetime as real < (c.exp + 1) as real)
      && (u.role == VIEWER <==> c.role == "VIEWER") && (u.role == AUDITOR <==> c.role == "AUDITOR")
  {
    RoleReadsBack(u.role);
  }

  /** A text that does not start with the prefix or has no dot is refused, and so is one that decodes to no octets. */
  lemma UnframedIsRefused(k: Codec, key: string, token: string, now: real)
    requires !("sentinel_" <= token) || '.' !in token
    ensures VerifyToken(k, key, token, now) == None
  {
  }

  /** Claims without a role or user id, or with a role that is none, give nobody; a missing tenant is "default". */
  lemma IncompleteClaims(p: Parsed, now: real)
    ensures p.uid == None || p.role == None || (p.role.Some? && RoleNamed(p.role.value) == None) ==> Identify(p, now) == None
    ensures p.exp == None && now > 0.0 ==> Identify(p, now) == None
    ensures Identify(p, now).Some? && p.tid == None ==> Identify(p, now).value.tenant == "default"
  {
  }

  /** While it lives, a token is refused under another key exactly when that key gives the claims another code. */
  lemma OtherKeyRefuses(k: Codec, key: string, other: string, u: Identity, issued: real, lifetime: int, nonce: string, now: real)
    requires ReadsBack(k, ClaimsFor(u, issued, lifetime, nonce)) && now <= (Truncate(issued) + lifetime) as real
    ensures VerifyToken(k, other, CreateToken(k, key, u, issued, lifetime, nonce), now) == None <==>
      k.mac(other, k.dumps(ClaimsFor(u, issued, lifetime, nonce))) != k.mac(key, k.dumps(ClaimsFor(u, issued, lifetime, nonce)))
  {
    TokenIsItsParts(k, key, other, u, issued, lifetime, nonce, now);
    ClaimsIdentify(u, issued, lifetime, nonce, now);
  }

  /**
    Rewriting the payload text under the old signature gains nothing: the decoder forgives some
    texts, but whatever it accepts is refused or means the original identity.
   */
  lemma RewrittenPayloadGainsNothing(k: Codec, key: string, u: Identity, issued: real, lifetime: int, nonce: string,
                                     payload: string, now: real)
    requires '.' !in payload
    requires var raw := k.dumps(ClaimsFor(u, issued, lifetime, nonce)); var d := Decode(k, Repad(payload));
      d.Some? && k.mac(key, d.value) == k.mac(key, raw) ==> d.value == raw
    ensures var raw := k.dumps(ClaimsFor(u, issued, lifetime, nonce));
      var rewritten := VerifyToken(k, key, PREFIX + payload + "." + k.mac(key, raw), now);
      rewritten == None || rewritten == VerifyToken(k, key, CreateToken(k, key, u, issued, lifetime, nonce), now)
  {
    TokenParts(k, key, payload, k.mac(key, k.dumps(ClaimsFor(u, issued, lifetime, nonce))), now);
    TokenIsItsParts(k, key, key, u, issued, lifetime, nonce, now);
  }
}
