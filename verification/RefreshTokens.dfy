/** src/common/auth/refresh-token.service.ts: rotation with a revocation list that forgets expired entries. */
module RefreshTokens {
  import opened Wrappers

  // ---------- Tokens ----------

  datatype Claims = Claims(sub: string, did: string, role: string, jti: Option<string>, iat: int, exp: Option<int>)

  /** A string signed with the service's key, which its claims determine, or any other string. */
  datatype Token = Signed(claims: Claims) | Other(text: string)

  /** SHA-256 of a token, taken as injective. */
  datatype Hash = Sha256(token: Token)

  type Revoked = map<Hash, int>

  datatype Payload = Payload(sub: string, did: string, role: string)

  datatype TokenPair = TokenPair(accessToken: Token, refreshToken: Token, expiresIn: nat)

  datatype AuthError = TokenRevoked | InvalidToken

  /** `Math.floor(ms / 1000)` */
  function Seconds(ms: int): int { ms / 1000 }

  /** Section 4.1.4 of RFC 7519: a token is refused from its expiry on. */
  function Verify(token: Token, now: int): Option<Claims> {
    if token.Signed? && (token.claims.exp.None? || now < token.claims.exp.value) then Some(token.claims) else None
  }

  // ---------- Lifetimes ----------

  function DigitsValue(s: string): nat
    requires forall i :: 0 <= i < |s| ==> '0' <= s[i] <= '9'
  {
    if s == [] then 0 else DigitsValue(s[..|s| - 1]) * 10 + (s[|s| - 1] as int - '0' as int)
  }

  /** /^(\d+)([smhd])$/ */
  predicate IsPlainTtl(value: string) {
    |value| >= 2 && value[|value| - 1] in "smhd" && forall i :: 0 <= i < |value| - 1 ==> '0' <= value[i] <= '9'
  }

  function UnitSeconds(c: char): nat {
    if c == 'm' then 60 else if c == 'h' then 3600 else if c == 'd' then 86400 else 1
  }

  function ParseExpiresIn(value: string): nat {
    if IsPlainTtl(value) then DigitsValue(value[..|value| - 1]) * UnitSeconds(value[|value| - 1]) else 3600
  }

  /** The two settings, and the lifetimes in seconds that the JWT library reads in them. */
  datatype Config = Config(accessSetting: string, refreshSetting: string, accessTtl: int, refreshTtl: int)

  /** The library agrees with `parseExpiresIn` on settings of the plain form. */
  predicate PlainConfig(c: Config) {
    IsPlainTtl(c.accessSetting) && IsPlainTtl(c.refreshSetting)
    && c.accessTtl == ParseExpiresIn(c.accessSetting) && c.refreshTtl == ParseExpiresIn(c.refreshSetting)
    && c.accessTtl <= c.refreshTtl
  }

  function Sign(p: Payload, jti: Option<string>, ttl: int, at: int): Token {
    Signed(Claims(p.sub, p.did, p.role, jti, Seconds(at), Some(Seconds(at) + ttl)))
  }

  function IssueTokenPair(c: Config, p: Payload, jti: string, accessAt: int, refreshAt: int): TokenPair {
    TokenPair(Sign(p, None, c.accessTtl, accessAt), Sign(p, Some(jti), c.refreshTtl, refreshAt),
              ParseExpiresIn(c.accessSetting))
  }

  // ---------- One call, with the clock readings it makes in order ----------

  datatype Event =
    | Issue(payload: Payload, jti: string, accessAt: int, refreshAt: int)
    | Rotate(token: Token, evictAt: int, verifyAt: int, revokeAt: int, accessAt: int, refreshAt: int, jti: string)
    | Revoke(token: Token, expiresAtSeconds: Option<int>, at: int)
    | IsRevoked(token: Token, at: int)

  datatype Output = Issued(pair: TokenPair) | Refused(error: AuthError) | Answer(b: bool) | Done

  function Evict(revoked: Revoked, now: int): Revoked {
    map h | h in revoked && revoked[h] > now :: revoked[h]
  }

  /** Until when `revoke` remembers a token. */
  function Until(c: Config, expiresAtSeconds: Option<int>, at: int): int {
    if expiresAtSeconds.Some? then expiresAtSeconds.value else Seconds(at) + ParseExpiresIn(c.refreshSetting)
  }

  function Step(c: Config, revoked: Revoked, e: Event): (Revoked, Output) {
    match e
    case Issue(p, jti, accessAt, refreshAt) => (revoked, Issued(IssueTokenPair(c, p, jti, accessAt, refreshAt)))
    case Rotate(token, evictAt, verifyAt, revokeAt, accessAt, refreshAt, jti) =>
      var kept := Evict(revoked, Seconds(evictAt));
      if Sha256(token) in kept then (kept, Refused(TokenRevoked))
      else
        (match Verify(token, Seconds(verifyAt))
         case None => (kept, Refused(InvalidToken))
         case Some(claims) =>
           (kept[Sha256(token) := Until(c, claims.exp, revokeAt)],
            Issued(IssueTokenPair(c, Payload(claims.sub, claims.did, claims.role), jti, accessAt, refreshAt))))
    case Revoke(token, expiresAtSeconds, at) => (revoked[Sha256(token) := Until(c, expiresAtSeconds, at)], Done)
    case IsRevoked(token, at) =>
      var kept := Evict(revoked, Seconds(at));
      (kept, Answer(Sha256(token) in kept))
  }

  /** Both tokens name the same subject, DID and role. */
  predicate SameHolder(a: Token, b: Token)
    requires a.Signed?
  {
    b.Signed? && b.claims.sub == a.claims.sub && b.claims.did == a.claims.did && b.claims.role == a.claims.role
  }

  // ---------- The service ----------

  class RefreshTokenService {
    var revoked: Revoked
    const config: Config

    constructor (config: Config)
      ensures revoked == map[] && this.config == config
    {
      revoked, this.config := map[], config;
    }

    method EvictExpired(nowMs: int)
      modifies this
      ensures revoked == Evict(old(revoked), Seconds(nowMs))
    {
      var now := Seconds(nowMs);
      var todo := revoked.Keys;
      while todo != {}
        invariant todo <= revoked.Keys <= old(revoked).Keys
        invariant forall h :: h in revoked ==> revoked[h] == old(revoked)[h]
        invariant forall h :: h in old(revoked) && h !in todo ==> (h in revoked <==> old(revoked)[h] > now)
        decreases |todo|
      {
        var hash :| hash in todo;
        if revoked[hash] <= now {
          revoked := revoked - {hash};
        }
        todo := todo - {hash};
      }
    }

    method Rotate(token: Token, evictAt: int, verifyAt: int, revokeAt: int, accessAt: int, refreshAt: int, jti: string)
      returns (r: Result<TokenPair, AuthError>)
      modifies this
      ensures (revoked, if r.Ok? then Issued(r.value) else Refused(r.error))
           == Step(config, old(revoked), Event.Rotate(token, evictAt, verifyAt, revokeAt, accessAt, refreshAt, jti))
      ensures r.Ok? ==>
                token.Signed? && SameHolder(token, r.value.accessToken) && SameHolder(token, r.value.refreshToken)
    {
      EvictExpired(evictAt);
      if Sha256(token) in revoked {
        return Err(TokenRevoked);
      }
      var verified := Verify(token, Seconds(verifyAt));
      if verified.None? {
        return Err(InvalidToken);
      }
      var claims := verified.value;
      Revoke(token, claims.exp, revokeAt);
      return Ok(IssueTokenPair(config, Payload(claims.sub, claims.did, claims.role), jti, accessAt, refreshAt));
    }

    method Revoke(token: Token, expiresAtSeconds: Option<int>, at: int)
      modifies this
      ensures revoked == Step(config, old(revoked), Event.Revoke(token, expiresAtSeconds, at)).0
    {
      var fallback := Seconds(at) + ParseExpiresIn(config.refreshSetting);
      revoked := revoked[Sha256(token) := if expiresAtSeconds.Some? then expiresAtSeconds.value else fallback];
    }

    method IsRevoked(token: Token, at: int) returns (b: bool)
      modifies this
      ensures (revoked, Answer(b)) == Step(config, old(revoked), Event.IsRevoked(token, at))
    {
      EvictExpired(at);
      b := Sha256(token) in revoked;
    }
  }

  // ---------- Runs ----------

  function FirstReading(e: Event): int {
    match e
    case Issue(_, _, accessAt, _) => accessAt
    case Rotate(_, evictAt, _, _, _, _, _) => evictAt
    case Revoke(_, _, at) => at
    case IsRevoked(_, at) => at
  }

  function LastReading(e: Event): int {
    match e
    case Issue(_, _, _, refreshAt) => refreshAt
    case Rotate(_, _, _, _, _, refreshAt, _) => refreshAt
    case Revoke(_, _, at) => at
    case IsRevoked(_, at) => at
  }

  /** The readings inside one call never go back; a call that stops early makes only the first ones. */
  predicate Ordered(e: Event) {
    match e
    case Issue(_, _, accessAt, refreshAt) => accessAt <= refreshAt
    case Rotate(_, evictAt, verifyAt, revokeAt, accessAt, refreshAt, _) =>
      evictAt <= verifyAt <= revokeAt <= accessAt <= refreshAt
    case _ => true
  }

  predicate Clocked(run: seq<Event>, clock: int) {
    run == [] || (clock <= FirstReading(run[0]) && Ordered(run[0]) && Clocked(run[1..], LastReading(run[0])))
  }

  function After(c: Config, revoked: Revoked, run: seq<Event>): Revoked
    decreases |run|
  {
    if run == [] then revoked else After(c, Step(c, revoked, run[0]).0, run[1..])
  }

  /** What the `i`-th call of the run answers. */
  function OutputAt(c: Config, revoked: Revoked, run: seq<Event>, i: nat): Output
    requires i < |run|
    decreases i
  {
    if i == 0 then Step(c, revoked, run[0]).1 else OutputAt(c, Step(c, revoked, run[0]).0, run[1..], i - 1)
  }

  predicate Rotates(e: Event, out: Output, token: Token) { e.Rotate? && e.token == token && out.Issued? }

  /** The token was used up: rotated successfully or revoked by hand. */
  predicate Spends(e: Event, out: Output, token: Token) {
    Rotates(e, out, token) || (e.Revoke? && e.token == token)
  }

  /** A manual revocation of this token lasts as long as the token, or comes after its expiry. */
  predicate Covers(c: Config, e: Event, token: Token, exp: int) {
    e.Revoke? && e.token == token ==> Until(c, e.expiresAtSeconds, e.at) >= exp || Seconds(e.at) >= exp
  }

  predicate ExpiresAt(token: Token, exp: int) { token.Signed? && token.claims.exp == Some(exp) }

  // ---------- A spent token stays spent ----------

  /** Either the list will outlast the token, or the token has expired already. */
  predicate Barred(revoked: Revoked, token: Token, exp: int, clock: int) {
    (Sha256(token) in revoked && revoked[Sha256(token)] >= exp) || Seconds(clock) >= exp
  }

  lemma BarredIsRefused(c: Config, revoked: Revoked, e: Event, token: Token, exp: int, clock: int)
    requires ExpiresAt(token, exp) && Barred(revoked, token, exp, clock)
    requires clock <= FirstReading(e) && Ordered(e)
    ensures !Rotates(e, Step(c, revoked, e).1, token)
  {
  }

  lemma BarredStays(c: Config, revoked: Revoked, e: Event, token: Token, exp: int, clock: int)
    requires ExpiresAt(token, exp) && Barred(revoked, token, exp, clock)
    requires clock <= FirstReading(e) && Ordered(e) && Covers(c, e, token, exp)
    ensures Barred(Step(c, revoked, e).0, token, exp, LastReading(e))
  {
    BarredIsRefused(c, revoked, e, token, exp, clock);
  }

  lemma SpendingBars(c: Config, revoked: Revoked, e: Event, token: Token, exp: int)
    requires ExpiresAt(token, exp) && Spends(e, Step(c, revoked, e).1, token)
    requires Covers(c, e, token, exp)
    ensures Barred(Step(c, revoked, e).0, token, exp, LastReading(e))
  {
  }

  lemma {:induction false} BarredNeverRotates(c: Config, revoked: Revoked, run: seq<Event>, token: Token, exp: int,
                                              clock: int, j: nat)
    requires ExpiresAt(token, exp) && Barred(revoked, token, exp, clock)
    requires Clocked(run, clock) && j < |run|
    requires forall i :: 0 <= i < |run| ==> Covers(c, run[i], token, exp)
    ensures !Rotates(run[j], OutputAt(c, revoked, run, j), token)
    decreases j
  {
    hide Step, Rotates, Covers, Barred;
    if j == 0 {
      BarredIsRefused(c, revoked, run[0], token, exp, clock);
    } else {
      BarredStays(c, revoked, run[0], token, exp, clock);
      BarredNeverRotates(c, Step(c, revoked, run[0]).0, run[1..], token, exp, LastReading(run[0]), j - 1);
    }
  }

  /** Over every run, a token that was rotated or revoked never rotates later, although entries are forgotten. */
  lemma {:induction false} SpentNeverRotates(c: Config, revoked: Revoked, run: seq<Event>, token: Token, exp: int,
                                             clock: int, i: nat, j: nat)
    requires ExpiresAt(token, exp) && Clocked(run, clock)
    requires i < j < |run|
    requires forall k :: 0 <= k < |run| ==> Covers(c, run[k], token, exp)
    requires Spends(run[i], OutputAt(c, revoked, run, i), token)
    ensures !Rotates(run[j], OutputAt(c, revoked, run, j), token)
    decreases i
  {
    hide Step, Rotates, Covers, Barred, Spends;
    var next := Step(c, revoked, run[0]).0;
    if i == 0 {
      SpendingBars(c, revoked, run[0], token, exp);
      BarredNeverRotates(c, next, run[1..], token, exp, LastReading(run[0]), j - 1);
    } else {
      SpentNeverRotates(c, next, run[1..], token, exp, LastReading(run[0]), i - 1, j - 1);
    }
  }

  // ---------- When a manual revocation holds ----------

  function RotateAt(token: Token, t: int): Event { Rotate(token, t, t, t, t, t, "") }

  /** A revocation keeps the token from rotating at every later time exactly when it covers the token. */
  lemma RevokeHoldsIff(c: Config, revoked: Revoked, token: Token, exp: int, expiresAtSeconds: Option<int>, at: int)
    requires ExpiresAt(token, exp)
    ensures var e := Revoke(token, expiresAtSeconds, at);
            Covers(c, e, token, exp) <==>
            forall t :: at <= t ==>
              !Rotates(RotateAt(token, t), Step(c, Step(c, revoked, e).0, RotateAt(token, t)).1, token)
  {
    var e := Revoke(token, expiresAtSeconds, at);
    var next := Step(c, revoked, e).0;
    if Covers(c, e, token, exp) {
      SpendingBars(c, revoked, e, token, exp);
      forall t | at <= t ensures !Rotates(RotateAt(token, t), Step(c, next, RotateAt(token, t)).1, token) {
        BarredIsRefused(c, next, RotateAt(token, t), token, exp, at);
      }
    } else {
      var until := Until(c, expiresAtSeconds, at);
      var t := if at >= until * 1000 then at else until * 1000;
      assert until <= Seconds(t) < exp;
      assert Rotates(RotateAt(token, t), Step(c, next, RotateAt(token, t)).1, token);
    }
  }

  /** A token the service issued: its lifetime starts no later than `latest`. */
  predicate IssuedBy(c: Config, token: Token, exp: int, latest: int) {
    ExpiresAt(token, exp) && (exp <= Seconds(latest) + c.accessTtl || exp <= Seconds(latest) + c.refreshTtl)
  }

  /** With plain settings, revoking an issued token without an expiry always covers it. */
  lemma NoExpiryCovers(c: Config, token: Token, exp: int, at: int)
    requires PlainConfig(c) && IssuedBy(c, token, exp, at)
    ensures Covers(c, Revoke(token, None, at), token, exp)
  {
  }

  /** Every token issued under any settings is covered exactly when the fallback is no shorter than both lifetimes. */
  lemma NoExpiryCoversIff(c: Config)
    ensures (forall token, exp, at :: IssuedBy(c, token, exp, at) ==> Covers(c, Revoke(token, None, at), token, exp))
       <==> ParseExpiresIn(c.refreshSetting) >= c.accessTtl && ParseExpiresIn(c.refreshSetting) >= c.refreshTtl
  {
    hide ParseExpiresIn;
    if ParseExpiresIn(c.refreshSetting) < c.accessTtl || ParseExpiresIn(c.refreshSetting) < c.refreshTtl {
      var ttl := if ParseExpiresIn(c.refreshSetting) < c.accessTtl then c.accessTtl else c.refreshTtl;
      var token := Sign(Payload("", "", ""), None, ttl, 0);
      assert IssuedBy(c, token, ttl, 0) && !Covers(c, Revoke(token, None, 0), token, ttl);
    }
  }

  lemma IssuedByService(c: Config, revoked: Revoked, e: Event, token: Token)
    requires Ordered(e)
    requires Step(c, revoked, e).1.Issued?
    requires token == Step(c, revoked, e).1.pair.accessToken || token == Step(c, revoked, e).1.pair.refreshToken
    ensures ExpiresAt(token, token.claims.exp.value) && IssuedBy(c, token, token.claims.exp.value, LastReading(e))
  {
  }

  /** A manual revocation that gives no expiry, or one no earlier than the token's. */
  predicate Proper(e: Event, token: Token, exp: int) {
    e.Revoke? && e.token == token ==> e.expiresAtSeconds.None? || e.expiresAtSeconds.value >= exp
  }

  lemma {:induction false} ProperCovers(c: Config, run: seq<Event>, token: Token, exp: int, latest: int)
    requires PlainConfig(c) && IssuedBy(c, token, exp, latest) && Clocked(run, latest)
    requires forall k :: 0 <= k < |run| ==> Proper(run[k], token, exp)
    ensures forall k :: 0 <= k < |run| ==> Covers(c, run[k], token, exp)
    decreases |run|
  {
    if run != [] {
      hide ParseExpiresIn;
      assert Proper(run[0], token, exp);
      assert Covers(c, run[0], token, exp);
      forall k | 0 <= k < |run[1..]| ensures Proper(run[1..][k], token, exp) {
        assert run[1..][k] == run[k + 1];
      }
      ProperCovers(c, run[1..], token, exp, LastReading(run[0]));
      forall k | 0 < k < |run| ensures Covers(c, run[k], token, exp) {
        assert run[k] == run[1..][k - 1];
      }
    }
  }

  /**
   * Plain settings: a token issued by a call rotates at most once in whatever follows,
   * and not at all once it was revoked without an expiry or with one that is late enough.
   */
  lemma IssuedTokenIsSpentOnce(c: Config, revoked: Revoked, issue: Event, token: Token, run: seq<Event>, i: nat, j: nat)
    requires PlainConfig(c) && Ordered(issue)
    requires Step(c, revoked, issue).1.Issued?
    requires token == Step(c, revoked, issue).1.pair.accessToken || token == Step(c, revoked, issue).1.pair.refreshToken
    requires Clocked(run, LastReading(issue)) && i < j < |run|
    requires forall k :: 0 <= k < |run| ==> Proper(run[k], token, token.claims.exp.value)
    requires Spends(run[i], OutputAt(c, Step(c, revoked, issue).0, run, i), token)
    ensures !Rotates(run[j], OutputAt(c, Step(c, revoked, issue).0, run, j), token)
  {
    hide Step, Rotates, Covers, Spends, Proper, Clocked, PlainConfig;
    IssuedByService(c, revoked, issue, token);
    var exp := token.claims.exp.value;
    ProperCovers(c, run, token, exp, LastReading(issue));
    SpentNeverRotates(c, Step(c, revoked, issue).0, run, token, exp, LastReading(issue), i, j);
  }

  /** `2 days` is a lifetime to the JWT library but one hour to `parseExpiresIn`: the revocation is forgotten first. */
  lemma OtherSettingsForget()
    ensures var c := Config("1h", "2 days", 3600, 172800);
            var token := Sign(Payload("s", "d", "r"), Some("j"), c.refreshTtl, 0);
            var revoked := Step(c, map[], Revoke(token, None, 0)).0;
            Rotates(RotateAt(token, 3600000), Step(c, revoked, RotateAt(token, 3600000)).1, token)
  {
    assert "2 days"[1] == ' ';
    assert ParseExpiresIn("2 days") == 3600;
  }
}
