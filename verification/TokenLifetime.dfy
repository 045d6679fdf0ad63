/** From `--expires` to the accept decision, through any run of the store. */
module TokenLifetime {
  import opened Options
  import opened TokenFiles
  import opened TokenStore
  import opened TokenGrants
  import Calendar
  import Expiry

  /** The token of `name` is accepted at exactly the seconds before `deadline`. */
  ghost predicate AcceptedUntil(files: Files, dir: string, hash: Hash, token: string, transport: string,
                                name: string, deadline: int)
  {
    forall now: int :: Lookup(files, dir, hash, token, transport, now) == Some(name) <==> now < deadline
  }

  /** After any run of issues and revokes with any failures: a token that was granted with
      a relative expiry is accepted, on a transport it is meant for, at every second
      before its deadline and at none from it on, exactly when the deadline fits the
      clock's ticks and the four-digit years. */
  lemma GrantedTokenLives(dir: string, calls: seq<Call>, hash: Hash, tokens: set<string>, name: string,
          transport: string, expires: string, n: nat, factor: nat, issued: int, rate: int)
    requires Sound(hash, tokens) && FreshRun(map[], dir, map[], calls, hash, tokens)
    requires name in RunGrants(map[], dir, map[], calls, hash)
    requires Expiry.Duration(expires, n, factor) && 0 <= issued && 0 < rate <= 1_000_000_000
    requires Expiry.Resolve(expires, issued, rate) == Some(RunGrants(map[], dir, map[], calls, hash)[name].expiresAt)
    requires RunGrants(map[], dir, map[], calls, hash)[name].localOnly ==> transport == "local"
    ensures var files, grant := RunFiles(map[], dir, calls, hash), RunGrants(map[], dir, map[], calls, hash)[name];
            AcceptedUntil(files, dir, hash, grant.token, transport, name, issued / rate + n * factor)
            <==> issued + n * factor * rate <= Expiry.LONG_MAX && issued / rate + n * factor <= Calendar.LAST
  {
    var files, g := RunFiles(map[], dir, calls, hash), RunGrants(map[], dir, map[], calls, hash);
    var token := g[name].token;
    StoreIsAMap(map[], dir, map[], calls, hash, tokens);
    forall now: int
      ensures Lookup(files, dir, hash, token, transport, now) == Some(name) <==> !Expiry.IsExpired(g[name].expiresAt, now)
    {
      LookupMatches(files, dir, g, hash, tokens, token, transport, now);
    }
    Expiry.DurationsAreRead(expires);
    Expiry.RelativeExpiry(expires, issued, rate);
  }

  /** Without an expiry it is accepted for ever. */
  lemma UnlimitedTokenLives(dir: string, calls: seq<Call>, hash: Hash, tokens: set<string>, name: string,
          transport: string, now: int)
    requires Sound(hash, tokens) && FreshRun(map[], dir, map[], calls, hash, tokens)
    requires name in RunGrants(map[], dir, map[], calls, hash)
    requires RunGrants(map[], dir, map[], calls, hash)[name].expiresAt == ""
    requires RunGrants(map[], dir, map[], calls, hash)[name].localOnly ==> transport == "local"
    ensures var files, grant := RunFiles(map[], dir, calls, hash), RunGrants(map[], dir, map[], calls, hash)[name];
            Lookup(files, dir, hash, grant.token, transport, now) == Some(name)
  {
    var g := RunGrants(map[], dir, map[], calls, hash);
    StoreIsAMap(map[], dir, map[], calls, hash, tokens);
    LookupMatches(RunFiles(map[], dir, calls, hash), dir, g, hash, tokens, g[name].token, transport, now);
  }
}
