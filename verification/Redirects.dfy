/**
 * Redirects and server-requested retries of a polling request, and which headers survive them.
 * The server, the resolution of `Location` and the parsing of `Retry-After` are arbitrary.
 */
module Redirects {
  import opened Prelude

  const MAX_REDIRECTS: nat := 10
  const MAX_RETRIES: nat := 10

  /** `port` is the explicit port or the known default of the scheme. */
  datatype Url = Url(scheme: string, host: Option<string>, port: Option<nat>, path: string)
  datatype Body = NoBody | Bytes(content: string) | Stream

  /** Header names are in lower case. */
  datatype Request = Request(verb: string, url: Url, headers: map<string, string>, body: Body)

  /** A reply, with its `Location` resolved against the request's URL and whether it has a `Retry-After`. */
  datatype Reply = Failure | Response(status: nat, location: Option<Url>, retryAfter: bool)

  /** The configured header names, and the hosts trusted with them. */
  datatype Config = Config(configured: seq<string>, trusted: string -> bool)

  predicate CrossOrigin(a: Url, b: Url) {
    a.scheme != b.scheme || a.host != b.host || a.port.None? || a.port != b.port
  }

  predicate MayForward(cfg: Config, a: Url, b: Url) {
    !CrossOrigin(a, b)
    || (b.host.Some? && cfg.trusted(b.host.value) && !(a.scheme == "https" && b.scheme != "https"))
  }

  const CREDENTIALS: seq<string> := ["authorization", "cookie", "proxy-authorization"]

  function Without(headers: map<string, string>, names: seq<string>): map<string, string> {
    map h | h in headers && h !in names :: headers[h]
  }

  /** Which headers a redirect from `a` to `b` leaves in place. */
  predicate Survives(cfg: Config, h: string, a: Url, b: Url) {
    if h in cfg.configured then MayForward(cfg, a, b)
    else h in CREDENTIALS ==> !CrossOrigin(a, b)
  }

  function Surviving(cfg: Config, headers: map<string, string>, a: Url, b: Url): map<string, string> {
    map h | h in headers && Survives(cfg, h, a, b) :: headers[h]
  }

  lemma WithoutSnoc(headers: map<string, string>, names: seq<string>, name: string)
    ensures Without(headers, names) - {name} == Without(headers, names + [name])
  {
  }

  method RemoveAll(headers: map<string, string>, names: seq<string>) returns (kept: map<string, string>)
    ensures kept == Without(headers, names)
  {
    kept := headers;
    for i := 0 to |names|
      invariant kept == Without(headers, names[..i])
    {
      WithoutSnoc(headers, names[..i], names[i]);
      assert names[..i + 1] == names[..i] + [names[i]];
      kept := kept - {names[i]};
    }
    assert names[..|names|] == names;
  }

  /** Removes header after header, as `strip_credentials_if_cross_origin` does. */
  method StripCredentials(cfg: Config, headers: map<string, string>, from: Url, to: Url)
    returns (kept: map<string, string>)
    ensures kept == Surviving(cfg, headers, from, to)
    ensures forall h :: h in kept <==>
              h in headers && (h in cfg.configured || h in ["authorization", "cookie", "proxy-authorization"] ==>
                (from.scheme == to.scheme && from.host == to.host && from.port.Some? && from.port == to.port)
                || (h in cfg.configured && to.host.Some? && cfg.trusted(to.host.value)
                    && (from.scheme == "https" ==> to.scheme == "https")))
  {
    kept := headers;
    if CrossOrigin(from, to) {
      var keepConfigured := MayForward(cfg, from, to);
      var dropped := [];
      for i := 0 to |CREDENTIALS|
        invariant forall h :: h in dropped <==> h in CREDENTIALS[..i] && !(keepConfigured && h in cfg.configured)
      {
        var name := CREDENTIALS[i];
        if !(keepConfigured && name in cfg.configured) {
          dropped := dropped + [name];
        }
      }
      kept := RemoveAll(kept, dropped);
      if !keepConfigured {
        kept := RemoveAll(kept, cfg.configured);
      }
    }
  }

  function Redirected(cfg: Config, r: Request, to: Url): Request {
    r.(url := to, headers := Surviving(cfg, r.headers, r.url, to))
  }

  predicate IsRedirect(status: nat) { status in {301, 302, 307, 308} }

  predicate IsRetry(status: nat) { status == 429 || status == 503 }

  datatype Next = Done | Again(request: Request, redirects: nat, retries: nat)

  /** What follows one reply. */
  function Follow(cfg: Config, r: Request, reply: Reply, redirects: nat, retries: nat): Next {
    if reply.Failure? then Done
    else if reply.status == 303 then
      if redirects >= MAX_REDIRECTS || r.body.Stream? || reply.location.None? then Done
      else Again(Redirected(cfg, r, reply.location.value).(verb := "GET", body := NoBody), redirects + 1, retries)
    else if IsRetry(reply.status) then
      if retries >= MAX_RETRIES || r.body.Stream? || !reply.retryAfter then Done
      else Again(r, redirects, retries + 1)
    else if IsRedirect(reply.status) then
      if redirects >= MAX_REDIRECTS || r.body.Stream? || reply.location.None? then Done
      else Again(Redirected(cfg, r, reply.location.value), redirects + 1, retries)
    else Done
  }

  /** Every request sent from the `n`-th on, `server` giving the reply to each. */
  function Sends(cfg: Config, r: Request, server: nat -> Reply, n: nat, redirects: nat, retries: nat):
    (sent: seq<Request>)
    requires redirects <= MAX_REDIRECTS && retries <= MAX_RETRIES
    ensures sent != [] && sent[0] == r
    decreases MAX_REDIRECTS - redirects + MAX_RETRIES - retries
  {
    var next := Follow(cfg, r, server(n), redirects, retries);
    if next.Done? then [r] else [r] + Sends(cfg, next.request, server, n + 1, next.redirects, next.retries)
  }

  /** The match on the status in the loop of `handle`. */
  method React(cfg: Config, current: Request, reply: Reply, redirectCount: nat, retryCount: nat) returns (next: Next)
    ensures next == Follow(cfg, current, reply, redirectCount, retryCount)
    ensures next.Again? ==>
              && reply.Response? && !current.body.Stream?
              && (next.redirects, next.retries) ==
                   (if IsRetry(reply.status) then (redirectCount, retryCount + 1) else (redirectCount + 1, retryCount))
              && next.redirects <= Max(redirectCount, MAX_REDIRECTS) && next.retries <= Max(retryCount, MAX_RETRIES)
              && (IsRetry(reply.status) ==> next.request == current)
              && (forall h :: h in next.request.headers ==>
                    && h in current.headers && next.request.headers[h] == current.headers[h]
                    && (next.request.url != current.url ==> Survives(cfg, h, current.url, next.request.url)))
  {
    hide Survives;
    if reply.Failure? { return Done; }
    if reply.status == 303 {
      if redirectCount >= MAX_REDIRECTS { return Done; }
      if current.body.Stream? { return Done; }
      if reply.location.None? { return Done; }
      var headers := StripCredentials(cfg, current.headers, current.url, reply.location.value);
      return Again(Request("GET", reply.location.value, headers, NoBody), redirectCount + 1, retryCount);
    } else if IsRetry(reply.status) {
      if retryCount >= MAX_RETRIES { return Done; }
      if current.body.Stream? { return Done; }
      if !reply.retryAfter { return Done; }
      return Again(current, redirectCount, retryCount + 1);
    } else if IsRedirect(reply.status) {
      if redirectCount >= MAX_REDIRECTS { return Done; }
      if current.body.Stream? { return Done; }
      if reply.location.None? { return Done; }
      var headers := StripCredentials(cfg, current.headers, current.url, reply.location.value);
      return Again(Request(current.verb, reply.location.value, headers, current.body), redirectCount + 1, retryCount);
    }
    return Done;
  }

  lemma FollowCounts(cfg: Config, r: Request, reply: Reply, redirects: nat, retries: nat)
    requires redirects <= MAX_REDIRECTS && retries <= MAX_RETRIES
    ensures var next := Follow(cfg, r, reply, redirects, retries);
            next.Again? ==>
              && next.redirects <= MAX_REDIRECTS && next.retries <= MAX_RETRIES
              && next.redirects + next.retries == redirects + retries + 1
  {
  }

  lemma SendsFirst(cfg: Config, sent: seq<Request>, r: Request, server: nat -> Reply, redirects: nat, retries: nat)
    requires redirects <= MAX_REDIRECTS && retries <= MAX_RETRIES
    ensures var next := Follow(cfg, r, server(|sent|), redirects, retries);
            sent + Sends(cfg, r, server, |sent|, redirects, retries) ==
              if next.Done? then sent + [r]
              else sent + [r] + Sends(cfg, next.request, server, |sent + [r]|, next.redirects, next.retries)
  {
    hide Follow;
    FollowCounts(cfg, r, server(|sent|), redirects, retries);
  }

  /** The loop of `handle`. */
  method Handle(cfg: Config, req: Request, server: nat -> Reply) returns (reply: Reply, sent: seq<Request>)
    ensures sent == Sends(cfg, req, server, 0, 0, 0)
    ensures reply == server(|sent| - 1)
  {
    hide Follow, Sends;
    var current := req;
    var redirectCount: nat, retryCount: nat := 0, 0;
    sent := [];
    while true
      invariant redirectCount <= MAX_REDIRECTS && retryCount <= MAX_RETRIES
      invariant Sends(cfg, req, server, 0, 0, 0)
             == sent + Sends(cfg, current, server, |sent|, redirectCount, retryCount)
      decreases MAX_REDIRECTS - redirectCount + MAX_RETRIES - retryCount
    {
      reply := server(|sent|);
      FollowCounts(cfg, current, reply, redirectCount, retryCount);
      SendsFirst(cfg, sent, current, server, redirectCount, retryCount);
      var next := React(cfg, current, reply, redirectCount, retryCount);
      sent := sent + [current];
      if next.Done? { return; }
      current, redirectCount, retryCount := next.request, next.redirects, next.retries;
    }
  }

  // ---------------------------------------------------------------- what holds on every chain of requests

  /** How many of the requests were redirected and how many retried. */
  lemma {:induction false} SendsBound(
    cfg: Config, r: Request, server: nat -> Reply, n: nat, redirects: nat, retries: nat)
    requires redirects <= MAX_REDIRECTS && retries <= MAX_RETRIES
    ensures |Sends(cfg, r, server, n, redirects, retries)| <= 1 + MAX_REDIRECTS - redirects + MAX_RETRIES - retries
    decreases MAX_REDIRECTS - redirects + MAX_RETRIES - retries
  {
    var next := Follow(cfg, r, server(n), redirects, retries);
    if next.Again? {
      SendsBound(cfg, next.request, server, n + 1, next.redirects, next.retries);
    }
  }

  /** For every server, a request leads to at most 21 sends. */
  lemma AtMostTwentyOneSends(cfg: Config, req: Request, server: nat -> Reply)
    ensures 1 <= |Sends(cfg, req, server, 0, 0, 0)| <= 21
  {
    SendsBound(cfg, req, server, 0, 0, 0);
  }

  /** Each request after the first follows from the one before it and the reply to that. */
  lemma {:induction false} SendsFollow(
    cfg: Config, r: Request, server: nat -> Reply, n: nat, redirects: nat, retries: nat, i: nat)
    returns (red: nat, ret: nat)
    requires redirects <= MAX_REDIRECTS && retries <= MAX_RETRIES
    requires i + 1 < |Sends(cfg, r, server, n, redirects, retries)|
    ensures var sent := Sends(cfg, r, server, n, redirects, retries);
            var next := Follow(cfg, sent[i], server(n + i), red, ret);
            next.Again? && next.request == sent[i + 1]
    decreases i
  {
    var next := Follow(cfg, r, server(n), redirects, retries);
    if i == 0 {
      red, ret := redirects, retries;
    } else {
      red, ret := SendsFollow(cfg, next.request, server, n + 1, next.redirects, next.retries, i - 1);
    }
  }

  /** A 303 turns the request into a GET without a body; every other redirect and retry keeps verb and body. */
  lemma EachHop(cfg: Config, req: Request, server: nat -> Reply, i: nat)
    requires i + 1 < |Sends(cfg, req, server, 0, 0, 0)|
    ensures var sent := Sends(cfg, req, server, 0, 0, 0);
            && server(i).Response?
            && (server(i).status == 303 ==> sent[i + 1].verb == "GET" && sent[i + 1].body == NoBody)
            && (server(i).status != 303 ==> sent[i + 1].verb == sent[i].verb && sent[i + 1].body == sent[i].body)
            && (server(i).status in {429, 503} ==> sent[i + 1] == sent[i])
            && (server(i).status !in {429, 503} ==>
                  && server(i).status in {301, 302, 303, 307, 308} && server(i).location == Some(sent[i + 1].url)
                  && sent[i + 1].headers == Surviving(cfg, sent[i].headers, sent[i].url, sent[i + 1].url))
  {
    var red, ret := SendsFollow(cfg, req, server, 0, 0, 0, i);
  }

  /** After one 303 hop every later request is a GET without a body. */
  lemma {:induction false} GetForever(cfg: Config, req: Request, server: nat -> Reply, i: nat, j: nat)
    requires i < j < |Sends(cfg, req, server, 0, 0, 0)|
    requires server(i).Response? && server(i).status == 303
    ensures var sent := Sends(cfg, req, server, 0, 0, 0);
            sent[j].verb == "GET" && sent[j].body == NoBody
    decreases j
  {
    hide Sends;
    EachHop(cfg, req, server, j - 1);
    if i < j - 1 {
      GetForever(cfg, req, server, i, j - 1);
    }
  }

  /** Without a 303 the request keeps its verb and body to the end. */
  lemma {:induction false} VerbKept(cfg: Config, req: Request, server: nat -> Reply, j: nat)
    requires j < |Sends(cfg, req, server, 0, 0, 0)|
    requires forall i :: 0 <= i < j && server(i).Response? ==> server(i).status != 303
    ensures var sent := Sends(cfg, req, server, 0, 0, 0);
            sent[j].verb == req.verb && sent[j].body == req.body
    decreases j
  {
    if j > 0 {
      hide Sends;
      EachHop(cfg, req, server, j - 1);
      VerbKept(cfg, req, server, j - 1);
    }
  }

  /** How many of the replies from `n` to before `m` have one of the statuses. */
  function Replies(server: nat -> Reply, statuses: set<nat>, n: nat, m: nat): nat
    decreases m - n
  {
    if n >= m then 0
    else (if server(n).Response? && server(n).status in statuses then 1 else 0) + Replies(server, statuses, n + 1, m)
  }

  lemma {:induction false} SendsFrom(
    cfg: Config, r: Request, server: nat -> Reply, n: nat, redirects: nat, retries: nat, i: nat)
    requires redirects <= MAX_REDIRECTS && retries <= MAX_RETRIES
    requires i < |Sends(cfg, r, server, n, redirects, retries)|
    ensures var sent := Sends(cfg, r, server, n, redirects, retries);
            var red := redirects + Replies(server, {301, 302, 303, 307, 308}, n, n + i);
            var ret := retries + Replies(server, {429, 503}, n, n + i);
            && red <= MAX_REDIRECTS && ret <= MAX_RETRIES
            && (i + 1 < |sent| <==> Follow(cfg, sent[i], server(n + i), red, ret).Again?)
    decreases i
  {
    var next := Follow(cfg, r, server(n), redirects, retries);
    if i > 0 {
      FollowCounts(cfg, r, server(n), redirects, retries);
      SendsFrom(cfg, next.request, server, n + 1, next.redirects, next.retries, i - 1);
    }
  }

  /**
   * The loop goes on after a reply exactly if the request can be sent again and the reply is a redirect with
   * a usable `Location` and fewer than ten redirects before it, or a 429 or 503 with a `Retry-After` and
   * fewer than ten of those before it. On a transport failure, any other status or a spent budget it stops.
   */
  lemma FollowedExactlyWhen(cfg: Config, req: Request, server: nat -> Reply, i: nat)
    requires i < |Sends(cfg, req, server, 0, 0, 0)|
    ensures var sent, reply := Sends(cfg, req, server, 0, 0, 0), server(i);
            i + 1 < |sent| <==>
              && reply.Response? && !sent[i].body.Stream?
              && ((reply.status in {301, 302, 303, 307, 308} && reply.location.Some?
                   && Replies(server, {301, 302, 303, 307, 308}, 0, i) < 10)
                  || (reply.status in {429, 503} && reply.retryAfter && Replies(server, {429, 503}, 0, i) < 10))
  {
    SendsFrom(cfg, req, server, 0, 0, 0, i);
    hide Sends, Replies, Surviving;
  }

  /** Whether a header survives every hop before the `j`-th request that is not a mere retry. */
  predicate SurvivesAll(cfg: Config, h: string, sent: seq<Request>, server: nat -> Reply, j: nat)
    requires j < |sent|
  {
    forall i :: 0 <= i < j && server(i).Response? && !IsRetry(server(i).status) ==>
      Survives(cfg, h, sent[i].url, sent[i + 1].url)
  }

  /**
   * Exactly which headers reach which request: one of the original request's headers, with its original
   * value, that every earlier redirect let through. A configured header therefore passes only same-origin
   * redirects and trusted ones without an https downgrade, an unconfigured credential only same-origin ones.
   */
  lemma {:induction false} HeadersExactly(cfg: Config, req: Request, server: nat -> Reply, h: string, j: nat)
    requires j < |Sends(cfg, req, server, 0, 0, 0)|
    ensures var sent := Sends(cfg, req, server, 0, 0, 0);
            && (h in sent[j].headers <==> h in req.headers && SurvivesAll(cfg, h, sent, server, j))
            && (h in sent[j].headers ==> sent[j].headers[h] == req.headers[h])
    decreases j
  {
    hide Survives;
    if j > 0 {
      HeadersExactly(cfg, req, server, h, j - 1);
      EachHop(cfg, req, server, j - 1);
      hide Sends;
    }
  }

  /**
   * A configured header is on a request exactly if it was on the original and every earlier redirect kept
   * scheme, host and known port, or went to a trusted host and not from https to anything less.
   */
  lemma ConfiguredHeadersStay(cfg: Config, req: Request, server: nat -> Reply, h: string, j: nat)
    requires j < |Sends(cfg, req, server, 0, 0, 0)| && h in cfg.configured
    ensures var sent := Sends(cfg, req, server, 0, 0, 0);
            h in sent[j].headers <==>
              h in req.headers
              && forall i :: 0 <= i < j && server(i).Response? && server(i).status !in {429, 503} ==>
                   var a, b := sent[i].url, sent[i + 1].url;
                   (a.scheme == b.scheme && a.host == b.host && a.port.Some? && a.port == b.port)
                   || (b.host.Some? && cfg.trusted(b.host.value) && (a.scheme == "https" ==> b.scheme == "https"))
  {
    HeadersExactly(cfg, req, server, h, j);
    hide Sends;
  }

  /**
   * Credentials that are not configured stay on exactly until a redirect changes scheme, host or port, and
   * every other header stays to the end.
   */
  lemma OtherHeaders(cfg: Config, req: Request, server: nat -> Reply, h: string, j: nat)
    requires j < |Sends(cfg, req, server, 0, 0, 0)| && h !in cfg.configured
    ensures var sent := Sends(cfg, req, server, 0, 0, 0);
            h in sent[j].headers <==>
              h in req.headers
              && (h == "authorization" || h == "cookie" || h == "proxy-authorization" ==>
                    forall i :: 0 <= i < j && server(i).Response? && server(i).status !in {429, 503} ==>
                      var a, b := sent[i].url, sent[i + 1].url;
                      a.scheme == b.scheme && a.host == b.host && a.port.Some? && a.port == b.port)
  {
    HeadersExactly(cfg, req, server, h, j);
    Credentials(h);
    hide Sends, CREDENTIALS;
  }

  lemma Credentials(h: string)
    ensures h in CREDENTIALS <==> h == "authorization" || h == "cookie" || h == "proxy-authorization"
  {
    assert CREDENTIALS == ["authorization"] + ["cookie"] + ["proxy-authorization"];
  }
}
