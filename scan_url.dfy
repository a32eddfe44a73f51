/**
 * The `scan-url` backend function: its own copy of the scorer (`scoreUrl`,
 * score and status only), the choice of an A record from a DNS answer
 * list, and the request handler's decisions.
 *
 * The helpers the backend repeats word for word (`clamp`,
 * `parseUrlLoose`, `isRawIp`, `countSpecialChars`, `classify` and the
 * keyword list) are the ones of `UrlRisk`. The DNS-over-HTTPS request and
 * the geolocation request are parameters: a `DnsLookup` yields the
 * `Answer` list (or the error the request raised), a `GeoLookup` the
 * location (or its error).
 */
module ScanUrl {
  import opened Wrappers
  import opened JsText
  import opened UrlRisk

  /** The backend's own blacklist, compared against the host as it stands. */
  const DomainBlacklist: seq<string> := ["example-phish.com", "badactor.net", "malware-test.invalid"]

  /** The backend list is the client's default list, which normalising leaves unchanged. */
  lemma DomainBlacklistIsClientDefault()
    ensures DomainBlacklist == Blacklist(None)
    ensures DomainBlacklist == NormalizeBlacklist(DefaultDomainBlacklist)
  {
    DefaultBlacklistNormalized();
  }

  /** `ks.some((k) => lower.includes(k))`. */
  predicate SomeKeyword(ks: seq<string>, lower: string) {
    ks != [] && (Contains(lower, ks[0]) || SomeKeyword(ks[1..], lower))
  }

  lemma {:induction false} SomeKeywordMeaning(ks: seq<string>, lower: string)
    ensures SomeKeyword(ks, lower) <==> exists k :: k in ks && Contains(lower, k)
  {
    if ks != [] {
      SomeKeywordMeaning(ks[1..], lower);
      if Contains(lower, ks[0]) {
        assert ks[0] in ks;
      }
      if exists k :: k in ks && Contains(lower, k) {
        var k :| k in ks && Contains(lower, k);
        assert k == ks[0] || k in ks[1..];
      }
    }
  }

  /** The backend's keyword test holds exactly when the client finds at least one keyword. */
  lemma SomeKeywordAgrees(lower: string)
    ensures SomeKeyword(Keywords, lower) <==> |MatchedKeywords(lower)| > 0
  {
    SomeKeywordMeaning(Keywords, lower);
    KeywordRule(lower);
  }

  /**
   * `scoreUrl`: the seven rules again, adding only the score. It computes
   * what the client scorer computes with its default blacklist.
   */
  method ScoreUrl(parse: UrlParser, urlString: string) returns (score: int, status: Classification)
    ensures score == Assess(parse, urlString, None).score
    ensures status == Assess(parse, urlString, None).classification
    ensures 0 <= score <= 100 && status == Classify(score)
  {
    var normalized := Trim(urlString);
    var normalizedLower := ToLower(normalized);
    var url := ParseUrlLoose(parse, urlString);
    var hostname := if url.Some? then ToLower(url.value.hostname) else "";
    var protocol := if url.Some? then ToLower(url.value.protocol) else "";
    var anyKeyword := SomeKeyword(Keywords, normalizedLower);
    var hostIsRawIp := IsRawIp(hostname);
    var specialCount := CountSpecialChars(normalized);
    var listed := Includes(DomainBlacklist, hostname);

    ghost var sig := Gather(parse, urlString, None);
    GatherFields(parse, urlString, None);
    SomeKeywordAgrees(normalizedLower);
    DomainBlacklistIsClientDefault();
    score := AddDeltas(sig, anyKeyword, normalized, hostname, protocol, hostIsRawIp, specialCount, listed);
    AssessInStep(parse, urlString, None);
    var finalScore := Clamp(score, 0, 100);
    score, status := finalScore, Classify(finalScore);
  }

  /**
   * The seven rule blocks of `scoreUrl`, on the values it computed before
   * them; `sig` holds the same values as the client scorer gathers them.
   */
  method AddDeltas(ghost sig: Signals, anyKeyword: bool, normalized: string, hostname: string, protocol: string,
                   hostIsRawIp: bool, specialCount: nat, listed: bool)
    returns (score: int)
    requires anyKeyword <==> |sig.matchedKeywords| > 0
    requires normalized == sig.normalized && hostname == sig.hostname && protocol == sig.protocol
    requires hostIsRawIp == sig.hostIsRawIp && specialCount == sig.specialCount && listed == sig.hostBlacklisted
    ensures score == Delta(RuleOrder, sig)
  {
    FiresMeaning(sig);
    score := 0;
    ghost var total := 0;
    if anyKeyword {
      score := score + 30;
    }
    total := total + Gain(PhishingKeywords, sig);
    assert score == total;
    if |normalized| > 100 {
      score := score + 25;
    }
    total := total + Gain(LengthOver100, sig);
    assert score == total;
    if hostname != [] && hostIsRawIp {
      score := score + 30;
    }
    total := total + Gain(RawIpHost, sig);
    assert score == total;
    if specialCount > 4 {
      score := score + 15;
    }
    total := total + Gain(SpecialCharsOver4, sig);
    assert score == total;
    if hostname != [] && listed {
      score := score + 25;
    }
    total := total + Gain(DomainBlacklisted, sig);
    assert score == total;
    if protocol == "http:" {
      score := score + 20;
    }
    total := total + Gain(UsesHttp, sig);
    assert score == total;
    if protocol == "https:" && |hostname| > 6 {
      score := score - 20;
    }
    total := total + Gain(HttpsLongDomainBonus, sig);
    assert score == total;
    DeltaByRule(sig);
  }

  /** What one rule adds to the score: its points when it fires, nothing otherwise. */
  function Gain(rule: RuleId, sig: Signals): int {
    if Fires(rule, sig) then Points(rule) else 0
  }

  lemma DeltaExtends(rules: seq<RuleId>, rule: RuleId, sig: Signals)
    ensures Delta(rules + [rule], sig) == Delta(rules, sig) + Gain(rule, sig)
  {
    assert (rules + [rule])[..|rules|] == rules;
  }

  /** The delta sum over the rule order is the seven gains added in that order. */
  lemma DeltaByRule(sig: Signals)
    ensures Delta(RuleOrder, sig) ==
      Gain(PhishingKeywords, sig) + Gain(LengthOver100, sig) + Gain(RawIpHost, sig) + Gain(SpecialCharsOver4, sig)
      + Gain(DomainBlacklisted, sig) + Gain(UsesHttp, sig) + Gain(HttpsLongDomainBonus, sig)
  {
    var done: seq<RuleId> := [];
    DeltaExtends(done, PhishingKeywords, sig);
    done := done + [PhishingKeywords];
    DeltaExtends(done, LengthOver100, sig);
    done := done + [LengthOver100];
    DeltaExtends(done, RawIpHost, sig);
    done := done + [RawIpHost];
    DeltaExtends(done, SpecialCharsOver4, sig);
    done := done + [SpecialCharsOver4];
    DeltaExtends(done, DomainBlacklisted, sig);
    done := done + [DomainBlacklisted];
    DeltaExtends(done, UsesHttp, sig);
    done := done + [UsesHttp];
    DeltaExtends(done, HttpsLongDomainBonus, sig);
    done := done + [HttpsLongDomainBonus];
    assert done == RuleOrder;
  }

  /** One entry of the DNS JSON `Answer` array. */
  datatype DnsAnswer = DnsAnswer(recordType: int, data: string)

  /**
   * The DNS-over-HTTPS request for a host's A records: the `Answer` list
   * (empty when the reply has none), or the message of the error raised
   * when the request fails.
   */
  type DnsLookup = string -> Result<seq<DnsAnswer>, string>

  /** An answer the A-record filter keeps: type 1 with non-empty data. */
  predicate UsableA(a: DnsAnswer) {
    a.recordType == 1 && a.data != []
  }

  /** `answers.filter((a) => a.type === 1).map((a) => a.data).filter(Boolean)`. */
  function ARecords(answers: seq<DnsAnswer>): seq<string> {
    if answers == [] then []
    else
      var a := answers[0];
      (if a.recordType == 1 && a.data != [] then [a.data] else []) + ARecords(answers[1..])
  }

  /**
   * The A records are the data of the usable answers: none exactly when no
   * answer is usable, and otherwise the first one is the data of the first
   * usable answer.
   */
  lemma {:induction false} ARecordsSpec(answers: seq<DnsAnswer>)
    ensures ARecords(answers) == [] <==> forall i :: 0 <= i < |answers| ==> !UsableA(answers[i])
    ensures ARecords(answers) != [] ==>
      exists i :: 0 <= i < |answers| && UsableA(answers[i]) && ARecords(answers)[0] == answers[i].data
        && forall j :: 0 <= j < i ==> !UsableA(answers[j])
  {
    if answers != [] {
      var rest := answers[1..];
      ARecordsSpec(rest);
      if !UsableA(answers[0]) && ARecords(rest) != [] {
        var i :| 0 <= i < |rest| && UsableA(rest[i]) && ARecords(rest)[0] == rest[i].data
          && forall j :: 0 <= j < i ==> !UsableA(rest[j]);
        assert answers[i + 1] == rest[i];
        forall j | 0 <= j < i + 1 ensures !UsableA(answers[j]) {
          if j > 0 {
            assert answers[j] == rest[j - 1];
          }
        }
      }
      if forall i :: 0 <= i < |rest| ==> !UsableA(rest[i]) {
        forall i | 0 <= i < |answers| ensures i > 0 ==> !UsableA(answers[i]) {
          if i > 0 {
            assert answers[i] == rest[i - 1];
          }
        }
      }
      if forall i :: 0 <= i < |answers| ==> !UsableA(answers[i]) {
        forall i | 0 <= i < |rest| ensures !UsableA(rest[i]) {
          assert rest[i] == answers[i + 1];
        }
      }
    }
  }

  /** `resolveIpFromHostname`: a raw IP as it is, otherwise the first A record. */
  function ResolveIpFromHostname(lookup: DnsLookup, hostname: string): Result<string, string> {
    if IsRawIp(hostname) then Ok(hostname)
    else
      match lookup(hostname)
      case Err(e) => Err(e)
      case Ok(answers) =>
        var records := ARecords(answers);
        if records == [] then Err("No A record found") else Ok(records[0])
  }

  /**
   * A raw-IP host resolves to itself without a lookup; any other host to
   * the data of the first usable answer, to "No A record found" when there
   * is none, or to the lookup's own error.
   */
  lemma ResolveSpec(lookup: DnsLookup, hostname: string)
    ensures var r := ResolveIpFromHostname(lookup, hostname);
      (IsRawIp(hostname) ==> r == Ok(hostname))
      && (!IsRawIp(hostname) && lookup(hostname).Err? ==> r == Err(lookup(hostname).error))
      && (!IsRawIp(hostname) && lookup(hostname).Ok? ==>
        var answers := lookup(hostname).value;
        (r == Err("No A record found") <==> forall i :: 0 <= i < |answers| ==> !UsableA(answers[i]))
        && (r.Ok? ==>
              exists i :: 0 <= i < |answers| && UsableA(answers[i]) && r.value == answers[i].data
                && forall j :: 0 <= j < i ==> !UsableA(answers[j])))
  {
    if !IsRawIp(hostname) && lookup(hostname).Ok? {
      ARecordsSpec(lookup(hostname).value);
    }
  }

  /** What the geolocation request yields; coordinates as reals. */
  datatype Geo = Geo(lat: real, lon: real, country: string)

  /** `geoLookup`: the location of an IP, or the message of the error it raised. */
  type GeoLookup = string -> Result<Geo, string>

  /** A request: its method and the body's `url` field when the body is JSON and the field a string. */
  datatype Request = Request(httpMethod: string, url: Option<string>)

  datatype Payload = Payload(lat: real, lon: real, country: string, ip: string, score: int, status: Classification)

  datatype ResponseBody = ErrorBody(error: string) | PayloadBody(payload: Payload)

  /** A response: status, JSON body, and whether the CORS headers are sent. */
  datatype Response = Response(status: int, body: ResponseBody, cors: bool)

  /** `typeof body?.url === "string" ? body.url.trim() : ""`. */
  function UrlInput(req: Request): string {
    if req.url.Some? then Trim(req.url.value) else ""
  }

  /** `parsed?.hostname?.trim() || ""` for the loose parse of the request's URL. */
  function RequestHost(parse: UrlParser, req: Request): string {
    var parsed := ParseUrlLoose(parse, UrlInput(req));
    if parsed.Some? then Trim(parsed.value.hostname) else ""
  }

  /**
   * The handler: 405 for anything but POST, 400 for a missing or blank
   * URL and for one without a host, 500 with the message of a failed
   * lookup, and otherwise 200 with the location, the IP and the backend
   * score of the trimmed URL.
   */
  method Serve(parse: UrlParser, lookup: DnsLookup, geo: GeoLookup, req: Request) returns (resp: Response)
    ensures req.httpMethod != "POST" ==> resp == Response(405, ErrorBody("Method not allowed"), false)
    ensures req.httpMethod == "POST" && UrlInput(req) == [] ==> resp == Response(400, ErrorBody("Missing url"), false)
    ensures req.httpMethod == "POST" && UrlInput(req) != [] && RequestHost(parse, req) == [] ==>
      resp == Response(400, ErrorBody("Invalid URL"), false)
    ensures req.httpMethod == "POST" && UrlInput(req) != [] && RequestHost(parse, req) != [] ==>
      var resolved := ResolveIpFromHostname(lookup, ToLower(RequestHost(parse, req)));
      var risk := Assess(parse, req.url.value, None);
      (resolved.Err? ==> resp == Response(500, ErrorBody(resolved.error), true))
      && (resolved.Ok? && geo(resolved.value).Err? ==> resp == Response(500, ErrorBody(geo(resolved.value).error), true))
      && (resolved.Ok? && geo(resolved.value).Ok? ==>
        var g := geo(resolved.value).value;
        resp == Response(200, PayloadBody(Payload(g.lat, g.lon, g.country, resolved.value, risk.score, risk.classification)), true))
  {
    if req.httpMethod != "POST" {
      return Response(405, ErrorBody("Method not allowed"), false);
    }
    var urlInput := if req.url.Some? then Trim(req.url.value) else "";
    if urlInput == [] {
      return Response(400, ErrorBody("Missing url"), false);
    }
    var parsed := ParseUrlLoose(parse, urlInput);
    var hostname := if parsed.Some? then Trim(parsed.value.hostname) else "";
    if hostname == [] {
      return Response(400, ErrorBody("Invalid URL"), false);
    }
    var resolved := ResolveIpFromHostname(lookup, ToLower(hostname));
    if resolved.Err? {
      return Response(500, ErrorBody(resolved.error), true);
    }
    var ip := resolved.value;
    var location := geo(ip);
    if location.Err? {
      return Response(500, ErrorBody(location.error), true);
    }
    var g := location.value;
    var score, status := ScoreUrl(parse, urlInput);
    TrimmedInputScoresTheSame(parse, req.url.value, None);
    resp := Response(200, PayloadBody(Payload(g.lat, g.lon, g.country, ip, score, status)), true);
  }
}
