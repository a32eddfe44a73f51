/**
 * The client-side URL risk scorer `scoreUrlRisk`, and the helpers the
 * backend function repeats word for word: loose URL parsing, the raw-IP
 * test, the special-character count, clamping and classification.
 *
 * `new URL(text)` is not modelled: callers pass it in as a `UrlParser`,
 * which yields the two fields the rules read, or `None` where the real
 * constructor throws.
 */
module UrlRisk {
  import opened Wrappers
  import opened JsText

  datatype Classification = Safe | Suspicious | Dangerous

  datatype RuleId =
    | PhishingKeywords
    | LengthOver100
    | RawIpHost
    | SpecialCharsOver4
    | DomainBlacklisted
    | UsesHttp
    | HttpsLongDomainBonus

  /** The identifier a rule carries in results and reports. */
  function RuleName(rule: RuleId): string {
    match rule
    case PhishingKeywords => "phishing_keywords"
    case LengthOver100 => "length_over_100"
    case RawIpHost => "raw_ip_host"
    case SpecialCharsOver4 => "special_chars_over_4"
    case DomainBlacklisted => "domain_blacklisted"
    case UsesHttp => "uses_http"
    case HttpsLongDomainBonus => "https_long_domain_bonus"
  }

  datatype BreakdownItem = BreakdownItem(rule: RuleId, points: int, detail: string)

  datatype RiskResult = RiskResult(
    score: int,
    classification: Classification,
    triggeredRules: seq<RuleId>,
    breakdown: seq<BreakdownItem>)

  /** The two fields of a parsed `URL` the rules read; `protocol` keeps its trailing ':'. */
  datatype UrlParts = UrlParts(hostname: string, protocol: string)

  /** `new URL(text)`: `Some` with the parsed fields, or `None` where the constructor throws. */
  type UrlParser = string -> Option<UrlParts>

  const Keywords: seq<string> := ["login", "verify", "update", "secure", "account", "free", "bonus", "win"]

  const SpecialChars: set<char> := {'?', '&', '%', '=', '@', '-', '_'}

  const DefaultDomainBlacklist: seq<string> := ["example-phish.com", "badactor.net", "malware-test.invalid"]

  /** The order in which the rules are evaluated, and so the order of every result list. */
  const RuleOrder: seq<RuleId> :=
    [PhishingKeywords, LengthOver100, RawIpHost, SpecialCharsOver4, DomainBlacklisted, UsesHttp, HttpsLongDomainBonus]

  /** The position of a rule in `RuleOrder`; every rule has one. */
  function Rank(rule: RuleId): (n: nat)
    ensures n < |RuleOrder| && RuleOrder[n] == rule
  {
    match rule
    case PhishingKeywords => 0
    case LengthOver100 => 1
    case RawIpHost => 2
    case SpecialCharsOver4 => 3
    case DomainBlacklisted => 4
    case UsesHttp => 5
    case HttpsLongDomainBonus => 6
  }

  /** `Math.min(max, Math.max(min, value))`. */
  function Clamp(value: int, min: int, max: int): (r: int)
    ensures r <= max
    ensures min <= max ==> min <= r
    ensures min <= value <= max ==> r == value
    ensures value < min && min <= max ==> r == min
    ensures max < value ==> r == max
    ensures min > max ==> r == max
  {
    var atLeastMin := if min > value then min else value;
    if max < atLeastMin then max else atLeastMin
  }

  /** The three tiers, cut after 20 and after 50. */
  function Classify(score: int): (c: Classification)
    ensures c == Safe <==> score <= 20
    ensures c == Suspicious <==> 21 <= score <= 50
    ensures c == Dangerous <==> score >= 51
  {
    if score <= 20 then Safe
    else if score <= 50 then Suspicious
    else Dangerous
  }

  function Severity(c: Classification): nat {
    match c
    case Safe => 0
    case Suspicious => 1
    case Dangerous => 2
  }

  /** A higher score never gets a milder classification. */
  lemma ClassifyMonotone(a: int, b: int)
    requires a <= b
    ensures Severity(Classify(a)) <= Severity(Classify(b))
  {
  }

  /**
   * `parseUrlLoose`: nothing for blank input; otherwise the trimmed text
   * parsed as it is, or failing that with "https://" in front, or nothing.
   */
  function ParseUrlLoose(parse: UrlParser, input: string): Option<UrlParts> {
    var raw := Trim(input);
    if raw == [] then None
    else if parse(raw).Some? then parse(raw)
    else parse("https://" + raw)
  }

  /**
   * The loose parse succeeds exactly when the trimmed input is not blank
   * and either it or it with "https://" in front parses; the direct parse
   * wins when both do.
   */
  lemma ParseUrlLooseSpec(parse: UrlParser, input: string)
    ensures var raw := Trim(input); var r := ParseUrlLoose(parse, input);
      (r.Some? <==> raw != [] && (parse(raw).Some? || parse("https://" + raw).Some?))
      && (r.Some? && parse(raw).Some? ==> r == parse(raw))
      && (r.Some? && parse(raw).None? ==> r == parse("https://" + raw))
  {
  }

  /** `s.split(sep)`: the pieces between separators, at least one. */
  function SplitOn(s: string, sep: char): (parts: seq<string>)
    ensures |parts| == CountChar(s, sep) + 1
    ensures forall i :: 0 <= i < |parts| ==> sep !in parts[i]
  {
    if s == [] then [[]]
    else
      var rest := SplitOn(s[1..], sep);
      if s[0] == sep then [[]] + rest else [[s[0]] + rest[0]] + rest[1..]
  }

  /** Joining the pieces with the separator gives the string back. */
  lemma {:induction false} SplitJoin(s: string, sep: char)
    ensures Join(SplitOn(s, sep), [sep]) == s
  {
    if s != [] {
      SplitJoin(s[1..], sep);
      var rest := SplitOn(s[1..], sep);
      if s[0] != sep && |rest| > 1 {
        assert rest == [rest[0]] + rest[1..];
        assert Join(rest, [sep]) == rest[0] + [sep] + Join(rest[1..], [sep]);
      }
    }
  }

  /** One octet of the IPv4 pattern, alternative by alternative: `25[0-5]|2[0-4]\d|1\d\d|[1-9]?\d`. */
  predicate OctetPattern(p: string) {
    (|p| == 3 && p[0] == '2' && p[1] == '5' && '0' <= p[2] <= '5')
    || (|p| == 3 && p[0] == '2' && '0' <= p[1] <= '4' && IsDigit(p[2]))
    || (|p| == 3 && p[0] == '1' && IsDigit(p[1]) && IsDigit(p[2]))
    || (|p| == 2 && '1' <= p[0] <= '9' && IsDigit(p[1]))
    || (|p| == 1 && IsDigit(p[0]))
  }

  /** A decimal number from 0 to 255, written without leading zeros. */
  predicate IsOctet(p: string) {
    1 <= |p| <= 3 && (forall i :: 0 <= i < |p| ==> IsDigit(p[i]))
    && (|p| > 1 ==> p[0] != '0') && DecimalValue(p) <= 255
  }

  function DigitValue(c: char): int { c as int - '0' as int }

  lemma DecimalValueOfThree(p: string)
    requires |p| == 3 && forall i :: 0 <= i < 3 ==> IsDigit(p[i])
    ensures DecimalValue(p) == 100 * DigitValue(p[0]) + 10 * DigitValue(p[1]) + DigitValue(p[2])
  {
    var two := p[..2];
    assert two[..1] == p[..1] && two[1] == p[1];
    assert p[..1][..0] == [];
    assert DecimalValue(p[..1]) == DigitValue(p[0]);
    assert DecimalValue(two) == 10 * DigitValue(p[0]) + DigitValue(p[1]);
  }

  lemma DecimalValueOfTwo(p: string)
    requires |p| == 2 && forall i :: 0 <= i < 2 ==> IsDigit(p[i])
    ensures DecimalValue(p) == 10 * DigitValue(p[0]) + DigitValue(p[1])
  {
    assert p[..1][..0] == [];
    assert DecimalValue(p[..1]) == DigitValue(p[0]);
  }

  /** The octet alternatives accept exactly the canonical decimals 0..255. */
  lemma OctetPatternMeaning(p: string)
    ensures OctetPattern(p) <==> IsOctet(p)
  {
    if |p| == 3 && forall i :: 0 <= i < 3 ==> IsDigit(p[i]) {
      DecimalValueOfThree(p);
    } else if |p| == 2 && forall i :: 0 <= i < 2 ==> IsDigit(p[i]) {
      DecimalValueOfTwo(p);
    } else if |p| == 1 && IsDigit(p[0]) {
      DecimalValueOfOne(p);
    }
  }

  lemma DecimalValueOfOne(p: string)
    requires |p| == 1 && IsDigit(p[0])
    ensures DecimalValue(p) == DigitValue(p[0]) <= 9
  {
    assert p[..0] == [];
  }

  /** The IPv4 pattern `^O(\.O){3}$`: exactly four dot-separated pieces, each an octet. */
  predicate IsDottedQuad(h: string) {
    var parts := SplitOn(h, '.');
    |parts| == 4 && forall i :: 0 <= i < 4 ==> OctetPattern(parts[i])
  }

  predicate IsHexOrColon(c: char) {
    IsDigit(c) || ('a' <= c <= 'f') || ('A' <= c <= 'F') || c == ':'
  }

  /** `isRawIp`: the trimmed host is a dotted quad, or passes the loose IPv6 test. */
  predicate IsRawIp(hostname: string) {
    var h := Trim(hostname);
    if IsDottedQuad(h) then true
    else if ':' !in h || !(h != [] && forall i :: 0 <= i < |h| ==> IsHexOrColon(h[i])) then false
    else CountChar(h, ':') >= 2
  }

  lemma {:induction false} CountCharPositive(s: string, c: char)
    requires CountChar(s, c) > 0
    ensures c in s
  {
    if s[0] != c {
      CountCharPositive(s[1..], c);
    }
  }

  /**
   * A host is a raw IP exactly when, once trimmed, it is four canonical
   * decimal octets 0..255 joined by dots, or it is made only of hex digits
   * and ':' with at least two ':'.
   */
  lemma RawIpCases(hostname: string)
    ensures var h := Trim(hostname);
      IsRawIp(hostname) <==>
        (|SplitOn(h, '.')| == 4 && forall i :: 0 <= i < 4 ==> IsOctet(SplitOn(h, '.')[i]))
        || ((forall i :: 0 <= i < |h| ==> IsHexOrColon(h[i])) && CountChar(h, ':') >= 2)
  {
    var h := Trim(hostname);
    var parts := SplitOn(h, '.');
    if |parts| == 4 {
      forall i | 0 <= i < 4 ensures OctetPattern(parts[i]) <==> IsOctet(parts[i]) {
        OctetPatternMeaning(parts[i]);
      }
    }
    if CountChar(h, ':') >= 2 {
      CountCharPositive(h, ':');
    }
  }

  /** The number of characters of `s` in `SpecialChars`. */
  function SpecialCount(s: string): (n: nat)
    ensures n <= |s|
  {
    if s == [] then 0
    else SpecialCount(s[..|s| - 1]) + (if s[|s| - 1] in SpecialChars then 1 else 0)
  }

  /** `countSpecialChars`: one pass over the characters, adding one per special character. */
  method CountSpecialChars(value: string) returns (count: nat)
    ensures count == SpecialCount(value)
  {
    count := 0;
    for i := 0 to |value|
      invariant count == SpecialCount(value[..i])
    {
      if value[i] in SpecialChars {
        count := count + 1;
      }
      assert value[..i + 1][..i] == value[..i];
    }
    assert value[..|value|] == value;
  }

  /** The special count is the seven characters' occurrence counts added up. */
  lemma {:induction false} SpecialCountByCharacter(s: string)
    ensures var m := multiset(s);
      SpecialCount(s) == m['?'] + m['&'] + m['%'] + m['='] + m['@'] + m['-'] + m['_']
  {
    if s != [] {
      var init := s[..|s| - 1];
      SpecialCountByCharacter(init);
      assert s == init + [s[|s| - 1]];
      OneMoreCharacter(multiset(init), s[|s| - 1]);
    }
  }

  /** Adding one character to a multiset adds one to the seven-character sum exactly when it is special. */
  lemma OneMoreCharacter(m: multiset<char>, c: char)
    ensures var n := m + multiset{c};
      n['?'] + n['&'] + n['%'] + n['='] + n['@'] + n['-'] + n['_']
      == m['?'] + m['&'] + m['%'] + m['='] + m['@'] + m['-'] + m['_'] + (if c in SpecialChars then 1 else 0)
  {
  }

  /** The keywords of `ks` that occur in `lower`, in the order of `ks`. */
  function KeywordsIn(ks: seq<string>, lower: string): seq<string> {
    if ks == [] then []
    else (if Contains(lower, ks[0]) then [ks[0]] else []) + KeywordsIn(ks[1..], lower)
  }

  /** `PHISHING_KEYWORDS.filter((k) => lower.includes(k))`. */
  function MatchedKeywords(lower: string): seq<string> {
    KeywordsIn(Keywords, lower)
  }

  /** `m` is `ks` with some elements left out and the rest in their order. */
  predicate SubsequenceOf(m: seq<string>, ks: seq<string>)
    decreases |ks|
  {
    m == [] || (ks != [] && ((m[0] == ks[0] && SubsequenceOf(m[1..], ks[1..])) || SubsequenceOf(m, ks[1..])))
  }

  lemma {:induction false} KeywordsInSpec(ks: seq<string>, lower: string)
    ensures forall k :: k in KeywordsIn(ks, lower) <==> k in ks && Contains(lower, k)
    ensures SubsequenceOf(KeywordsIn(ks, lower), ks)
  {
    if ks != [] {
      KeywordsInSpec(ks[1..], lower);
      var m := KeywordsIn(ks, lower);
      var rest := KeywordsIn(ks[1..], lower);
      if Contains(lower, ks[0]) {
        assert m == [ks[0]] + rest;
        assert m[0] == ks[0] && m[1..] == rest;
      } else {
        assert m == rest;
        assert m == [] || SubsequenceOf(m, ks[1..]);
      }
    }
  }

  /**
   * The keywords the phishing rule lists are exactly the phishing keywords
   * that occur as substrings of the input, in the keyword list's order.
   */
  lemma MatchedKeywordsSpec(lower: string)
    ensures forall k :: k in MatchedKeywords(lower) <==> k in Keywords && exists i :: OccursAt(lower, k, i)
    ensures SubsequenceOf(MatchedKeywords(lower), Keywords)
  {
    KeywordsInSpec(Keywords, lower);
    forall k | k in Keywords {
      ContainsAt(lower, k);
    }
  }

  /** `list.map((d) => d.trim().toLowerCase())`. */
  function NormalizeBlacklist(list: seq<string>): seq<string> {
    seq(|list|, i requires 0 <= i < |list| => ToLower(Trim(list[i])))
  }

  /** `url?.hostname?.toLowerCase() ?? ""`. */
  function Hostname(parse: UrlParser, urlString: string): string {
    var url := ParseUrlLoose(parse, urlString);
    if url.Some? then ToLower(url.value.hostname) else ""
  }

  /** `url?.protocol?.toLowerCase() ?? ""`. */
  function Protocol(parse: UrlParser, urlString: string): string {
    var url := ParseUrlLoose(parse, urlString);
    if url.Some? then ToLower(url.value.protocol) else ""
  }

  /**
   * `options?.domainBlacklist ?? DEFAULT_DOMAIN_BLACKLIST`, normalised. The
   * built-in list is already normalised (`DefaultBlacklistNormalized`), so
   * it is used as it stands.
   */
  function Blacklist(domainBlacklist: Option<seq<string>>): seq<string> {
    if domainBlacklist.Some? then NormalizeBlacklist(domainBlacklist.value) else DefaultDomainBlacklist
  }

  /**
   * The values the seven rules read, each computed once as `scoreUrlRisk`
   * computes it: the trimmed input, the keywords it contains, the parsed
   * host and protocol, whether the host is a raw IP, the special count and
   * whether the host is blacklisted.
   */
  datatype Signals = Signals(
    normalized: string,
    matchedKeywords: seq<string>,
    hostname: string,
    protocol: string,
    hostIsRawIp: bool,
    specialCount: nat,
    hostBlacklisted: bool)

  function Gather(parse: UrlParser, urlString: string, domainBlacklist: Option<seq<string>>): Signals {
    var normalized := Trim(urlString);
    var hostname := Hostname(parse, urlString);
    Signals(
      normalized,
      MatchedKeywords(ToLower(normalized)),
      hostname,
      Protocol(parse, urlString),
      IsRawIp(hostname),
      SpecialCount(normalized),
      Includes(Blacklist(domainBlacklist), hostname))
  }

  /** The trigger condition of each rule. */
  predicate Fires(rule: RuleId, sig: Signals) {
    match rule
    case PhishingKeywords => |sig.matchedKeywords| > 0
    case LengthOver100 => |sig.normalized| > 100
    case RawIpHost => sig.hostname != [] && sig.hostIsRawIp
    case SpecialCharsOver4 => sig.specialCount > 4
    case DomainBlacklisted => sig.hostname != [] && sig.hostBlacklisted
    case UsesHttp => sig.protocol == "http:"
    case HttpsLongDomainBonus => sig.protocol == "https:" && |sig.hostname| > 6
  }

  /** The fixed delta of each rule. */
  function Points(rule: RuleId): int {
    match rule
    case PhishingKeywords => 30
    case LengthOver100 => 25
    case RawIpHost => 30
    case SpecialCharsOver4 => 15
    case DomainBlacklisted => 25
    case UsesHttp => 20
    case HttpsLongDomainBonus => -20
  }

  /** The explanation each rule records when it fires. */
  function Detail(rule: RuleId, sig: Signals): string {
    match rule
    case PhishingKeywords => "Matched keywords: " + Join(sig.matchedKeywords, ", ")
    case LengthOver100 => "Length: " + NatToString(|sig.normalized|)
    case RawIpHost => "Hostname is an IP: " + sig.hostname
    case SpecialCharsOver4 => "Special characters count: " + NatToString(sig.specialCount)
    case DomainBlacklisted => "Blacklisted domain: " + sig.hostname
    case UsesHttp => "URL uses http"
    case HttpsLongDomainBonus => "HTTPS + hostname length " + NatToString(|sig.hostname|)
  }

  function Item(rule: RuleId, sig: Signals): BreakdownItem {
    BreakdownItem(rule, Points(rule), Detail(rule, sig))
  }

  /** The breakdown entries of the rules in `rules` that fire, in that order. */
  function Outcomes(rules: seq<RuleId>, sig: Signals): seq<BreakdownItem> {
    if rules == [] then []
    else
      var last := rules[|rules| - 1];
      Outcomes(rules[..|rules| - 1], sig) + (if Fires(last, sig) then [Item(last, sig)] else [])
  }

  /** The rules of `rules` that fire, in that order. */
  function FiredAmong(rules: seq<RuleId>, sig: Signals): seq<RuleId> {
    if rules == [] then []
    else
      var last := rules[|rules| - 1];
      FiredAmong(rules[..|rules| - 1], sig) + (if Fires(last, sig) then [last] else [])
  }

  /** The sum of the deltas of the rules of `rules` that fire. */
  function Delta(rules: seq<RuleId>, sig: Signals): int {
    if rules == [] then 0
    else
      var last := rules[|rules| - 1];
      Delta(rules[..|rules| - 1], sig) + (if Fires(last, sig) then Points(last) else 0)
  }

  function RuleIds(breakdown: seq<BreakdownItem>): seq<RuleId> {
    seq(|breakdown|, i requires 0 <= i < |breakdown| => breakdown[i].rule)
  }

  function TotalPoints(breakdown: seq<BreakdownItem>): int {
    if breakdown == [] then 0
    else TotalPoints(breakdown[..|breakdown| - 1]) + breakdown[|breakdown| - 1].points
  }

  /**
   * The result the seven rules produce from their signals, each part
   * defined on its own: the score from the deltas, the rule list from the
   * trigger conditions, the breakdown from the entries.
   */
  function Judge(sig: Signals): RiskResult {
    var score := Clamp(Delta(RuleOrder, sig), 0, 100);
    RiskResult(score, Classify(score), FiredAmong(RuleOrder, sig), Outcomes(RuleOrder, sig))
  }

  /** What `scoreUrlRisk` returns. */
  function Assess(parse: UrlParser, urlString: string, domainBlacklist: Option<seq<string>>): RiskResult {
    Judge(Gather(parse, urlString, domainBlacklist))
  }

  /** The breakdown's rules are the fired rules, and its points add up to the delta sum. */
  lemma {:induction false} OutcomesInStep(rules: seq<RuleId>, sig: Signals)
    ensures RuleIds(Outcomes(rules, sig)) == FiredAmong(rules, sig)
    ensures TotalPoints(Outcomes(rules, sig)) == Delta(rules, sig)
  {
    if rules != [] {
      var init := rules[..|rules| - 1];
      OutcomesInStep(init, sig);
      var b := Outcomes(rules, sig);
      var last := rules[|rules| - 1];
      if Fires(last, sig) {
        assert b == Outcomes(init, sig) + [Item(last, sig)];
        assert b[..|b| - 1] == Outcomes(init, sig);
        assert b[|b| - 1].points == Points(last);
      } else {
        assert b == Outcomes(init, sig);
      }
    }
  }

  /** A rule is among the fired ones exactly when it is listed and its condition holds. */
  lemma {:induction false} FiredMembership(rules: seq<RuleId>, sig: Signals)
    ensures forall r :: r in FiredAmong(rules, sig) <==> r in rules && Fires(r, sig)
  {
    if rules != [] {
      var init := rules[..|rules| - 1];
      FiredMembership(init, sig);
      assert rules == init + [rules[|rules| - 1]];
    }
  }

  /** The rules of `rules` come in strictly increasing `RuleOrder` position. */
  predicate InRuleOrder(rules: seq<RuleId>) {
    forall i, j :: 0 <= i < j < |rules| ==> Rank(rules[i]) < Rank(rules[j])
  }

  /** Each entry of `b` is the fixed entry of a rule of `rules` that fires. */
  predicate EntriesOf(b: seq<BreakdownItem>, rules: seq<RuleId>, sig: Signals) {
    forall i :: 0 <= i < |b| ==> b[i] == Item(b[i].rule, sig) && Fires(b[i].rule, sig) && b[i].rule in rules
  }

  /** Every entry is the fixed entry of a rule of `rules` that fires, and the entries follow `rules`' order. */
  lemma {:induction false} OutcomesEntries(rules: seq<RuleId>, sig: Signals)
    requires InRuleOrder(rules)
    ensures EntriesOf(Outcomes(rules, sig), rules, sig)
    ensures InRuleOrder(RuleIds(Outcomes(rules, sig)))
  {
    if rules != [] {
      var init := rules[..|rules| - 1];
      var last := rules[|rules| - 1];
      OrderedPrefix(rules);
      OutcomesEntries(init, sig);
      var a := Outcomes(init, sig);
      var b := Outcomes(rules, sig);
      assert b == a + (if Fires(last, sig) then [Item(last, sig)] else []);
      forall i | 0 <= i < |b| ensures b[i] == Item(b[i].rule, sig) && Fires(b[i].rule, sig) && b[i].rule in rules {
        if i < |a| {
          assert b[i] == a[i] && a[i].rule in init;
        }
      }
      var ids := RuleIds(b);
      forall i, j | 0 <= i < j < |ids| ensures Rank(ids[i]) < Rank(ids[j]) {
        if j < |a| {
          assert ids[i] == RuleIds(a)[i] && ids[j] == RuleIds(a)[j];
        } else {
          assert ids[j] == last && a[i].rule in init;
        }
      }
    }
  }

  /** Dropping the last rule of an ordered list leaves it ordered, and every earlier rule ranks below the last. */
  lemma OrderedPrefix(rules: seq<RuleId>)
    requires rules != [] && InRuleOrder(rules)
    ensures InRuleOrder(rules[..|rules| - 1])
    ensures forall r :: r in rules[..|rules| - 1] ==> r in rules && Rank(r) < Rank(rules[|rules| - 1])
  {
    var init := rules[..|rules| - 1];
    forall i, j | 0 <= i < j < |init| ensures Rank(init[i]) < Rank(init[j]) {
      assert init[i] == rules[i] && init[j] == rules[j];
    }
    forall r | r in init ensures r in rules && Rank(r) < Rank(rules[|rules| - 1]) {
      var i :| 0 <= i < |init| && init[i] == r;
      assert rules[i] == r;
    }
  }

  /** `RuleOrder` lists every rule once, each at its own rank. */
  lemma RuleOrderRanks()
    ensures InRuleOrder(RuleOrder)
    ensures forall rule :: rule in RuleOrder
  {
    forall i | 0 <= i < |RuleOrder| ensures Rank(RuleOrder[i]) == i {
    }
    forall rule ensures rule in RuleOrder {
      assert RuleOrder[Rank(rule)] == rule;
    }
  }

  /**
   * The result stays in step with itself: `triggeredRules` is the rule of
   * each breakdown entry, in order; the score is the clamped sum of the
   * entries' points and lies in [0, 100]; the classification is that of
   * the score.
   */
  lemma JudgeInStep(sig: Signals)
    ensures var r := Judge(sig);
      r.triggeredRules == RuleIds(r.breakdown)
      && |r.triggeredRules| == |r.breakdown|
      && r.score == Clamp(TotalPoints(r.breakdown), 0, 100)
      && 0 <= r.score <= 100
      && r.classification == Classify(r.score)
  {
    OutcomesInStep(RuleOrder, sig);
  }

  /**
   * Each breakdown entry carries its rule's fixed delta and explanation,
   * and the rules appear at most once each, in `RuleOrder`.
   */
  lemma JudgeEntries(sig: Signals)
    ensures var r := Judge(sig);
      (forall i :: 0 <= i < |r.breakdown| ==>
        r.breakdown[i].points == Points(r.breakdown[i].rule)
        && r.breakdown[i].detail == Detail(r.breakdown[i].rule, sig))
      && InRuleOrder(r.triggeredRules)
  {
    RuleOrderRanks();
    OutcomesEntries(RuleOrder, sig);
    OutcomesInStep(RuleOrder, sig);
  }

  /** A rule is reported exactly when its trigger condition holds. */
  lemma JudgeFired(sig: Signals)
    ensures forall rule :: rule in Judge(sig).triggeredRules <==> Fires(rule, sig)
  {
    FiredMembership(RuleOrder, sig);
    RuleOrderRanks();
  }

  /** When no trigger condition holds nothing is listed and no delta is added. */
  lemma {:induction false} QuietSignals(rules: seq<RuleId>, sig: Signals)
    requires forall rule :: !Fires(rule, sig)
    ensures Outcomes(rules, sig) == [] && FiredAmong(rules, sig) == [] && Delta(rules, sig) == 0
  {
    if rules != [] {
      QuietSignals(rules[..|rules| - 1], sig);
    }
  }

  /** The trigger condition of each rule, spelled out on the signals. */
  lemma FiresMeaning(sig: Signals)
    ensures Fires(PhishingKeywords, sig) == (|sig.matchedKeywords| > 0)
    ensures Fires(LengthOver100, sig) == (|sig.normalized| > 100)
    ensures Fires(RawIpHost, sig) == (sig.hostname != [] && sig.hostIsRawIp)
    ensures Fires(SpecialCharsOver4, sig) == (sig.specialCount > 4)
    ensures Fires(DomainBlacklisted, sig) == (sig.hostname != [] && sig.hostBlacklisted)
    ensures Fires(UsesHttp, sig) == (sig.protocol == "http:")
    ensures Fires(HttpsLongDomainBonus, sig) == (sig.protocol == "https:" && |sig.hostname| > 6)
  {
  }

  lemma AssessInStep(parse: UrlParser, urlString: string, domainBlacklist: Option<seq<string>>)
    ensures var r := Assess(parse, urlString, domainBlacklist);
      r.triggeredRules == RuleIds(r.breakdown)
      && r.score == Clamp(TotalPoints(r.breakdown), 0, 100)
      && 0 <= r.score <= 100
      && r.classification == Classify(r.score)
  {
    JudgeInStep(Gather(parse, urlString, domainBlacklist));
  }

  lemma AssessEntries(parse: UrlParser, urlString: string, domainBlacklist: Option<seq<string>>)
    ensures var sig := Gather(parse, urlString, domainBlacklist);
      var r := Assess(parse, urlString, domainBlacklist);
      (forall i :: 0 <= i < |r.breakdown| ==>
        r.breakdown[i].points == Points(r.breakdown[i].rule)
        && r.breakdown[i].detail == Detail(r.breakdown[i].rule, sig))
      && InRuleOrder(r.triggeredRules)
  {
    JudgeEntries(Gather(parse, urlString, domainBlacklist));
  }

  /** The phishing rule fires exactly when some keyword occurs in the lower-cased input. */
  lemma KeywordRule(lower: string)
    ensures |MatchedKeywords(lower)| > 0 <==> exists k :: k in Keywords && Contains(lower, k)
  {
    var m := MatchedKeywords(lower);
    KeywordsInSpec(Keywords, lower);
    if exists k :: k in Keywords && Contains(lower, k) {
      var k :| k in Keywords && Contains(lower, k);
      assert k in m;
    }
    if |m| > 0 {
      assert m[0] in m;
    }
  }

  /** The signals, field by field, in the terms `scoreUrlRisk` computes them in. */
  lemma GatherFields(parse: UrlParser, urlString: string, domainBlacklist: Option<seq<string>>)
    ensures var sig := Gather(parse, urlString, domainBlacklist);
      var host := Hostname(parse, urlString);
      sig.normalized == Trim(urlString)
      && sig.matchedKeywords == MatchedKeywords(ToLower(Trim(urlString)))
      && sig.hostname == host
      && sig.protocol == Protocol(parse, urlString)
      && sig.hostIsRawIp == IsRawIp(host)
      && sig.specialCount == SpecialCount(Trim(urlString))
      && sig.hostBlacklisted == Includes(Blacklist(domainBlacklist), host)
  {
  }

  /** The phishing rule's condition in the source's terms. */
  lemma KeywordCondition(parse: UrlParser, urlString: string, domainBlacklist: Option<seq<string>>)
    ensures Fires(PhishingKeywords, Gather(parse, urlString, domainBlacklist))
      <==> exists k :: k in Keywords && Contains(ToLower(Trim(urlString)), k)
  {
    GatherFields(parse, urlString, domainBlacklist);
    FiresMeaning(Gather(parse, urlString, domainBlacklist));
    KeywordRule(ToLower(Trim(urlString)));
  }

  /** The blacklist rule's condition in the source's terms. */
  lemma BlacklistCondition(parse: UrlParser, urlString: string, domainBlacklist: Option<seq<string>>)
    ensures var host := Hostname(parse, urlString);
      Fires(DomainBlacklisted, Gather(parse, urlString, domainBlacklist))
      <==> host != [] && host in Blacklist(domainBlacklist)
  {
    GatherFields(parse, urlString, domainBlacklist);
    FiresMeaning(Gather(parse, urlString, domainBlacklist));
    IncludesIn(Blacklist(domainBlacklist), Hostname(parse, urlString));
  }

  /** The trimmed input's rules (length, special characters) in the source's terms. */
  lemma TextConditions(parse: UrlParser, urlString: string, domainBlacklist: Option<seq<string>>)
    ensures var sig := Gather(parse, urlString, domainBlacklist);
      (Fires(LengthOver100, sig) <==> |Trim(urlString)| > 100)
      && (Fires(SpecialCharsOver4, sig) <==> SpecialCount(Trim(urlString)) > 4)
  {
    GatherFields(parse, urlString, domainBlacklist);
    FiresMeaning(Gather(parse, urlString, domainBlacklist));
  }

  /** The raw-IP rule's condition in the source's terms. */
  lemma RawIpCondition(parse: UrlParser, urlString: string, domainBlacklist: Option<seq<string>>)
    ensures var host := Hostname(parse, urlString);
      Fires(RawIpHost, Gather(parse, urlString, domainBlacklist)) <==> host != [] && IsRawIp(host)
  {
    GatherFields(parse, urlString, domainBlacklist);
    FiresMeaning(Gather(parse, urlString, domainBlacklist));
  }

  lemma ProtocolSignals(sig: Signals, protocol: string, host: string)
    requires sig.protocol == protocol && sig.hostname == host
    ensures Fires(UsesHttp, sig) <==> protocol == "http:"
    ensures Fires(HttpsLongDomainBonus, sig) <==> protocol == "https:" && |host| > 6
  {
  }

  /** The two protocol rules' conditions in the source's terms. */
  lemma ProtocolConditions(parse: UrlParser, urlString: string, domainBlacklist: Option<seq<string>>)
    ensures var sig := Gather(parse, urlString, domainBlacklist);
      var protocol := Protocol(parse, urlString);
      (Fires(UsesHttp, sig) <==> protocol == "http:")
      && (Fires(HttpsLongDomainBonus, sig) <==> protocol == "https:" && |Hostname(parse, urlString)| > 6)
  {
    GatherFields(parse, urlString, domainBlacklist);
    ProtocolSignals(Gather(parse, urlString, domainBlacklist), Protocol(parse, urlString), Hostname(parse, urlString));
  }

  /**
   * The trigger condition of every rule, in the source's terms: the trimmed
   * input, its lower-cased form, and the lower-cased host and protocol of
   * the loose parse.
   */
  lemma SignalConditions(parse: UrlParser, urlString: string, domainBlacklist: Option<seq<string>>)
    ensures var sig := Gather(parse, urlString, domainBlacklist);
      var normalized := Trim(urlString);
      var host := Hostname(parse, urlString);
      var protocol := Protocol(parse, urlString);
      (Fires(PhishingKeywords, sig) <==> exists k :: k in Keywords && Contains(ToLower(normalized), k))
      && (Fires(LengthOver100, sig) <==> |normalized| > 100)
      && (Fires(RawIpHost, sig) <==> host != [] && IsRawIp(host))
      && (Fires(SpecialCharsOver4, sig) <==> SpecialCount(normalized) > 4)
      && (Fires(DomainBlacklisted, sig) <==> host != [] && host in Blacklist(domainBlacklist))
      && (Fires(UsesHttp, sig) <==> protocol == "http:")
      && (Fires(HttpsLongDomainBonus, sig) <==> protocol == "https:" && |host| > 6)
  {
    KeywordCondition(parse, urlString, domainBlacklist);
    TextConditions(parse, urlString, domainBlacklist);
    RawIpCondition(parse, urlString, domainBlacklist);
    ProtocolConditions(parse, urlString, domainBlacklist);
    BlacklistCondition(parse, urlString, domainBlacklist);
  }

  /**
   * A rule is listed exactly when its condition holds on the input, and
   * `uses_http` and `https_long_domain_bonus` never both fire.
   */
  lemma TriggerConditions(parse: UrlParser, urlString: string, domainBlacklist: Option<seq<string>>)
    ensures var fired := Assess(parse, urlString, domainBlacklist).triggeredRules;
      var normalized := Trim(urlString);
      var host := Hostname(parse, urlString);
      var protocol := Protocol(parse, urlString);
      (PhishingKeywords in fired <==> exists k :: k in Keywords && Contains(ToLower(normalized), k))
      && (LengthOver100 in fired <==> |normalized| > 100)
      && (RawIpHost in fired <==> host != [] && IsRawIp(host))
      && (SpecialCharsOver4 in fired <==> SpecialCount(normalized) > 4)
      && (DomainBlacklisted in fired <==> host != [] && host in Blacklist(domainBlacklist))
      && (UsesHttp in fired <==> protocol == "http:")
      && (HttpsLongDomainBonus in fired <==> protocol == "https:" && |host| > 6)
      && !(UsesHttp in fired && HttpsLongDomainBonus in fired)
  {
    JudgeFired(Gather(parse, urlString, domainBlacklist));
    SignalConditions(parse, urlString, domainBlacklist);
  }

  /** Input the loose parse rejects has host "" and protocol "". */
  lemma UnparsedSignals(parse: UrlParser, urlString: string, domainBlacklist: Option<seq<string>>)
    requires ParseUrlLoose(parse, urlString) == None
    ensures Gather(parse, urlString, domainBlacklist).hostname == []
    ensures Gather(parse, urlString, domainBlacklist).protocol == []
  {
  }

  /** Input the loose parse rejects (blank input included) can fire only the three string rules. */
  lemma UnparsedInput(parse: UrlParser, urlString: string, domainBlacklist: Option<seq<string>>)
    requires ParseUrlLoose(parse, urlString) == None
    ensures var fired := Assess(parse, urlString, domainBlacklist).triggeredRules;
      forall r :: r in fired ==> r in [PhishingKeywords, LengthOver100, SpecialCharsOver4]
  {
    var sig := Gather(parse, urlString, domainBlacklist);
    UnparsedSignals(parse, urlString, domainBlacklist);
    FiresMeaning(sig);
    JudgeFired(sig);
  }

  lemma {:induction false} KeywordsInEmpty(ks: seq<string>)
    requires forall i :: 0 <= i < |ks| ==> ks[i] != []
    ensures KeywordsIn(ks, []) == []
  {
    if ks != [] {
      KeywordsInEmpty(ks[1..]);
    }
  }

  /** Blank input has empty signals throughout. */
  lemma BlankSignals(parse: UrlParser, urlString: string, domainBlacklist: Option<seq<string>>)
    requires Trim(urlString) == []
    ensures var sig := Gather(parse, urlString, domainBlacklist);
      sig.normalized == [] && sig.matchedKeywords == [] && sig.specialCount == 0
      && sig.hostname == [] && sig.protocol == []
  {
    GatherFields(parse, urlString, domainBlacklist);
    BlankText(Trim(urlString));
    BlankHost(parse, urlString);
  }

  lemma BlankText(normalized: string)
    requires normalized == []
    ensures MatchedKeywords(ToLower(normalized)) == [] && SpecialCount(normalized) == 0
  {
    KeywordsInEmpty(Keywords);
    assert ToLower(normalized) == [];
  }

  lemma BlankHost(parse: UrlParser, urlString: string)
    requires Trim(urlString) == []
    ensures Hostname(parse, urlString) == [] && Protocol(parse, urlString) == []
  {
    assert ParseUrlLoose(parse, urlString) == None;
  }

  /** Blank or whitespace-only input scores 0, Safe, with no rule fired. */
  lemma BlankInputIsSafe(parse: UrlParser, urlString: string, domainBlacklist: Option<seq<string>>)
    requires forall i :: 0 <= i < |urlString| ==> IsSpace(urlString[i])
    ensures Assess(parse, urlString, domainBlacklist) == RiskResult(0, Safe, [], [])
  {
    TrimSpec(urlString);
    var sig := Gather(parse, urlString, domainBlacklist);
    BlankSignals(parse, urlString, domainBlacklist);
    FiresMeaning(sig);
    QuietSignals(RuleOrder, sig);
  }

  /** A string with no whitespace at its ends and no upper-case letter is its own normal form. */
  lemma NormalEntry(d: string)
    requires d != [] && !IsSpace(d[0]) && !IsSpace(d[|d| - 1])
    requires forall i :: 0 <= i < |d| ==> !IsUpper(d[i])
    ensures ToLower(Trim(d)) == d
  {
    TrimUntouched(d);
    ToLowerWithoutUpper(d);
  }

  lemma FirstDefaultEntry()
    ensures ToLower(Trim("example-phish.com")) == "example-phish.com"
  {
    NormalEntry("example-phish.com");
  }

  lemma SecondDefaultEntry()
    ensures ToLower(Trim("badactor.net")) == "badactor.net"
  {
    NormalEntry("badactor.net");
  }

  lemma ThirdDefaultEntry()
    ensures ToLower(Trim("malware-test.invalid")) == "malware-test.invalid"
  {
    NormalEntry("malware-test.invalid");
  }

  /** The built-in blacklist is already trimmed and lower case. */
  lemma DefaultBlacklistNormalized()
    ensures NormalizeBlacklist(DefaultDomainBlacklist) == DefaultDomainBlacklist
  {
    var d := DefaultDomainBlacklist;
    var n := NormalizeBlacklist(d);
    assert |n| == |d| == 3;
    assert n[0] == d[0] by { FirstDefaultEntry(); }
    assert n[1] == d[1] by { SecondDefaultEntry(); }
    assert n[2] == d[2] by { ThirdDefaultEntry(); }
  }

  /** `Blacklist` is the normalised form of the list the options select. */
  lemma BlacklistNormalizes(domainBlacklist: Option<seq<string>>)
    ensures Blacklist(domainBlacklist) ==
      NormalizeBlacklist(if domainBlacklist.Some? then domainBlacklist.value else DefaultDomainBlacklist)
  {
    DefaultBlacklistNormalized();
  }

  /** Leaving the blacklist option out scores the same as passing the built-in list. */
  lemma OmittedBlacklistIsDefault(parse: UrlParser, urlString: string)
    ensures Assess(parse, urlString, None) == Assess(parse, urlString, Some(DefaultDomainBlacklist))
  {
    DefaultBlacklistNormalized();
  }

  /** The loose parse trims its input first, so trimming before it changes nothing. */
  lemma ParseTrimmed(parse: UrlParser, urlString: string)
    ensures ParseUrlLoose(parse, Trim(urlString)) == ParseUrlLoose(parse, urlString)
  {
    TrimIdempotent(urlString);
  }

  /** Scoring the trimmed input gives the same result as scoring the input. */
  lemma TrimmedInputScoresTheSame(parse: UrlParser, urlString: string, domainBlacklist: Option<seq<string>>)
    ensures Assess(parse, Trim(urlString), domainBlacklist) == Assess(parse, urlString, domainBlacklist)
  {
    TrimIdempotent(urlString);
    ParseTrimmed(parse, urlString);
    assert Gather(parse, Trim(urlString), domainBlacklist) == Gather(parse, urlString, domainBlacklist);
  }

  /** The explanation of each rule, spelled out on the signals. */
  lemma ItemMeaning(sig: Signals)
    ensures Item(PhishingKeywords, sig) ==
      BreakdownItem(PhishingKeywords, 30, "Matched keywords: " + Join(sig.matchedKeywords, ", "))
    ensures Item(LengthOver100, sig) == BreakdownItem(LengthOver100, 25, "Length: " + NatToString(|sig.normalized|))
    ensures Item(RawIpHost, sig) == BreakdownItem(RawIpHost, 30, "Hostname is an IP: " + sig.hostname)
    ensures Item(SpecialCharsOver4, sig) ==
      BreakdownItem(SpecialCharsOver4, 15, "Special characters count: " + NatToString(sig.specialCount))
    ensures Item(DomainBlacklisted, sig) == BreakdownItem(DomainBlacklisted, 25, "Blacklisted domain: " + sig.hostname)
    ensures Item(UsesHttp, sig) == BreakdownItem(UsesHttp, 20, "URL uses http")
    ensures Item(HttpsLongDomainBonus, sig) ==
      BreakdownItem(HttpsLongDomainBonus, -20, "HTTPS + hostname length " + NatToString(|sig.hostname|))
  {
  }

  /** The running state of `scoreUrlRisk`: the score so far and the two lists built so far. */
  datatype Tally = Tally(score: int, triggeredRules: seq<RuleId>, breakdown: seq<BreakdownItem>)

  /** One rule block: when the rule fires, its delta is added and it is appended to both lists. */
  function Evaluate(t: Tally, rule: RuleId, sig: Signals): Tally {
    if Fires(rule, sig) then Tally(t.score + Points(rule), t.triggeredRules + [rule], t.breakdown + [Item(rule, sig)])
    else t
  }

  /** The tally of some rules, extended by one more rule block, is the tally of the longer list. */
  lemma EvaluateExtends(rules: seq<RuleId>, rule: RuleId, sig: Signals)
    ensures Evaluate(Tally(Delta(rules, sig), FiredAmong(rules, sig), Outcomes(rules, sig)), rule, sig)
      == Tally(Delta(rules + [rule], sig), FiredAmong(rules + [rule], sig), Outcomes(rules + [rule], sig))
  {
    assert (rules + [rule])[..|rules|] == rules;
  }

  /** The seven rule blocks run in `RuleOrder` produce the three parts of `Judge`. */
  lemma RuleBlocks(sig: Signals)
    ensures Evaluate(Evaluate(Evaluate(Evaluate(Evaluate(Evaluate(Evaluate(Tally(0, [], []), PhishingKeywords, sig), LengthOver100, sig), RawIpHost, sig), SpecialCharsOver4, sig), DomainBlacklisted, sig), UsesHttp, sig), HttpsLongDomainBonus, sig)
      == Tally(Delta(RuleOrder, sig), FiredAmong(RuleOrder, sig), Outcomes(RuleOrder, sig))
  {
    var done: seq<RuleId> := [];
    EvaluateExtends(done, PhishingKeywords, sig);
    done := done + [PhishingKeywords];
    EvaluateExtends(done, LengthOver100, sig);
    done := done + [LengthOver100];
    EvaluateExtends(done, RawIpHost, sig);
    done := done + [RawIpHost];
    EvaluateExtends(done, SpecialCharsOver4, sig);
    done := done + [SpecialCharsOver4];
    EvaluateExtends(done, DomainBlacklisted, sig);
    done := done + [DomainBlacklisted];
    EvaluateExtends(done, UsesHttp, sig);
    done := done + [UsesHttp];
    EvaluateExtends(done, HttpsLongDomainBonus, sig);
    done := done + [HttpsLongDomainBonus];
    assert done == RuleOrder;
  }

  /**
   * The seven rule blocks of `scoreUrlRisk` and its final clamp, run on the
   * signals: a running score and two lists, each block adding its delta and
   * appending to both lists when its condition holds.
   */
  method ApplyRules(sig: Signals) returns (r: RiskResult)
    ensures r == Judge(sig)
  {
    FiresMeaning(sig);
    ItemMeaning(sig);
    var breakdown: seq<BreakdownItem> := [];
    var triggeredRules: seq<RuleId> := [];
    var score := 0;
    ghost var t := Tally(0, [], []);

    if |sig.matchedKeywords| > 0 {
      score := score + 30;
      triggeredRules := triggeredRules + [PhishingKeywords];
      breakdown := breakdown + [BreakdownItem(PhishingKeywords, 30, "Matched keywords: " + Join(sig.matchedKeywords, ", "))];
    }
    t := Evaluate(t, PhishingKeywords, sig);
    assert Tally(score, triggeredRules, breakdown) == t;

    if |sig.normalized| > 100 {
      score := score + 25;
      triggeredRules := triggeredRules + [LengthOver100];
      breakdown := breakdown + [BreakdownItem(LengthOver100, 25, "Length: " + NatToString(|sig.normalized|))];
    }
    t := Evaluate(t, LengthOver100, sig);
    assert Tally(score, triggeredRules, breakdown) == t;

    var isHttps := sig.protocol == "https:";
    var isHttp := sig.protocol == "http:";

    if sig.hostname != [] && sig.hostIsRawIp {
      score := score + 30;
      triggeredRules := triggeredRules + [RawIpHost];
      breakdown := breakdown + [BreakdownItem(RawIpHost, 30, "Hostname is an IP: " + sig.hostname)];
    }
    t := Evaluate(t, RawIpHost, sig);
    assert Tally(score, triggeredRules, breakdown) == t;

    if sig.specialCount > 4 {
      score := score + 15;
      triggeredRules := triggeredRules + [SpecialCharsOver4];
      breakdown := breakdown + [BreakdownItem(SpecialCharsOver4, 15, "Special characters count: " + NatToString(sig.specialCount))];
    }
    t := Evaluate(t, SpecialCharsOver4, sig);
    assert Tally(score, triggeredRules, breakdown) == t;

    if sig.hostname != [] && sig.hostBlacklisted {
      score := score + 25;
      triggeredRules := triggeredRules + [DomainBlacklisted];
      breakdown := breakdown + [BreakdownItem(DomainBlacklisted, 25, "Blacklisted domain: " + sig.hostname)];
    }
    t := Evaluate(t, DomainBlacklisted, sig);
    assert Tally(score, triggeredRules, breakdown) == t;

    if isHttp {
      score := score + 20;
      triggeredRules := triggeredRules + [UsesHttp];
      breakdown := breakdown + [BreakdownItem(UsesHttp, 20, "URL uses http")];
    }
    t := Evaluate(t, UsesHttp, sig);
    assert Tally(score, triggeredRules, breakdown) == t;

    if isHttps && |sig.hostname| > 6 {
      score := score - 20;
      triggeredRules := triggeredRules + [HttpsLongDomainBonus];
      breakdown := breakdown + [BreakdownItem(HttpsLongDomainBonus, -20, "HTTPS + hostname length " + NatToString(|sig.hostname|))];
    }
    t := Evaluate(t, HttpsLongDomainBonus, sig);
    assert Tally(score, triggeredRules, breakdown) == t;

    RuleBlocks(sig);
    var finalScore := Clamp(score, 0, 100);
    r := RiskResult(finalScore, Classify(finalScore), triggeredRules, breakdown);
  }

  /**
   * `scoreUrlRisk`: the blacklist, the loosely parsed URL, the trimmed input
   * and its lower-case form, the matched keywords, host and protocol, and the
   * special count, then the rule blocks on them.
   */
  method ScoreUrlRisk(parse: UrlParser, urlString: string, domainBlacklist: Option<seq<string>>)
    returns (r: RiskResult)
    ensures r == Assess(parse, urlString, domainBlacklist)
  {
    var blacklist := NormalizeBlacklist(if domainBlacklist.Some? then domainBlacklist.value else DefaultDomainBlacklist);
    BlacklistNormalizes(domainBlacklist);
    var url := ParseUrlLoose(parse, urlString);
    var normalized := Trim(urlString);
    var normalizedLower := ToLower(normalized);
    var matchedKeywords := MatchedKeywords(normalizedLower);
    var hostname := if url.Some? then ToLower(url.value.hostname) else "";
    var protocol := if url.Some? then ToLower(url.value.protocol) else "";
    var specialCount := CountSpecialChars(normalized);
    var sig := Signals(normalized, matchedKeywords, hostname, protocol, IsRawIp(hostname), specialCount,
      Includes(blacklist, hostname));
    GatherFields(parse, urlString, domainBlacklist);
    r := ApplyRules(sig);
  }
}
