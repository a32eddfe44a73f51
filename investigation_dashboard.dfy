/**
 * The investigation dashboard: the placeholder domain analysis, the
 * file-name sanitiser, and the component state that running an analysis
 * and generating a report change.
 *
 * Dates are not modelled: the analysis leaves out its Created and Expires
 * fields, and a report takes its ISO timestamp, id and object URL as
 * parameters.
 */
module InvestigationDashboard {
  import opened Wrappers
  import opened JsText

  datatype RiskScore = Low | Medium | High

  /** The analysis shown for a domain, without the two date fields. */
  datatype AnalysisResult = AnalysisResult(
    riskScore: RiskScore,
    fqdn: string,
    registrar: string,
    whoisPrivacy: string,
    nameServers: string,
    hostingProvider: string,
    asn: string,
    geo: string,
    tls: string,
    dnssec: string,
    passiveDns: string,
    openPorts: string)

  const NewDomainSuffixes: seq<string> := ["xyz", "top", "click", "icu"]

  const SuspiciousTerms: seq<string> := ["secure", "verify", "login", "account", "support"]

  /** `/(xyz|top|click|icu)$/.test(d)`. */
  predicate LooksNew(d: string) {
    EndsWith(d, "xyz") || EndsWith(d, "top") || EndsWith(d, "click") || EndsWith(d, "icu")
  }

  /** `/(secure|verify|login|account|support)/.test(d)`. */
  predicate HasSuspiciousTerm(d: string) {
    Contains(d, "secure") || Contains(d, "verify") || Contains(d, "login") || Contains(d, "account")
    || Contains(d, "support")
  }

  /** Three or more dots. */
  predicate HasManySubdomains(d: string) {
    CountChar(d, '.') >= 3
  }

  /** The tier of the trimmed, lower-cased domain. */
  function Tier(d: string): RiskScore {
    if HasSuspiciousTerm(d) || LooksNew(d) then High
    else if HasManySubdomains(d) then Medium
    else Low
  }

  /** `pseudoAnalyze`: the analysis of the trimmed, lower-cased domain. */
  function PseudoAnalyze(domain: string): AnalysisResult {
    Analysis(ToLower(Trim(domain)))
  }

  /** The fields `pseudoAnalyze` fills in from the flags of the normalised domain `d`. */
  function Analysis(d: string): AnalysisResult {
    var looksNew := LooksNew(d);
    var score := Tier(d);
    AnalysisResult(
      score,
      d,
      if looksNew then "Unknown / privacy-forward" else "Commercial registrar",
      if looksNew then "Enabled" else "Unknown",
      if looksNew then "ns1.provider.example" else "ns1.enterprise.example",
      if looksNew then "Budget VPS" else "Major cloud",
      if looksNew then "AS20473" else "AS15169",
      if looksNew then "Mixed" else "US",
      if score == High then "Self-signed / misconfigured" else "Valid",
      if score == Low then "Enabled" else "Unknown",
      if score == High then "Frequent changes" else "Stable",
      if score == High then "80, 443, 8080" else "80, 443")
  }

  /**
   * The tier in terms of the domain: HIGH exactly when it contains a
   * suspicious term or ends with a new-domain suffix, MEDIUM exactly when
   * neither holds and it has three or more dots, LOW otherwise.
   */
  lemma TierSpec(domain: string)
    ensures var d := ToLower(Trim(domain));
      var tier := PseudoAnalyze(domain).riskScore;
      var flagged := (exists t :: t in SuspiciousTerms && Contains(d, t))
        || (exists s :: s in NewDomainSuffixes && EndsWith(d, s));
      (tier == High <==> flagged)
      && (tier == Medium <==> !flagged && CountChar(d, '.') >= 3)
      && (tier == Low <==> !flagged && CountChar(d, '.') < 3)
  {
    var d := ToLower(Trim(domain));
    SuspiciousTermSpec(d);
    LooksNewSpec(d);
  }

  lemma SuspiciousTermSpec(d: string)
    ensures HasSuspiciousTerm(d) <==> exists t :: t in SuspiciousTerms && Contains(d, t)
  {
    if exists t :: t in SuspiciousTerms && Contains(d, t) {
      var t :| t in SuspiciousTerms && Contains(d, t);
      assert t == "secure" || t == "verify" || t == "login" || t == "account" || t == "support";
    }
    if Contains(d, "secure") { assert "secure" in SuspiciousTerms; }
    if Contains(d, "verify") { assert "verify" in SuspiciousTerms; }
    if Contains(d, "login") { assert "login" in SuspiciousTerms; }
    if Contains(d, "account") { assert "account" in SuspiciousTerms; }
    if Contains(d, "support") { assert "support" in SuspiciousTerms; }
  }

  lemma LooksNewSpec(d: string)
    ensures LooksNew(d) <==> exists s :: s in NewDomainSuffixes && EndsWith(d, s)
  {
    if exists s :: s in NewDomainSuffixes && EndsWith(d, s) {
      var s :| s in NewDomainSuffixes && EndsWith(d, s);
      assert s == "xyz" || s == "top" || s == "click" || s == "icu";
    }
    if EndsWith(d, "xyz") { assert "xyz" in NewDomainSuffixes; }
    if EndsWith(d, "top") { assert "top" in NewDomainSuffixes; }
    if EndsWith(d, "click") { assert "click" in NewDomainSuffixes; }
    if EndsWith(d, "icu") { assert "icu" in NewDomainSuffixes; }
  }

  /**
   * The FQDN is the trimmed, lower-cased input; the four hosting fields
   * that follow the tier show the HIGH values exactly on HIGH, and DNSSEC
   * is "Enabled" exactly on LOW.
   */
  lemma AnalysisFields(domain: string)
    ensures var r := PseudoAnalyze(domain);
      r.fqdn == ToLower(Trim(domain))
      && (r.tls == "Self-signed / misconfigured" <==> r.riskScore == High)
      && (r.passiveDns == "Frequent changes" <==> r.riskScore == High)
      && (r.openPorts == "80, 443, 8080" <==> r.riskScore == High)
      && (r.dnssec == "Enabled" <==> r.riskScore == Low)
  {
    var r := PseudoAnalyze(domain);
    assert "Valid" != "Self-signed / misconfigured";
    assert "Stable" != "Frequent changes";
    assert "80, 443" != "80, 443, 8080";
    assert "Unknown" != "Enabled";
  }

  /** The analysis depends on the domain only through its trimmed, lower-cased form. */
  lemma AnalysisOfNormalized(domain: string)
    ensures PseudoAnalyze(ToLower(Trim(domain))) == PseudoAnalyze(domain)
  {
    var d := ToLower(Trim(domain));
    TrimSpec(domain);
    TrimLowered(Trim(domain));
    TrimIdempotent(domain);
    assert ToLower(d) == d;
  }

  /** Lower-casing a trimmed string leaves it trimmed. */
  lemma TrimLowered(t: string)
    requires Trim(t) == t
    ensures Trim(ToLower(t)) == ToLower(t)
  {
    TrimSpec(t);
    TrimUntouched(ToLower(t));
  }

  /** The characters `safeFileSegment` keeps: `[a-z0-9-_.]`. */
  predicate IsSegmentChar(c: char) {
    IsLower(c) || IsDigit(c) || c == '-' || c == '_' || c == '.'
  }

  /** The class `[^a-z0-9-_\.]`. */
  predicate IsUnsafe(c: char) {
    !IsSegmentChar(c)
  }

  predicate IsDash(c: char) {
    c == '-'
  }

  /**
   * `safeFileSegment`: trim, lower-case, each run of other characters to
   * '-', each run of '-' to one, at most 80 characters.
   */
  function SafeFileSegment(input: string): (r: string)
    ensures |r| <= 80
  {
    var lowered := ToLower(Trim(input));
    var dashed := ReplaceRuns(lowered, IsUnsafe, "-");
    var single := ReplaceRuns(dashed, IsDash, "-");
    Take(single, 80)
  }

  /** A file segment has only characters of `[a-z0-9-_.]` and never two '-' in a row. */
  lemma SafeFileSegmentShape(input: string)
    ensures var r := SafeFileSegment(input);
      (forall i :: 0 <= i < |r| ==> IsSegmentChar(r[i])) && NoTwoAdjacent(r, IsDash)
  {
    var lowered := ToLower(Trim(input));
    var dashed := ReplaceRuns(lowered, IsUnsafe, "-");
    var single := ReplaceRuns(dashed, IsDash, "-");
    var r := Take(single, 80);
    ReplaceRunsChars(lowered, IsUnsafe, "-");
    ReplaceRunsChars(dashed, IsDash, "-");
    ReplaceRunsSeparates(dashed, IsDash, '-');
    forall i | 0 <= i < |r| ensures IsSegmentChar(r[i]) {
      assert r[i] == single[i];
      assert single[i] in single;
    }
    forall i | 0 <= i < |r| - 1 ensures !(IsDash(r[i]) && IsDash(r[i + 1])) {
      assert r[i] == single[i] && r[i + 1] == single[i + 1];
    }
  }

  /** Sanitising a file segment again leaves it as it is. */
  lemma SafeFileSegmentIdempotent(input: string)
    ensures SafeFileSegment(SafeFileSegment(input)) == SafeFileSegment(input)
  {
    var r := SafeFileSegment(input);
    SafeFileSegmentShape(input);
    TrimUntouched(r);
    ToLowerWithoutUpper(r);
    ReplaceRunsNoMatch(r, IsUnsafe, "-");
    ReplaceRunsSingletons(r, IsDash, '-');
  }

  /**
   * The report's file name: "case-", the case id's segment ("draft" when
   * the id is empty), '-', the domain's segment, '-', the timestamp without
   * its colons cut to 15 characters, ".pdf".
   */
  function ReportFileName(caseId: string, domain: string, timestampIso: string): string {
    var stamp := Take(RemoveChar(timestampIso, ':'), 15);
    "case-" + SafeFileSegment(if caseId == [] then "draft" else caseId) + "-" + SafeFileSegment(domain) + "-"
      + stamp + ".pdf"
  }

  /** The file name starts with "case-", ends with ".pdf", has no ':' and at most 186 characters. */
  lemma ReportFileNameShape(caseId: string, domain: string, timestampIso: string)
    ensures var name := ReportFileName(caseId, domain, timestampIso);
      StartsWith(name, "case-") && EndsWith(name, ".pdf") && ':' !in name && |name| <= 186
  {
    var a := SafeFileSegment(if caseId == [] then "draft" else caseId);
    var b := SafeFileSegment(domain);
    var stamp := Take(RemoveChar(timestampIso, ':'), 15);
    NoColonInSegment(if caseId == [] then "draft" else caseId);
    NoColonInSegment(domain);
    assert ':' !in stamp by {
      assert stamp == RemoveChar(timestampIso, ':')[..|stamp|];
    }
    FramedName(a, b, stamp);
  }

  lemma NoColonInSegment(input: string)
    ensures ':' !in SafeFileSegment(input)
  {
    SafeFileSegmentShape(input);
  }

  /** The frame around the three parts adds "case-", two '-' and ".pdf", and no ':'. */
  lemma FramedName(a: string, b: string, stamp: string)
    requires ':' !in a && ':' !in b && ':' !in stamp
    ensures var name := "case-" + a + "-" + b + "-" + stamp + ".pdf";
      StartsWith(name, "case-") && EndsWith(name, ".pdf") && ':' !in name
      && |name| == |a| + |b| + |stamp| + 11
  {
    var name := "case-" + a + "-" + b + "-" + stamp + ".pdf";
    assert name[..5] == "case-";
    assert name[|name| - 4..] == ".pdf";
  }

  /** A generated report as the downloads list shows it. */
  datatype ReportItem = ReportItem(id: string, fileName: string, createdAtIso: string, url: string)

  /** The dashboard component's state. */
  class Dashboard {
    var domain: string
    var analystName: string
    var caseId: string
    var error: Option<string>
    var isAnalyzing: bool
    var result: Option<AnalysisResult>
    var reports: seq<ReportItem>

    constructor ()
      ensures domain == [] && analystName == [] && caseId == []
      ensures error == None && !isAnalyzing && result == None && reports == []
    {
      domain, analystName, caseId := [], [], [];
      error, isAnalyzing, result, reports := None, false, None, [];
    }

    /**
     * `runAnalysis`: a blank domain sets the error and clears the result;
     * any other domain clears the error and shows the analysis of the
     * trimmed domain. The wait in between is not modelled.
     */
    method RunAnalysis()
      modifies this
      ensures Trim(old(domain)) == [] ==>
        error == Some("Enter a domain to analyze.") && result == None && isAnalyzing == old(isAnalyzing)
      ensures Trim(old(domain)) != [] ==>
        error == None && result == Some(PseudoAnalyze(Trim(old(domain)))) && !isAnalyzing
      ensures domain == old(domain) && analystName == old(analystName) && caseId == old(caseId)
      ensures reports == old(reports)
    {
      var cleaned := Trim(domain);
      if cleaned == [] {
        error := Some("Enter a domain to analyze.");
        result := None;
        return;
      }
      ShowAnalysis(cleaned);
    }

    /** The rest of `runAnalysis` once the domain is known not to be blank. */
    method ShowAnalysis(cleaned: string)
      modifies this
      ensures error == None && result == Some(PseudoAnalyze(cleaned)) && !isAnalyzing
      ensures domain == old(domain) && analystName == old(analystName) && caseId == old(caseId)
      ensures reports == old(reports)
    {
      error := None;
      isAnalyzing := true;
      result := None;
      result := Some(PseudoAnalyze(cleaned));
      isAnalyzing := false;
    }

    /**
     * `onGeneratePdf`: nothing without a result. Otherwise the PDF is
     * generated; `pdf` is the object URL of the generated file, or `None`
     * when generation fails, in which case the handler stops before the
     * list changes. On success the new report, named from the case id, the
     * domain and the timestamp, goes in front of the earlier ones. The
     * PDF's contents are not modelled.
     */
    method GeneratePdf(id: string, timestampIso: string, pdf: Option<string>)
      modifies this
      ensures old(result) == None || pdf == None ==> reports == old(reports)
      ensures old(result).Some? && pdf.Some? ==>
        reports == [ReportItem(id, ReportFileName(old(caseId), old(domain), timestampIso), timestampIso, pdf.value)]
          + old(reports)
      ensures |reports| <= |old(reports)| + 1 && reports[|reports| - |old(reports)|..] == old(reports)
      ensures domain == old(domain) && analystName == old(analystName) && caseId == old(caseId)
      ensures error == old(error) && isAnalyzing == old(isAnalyzing) && result == old(result)
    {
      if result == None {
        return;
      }
      if pdf == None {
        return;
      }
      var fileName := ReportFileName(caseId, domain, timestampIso);
      reports := [ReportItem(id, fileName, timestampIso, pdf.value)] + reports;
    }
  }
}
