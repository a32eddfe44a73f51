# risk-reporter-lite in Dafny

This project models the deterministic core of risk-reporter-lite, an analyst
tool that scores URLs for phishing risk and files case reports.

The centre is the rule-based URL risk scorer. It exists twice: the client
library's `scoreUrlRisk` and the backend function's `scoreUrl`. The scorer:

- trims the input and lower-cases it;
- parses it loosely as a URL, first as given, then with `https://` in front;
- evaluates seven rules in a fixed order, each adding a fixed delta:
  - phishing keywords +30;
  - length over 100 +25;
  - raw IP host +30;
  - more than four special characters +15;
  - blacklisted domain +25;
  - `http:` +20;
  - `https:` with a host longer than six characters −20;
- clamps the sum to 0..100 and classifies it as Safe (to 20), Suspicious (to 50) or Dangerous.

The client copy also returns the fired rules and a breakdown of entries, which stay in step.

Around the scorer the model covers:

- the backend request handler: method check, URL validation, A-record choice from a DNS answer list, and the response it builds;
- the map's `clampScore`, `classifyScore` and `markerColorHsl`;
- the rule-label lookup with its title-case fallback;
- the dashboard's placeholder domain analysis, the file-name sanitiser, the report file name, and the dashboard state changes of "Analyze" and "Generate PDF";
- the reports page's `shortId`;
- the navigation label of a route.

Modules, one per source file, plus two shared ones:

- `Wrappers`: `Option` and `Result`.
- `JsText`: the JavaScript string operations the sources use. It covers `trim`, ASCII `toLowerCase`/`toUpperCase`, `includes`, `startsWith`/`endsWith`, `slice`, `join`, global regex replacement of a character class by a string, and number-to-text.
- `UrlRisk` (src/lib/urlRisk.ts): the client scorer.
  - The scoring is specified by the function `Assess = Judge ∘ Gather`. `Gather` computes the seven signals the rules read.
  - `Judge` defines the score, the fired rules and the breakdown, each on its own.
  - The methods `ScoreUrlRisk`, `ApplyRules` and `CountSpecialChars` follow the source's step-by-step accumulation. They are proved equal to those functions.
- `ScanUrl` (supabase/functions/scan-url/index.ts): the backend scorer `ScoreUrl`, proved to agree with the client scorer under its default blacklist, and the handler `Serve`.
- `ScanLocationMap`, `RiskRuleLabels`, `InvestigationDashboard`, `CaseReportsExports`, `InvestigationShell`: the other core files. `InvestigationDashboard.Dashboard` is a class whose fields are the component's state.

The URL constructor, the DNS-over-HTTPS request and the geolocation request
are parameters (`UrlParser`, `DnsLookup`, `GeoLookup`).

## Model

| member | source | states |
|---|---|---|
| JsText.TrimSpec | src/lib/urlRisk.ts:97 | The trimmed string is the input with a whitespace-only prefix and a whitespace-only suffix cut off; it has no whitespace at either end, and it is empty exactly when the input is all whitespace |
| JsText.TrimIdempotent | src/lib/urlRisk.ts:41 | Trimming twice is trimming once |
| JsText.ReplaceRunsSeparates | src/lib/riskRuleLabels.ts:17 | Replacing each run of a class by one character of that class leaves no two class characters side by side |
| JsText.ReplaceRunsChars | src/lib/riskRuleLabels.ts:15 | Every character of a run replacement comes from the replacement or is an input character outside the class |
| JsText.DecimalRoundTrip | src/lib/urlRisk.ts:121 | Reading back the digits a number is rendered with gives the number again |
| JsText.RemoveChar | src/components/CaseReportsExports.tsx:17 | Removing every occurrence of a character shortens the text by its count, leaves no occurrence, and keeps every other character as often as the input has it |
| JsText.RemoveCharConcat | src/components/CaseReportsExports.tsx:17 | Removing a character from a concatenation is removing it from each part, so the kept characters stay in their order |
| JsText.RemoveCharSingle | src/components/CaseReportsExports.tsx:17 | A one-character text loses its character exactly when it is the one removed |
| JsText.Take | src/components/CaseReportsExports.tsx:17 | `slice(0, n)` is the prefix of length min(n, length) |
| JsText.IncludesIn | supabase/functions/scan-url/index.ts:75 | `Array.prototype.includes` holds exactly when the value is an element |
| UrlRisk.Clamp | src/lib/urlRisk.ts:36-38 | The result never exceeds max and is at least min when min ≤ max; it is the value itself inside the range, min below it, max above it, and max whenever min > max |
| UrlRisk.Classify | src/lib/urlRisk.ts:77-81 | Safe exactly for scores ≤ 20, Suspicious exactly for 21..50, Dangerous exactly for ≥ 51 |
| UrlRisk.ClassifyMonotone | src/lib/urlRisk.ts:77-81 | A higher score never gets a milder classification |
| UrlRisk.ParseUrlLooseSpec | src/lib/urlRisk.ts:40-54 | The loose parse succeeds exactly when the trimmed input is not blank and it parses either as given or with "https://" in front; the direct parse wins when both succeed |
| UrlRisk.ParseTrimmed | src/lib/urlRisk.ts:41 | Trimming before the loose parse changes nothing |
| UrlRisk.SplitOn | src/lib/urlRisk.ts:59 | Splitting on a separator gives one more piece than there are separators, and no piece contains it |
| UrlRisk.SplitJoin | src/lib/urlRisk.ts:59 | Joining the pieces with the separator gives back the text |
| UrlRisk.OctetPatternMeaning | src/lib/urlRisk.ts:59 | The octet alternatives of the IPv4 pattern accept exactly the decimals 0..255 written without leading zeros |
| UrlRisk.RawIpCases | src/lib/urlRisk.ts:56-69 | A host is a raw IP exactly when, once trimmed, it is four canonical octets 0..255 joined by dots, or it has only hex digits and ':' and at least two ':' |
| UrlRisk.CountSpecialChars | src/lib/urlRisk.ts:71-75 | The counting loop returns the number of characters of the input in the special set |
| UrlRisk.SpecialCountByCharacter | src/lib/urlRisk.ts:27 | The special count is the sum of the occurrence counts of `?`, `&`, `%`, `=`, `@`, `-` and `_` |
| UrlRisk.MatchedKeywordsSpec | src/lib/urlRisk.ts:103 | The matched keywords are exactly the phishing keywords occurring as substrings of the lower-cased input, in the keyword list's order |
| UrlRisk.KeywordRule | src/lib/urlRisk.ts:104 | Some keyword matches exactly when some phishing keyword occurs in the lower-cased input |
| UrlRisk.RuleOrderRanks | src/lib/urlRisk.ts:3-10 | The rule order lists every rule id exactly once, strictly by rank |
| UrlRisk.JudgeInStep | src/lib/urlRisk.ts:187-194 | The fired rules are the rules of the breakdown entries in order; the score is the sum of the entries' points clamped to 0..100; the classification is that of the score |
| UrlRisk.JudgeEntries | src/lib/urlRisk.ts:103-185 | Every breakdown entry has its rule's fixed points and explanation, and each rule appears at most once, in rule order |
| UrlRisk.JudgeFired | src/lib/urlRisk.ts:103-185 | A rule is listed exactly when its trigger condition holds |
| UrlRisk.QuietSignals | src/lib/urlRisk.ts:100-187 | When no condition holds, nothing is listed and no delta is added |
| UrlRisk.AssessInStep | src/lib/urlRisk.ts:187-194 | The scorer's result keeps the fired rules and the breakdown in step, and its score is in 0..100 with the matching classification |
| UrlRisk.AssessEntries | src/lib/urlRisk.ts:103-185 | The scorer's breakdown carries each rule's fixed points and explanation, in rule order |
| UrlRisk.TriggerConditions | src/lib/urlRisk.ts:103-185 | Each rule fires exactly when its condition on the input holds, and `uses_http` and `https_long_domain_bonus` never both fire |
| UrlRisk.UnparsedSignals | src/lib/urlRisk.ts:125-126 | Input the loose parse rejects yields host "" and protocol "" |
| UrlRisk.UnparsedInput | src/lib/urlRisk.ts:125-185 | Input the loose parse rejects can fire only the keyword, length and special-character rules |
| UrlRisk.BlankSignals | src/lib/urlRisk.ts:97-142 | Blank input has empty text, no keyword, no special character, and empty host and protocol |
| UrlRisk.BlankInputIsSafe | src/lib/urlRisk.ts:40-42 | Whitespace-only input scores 0, Safe, with no rule and no breakdown entry |
| UrlRisk.DefaultBlacklistNormalized | src/lib/urlRisk.ts:30-34 | The built-in blacklist is already trimmed and lower case |
| UrlRisk.BlacklistNormalizes | src/lib/urlRisk.ts:92 | The blacklist is the given list, or the built-in one, with each entry trimmed and lower-cased |
| UrlRisk.OmittedBlacklistIsDefault | src/lib/urlRisk.ts:92 | Omitting the blacklist option scores the same as passing the built-in list |
| UrlRisk.TrimmedInputScoresTheSame | src/lib/urlRisk.ts:97 | Scoring the trimmed input gives the same result as scoring the input |
| UrlRisk.EvaluateExtends | src/lib/urlRisk.ts:104-112 | One rule block applied to the state after some rules is the state after those rules and that rule |
| UrlRisk.RuleBlocks | src/lib/urlRisk.ts:100-185 | The seven rule blocks run in order produce the delta sum, the fired rules and the breakdown |
| UrlRisk.ApplyRules | src/lib/urlRisk.ts:100-194 | The step-by-step accumulation over the seven blocks returns the result the rules define |
| UrlRisk.ScoreUrlRisk | src/lib/urlRisk.ts:83-195 | `scoreUrlRisk` returns the result of the seven rules on the signals of its input |
| ScanUrl.DomainBlacklistIsClientDefault | supabase/functions/scan-url/index.ts:11 | The backend's blacklist is the client's default list, which normalising leaves unchanged |
| ScanUrl.SomeKeywordMeaning | supabase/functions/scan-url/index.ts:63 | `some(k => lower.includes(k))` holds exactly when some listed keyword occurs in the text |
| ScanUrl.SomeKeywordAgrees | supabase/functions/scan-url/index.ts:63 | The backend's keyword test holds exactly when the client scorer matches at least one keyword |
| ScanUrl.AddDeltas | supabase/functions/scan-url/index.ts:60-82 | The seven score updates add up to the delta sum of the rules that fire |
| ScanUrl.DeltaExtends | supabase/functions/scan-url/index.ts:60-82 | The delta sum of a rule list extended by one rule adds that rule's gain |
| ScanUrl.DeltaByRule | supabase/functions/scan-url/index.ts:60-82 | The delta sum over the rule order is the seven rules' gains added in order |
| ScanUrl.ScoreUrl | supabase/functions/scan-url/index.ts:52-85 | The backend score lies in 0..100 and its status is the classification of the score; both equal the client scorer's result with the default blacklist |
| ScanUrl.ARecordsSpec | supabase/functions/scan-url/index.ts:102-106 | The A records are empty exactly when no answer has type 1 and non-empty data; otherwise the first record is the data of the first such answer |
| ScanUrl.ResolveSpec | supabase/functions/scan-url/index.ts:87-107 | A raw-IP host resolves to itself; any other host resolves to the first usable A record, fails with "No A record found" when there is none, or fails with the lookup's own error |
| ScanUrl.Serve | supabase/functions/scan-url/index.ts:129-190 | Non-POST gives 405 "Method not allowed"; a missing or blank url gives 400 "Missing url"; no host gives 400 "Invalid URL"; a failed resolve or geo lookup gives 500 with its message; otherwise 200 with the location, the IP and the scorer's score and status for the URL |
| ScanLocationMap.ClampScore | src/components/ScanLocationMap.tsx:19-21 | The result is in 0..100; it is the identity on 0..100, 0 below, 100 above |
| ScanLocationMap.ClampScoreIdempotent | src/components/ScanLocationMap.tsx:19-21 | Clamping twice is clamping once |
| ScanLocationMap.ClassifyScore | src/components/ScanLocationMap.tsx:25-30 | Safe exactly for scores ≤ 20 (negative ones included), Suspicious exactly for 21..50, Dangerous exactly for ≥ 51 (above 100 included) |
| ScanLocationMap.ClassifyScoreAgrees | src/components/ScanLocationMap.tsx:25-30 | The map's classification equals the scorer's classification of the clamped score, and of the unclamped one |
| ScanLocationMap.MarkerColorHsl | src/components/ScanLocationMap.tsx:32-41 | Every marker colour is an `hsl(` token |
| ScanLocationMap.MarkerColorsDistinct | src/components/ScanLocationMap.tsx:32-41 | Different classifications get different colours |
| ScanLocationMap.ClampScoreExamples | src/components/ScanLocationMap.test.ts:6-22 | −1 and −999 clamp to 0, 101 and 999 to 100, and 0, 20, 50 and 100 stay |
| ScanLocationMap.ClassifyScoreExamples | src/components/ScanLocationMap.test.ts:25-41 | 0, 20 and −5 are Safe; 21 and 50 are Suspicious; 51, 100 and 250 are Dangerous |
| ScanLocationMap.MarkerColorExamples | src/components/ScanLocationMap.test.ts:44-50 | The three classifications map to the success, warning and destructive tokens |
| RiskRuleLabels.UpperWordStartsSpec | src/lib/riskRuleLabels.ts:18 | Upper-casing word starts keeps each character's class and lower-case form and the word boundaries, and leaves no word starting in lower case |
| RiskRuleLabels.CollapsedIsTidy | src/lib/riskRuleLabels.ts:14-17 | After the separator replacement, trim and whitespace collapse there is no '_' or '-', no whitespace at either end, and no two whitespace characters in a row |
| RiskRuleLabels.UpperKeepsTidy | src/lib/riskRuleLabels.ts:18 | Capitalising words keeps a tidy string tidy |
| RiskRuleLabels.TitleCaseShape | src/lib/riskRuleLabels.ts:13-19 | The fallback label has no '_' or '-', no whitespace at either end, no two whitespace characters in a row, and no word starting with a lower-case letter |
| RiskRuleLabels.BlankIdLabel | src/lib/riskRuleLabels.ts:13-19 | An id made only of separators and whitespace gets the empty label |
| RiskRuleLabels.EveryRuleLabelled | src/lib/riskRuleLabels.ts:3-11 | Every scorer rule id is in the table and gets its fixed label |
| RiskRuleLabels.UnknownIdLabel | src/lib/riskRuleLabels.ts:21-23 | Own-key lookup (for the lookup as written see AsWrittenAgreesElsewhere): an id outside the table gets a label with no separator, no whitespace at either end and no doubled whitespace |
| RiskRuleLabels.FooBarExample | src/lib/riskRuleLabels.ts:13-23 | "foo_bar" is labelled "Foo Bar" |
| RiskRuleLabels.InheritedKeyLeaks | src/lib/riskRuleLabels.ts:22 | "constructor" is not a rule id, yet the lookup as written returns no label text for it |
| RiskRuleLabels.AsWrittenAgreesElsewhere | src/lib/riskRuleLabels.ts:22 | Outside the inherited member names, the lookup as written gives the own-key lookup's label |
| RiskRuleLabels.ConstructorLabel | src/lib/riskRuleLabels.ts:21-23 | The own-key lookup labels "constructor" as "Constructor" |
| InvestigationDashboard.TierSpec | src/components/CyberInvestigationDashboard.tsx:22-29 | HIGH exactly when the normalised domain contains a suspicious term or ends with a new-domain suffix; MEDIUM exactly when neither holds and it has three or more dots; LOW otherwise |
| InvestigationDashboard.SuspiciousTermSpec | src/components/CyberInvestigationDashboard.tsx:25 | The suspicious-term test holds exactly when one of the five terms occurs |
| InvestigationDashboard.LooksNewSpec | src/components/CyberInvestigationDashboard.tsx:24 | The new-domain test holds exactly when the domain ends with one of the four suffixes |
| InvestigationDashboard.AnalysisFields | src/components/CyberInvestigationDashboard.tsx:35-53 | The FQDN is the trimmed, lower-cased domain; TLS, Passive DNS and Open Ports show their HIGH values exactly on HIGH; DNSSEC is "Enabled" exactly on LOW |
| InvestigationDashboard.AnalysisOfNormalized | src/components/CyberInvestigationDashboard.tsx:21-22 | The analysis depends on the domain only through its trimmed, lower-cased form |
| InvestigationDashboard.SafeFileSegment | src/components/CyberInvestigationDashboard.tsx:57-64 | A file segment has at most 80 characters |
| InvestigationDashboard.SafeFileSegmentShape | src/components/CyberInvestigationDashboard.tsx:57-64 | A file segment has only characters of `[a-z0-9-_.]` and never two '-' in a row |
| InvestigationDashboard.SafeFileSegmentIdempotent | src/components/CyberInvestigationDashboard.tsx:57-64 | Sanitising a segment again leaves it unchanged |
| InvestigationDashboard.NoColonInSegment | src/components/CyberInvestigationDashboard.tsx:61 | A file segment never contains ':' |
| InvestigationDashboard.ReportFileNameShape | src/components/CyberInvestigationDashboard.tsx:120-124 | The report file name starts with "case-", ends with ".pdf", has no ':' and has at most 186 characters |
| InvestigationDashboard.Dashboard.constructor | src/components/CyberInvestigationDashboard.tsx:66-75 | The dashboard starts with empty inputs, no error, no result, not analysing, and no reports |
| InvestigationDashboard.Dashboard.RunAnalysis | src/components/CyberInvestigationDashboard.tsx:85-102 | A blank domain sets the error and clears the result; any other domain clears the error, ends analysing and shows the analysis of the trimmed domain; inputs and reports are unchanged |
| InvestigationDashboard.Dashboard.ShowAnalysis | src/components/CyberInvestigationDashboard.tsx:93-101 | The error is cleared and the analysis of the cleaned domain is shown, with analysing over |
| InvestigationDashboard.Dashboard.GeneratePdf | src/components/CyberInvestigationDashboard.tsx:104-127 | Without a result, or when generating the PDF fails, nothing changes; otherwise the new report, named from the case id (or "draft"), the domain and the timestamp, goes in front of the earlier reports, and nothing else changes |
| CaseReportsExports.ShortIdSpec | src/components/CaseReportsExports.tsx:16-18 | The short id has no '-' and no lower-case letter; its length is min(10, number of non-'-' characters); it is the first of those characters, upper-cased, in order |
| CaseReportsExports.ShortIdIdempotent | src/components/CaseReportsExports.tsx:16-18 | Shortening a short id leaves it unchanged |
| InvestigationShell.LabelFromPathSpec | src/components/layout/InvestigationShell.tsx:6-10 | The label is always one of the three: "Active Cases" exactly for paths starting with "/cases", "History" exactly for the other paths starting with "/history", "Dashboard" for the rest |
| InvestigationShell.LabelExamples | src/components/layout/InvestigationShell.tsx:6-10 | Matching is by prefix ("/casesX" is Active Cases), and "/" and "" are the Dashboard |

## Left out

- `new URL(...)` is a parameter (`UrlParser`) yielding the host and protocol, or nothing where the constructor throws. No fact about the hosts it produces is assumed, such as bracketed IPv6 or normalised IPv4 forms.
- The DNS-over-HTTPS request and the geolocation request are parameters (`DnsLookup`, `GeoLookup`). Their HTTP status checks, JSON decoding, the `success` flag, the finite-coordinate check and the "—" country placeholder are inside those parameters. Coordinates are reals, not floats.
- ScanUrl.Serve: the request body is given already decoded, as the `url` field when it is a string. Transport, JSON encoding and headers are not modelled; the CORS headers are a flag on the response. Because the lookups are pure parameters, "no lookup happens on a 400" is not a property the model can state.
- The timestamp, `crypto.randomUUID()` and `URL.createObjectURL` values of a report are parameters of `GeneratePdf`. So is the outcome of generating the PDF: an object URL, or `None` when `generateCaseReportPdf` rejects. The PDF itself (src/lib/pdfReport.ts) is not part of this model, so which inputs make generation fail is not modelled.
- InvestigationDashboard.PseudoAnalyze: the "Created" and "Expires" dates are not modelled, because they are derived from the clock.
- InvestigationDashboard.Dashboard.RunAnalysis: the 650 ms wait and the intermediate state during it (analysing, result cleared) are not modelled. The method goes from the state before the click to the state after the wait.
- React rendering, the map, routing and the Supabase data pages are not part of this model.
- Case folding is ASCII only. JavaScript's full-Unicode `toLowerCase`/`toUpperCase` can also map some non-ASCII characters, such as the Kelvin sign to "k". Lengths count characters, not UTF-16 code units.
- Scores are whole numbers: a fractional or NaN score passed to `clampScore` or `classifyScore` is not modelled.
- UrlRisk.ApplyRules reads the signals already computed by `Gather`. `ScoreUrlRisk` computes them first, as the source does before and between its rule blocks. The order of computing the signals is not observable in the result.

## Findings

| source | as written | input that shows it | evidently intended | confidence | as-written member | corrected member |
|---|---|---|---|---|---|---|
| src/lib/riskRuleLabels.ts:22 | `RULE_LABELS[ruleId] ?? titleCaseFromId(ruleId)` indexes a plain object literal, so the ids of `Object.prototype` members find the inherited member. That member is not `undefined`, so `??` returns it instead of a label | the rule id "constructor", which yields the `Object` function instead of a string; "toString", "__proto__" and the other inherited names behave alike | an own-key lookup, e.g. `Object.hasOwn(RULE_LABELS, ruleId)`, so that every id outside the table gets its title-cased fallback ("constructor" → "Constructor") | medium, not executed | RiskRuleLabels.InheritedKeyLeaks | RiskRuleLabels.ConstructorLabel |
