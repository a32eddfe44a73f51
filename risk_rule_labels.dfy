/**
 * Analyst-facing labels of the risk rules: a fixed table for the seven
 * rule ids, and for any other id a title-cased rendering of the id itself.
 */
module RiskRuleLabels {
  import opened JsText
  import opened UrlRisk

  /** `RULE_LABELS`. */
  const RuleLabels: map<string, string> := map[
    "phishing_keywords" := "Phishing keywords",
    "length_over_100" := "Excessive URL length",
    "raw_ip_host" := "Raw IP hostname",
    "special_chars_over_4" := "High special-character density",
    "domain_blacklisted" := "Domain blacklisted",
    "uses_http" := "Insecure protocol (HTTP)",
    "https_long_domain_bonus" := "HTTPS reputation bonus"
  ]

  /** The class `[_-]`. */
  predicate IsSeparator(c: char) {
    c == '_' || c == '-'
  }

  /** Position `i` starts a word: a `\w` character with no `\w` character just before it (`\b\w`). */
  predicate AtWordStart(s: string, i: int)
    requires 0 <= i < |s|
  {
    IsWordChar(s[i]) && (i == 0 || !IsWordChar(s[i - 1]))
  }

  /**
   * `s.replace(/\b\w/g, (m) => m.toUpperCase())`: the first character of
   * every word is upper-cased and nothing else changes.
   */
  function UpperWordStarts(s: string): (r: string)
    ensures |r| == |s|
    ensures forall i :: 0 <= i < |s| ==> AtWordStart(s, i) ==> r[i] == UpperChar(s[i])
    ensures forall i :: 0 <= i < |s| ==> !AtWordStart(s, i) ==> r[i] == s[i]
  {
    seq(|s|, i requires 0 <= i < |s| => if AtWordStart(s, i) then UpperChar(s[i]) else s[i])
  }

  /**
   * Upper-casing the word starts only changes letter case: every character
   * keeps its class, the words start where they did, and none of them
   * starts with a lower-case letter any more.
   */
  lemma UpperWordStartsSpec(s: string)
    ensures var r := UpperWordStarts(s);
      |r| == |s|
      && (forall i :: 0 <= i < |s| ==>
        LowerChar(r[i]) == LowerChar(s[i])
        && (IsWordChar(r[i]) <==> IsWordChar(s[i]))
        && (IsSpace(r[i]) <==> IsSpace(s[i]))
        && (IsSeparator(r[i]) <==> IsSeparator(s[i])))
      && (forall i :: 0 <= i < |s| ==> (AtWordStart(r, i) <==> AtWordStart(s, i)))
      && (forall i :: 0 <= i < |r| && AtWordStart(r, i) ==> !IsLower(r[i]))
  {
    var r := UpperWordStarts(s);
    forall i | 0 <= i < |s|
      ensures LowerChar(r[i]) == LowerChar(s[i]) && (IsWordChar(r[i]) <==> IsWordChar(s[i]))
      ensures (IsSpace(r[i]) <==> IsSpace(s[i])) && (IsSeparator(r[i]) <==> IsSeparator(s[i]))
    {
      if AtWordStart(s, i) {
        CaseChange(s[i]);
      }
    }
  }

  /** Upper-casing a character changes neither its class nor its lower-case form. */
  lemma CaseChange(c: char)
    ensures var u := UpperChar(c);
      LowerChar(u) == LowerChar(c) && (IsWordChar(u) <==> IsWordChar(c))
      && (IsSpace(u) <==> IsSpace(c)) && (IsSeparator(u) <==> IsSeparator(c))
  {
  }

  /** `titleCaseFromId`: separators to spaces, trim, collapse whitespace, capitalise words. */
  function TitleCaseFromId(id: string): string {
    var spaced := ReplaceRuns(id, IsSeparator, " ");
    var trimmed := Trim(spaced);
    var collapsed := ReplaceRuns(trimmed, IsSpace, " ");
    UpperWordStarts(collapsed)
  }

  /**
   * The fallback label has no '_' or '-', no whitespace at either end, no
   * two whitespace characters side by side, and no word starting with a
   * lower-case letter.
   */
  lemma TitleCaseShape(id: string)
    ensures var r := TitleCaseFromId(id);
      Tidy(r) && (forall i :: 0 <= i < |r| && AtWordStart(r, i) ==> !IsLower(r[i]))
  {
    var collapsed := ReplaceRuns(Trim(ReplaceRuns(id, IsSeparator, " ")), IsSpace, " ");
    CollapsedIsTidy(id);
    UpperKeepsTidy(collapsed);
  }

  /** No separator, no whitespace at either end, no two whitespace characters side by side. */
  predicate Tidy(r: string) {
    (forall i :: 0 <= i < |r| ==> !IsSeparator(r[i]))
    && (r != [] ==> !IsSpace(r[0]) && !IsSpace(r[|r| - 1]))
    && NoTwoAdjacent(r, IsSpace)
  }

  /** Replacing the separators, trimming and collapsing the whitespace leaves a tidy string. */
  lemma CollapsedIsTidy(id: string)
    ensures Tidy(ReplaceRuns(Trim(ReplaceRuns(id, IsSeparator, " ")), IsSpace, " "))
  {
    var spaced := ReplaceRuns(id, IsSeparator, " ");
    var trimmed := Trim(spaced);
    var collapsed := ReplaceRuns(trimmed, IsSpace, " ");
    ReplaceRunsChars(id, IsSeparator, " ");
    TrimChars(spaced);
    TrimSpec(spaced);
    ReplaceRunsChars(trimmed, IsSpace, " ");
    if trimmed != [] {
      ReplaceRunsFirst(trimmed, IsSpace, " ");
      ReplaceRunsLast(trimmed, IsSpace, " ");
    }
    ReplaceRunsSeparates(trimmed, IsSpace, ' ');
    forall i | 0 <= i < |collapsed| ensures !IsSeparator(collapsed[i]) {
      assert collapsed[i] in collapsed;
    }
  }

  /** Upper-casing the word starts keeps a tidy string tidy. */
  lemma UpperKeepsTidy(s: string)
    requires Tidy(s)
    ensures var r := UpperWordStarts(s);
      Tidy(r) && (forall i :: 0 <= i < |r| && AtWordStart(r, i) ==> !IsLower(r[i]))
  {
    UpperWordStartsSpec(s);
  }

  /** An id made only of separators and whitespace gets the empty label. */
  lemma BlankIdLabel(id: string)
    requires forall i :: 0 <= i < |id| ==> IsSeparator(id[i]) || IsSpace(id[i])
    ensures TitleCaseFromId(id) == []
  {
    var spaced := ReplaceRuns(id, IsSeparator, " ");
    ReplaceRunsChars(id, IsSeparator, " ");
    forall i | 0 <= i < |spaced| ensures IsSpace(spaced[i]) {
      assert spaced[i] in spaced;
    }
    TrimSpec(spaced);
  }

  /**
   * `getRiskRuleLabel` with an own-key lookup: the table's label for a
   * known id, the title-cased id for every other id.
   */
  function GetRiskRuleLabel(ruleId: string): string {
    if ruleId in RuleLabels then RuleLabels[ruleId] else TitleCaseFromId(ruleId)
  }

  /**
   * The member names every object literal inherits from `Object.prototype`.
   * Indexing `RULE_LABELS` with one of them yields the inherited member,
   * which is not `undefined`, so `??` keeps it.
   */
  const InheritedKeys: set<string> := {
    "constructor", "__proto__", "__defineGetter__", "__defineSetter__", "__lookupGetter__", "__lookupSetter__",
    "hasOwnProperty", "isPrototypeOf", "propertyIsEnumerable", "toLocaleString", "toString", "valueOf"
  }

  /** What indexing the label table yields: a label, or an inherited member (a function or an object). */
  datatype LookupValue = Text(text: string) | InheritedMember(name: string)

  /** `RULE_LABELS[ruleId] ?? titleCaseFromId(ruleId)` as written, on a plain object literal. */
  function GetRiskRuleLabelAsWritten(ruleId: string): LookupValue {
    if ruleId in RuleLabels then Text(RuleLabels[ruleId])
    else if ruleId in InheritedKeys then InheritedMember(ruleId)
    else Text(TitleCaseFromId(ruleId))
  }

  /** The id "constructor" is not a rule id, yet the lookup as written returns no text for it. */
  lemma InheritedKeyLeaks()
    ensures "constructor" !in RuleLabels
    ensures !GetRiskRuleLabelAsWritten("constructor").Text?
  {
    NotInTable("constructor");
  }

  /** The corrected lookup gives "constructor" its fallback label. */
  lemma ConstructorLabel()
    ensures GetRiskRuleLabel("constructor") == "Constructor"
  {
    NotInTable("constructor");
    ConstructorTitleCase();
  }

  /** Apart from the inherited names, the lookup as written is the corrected one. */
  lemma AsWrittenAgreesElsewhere(ruleId: string)
    requires ruleId !in InheritedKeys
    ensures GetRiskRuleLabelAsWritten(ruleId) == Text(GetRiskRuleLabel(ruleId))
  {
  }

  lemma NotInTable(ruleId: string)
    requires ruleId == "constructor"
    ensures ruleId !in RuleLabels
  {
    assert forall k :: k in RuleLabels ==> |k| != 11 || k[0] != 'c';
  }

  lemma ConstructorTitleCase()
    ensures TitleCaseFromId("constructor") == "Constructor"
  {
    ConstructorUnseparated();
    TrimUntouched("constructor");
    ConstructorUnspaced();
    UpperConstructor();
  }

  lemma ConstructorUnseparated()
    ensures ReplaceRuns("constructor", IsSeparator, " ") == "constructor"
  {
    ReplaceRunsNoMatch("constructor", IsSeparator, " ");
  }

  lemma ConstructorUnspaced()
    ensures ReplaceRuns("constructor", IsSpace, " ") == "constructor"
  {
    ReplaceRunsNoMatch("constructor", IsSpace, " ");
  }

  lemma UpperConstructor()
    ensures UpperWordStarts("constructor") == "Constructor"
  {
    var s := "constructor";
    var r := UpperWordStarts(s);
    assert AtWordStart(s, 0);
    assert !AtWordStart(s, 1) && !AtWordStart(s, 2) && !AtWordStart(s, 3) && !AtWordStart(s, 4) && !AtWordStart(s, 5);
    assert !AtWordStart(s, 6) && !AtWordStart(s, 7) && !AtWordStart(s, 8) && !AtWordStart(s, 9) && !AtWordStart(s, 10);
  }

  /** The label of each rule the scorer reports; none of them falls back to the title case. */
  function RuleLabel(rule: RuleId): string {
    match rule
    case PhishingKeywords => "Phishing keywords"
    case LengthOver100 => "Excessive URL length"
    case RawIpHost => "Raw IP hostname"
    case SpecialCharsOver4 => "High special-character density"
    case DomainBlacklisted => "Domain blacklisted"
    case UsesHttp => "Insecure protocol (HTTP)"
    case HttpsLongDomainBonus => "HTTPS reputation bonus"
  }

  /** Every rule id the scorer emits is in the table, with its fixed label. */
  lemma EveryRuleLabelled(rule: RuleId)
    ensures RuleName(rule) in RuleLabels
    ensures GetRiskRuleLabel(RuleName(rule)) == RuleLabel(rule)
  {
  }

  /** An id outside the table gets a label with the fallback's shape. */
  lemma UnknownIdLabel(ruleId: string)
    requires ruleId !in RuleLabels
    ensures var r := GetRiskRuleLabel(ruleId);
      (forall i :: 0 <= i < |r| ==> !IsSeparator(r[i]))
      && (r != [] ==> !IsSpace(r[0]) && !IsSpace(r[|r| - 1]))
      && NoTwoAdjacent(r, IsSpace)
  {
    TitleCaseShape(ruleId);
  }

  lemma FooBarExample()
    ensures GetRiskRuleLabel("foo_bar") == "Foo Bar"
  {
    assert "foo_bar" !in RuleLabels by {
      assert forall k :: k in RuleLabels ==> |k| != 7;
    }
    FooBarTitleCase();
  }

  lemma FooBarTitleCase()
    ensures TitleCaseFromId("foo_bar") == "Foo Bar"
  {
    SpacedFooBar();
    TrimUntouched("foo bar");
    CollapsedFooBar();
    UpperFooBar();
  }

  lemma CollapsedFooBar()
    ensures ReplaceRuns("foo bar", IsSpace, " ") == "foo bar"
  {
    var s := "foo bar";
    assert forall i :: 0 <= i < |s| && IsSpace(s[i]) ==> i == 3;
    ReplaceRunsSingletons(s, IsSpace, ' ');
  }

  /** Replacing runs keeps a leading character outside the class. */
  lemma ReplaceRunsKeeps(c: char, s: string, inRun: char -> bool, repl: string)
    requires !inRun(c)
    ensures ReplaceRuns([c] + s, inRun, repl) == [c] + ReplaceRuns(s, inRun, repl)
  {
    assert ([c] + s)[1..] == s;
  }

  lemma SpacedFooBar()
    ensures ReplaceRuns("foo_bar", IsSeparator, " ") == "foo bar"
  {
    SpacedBar();
    ReplaceRunsKeeps('o', "_bar", IsSeparator, " ");
    ReplaceRunsKeeps('o', "o_bar", IsSeparator, " ");
    ReplaceRunsKeeps('f', "oo_bar", IsSeparator, " ");
    assert "foo_bar" == ['f'] + "oo_bar" && "oo_bar" == ['o'] + "o_bar" && "o_bar" == ['o'] + "_bar";
  }

  lemma SpacedBar()
    ensures ReplaceRuns("_bar", IsSeparator, " ") == " bar"
  {
    ReplaceRunsNoMatch("bar", IsSeparator, " ");
    assert "_bar"[1..] == "bar";
    assert DropWhile("_bar", IsSeparator) == "bar";
  }

  lemma UpperFooBar()
    ensures UpperWordStarts("foo bar") == "Foo Bar"
  {
    var s := "foo bar";
    var r := UpperWordStarts(s);
    assert AtWordStart(s, 0) && AtWordStart(s, 4);
    assert !AtWordStart(s, 1) && !AtWordStart(s, 2) && !AtWordStart(s, 3);
    assert !AtWordStart(s, 5) && !AtWordStart(s, 6);
  }
}
