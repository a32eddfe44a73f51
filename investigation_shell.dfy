/** The page title the investigation shell shows for a route. */
module InvestigationShell {
  import opened JsText

  /** `labelFromPath`: by string prefix, "/cases" before "/history". */
  function LabelFromPath(path: string): string {
    if StartsWith(path, "/cases") then "Active Cases"
    else if StartsWith(path, "/history") then "History"
    else "Dashboard"
  }

  /**
   * The label is always one of the three, and each label is chosen by its
   * prefix test: "Active Cases" exactly for paths starting with "/cases",
   * "History" exactly for the other paths starting with "/history".
   */
  lemma LabelFromPathSpec(path: string)
    ensures var title := LabelFromPath(path);
      (title == "Active Cases" <==> StartsWith(path, "/cases"))
      && (title == "History" <==> !StartsWith(path, "/cases") && StartsWith(path, "/history"))
      && (title == "Dashboard" <==> !StartsWith(path, "/cases") && !StartsWith(path, "/history"))
  {
    assert "Active Cases" != "History" && "Active Cases" != "Dashboard" && "History" != "Dashboard";
  }

  /** Matching is by prefix, not by path segment; the root and the empty path are the dashboard. */
  lemma LabelExamples()
    ensures LabelFromPath("/casesX") == "Active Cases"
    ensures LabelFromPath("/cases/42") == "Active Cases"
    ensures LabelFromPath("/history") == "History"
    ensures LabelFromPath("/") == "Dashboard"
    ensures LabelFromPath("") == "Dashboard"
  {
    assert "/casesX"[..6] == "/cases";
    assert "/cases/42"[..6] == "/cases";
    assert "/history"[1] != "/cases"[1];
  }
}
