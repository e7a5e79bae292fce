/**
 * What the schemas report when a body fails `safeParse`: the issue's path and Zod's message, and
 * the text the handlers build from the first issue.
 */
module Zod {
  import JsText

  const Required: string := "Required"
  const NotPositive: string := "Number must be greater than 0"
  const Negative: string := "Number must be greater than or equal to 0"

  /** A schema violation: where it is, and Zod's message for it. */
  datatype Issue = Issue(path: seq<string>, message: string)

  /** `${error.path}: ${error.message}`: the path array prints as its elements joined by commas. */
  function IssueText(e: Issue): string {
    (if e.path == [] then "" else JsText.Join(e.path, ',')) + ": " + e.message
  }

  /**
   * The message text ends in `: ` and the issue's message, and what comes before reads back,
   * split on commas, as the path (when no path element holds a comma).
   */
  lemma IssueTextReadsBack(e: Issue)
    ensures var t := IssueText(e);
      && |t| >= |e.message| + 2
      && t[|t| - |e.message| - 2..] == ": " + e.message
      && (e.path == [] ==> t == ": " + e.message)
      && ((e.path != [] && forall i :: 0 <= i < |e.path| ==> ',' !in e.path[i]) ==>
            JsText.Split(t[..|t| - |e.message| - 2], ',') == e.path)
  {
    if e.path != [] {
      var head := JsText.Join(e.path, ',');
      assert IssueText(e)[..|IssueText(e)| - |e.message| - 2] == head;
      if forall i :: 0 <= i < |e.path| ==> ',' !in e.path[i] {
        JsText.SplitJoin(e.path, ',');
      }
    }
  }
}
