/** The instruction parser: a hosted language model when a client exists and
    its call succeeds, otherwise a keyword-matching fallback. */
module NluProcessor {
  import opened Results
  import opened Strings
  import opened Workspace
  import opened TestGenerator

  /** What the hosted-model path comes to: no client was configured, the call
      (or the decoding of its JSON reply) raised, or it returned a dictionary. */
  datatype LlmReply = NoClient | CallFailed(message: string) | Replied(data: Parsed)

  const GoogleUrl := "https://www.google.com"
  const WikipediaUrl := "https://www.wikipedia.org"
  const PythonUrl := "https://www.python.org"
  const DefaultObjective := "Open website based on instruction: "

  /** The one step every fallback result holds. */
  function NavigateTo(url: string): Step {
    map["action" := "navigate", "url" := url]
  }

  /** A fallback result: its name, objective and URL, stamped with `now`. */
  function Canned(name: string, objective: string, url: string, now: string): Parsed {
    Parsed(Some(name), Some(objective), Some([NavigateTo(url)]), Some(now))
  }

  /** The rule-based parser. Keywords are looked for in the lower-cased
      prompt, first "google", then "wikipedia", then "python.org" or
      "python"; the default opens Google with the prompt in the objective. */
  function Fallback(prompt: string, now: string): (r: Parsed)
    ensures r.testName.Some? && r.objective.Some? && r.timestamp == Some(now)
    ensures r.steps.Some? && |r.steps.value| == 1
    ensures Action(r.steps.value[0]) == "navigate"
    ensures "https://www." <= Get(r.steps.value[0], "url", "")
  {
    var lower := Lower(prompt);
    if Contains(lower, "google") then
      Canned("open_google", "Open google.com homepage", GoogleUrl, now)
    else if Contains(lower, "wikipedia") then
      Canned("open_wikipedia", "Open wikipedia.org homepage", WikipediaUrl, now)
    else if Contains(lower, "python.org") || Contains(lower, "python") then
      Canned("open_python_org", "Open python.org homepage", PythonUrl, now)
    else
      Canned("open_website", DefaultObjective + prompt, GoogleUrl, now)
  }

  /** The parser as a whole: the model's dictionary with its timestamp set
      to `now` when the call succeeded, the fallback in every other case. */
  function ParseInstruction(prompt: string, reply: LlmReply, now: string): (r: Parsed)
    ensures r.timestamp == Some(now)
    ensures !reply.Replied? ==> r == Fallback(prompt, now)
    ensures reply.Replied? ==>
              r.testName == reply.data.testName && r.objective == reply.data.objective
              && r.steps == reply.data.steps
  {
    match reply
    case Replied(data) => data.(timestamp := Some(now))
    case _ => Fallback(prompt, now)
  }

  // ---------------------------------------------------------------------------
  // Properties of the fallback

  /** Every text holding "python.org" holds "python", so the first test of
      the third branch never decides anything. */
  lemma PythonOrgSubsumed(s: string)
    ensures Contains(s, "python.org") || Contains(s, "python") <==> Contains(s, "python")
  {
    if Contains(s, "python.org") {
      ContainsPrefixOf(s, "python.org", "python");
    }
  }

  /** Which canned result comes back, as a function of the keywords in the
      lower-cased prompt: google wins over wikipedia, which wins over python;
      the default keeps the prompt as written, not lower-cased. */
  lemma FallbackPriority(prompt: string, now: string)
    ensures var r := Fallback(prompt, now); var l := Lower(prompt);
      (r.testName == Some("open_google") <==> Contains(l, "google"))
      && (r.testName == Some("open_wikipedia") <==> !Contains(l, "google") && Contains(l, "wikipedia"))
      && (r.testName == Some("open_python_org") <==>
            !Contains(l, "google") && !Contains(l, "wikipedia") && Contains(l, "python"))
      && (r.testName == Some("open_website") <==>
            !Contains(l, "google") && !Contains(l, "wikipedia") && !Contains(l, "python"))
      && (r.testName == Some("open_website") ==> r.objective == Some(DefaultObjective + prompt))
      && (r.testName == Some("open_wikipedia") <==> Get(r.steps.value[0], "url", "") == WikipediaUrl)
      && (r.testName == Some("open_python_org") <==> Get(r.steps.value[0], "url", "") == PythonUrl)
      && (r.testName in {Some("open_google"), Some("open_website")} <==> Get(r.steps.value[0], "url", "") == GoogleUrl)
  {
    PythonOrgSubsumed(Lower(prompt));
  }

  /** Two prompts that lower-case alike get the same test name, steps and
      timestamp; only the default objective, which quotes the prompt, can
      tell them apart. */
  lemma FallbackIgnoresCase(a: string, b: string, now: string)
    requires Lower(a) == Lower(b)
    ensures Fallback(a, now).testName == Fallback(b, now).testName
    ensures Fallback(a, now).steps == Fallback(b, now).steps
    ensures Fallback(a, now).testName != Some("open_website") ==> Fallback(a, now) == Fallback(b, now)
  {
  }

  /** In particular, upper-casing a prompt does not change which page opens. */
  lemma FallbackIgnoresUpperCase(prompt: string, now: string)
    ensures Fallback(Upper(prompt), now).testName == Fallback(prompt, now).testName
    ensures Fallback(Upper(prompt), now).steps == Fallback(prompt, now).steps
  {
    LowerOfUpper(prompt);
    FallbackIgnoresCase(Upper(prompt), prompt, now);
  }
}
