/**
 * The decision logic of `AI.web_fallback_answer` in jarvis.py: a query is
 * first tried as arithmetic, then answered from the DuckDuckGo instant
 * answer (its abstract, then its related topics), then from the Wikipedia
 * page summary, then from a Google featured snippet, and otherwise with a
 * fixed reply. The network replies and Python's `eval` are inputs here.
 */
module Answers {
  import opened Text
  import opened Wrappers

  // ---------------------------------------------------------------------
  // The arithmetic attempt: re.findall(r'[\d\.\+\-\*\/\^\(\) ]+', query)
  // ---------------------------------------------------------------------

  /** A character of the class `[\d.+\-*\/^() ]` (digits taken as ASCII digits). */
  predicate Allowed(c: char) {
    '0' <= c <= '9' || c in {'.', '+', '-', '*', '/', '^', '(', ')', ' '}
  }

  predicate AllAllowed(s: string) {
    forall i :: 0 <= i < |s| ==> Allowed(s[i])
  }

  /** The length of the longest prefix of `s` made of allowed characters. */
  function AllowedPrefix(s: string): (n: nat)
    ensures n <= |s| && AllAllowed(s[..n])
    ensures n < |s| ==> !Allowed(s[n])
    decreases |s|
  {
    if s == [] || !Allowed(s[0]) then 0
    else
      var n := 1 + AllowedPrefix(s[1..]);
      assert s[..n] == [s[0]] + s[1..][..n - 1];
      n
  }

  /** The matches of `re.findall` with the pattern above: the maximal runs of allowed characters, left to right. */
  function Runs(s: string): (r: seq<string>)
    ensures forall k :: 0 <= k < |r| ==> |r[k]| > 0 && AllAllowed(r[k])
    decreases |s|
  {
    if s == [] then []
    else
      var n := AllowedPrefix(s);
      if n == 0 then Runs(s[1..]) else [s[..n]] + Runs(s[n..])
  }

  /** The allowed characters of `s`, in order: what the runs spell once joined. */
  function Filter(s: string): (r: string)
    ensures AllAllowed(r) && |r| <= |s|
    decreases |s|
  {
    if s == [] then []
    else if Allowed(s[0]) then [s[0]] + Filter(s[1..])
    else Filter(s[1..])
  }

  /** The expression handed to `eval`: `"".join(math_expr)`. */
  function MathExpr(s: string): string {
    Join(Runs(s), "")
  }

  lemma JoinNoSep(x: string, rest: seq<string>)
    ensures Join([x] + rest, "") == x + Join(rest, "")
  {
    if rest == [] {
      assert Join([x], "") == x;
    } else {
      assert ([x] + rest)[1..] == rest;
    }
  }

  lemma {:induction false} FilterAllowedPrefix(s: string, n: nat)
    requires n <= |s| && AllAllowed(s[..n])
    ensures Filter(s) == s[..n] + Filter(s[n..])
    decreases n
  {
    if n > 0 {
      assert Allowed(s[..n][0]);
      var t := s[1..][..n - 1];
      assert AllAllowed(t) by {
        forall i | 0 <= i < n - 1 ensures Allowed(t[i]) {
          assert t[i] == s[..n][i + 1];
        }
      }
      FilterAllowedPrefix(s[1..], n - 1);
      assert s[1..][n - 1..] == s[n..];
      assert s[..n] == [s[0]] + s[1..][..n - 1];
    }
  }

  /** Joining the runs gives back exactly the allowed characters of the query. */
  lemma {:induction false} MathExprIsFilter(s: string)
    ensures MathExpr(s) == Filter(s)
    decreases |s|
  {
    if s != [] {
      var n := AllowedPrefix(s);
      if n == 0 {
        MathExprIsFilter(s[1..]);
      } else {
        MathExprIsFilter(s[n..]);
        JoinNoSep(s[..n], Runs(s[n..]));
        FilterAllowedPrefix(s, n);
      }
    }
  }

  /** `findall` finds something exactly when the query holds one allowed character. */
  lemma {:induction false} RunsFound(s: string)
    ensures Runs(s) != [] <==> exists i :: 0 <= i < |s| && Allowed(s[i])
    decreases |s|
  {
    if s != [] {
      var n := AllowedPrefix(s);
      if n == 0 {
        RunsFound(s[1..]);
        if exists i :: 0 <= i < |s| && Allowed(s[i]) {
          var i :| 0 <= i < |s| && Allowed(s[i]);
          assert i != 0;
          assert Allowed(s[1..][i - 1]);
        }
        if exists i :: 0 <= i < |s[1..]| && Allowed(s[1..][i]) {
          var i :| 0 <= i < |s[1..]| && Allowed(s[1..][i]);
          assert Allowed(s[i + 1]);
        }
      } else {
        assert Allowed(s[0]);
      }
    }
  }

  // ---------------------------------------------------------------------
  // The provider replies
  // ---------------------------------------------------------------------

  /** An HTTP request and the parsing of its reply: `Failed` when either raises. */
  datatype Fetch<T> = Failed | Got(value: T)

  /** An entry of "RelatedTopics": a JSON object with an optional "Text", or something else. */
  datatype Topic = TopicDict(text: Option<string>) | NotDict

  /** The DuckDuckGo instant answer: "AbstractText" and "RelatedTopics". */
  datatype DdgReply = DdgReply(abstractText: Option<string>, topics: seq<Topic>)

  /** The Wikipedia summary request: its status code, and the "extract" of the parsed body. */
  datatype WikiReply = WikiReply(status: int, extract: Option<string>)

  /**
   * Everything outside the program the cascade consults: Python's `eval`
   * (`None` when it raises), and the replies of the three providers
   * (for Google, the text of the featured snippet element, if one is found).
   */
  datatype World = World(
    eval: string -> Option<string>,
    ddg: Fetch<DdgReply>,
    wiki: Fetch<WikiReply>,
    google: Fetch<Option<string>>)

  /** A JSON value that Python treats as true: a non-empty string. */
  predicate Truthy(v: Option<string>) {
    v.Some? && |v.value| > 0
  }

  datatype Source = Math | DdgAbstract | DdgTopic | Wikipedia | GoogleSnippet | Fallback

  /** What the lookup does: speak an answer (and return True), or report that the internet is unreachable (False). */
  datatype Answer = Spoken(text: string, source: Source) | Unreachable {
    predicate Succeeded() {
      Spoken?
    }

    /** What the assistant says. */
    function Speech(): string {
      if Spoken? then text else UNREACHABLE_TEXT
    }
  }

  const FALLBACK_TEXT := "I couldn't find a direct answer, but you can check online."
  const UNREACHABLE_TEXT := "I couldn't reach the internet."
  const MIN_EXTRACT := 50

  /** The text of the first related topic that is an object with a non-empty "Text". */
  function FirstTopic(topics: seq<Topic>): (r: Option<string>)
    ensures r.Some? ==>
              exists k :: 0 <= k < |topics| && topics[k].TopicDict? && topics[k].text == r && Truthy(r) &&
                          forall j :: 0 <= j < k ==> !(topics[j].TopicDict? && Truthy(topics[j].text))
    ensures r.None? ==> forall k :: 0 <= k < |topics| ==> !(topics[k].TopicDict? && Truthy(topics[k].text))
    decreases |topics|
  {
    if topics == [] then None
    else if topics[0].TopicDict? && Truthy(topics[0].text) then topics[0].text
    else
      var r := FirstTopic(topics[1..]);
      assert forall k :: 0 <= k < |topics[1..]| ==> topics[1..][k] == topics[k + 1];
      r
  }

  /** The related-topics loop, topic by topic. */
  method FindTopic(topics: seq<Topic>) returns (r: Option<string>)
    ensures r == FirstTopic(topics)
  {
    var k := 0;
    while k < |topics|
      invariant 0 <= k <= |topics|
      invariant FirstTopic(topics) == FirstTopic(topics[k..])
    {
      var topic := topics[k];
      if topic.TopicDict? && Truthy(topic.text) {
        return topic.text;
      }
      assert topics[k..][1..] == topics[k + 1..];
      k := k + 1;
    }
    return None;
  }

  /** DuckDuckGo gave neither a non-empty abstract nor a usable related topic. */
  predicate DdgDeclined(ddg: DdgReply) {
    !Truthy(ddg.abstractText) && FirstTopic(ddg.topics).None?
  }

  /** Wikipedia's summary is unusable: a status other than 200, or no extract longer than fifty characters. */
  predicate WikiDeclined(wiki: WikiReply) {
    !(wiki.status == 200 && wiki.extract.Some? && |wiki.extract.value| > MIN_EXTRACT)
  }

  /**
   * The cascade after the arithmetic attempt: DuckDuckGo, Wikipedia, Google,
   * the fixed reply. Each answer names the conditions under which it is
   * given; a provider is consulted only when every earlier one declined, and
   * the first failed request ends the lookup.
   */
  function Lookup(w: World): (r: Answer)
    ensures r.Spoken? ==> r.source != Math
    ensures r.Spoken? && r.source == DdgAbstract ==>
      w.ddg.Got? && Truthy(w.ddg.value.abstractText) && r.text == w.ddg.value.abstractText.value
    ensures r.Spoken? && r.source == DdgTopic ==>
      w.ddg.Got? && !Truthy(w.ddg.value.abstractText) && FirstTopic(w.ddg.value.topics) == Some(r.text)
    ensures r.Spoken? && r.source == Wikipedia ==>
      w.ddg.Got? && DdgDeclined(w.ddg.value) && w.wiki.Got? && w.wiki.value.status == 200 &&
      w.wiki.value.extract == Some(r.text) && |r.text| > MIN_EXTRACT
    ensures r.Spoken? && r.source == GoogleSnippet ==>
      w.ddg.Got? && DdgDeclined(w.ddg.value) && w.wiki.Got? && WikiDeclined(w.wiki.value) &&
      w.google == Got(Some(r.text))
    ensures r.Spoken? && r.source == Fallback ==>
      w.ddg.Got? && DdgDeclined(w.ddg.value) && w.wiki.Got? && WikiDeclined(w.wiki.value) &&
      w.google == Got(None) && r.text == FALLBACK_TEXT
    ensures r.Unreachable? <==>
      w.ddg.Failed? ||
      (DdgDeclined(w.ddg.value) && w.wiki.Failed?) ||
      (DdgDeclined(w.ddg.value) && WikiDeclined(w.wiki.value) && w.google.Failed?)
  {
    match w.ddg
    case Failed => Unreachable
    case Got(ddg) =>
      if Truthy(ddg.abstractText) then Spoken(ddg.abstractText.value, DdgAbstract)
      else if FirstTopic(ddg.topics).Some? then Spoken(FirstTopic(ddg.topics).value, DdgTopic)
      else
        match w.wiki
        case Failed => Unreachable
        case Got(wiki) =>
          if wiki.status == 200 && wiki.extract.Some? && |wiki.extract.value| > MIN_EXTRACT then
            Spoken(wiki.extract.value, Wikipedia)
          else
            match w.google
            case Failed => Unreachable
            case Got(snippet) =>
              if snippet.Some? then Spoken(snippet.value, GoogleSnippet)
              else Spoken(FALLBACK_TEXT, Fallback)
  }

  /** `web_fallback_answer`: arithmetic first, when `findall` finds anything and `eval` succeeds. */
  function WebAnswer(query: string, w: World): (r: Answer)
    ensures r.Succeeded() <==> (Runs(query) != [] && w.eval(MathExpr(query)).Some?) || Lookup(w).Succeeded()
    ensures r.Unreachable? ==> w.ddg.Failed? || w.wiki.Failed? || w.google.Failed?
    ensures Runs(query) != [] && w.eval(MathExpr(query)).Some? ==>
              r == Spoken("The answer is " + w.eval(MathExpr(query)).value, Math)
    ensures !(Runs(query) != [] && w.eval(MathExpr(query)).Some?) ==> r == Lookup(w)
  {
    if Runs(query) != [] && w.eval(MathExpr(query)).Some? then
      Spoken("The answer is " + w.eval(MathExpr(query)).value, Math)
    else Lookup(w)
  }

  /** The lookup step by step, as the source runs it. */
  method AnswerQuery(query: string, w: World) returns (a: Answer)
    ensures a == WebAnswer(query, w)
  {
    var mathExpr := Runs(query);
    if mathExpr != [] {
      var result := w.eval(Join(mathExpr, ""));
      if result.Some? {
        return Spoken("The answer is " + result.value, Math);
      }
    }
    if w.ddg.Failed? {
      return Unreachable;
    }
    var data := w.ddg.value;
    if Truthy(data.abstractText) {
      return Spoken(data.abstractText.value, DdgAbstract);
    }
    var topic := FindTopic(data.topics);
    if topic.Some? {
      return Spoken(topic.value, DdgTopic);
    }
    if w.wiki.Failed? {
      return Unreachable;
    }
    var wiki := w.wiki.value;
    if wiki.status == 200 && wiki.extract.Some? && |wiki.extract.value| > MIN_EXTRACT {
      return Spoken(wiki.extract.value, Wikipedia);
    }
    if w.google.Failed? {
      return Unreachable;
    }
    if w.google.value.Some? {
      return Spoken(w.google.value.value, GoogleSnippet);
    }
    return Spoken(FALLBACK_TEXT, Fallback);
  }

  // ---------------------------------------------------------------------
  // Properties of the cascade
  // ---------------------------------------------------------------------

  /** A query whose extracted expression evaluates is answered with that value, whatever the providers say. */
  lemma MathNeedsNoNetwork(query: string, w: World, w': World)
    requires w'.eval == w.eval
    requires Runs(query) != [] && w.eval(MathExpr(query)).Some?
    ensures WebAnswer(query, w) == WebAnswer(query, w') == Spoken("The answer is " + w.eval(MathExpr(query)).value, Math)
  {
  }

  /** The expression evaluated is the query with every character outside the class dropped. */
  lemma MathEvaluatesFilter(query: string, w: World)
    requires exists i :: 0 <= i < |query| && Allowed(query[i])
    ensures w.eval(Filter(query)).Some? ==> WebAnswer(query, w) == Spoken("The answer is " + w.eval(Filter(query)).value, Math)
    ensures w.eval(Filter(query)).None? ==> WebAnswer(query, w) == Lookup(w)
  {
    RunsFound(query);
    MathExprIsFilter(query);
  }

  /** A non-empty abstract is the answer: the related topics and the later providers are irrelevant. */
  lemma AbstractShadowsLaterProviders(w: World, w': World)
    requires w.ddg.Got? && Truthy(w.ddg.value.abstractText) && w'.ddg.Got?
    requires w'.ddg.value.abstractText == w.ddg.value.abstractText
    ensures Lookup(w) == Lookup(w') == Spoken(w.ddg.value.abstractText.value, DdgAbstract)
  {
  }

  /**
   * A later provider is consulted only when every earlier one declined:
   * once DuckDuckGo answers, Wikipedia and Google do not matter, and once
   * Wikipedia answers, Google does not.
   */
  lemma EarlierProvidersShadowLater(w: World, w': World)
    requires w.ddg.Got? && w'.ddg == w.ddg
    ensures !DdgDeclined(w.ddg.value) ==> Lookup(w) == Lookup(w')
    ensures w.wiki.Got? && w'.wiki == w.wiki && !WikiDeclined(w.wiki.value) ==> Lookup(w) == Lookup(w')
  {
  }

  /** A Wikipedia extract is used only when it is longer than fifty characters. */
  lemma ShortExtractSkipped(w: World)
    requires w.ddg.Got? && !Truthy(w.ddg.value.abstractText) && FirstTopic(w.ddg.value.topics).None?
    requires w.wiki.Got? && w.wiki.value.extract.Some? && |w.wiki.value.extract.value| <= MIN_EXTRACT
    ensures Lookup(w).Spoken? ==> Lookup(w).source != Wikipedia
  {
  }

  /** Whenever every provider answers the request, the lookup speaks; it reports failure only on a failed request. */
  lemma ReachableAlwaysSpeaks(query: string, w: World)
    requires w.ddg.Got? && w.wiki.Got? && w.google.Got?
    ensures WebAnswer(query, w).Succeeded()
  {
  }
}
