/**
 * The query router (`QueryRouter` in src/chains/routing_chain.py): the
 * reply of the language model is parsed line by line into a query type, a
 * reasoning text and an optional metadata filter; a keyword heuristic takes
 * over when the parsed filter is not a string-to-string mapping. The model
 * and `json.loads` are parameters: `LlmReply` is what the chain returned,
 * `json` what `json.loads` makes of a text.
 */
module Routing {
  import opened Text

  datatype QueryType = Simple | CrossDocument | Aggregation | Complex {
    /** The enum's string value. */
    function Value(): string {
      match this
      case Simple => "simple"
      case CrossDocument => "cross_document"
      case Aggregation => "aggregation"
      case Complex => "complex"
    }
  }

  /** `QueryRoute`: the routing decision. */
  datatype QueryRoute = QueryRoute(queryType: QueryType, reasoning: string, metadataFilter: Option<map<string, string>>)

  /** What the routing chain gives back: the reply text, or an exception. */
  datatype LlmReply = Ok(text: string) | Failure

  /** What `json.loads` makes of a text, as far as the router cares. */
  datatype JsonValue = JsonInvalid | JsonNull | JsonStringMap(entries: map<string, string>) | JsonOther

  /**
   * The value `metadata_filter` holds: nothing, a mapping the route accepts,
   * or a parsed JSON value of another shape, which fails the route's validation.
   */
  datatype FilterValue = NoFilter | StringMap(entries: map<string, string>) | Unusable

  const FALLBACK_REASONING := "Fallback due to routing error"

  /**
   * `_map_query_type`: nothing or empty text is simple; otherwise the
   * lowercased, stripped text is searched for cues in a fixed order:
   * "cross" or "multi", then "aggregation" or "count", then "complex",
   * and a text with none of them is simple.
   */
  function MapQueryType(typeText: Option<string>): (t: QueryType)
    ensures typeText.None? || typeText.value == [] ==> t == Simple
    ensures typeText.Some? && typeText.value != [] ==>
      var n := Strip(LowerStr(typeText.value));
      var cross := Contains(n, "cross") || Contains(n, "multi");
      var counting := Contains(n, "aggregation") || Contains(n, "count");
      && (t == CrossDocument <==> cross)
      && (t == Aggregation <==> !cross && counting)
      && (t == Complex <==> !cross && !counting && Contains(n, "complex"))
      && (t == Simple <==> !cross && !counting && !Contains(n, "complex"))
  {
    if typeText.None? || typeText.value == [] then Simple
    else TypeOfCues(Strip(LowerStr(typeText.value)))
  }

  /** The cue search over the normalised type text. */
  function TypeOfCues(t: string): QueryType {
    if Contains(t, "cross") || Contains(t, "multi") then CrossDocument
    else if Contains(t, "aggregation") || Contains(t, "count") then Aggregation
    else if Contains(t, "complex") then Complex
    else Simple
  }

  /** The characters `strip('"\'')` removes. */
  const QUOTES: set<char> := {'"', '\''}

  /** `s.strip().strip('"\'')` */
  function Unquote(s: string): (r: string)
    ensures r != [] ==> r[0] !in QUOTES && r[|r| - 1] !in QUOTES
  {
    StripChars(Strip(s), QUOTES)
  }

  /**
   * `_parse_filter_string`: JSON when the text has a brace and parses, else
   * a single `key: value` pair split at the first colon, else nothing.
   */
  function ParseFilterString(s: string, json: string -> JsonValue): (f: FilterValue)
    ensures f == Unusable ==> '{' in s && json(s) == JsonOther
    ensures f.StringMap? && ('{' !in s || json(s) == JsonInvalid) ==> ':' in s
  {
    if '{' in s && json(s) != JsonInvalid then
      match json(s)
      case JsonNull => NoFilter
      case JsonStringMap(m) => StringMap(m)
      case _ => Unusable
    else
      match SplitFirst(s, ':')
      case Some((key, value)) => StringMap(map[Unquote(key) := Unquote(value)])
      case None => NoFilter
  }

  /**
   * When the text has no brace, or has one but is not valid JSON (the
   * `JSONDecodeError` is swallowed), the pair syntax decides: no colon gives
   * no filter, otherwise the single unquoted pair split at the first colon.
   */
  lemma ParseFilterPairs(s: string, json: string -> JsonValue)
    requires '{' !in s || json(s) == JsonInvalid
    ensures ':' !in s ==> ParseFilterString(s, json) == NoFilter
    ensures ':' in s ==> exists key, value ::
      && s == key + ":" + value && ':' !in key
      && ParseFilterString(s, json) == StringMap(map[Unquote(key) := Unquote(value)])
  {
    if ':' in s {
      var Some((key, value)) := SplitFirst(s, ':');
      assert s == key + ":" + value && ':' !in key;
      assert ParseFilterString(s, json) == StringMap(map[Unquote(key) := Unquote(value)]);
    }
  }

  /** A brace and valid JSON: the parsed value decides, and the pair syntax is never tried. */
  lemma ParseFilterJson(s: string, json: string -> JsonValue)
    requires '{' in s && json(s) != JsonInvalid
    ensures json(s).JsonStringMap? ==> ParseFilterString(s, json) == StringMap(json(s).entries)
    ensures json(s) == JsonNull ==> ParseFilterString(s, json) == NoFilter
    ensures json(s) == JsonOther ==> ParseFilterString(s, json) == Unusable
  {
  }

  /** The variables `_parse_routing_response` overwrites while reading the reply. */
  datatype ParseState = ParseState(typeText: Option<string>, reasoning: Option<string>, filter: FilterValue)

  const INITIAL := ParseState(None, None, NoFilter)

  /** `line.split(":", 1)[1]`: what follows the first colon. */
  function AfterColon(line: string): string {
    match SplitFirst(line, ':')
    case Some((_, after)) => after
    case None => ""
  }

  predicate IsTypeLine(line: string) { StartsWith(LowerStr(Strip(line)), "type:") }
  predicate IsReasoningLine(line: string) { StartsWith(LowerStr(Strip(line)), "reasoning:") }
  predicate IsFilterLine(line: string) { StartsWith(LowerStr(Strip(line)), "filter:") }

  /** The filter text of a filter line, and whether it sets the filter. */
  function FilterText(line: string): string { Strip(AfterColon(Strip(line))) }
  predicate SetsFilter(line: string) {
    FilterText(line) != [] && LowerStr(FilterText(line)) != "none"
  }

  /** One iteration of the loop over the reply's lines. */
  function Step(st: ParseState, line: string, json: string -> JsonValue): ParseState {
    var l := Strip(line);
    if IsTypeLine(line) then st.(typeText := Some(LowerStr(Strip(AfterColon(l)))))
    else if IsReasoningLine(line) then st.(reasoning := Some(Strip(AfterColon(l))))
    else if IsFilterLine(line) then
      if SetsFilter(line) then st.(filter := ParseFilterString(FilterText(line), json)) else st
    else st
  }

  /** The state after reading `lines` in order. */
  function Scan(lines: seq<string>, json: string -> JsonValue): ParseState {
    Fold(INITIAL, lines, StepWith(json))
  }

  function StepWith(json: string -> JsonValue): (ParseState, string) -> ParseState {
    (st: ParseState, line: string) => Step(st, line, json)
  }

  /** "Classified as <type> query" */
  function DefaultReasoning(t: QueryType): string {
    "Classified as " + t.Value() + " query"
  }

  predicate AggregationCue(q: string) {
    Contains(q, "how many") || Contains(q, "count") || Contains(q, "total") || Contains(q, "number of")
  }

  predicate BreadthCue(q: string) {
    Contains(q, "all") || Contains(q, "which students") || Contains(q, "list") || Contains(q, "show me")
  }

  predicate ToolCue(q: string) {
    Contains(q, "conflict") || Contains(q, "generate") || Contains(q, "export") || Contains(q, "csv")
  }

  /** `_heuristic_route`: keyword cues on the lowercased query, aggregation first, then breadth, then tools. */
  function HeuristicRoute(query: string): (r: QueryRoute)
    ensures r.metadataFilter.None? && r.reasoning != []
    ensures r.queryType == Simple <==>
      !AggregationCue(LowerStr(query)) && !BreadthCue(LowerStr(query)) && !ToolCue(LowerStr(query))
  {
    var q := LowerStr(query);
    if AggregationCue(q) then QueryRoute(Aggregation, "Query contains aggregation keywords", None)
    else if BreadthCue(q) then QueryRoute(CrossDocument, "Query likely requires multiple documents", None)
    else if ToolCue(q) then QueryRoute(Complex, "Query requires complex reasoning or tools", None)
    else QueryRoute(Simple, "Simple factual query", None)
  }

  /** Building the route from the final state; a filter of the wrong shape fails validation and the heuristic decides. */
  function Finish(st: ParseState, query: string): (r: QueryRoute)
    ensures r.reasoning != []
    ensures st.filter != Unusable ==> r.queryType == MapQueryType(st.typeText)
    ensures r.metadataFilter.Some? ==> st.filter == StringMap(r.metadataFilter.value)
    ensures st.filter.StringMap? ==> r.metadataFilter == Some(st.filter.entries)
  {
    match st.filter
    case Unusable => HeuristicRoute(query)
    case NoFilter => Classified(st, None)
    case StringMap(m) => Classified(st, Some(m))
  }

  /** The route the parsed values give when the filter passes validation. */
  function Classified(st: ParseState, filter: Option<map<string, string>>): (r: QueryRoute)
    ensures r.reasoning != [] && r.queryType == MapQueryType(st.typeText) && r.metadataFilter == filter
  {
    var t := MapQueryType(st.typeText);
    var reasoning := if st.reasoning.None? || st.reasoning.value == [] then DefaultReasoning(t) else st.reasoning.value;
    QueryRoute(t, reasoning, filter)
  }

  /** The lines `_parse_routing_response` reads. */
  function ReplyLines(response: string): seq<string> {
    Split(Strip(response), '\n')
  }

  /** `_parse_routing_response(response, query)` */
  function ParseRouting(response: string, query: string, json: string -> JsonValue): (r: QueryRoute)
    ensures r.reasoning != []
    ensures r.metadataFilter.Some? ==> Scan(ReplyLines(response), json).filter == StringMap(r.metadataFilter.value)
  {
    Finish(Scan(ReplyLines(response), json), query)
  }

  method ParseRoutingResponse(response: string, query: string, json: string -> JsonValue) returns (route: QueryRoute)
    ensures route == ParseRouting(response, query, json)
  {
    var lines := ReplyLines(response);
    var st := ScanLines(lines, json);
    route := Finish(st, query);
  }

  /** The loop of `_parse_routing_response`: each line may overwrite one of the three values. */
  method ScanLines(lines: seq<string>, json: string -> JsonValue) returns (st: ParseState)
    ensures st == Scan(lines, json)
  {
    st := INITIAL;
    var i := 0;
    while i < |lines|
      invariant i <= |lines|
      invariant st == Scan(lines[..i], json)
    {
      assert lines[..i + 1][..i] == lines[..i];
      st := Step(st, lines[i], json);
      i := i + 1;
    }
    assert lines[..i] == lines;
  }

  /** `route_query`: a failing chain gives the simple fallback; otherwise the reply is parsed. */
  function RouteQuery(query: string, reply: LlmReply, json: string -> JsonValue): (r: QueryRoute)
    ensures r.reasoning != []
    ensures reply.Failure? ==> r == QueryRoute(Simple, FALLBACK_REASONING, None)
  {
    match reply
    case Failure => QueryRoute(Simple, FALLBACK_REASONING, None)
    case Ok(text) => ParseRouting(text, query, json)
  }

  /** The type text is read without regard to case. */
  lemma MapQueryTypeIgnoresCase(s: string)
    ensures MapQueryType(Some(UpperStr(s))) == MapQueryType(Some(s))
  {
    LowerOfUpper(s);
    assert Strip(LowerStr(UpperStr(s))) == Strip(LowerStr(s));
  }

  /** Every query type's own value maps back to that type. */
  lemma MapQueryTypeRoundTrip(t: QueryType)
    ensures MapQueryType(Some(t.Value())) == t
  {
    var v := t.Value();
    LowerStripFixed(v);
    assert MapQueryType(Some(v)) == TypeOfCues(v);
    match t
    case Simple => SimpleHasNoCue();
    case CrossDocument => CrossDocumentCue();
    case Aggregation => AggregationCues();
    case Complex => ComplexCues();
  }

  /** The values are already lowercase and stripped. */
  lemma LowerStripFixed(v: string)
    requires v == "simple" || v == "cross_document" || v == "aggregation" || v == "complex"
    ensures Strip(LowerStr(v)) == v
  {
    assert LowerStr(v) == v;
    StripNoSpace(v);
  }

  lemma SimpleHasNoCue()
    ensures TypeOfCues("simple") == Simple
  {
    NotContains("simple", "cross");
    NotContains("simple", "multi");
    NotContains("simple", "aggregation");
    NotContains("simple", "count");
    NotContains("simple", "complex");
  }

  lemma CrossDocumentCue()
    ensures TypeOfCues("cross_document") == CrossDocument
  {
    ContainsAt("cross_document", "cross", 0);
  }

  lemma AggregationCues()
    ensures TypeOfCues("aggregation") == Aggregation
  {
    NotContains("aggregation", "cross");
    NotContains("aggregation", "multi");
    ContainsAt("aggregation", "aggregation", 0);
  }

  lemma ComplexCues()
    ensures TypeOfCues("complex") == Complex
  {
    assert "complex"[..5][1] != "cross"[1] && "complex"[2..7][1] != "multi"[1] && "complex"[..5][2] != "count"[2];
    NotContains("complex", "cross");
    NotContains("complex", "multi");
    NotContains("complex", "aggregation");
    NotContains("complex", "count");
    ContainsAt("complex", "complex", 0);
  }

  /** A text is not found when no position of it starts with the first character followed by the rest. */
  lemma NotContains(s: string, sub: string)
    requires sub != []
    requires forall i :: 0 <= i < |s| && s[i] == sub[0] ==> !StartsWith(s[i..], sub)
    ensures !Contains(s, sub)
  {
  }

  /**
   * The heuristic never proposes a filter and always explains itself; each
   * type is chosen exactly when its cues occur and no earlier-checked cue does.
   */
  lemma HeuristicPrecedence(query: string)
    ensures var r := HeuristicRoute(query); r.metadataFilter.None? && r.reasoning != []
    ensures var q := LowerStr(query); var t := HeuristicRoute(query).queryType;
      && (t == Aggregation <==> AggregationCue(q))
      && (t == CrossDocument <==> !AggregationCue(q) && BreadthCue(q))
      && (t == Complex <==> !AggregationCue(q) && !BreadthCue(q) && ToolCue(q))
      && (t == Simple <==> !AggregationCue(q) && !BreadthCue(q) && !ToolCue(q))
  {
  }

  /** No two directive prefixes fit the same line. */
  lemma DirectivesExclusive(line: string)
    ensures !(IsTypeLine(line) && IsReasoningLine(line))
    ensures !(IsTypeLine(line) && IsFilterLine(line))
    ensures !(IsReasoningLine(line) && IsFilterLine(line))
  {
    var l := LowerStr(Strip(line));
    if IsTypeLine(line) {
      StartsWithHead(l, "type:");
    }
    if IsReasoningLine(line) {
      StartsWithHead(l, "reasoning:");
    }
    if IsFilterLine(line) {
      StartsWithHead(l, "filter:");
    }
  }

  /** A line the loop passes over: no directive, or a filter whose value is empty or "none". */
  predicate Ignorable(line: string) {
    !IsTypeLine(line) && !IsReasoningLine(line) && (!IsFilterLine(line) || !SetsFilter(line))
  }

  /** Ignorable lines can be dropped from anywhere in the reply without changing what is parsed. */
  lemma ScanSkipsIgnorable(a: seq<string>, line: string, b: seq<string>, json: string -> JsonValue)
    requires Ignorable(line)
    ensures Scan(a + [line] + b, json) == Scan(a + b, json)
  {
    FoldSkips(INITIAL, a, line, b, StepWith(json));
  }

  /** The type text of a type line, lowercased. */
  function TypeValue(line: string): string { LowerStr(Strip(AfterColon(Strip(line)))) }

  function TypeOf(st: ParseState): Option<string> { st.typeText }
  function ReasoningOf(st: ParseState): Option<string> { st.reasoning }
  function FilterOf(st: ParseState): FilterValue { st.filter }

  /** The last type line decides the type text. */
  lemma LastTypeLineWins(lines: seq<string>, json: string -> JsonValue, k: nat)
    requires k < |lines| && IsTypeLine(lines[k])
    requires forall j :: k < j < |lines| ==> !IsTypeLine(lines[j])
    ensures Scan(lines, json).typeText == Some(TypeValue(lines[k]))
  {
    var step := StepWith(json);
    forall s ensures TypeOf(step(s, lines[k])) == Some(TypeValue(lines[k])) {
      StepTypeEffect(s, lines[k], json);
    }
    forall j, s | k < j < |lines| ensures TypeOf(step(s, lines[j])) == TypeOf(s) {
      StepTypeEffect(s, lines[j], json);
    }
    FoldLastWrite(INITIAL, lines, step, TypeOf, k, Some(TypeValue(lines[k])));
  }

  /** What one line does to the type text. */
  lemma StepTypeEffect(st: ParseState, line: string, json: string -> JsonValue)
    ensures IsTypeLine(line) ==> Step(st, line, json).typeText == Some(TypeValue(line))
    ensures !IsTypeLine(line) ==> Step(st, line, json).typeText == st.typeText
  {
  }

  /** Without a type line there is no type text, so the type is simple. */
  lemma NoTypeLine(lines: seq<string>, json: string -> JsonValue)
    requires forall j :: 0 <= j < |lines| ==> !IsTypeLine(lines[j])
    ensures Scan(lines, json).typeText.None?
  {
    FoldNoWrite(INITIAL, lines, StepWith(json), TypeOf);
  }

  /** The last reasoning line decides the reasoning text. */
  lemma LastReasoningLineWins(lines: seq<string>, json: string -> JsonValue, k: nat)
    requires k < |lines| && IsReasoningLine(lines[k])
    requires forall j :: k < j < |lines| ==> !IsReasoningLine(lines[j])
    ensures Scan(lines, json).reasoning == Some(Strip(AfterColon(Strip(lines[k]))))
  {
    var step := StepWith(json);
    var v := Some(Strip(AfterColon(Strip(lines[k]))));
    forall s ensures ReasoningOf(step(s, lines[k])) == v {
      StepReasoningEffect(s, lines[k], json);
    }
    forall j, s | k < j < |lines| ensures ReasoningOf(step(s, lines[j])) == ReasoningOf(s) {
      StepReasoningEffect(s, lines[j], json);
    }
    FoldLastWrite(INITIAL, lines, step, ReasoningOf, k, v);
  }

  /** What one line does to the reasoning text. */
  lemma StepReasoningEffect(st: ParseState, line: string, json: string -> JsonValue)
    ensures IsReasoningLine(line) ==> Step(st, line, json).reasoning == Some(Strip(AfterColon(Strip(line))))
    ensures !IsReasoningLine(line) ==> Step(st, line, json).reasoning == st.reasoning
  {
    DirectivesExclusive(line);
  }

  lemma NoReasoningLine(lines: seq<string>, json: string -> JsonValue)
    requires forall j :: 0 <= j < |lines| ==> !IsReasoningLine(lines[j])
    ensures Scan(lines, json).reasoning.None?
  {
    FoldNoWrite(INITIAL, lines, StepWith(json), ReasoningOf);
  }

  /** A filter line that sets the filter. */
  predicate UpdatesFilter(line: string) {
    IsFilterLine(line) && SetsFilter(line)
  }

  /** The last filter line with a value other than empty or "none" decides the filter. */
  lemma LastFilterLineWins(lines: seq<string>, json: string -> JsonValue, k: nat)
    requires k < |lines| && UpdatesFilter(lines[k])
    requires forall j :: k < j < |lines| ==> !UpdatesFilter(lines[j])
    ensures Scan(lines, json).filter == ParseFilterString(FilterText(lines[k]), json)
  {
    var v := ParseFilterString(FilterText(lines[k]), json);
    FilterWrittenBy(lines[k], json);
    FilterKeptAfter(lines, json, k);
    FoldLastWrite(INITIAL, lines, StepWith(json), FilterOf, k, v);
  }

  lemma FilterWrittenBy(line: string, json: string -> JsonValue)
    requires UpdatesFilter(line)
    ensures forall s :: FilterOf(StepWith(json)(s, line)) == ParseFilterString(FilterText(line), json)
  {
    forall s ensures FilterOf(StepWith(json)(s, line)) == ParseFilterString(FilterText(line), json) {
      StepFilterEffect(s, line, json);
    }
  }

  lemma FilterKeptAfter(lines: seq<string>, json: string -> JsonValue, k: nat)
    requires forall j :: k < j < |lines| ==> !UpdatesFilter(lines[j])
    ensures forall j, s :: k < j < |lines| ==> FilterOf(StepWith(json)(s, lines[j])) == FilterOf(s)
  {
    forall j, s | k < j < |lines| ensures FilterOf(StepWith(json)(s, lines[j])) == FilterOf(s) {
      StepFilterEffect(s, lines[j], json);
    }
  }

  /** What one line does to the filter. */
  lemma StepFilterEffect(st: ParseState, line: string, json: string -> JsonValue)
    ensures UpdatesFilter(line) ==> Step(st, line, json).filter == ParseFilterString(FilterText(line), json)
    ensures !UpdatesFilter(line) ==> Step(st, line, json).filter == st.filter
  {
    DirectivesExclusive(line);
  }

  /** Without such a line the route has no filter. */
  lemma NoFilterLine(lines: seq<string>, json: string -> JsonValue)
    requires forall j :: 0 <= j < |lines| ==> !UpdatesFilter(lines[j])
    ensures Scan(lines, json).filter == NoFilter
  {
    FoldNoWrite(INITIAL, lines, StepWith(json), FilterOf);
  }

  /**
   * `route_query` always answers with a reason: a failing chain gives the
   * simple fallback without filter, and a missing or empty reasoning line
   * gives "Classified as <type> query".
   */
  lemma RouteQueryReasoning(query: string, reply: LlmReply, json: string -> JsonValue)
    ensures RouteQuery(query, reply, json).reasoning != []
    ensures reply.Failure? ==> RouteQuery(query, reply, json) == QueryRoute(Simple, FALLBACK_REASONING, None)
    ensures reply.Ok? ==> var st := Scan(ReplyLines(reply.text), json);
      st.filter != Unusable && (st.reasoning.None? || st.reasoning.value == []) ==>
        RouteQuery(query, reply, json).reasoning == DefaultReasoning(MapQueryType(st.typeText))
  {
    if reply.Ok? {
      FinishReasoning(Scan(ReplyLines(reply.text), json), query);
    }
  }

  /** The reasoning of a finished route is never empty; a missing one is the default text. */
  lemma FinishReasoning(st: ParseState, query: string)
    ensures Finish(st, query).reasoning != []
    ensures st.filter != Unusable && (st.reasoning.None? || st.reasoning.value == []) ==>
      Finish(st, query).reasoning == DefaultReasoning(MapQueryType(st.typeText))
  {
    if st.filter == Unusable {
      HeuristicPrecedence(query);
    } else {
      var t := MapQueryType(st.typeText);
      assert DefaultReasoning(t)[0] == 'C';
    }
  }

  /** The heuristic is reached from a reply only through a filter that is not a string mapping. */
  lemma HeuristicOnlyForUnusableFilter(response: string, query: string, json: string -> JsonValue)
    ensures var st := Scan(ReplyLines(response), json);
      st.filter == Unusable ==> ParseRouting(response, query, json) == HeuristicRoute(query)
    ensures var st := Scan(ReplyLines(response), json);
      st.filter != Unusable ==> ParseRouting(response, query, json).queryType == MapQueryType(st.typeText)
  {
  }
}

