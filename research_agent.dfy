/**
 * The research agent's local logic: folding the streamed response into one
 * text, and turning the decoded JSON array into research snippets.
 *
 * The remote agent, its session and the stream itself are outside the
 * model: the stream arrives as a sequence of events, and decoding JSON text
 * is a parameter (`loads`) that yields None where `json.loads` raises.
 */
module ResearchAgent {
  import opened Wrappers
  import opened JsonValue

  datatype ResearchSnippet = ResearchSnippet(title: string, url: string, content: string, summary: string)

  /**
   * The event types the stream loop tells apart: text deltas, the completion
   * event, and every other type name (`KindOf` maps a name to its type).
   */
  datatype EventType = OutputTextDelta | ResponseCompleted | OtherEvent(name: OtherName)

  const DeltaName: string := "response.output_text.delta"
  const CompletedName: string := "response.completed"

  /** Type names other than the two the loop tests for. */
  type OtherName = n: string | n != DeltaName && n != CompletedName witness ""

  /** The event type a type name denotes; each name has exactly one. */
  function KindOf(name: string): (k: EventType)
    ensures k == OutputTextDelta <==> name == DeltaName
    ensures k == ResponseCompleted <==> name == CompletedName
    ensures k.OtherEvent? ==> k.name == name
  {
    if name == DeltaName then OutputTextDelta
    else if name == CompletedName then ResponseCompleted
    else OtherEvent(name)
  }

  datatype StreamEvent = StreamEvent(kind: EventType, delta: string)

  datatype ParseError =
    | InvalidJson(excerpt: string)            // the text is not JSON; carries its first 1000 characters
    | NotIterable                             // the decoded value is null, a boolean or a number
    | NotAnObject(index: nat)                 // the item at this position cannot be indexed by key
    | MissingTitle(index: nat, item: Json)    // the item at this position has no "title"
    | WrongType(index: nat, key: string)      // a field of the item at this position is not a string

  // ------------------------------------------------------------------
  // Streaming
  // ------------------------------------------------------------------

  /** The text deltas streamed before the first completion event, concatenated. */
  function CollectDeltas(events: seq<StreamEvent>): string
  {
    if events == [] then ""
    else if events[0].kind == OutputTextDelta then events[0].delta + CollectDeltas(events[1..])
    else if events[0].kind == ResponseCompleted then ""
    else CollectDeltas(events[1..])
  }

  /** `"".join(parts)` */
  function Concat(parts: seq<string>): string
  {
    if parts == [] then "" else Concat(parts[..|parts| - 1]) + parts[|parts| - 1]
  }

  predicate HasCompletion(events: seq<StreamEvent>)
  {
    exists i :: 0 <= i < |events| && events[i].kind == ResponseCompleted
  }

  /** Before any completion event, the collected text is split the way the stream is. */
  lemma {:induction false} CollectDeltasAppend(s: seq<StreamEvent>, t: seq<StreamEvent>)
    requires !HasCompletion(s)
    ensures CollectDeltas(s + t) == CollectDeltas(s) + CollectDeltas(t)
  {
    if s == [] {
      assert s + t == t;
    } else {
      assert (s + t)[0] == s[0];
      assert s[0].kind != ResponseCompleted;
      assert (s + t)[1..] == s[1..] + t;
      assert !HasCompletion(s[1..]) by {
        forall i | 0 <= i < |s[1..]| ensures s[1..][i].kind != ResponseCompleted {
          assert s[1..][i] == s[i + 1];
        }
      }
      CollectDeltasAppend(s[1..], t);
    }
  }

  /** Nothing streamed after a completion event reaches the text. */
  lemma CompletionEndsStream(s: seq<StreamEvent>, e: StreamEvent, t: seq<StreamEvent>)
    requires !HasCompletion(s) && e.kind == ResponseCompleted
    ensures CollectDeltas(s + [e] + t) == CollectDeltas(s)
  {
    assert s + [e] + t == s + ([e] + t);
    CollectDeltasAppend(s, [e] + t);
    assert CollectDeltas([e] + t) == "";
  }

  /** Events of any other kind contribute nothing. */
  lemma OtherEventsIgnored(s: seq<StreamEvent>, e: StreamEvent, t: seq<StreamEvent>)
    requires !HasCompletion(s) && e.kind != ResponseCompleted && e.kind != OutputTextDelta
    ensures CollectDeltas(s + [e] + t) == CollectDeltas(s + t)
  {
    assert s + [e] + t == s + ([e] + t);
    CollectDeltasAppend(s, [e] + t);
    CollectDeltasAppend(s, t);
    assert ([e] + t)[1..] == t;
  }

  // ------------------------------------------------------------------
  // Whitespace stripping, as `str.strip()` with no argument
  // ------------------------------------------------------------------

  /** The characters `str.isspace` accepts. */
  predicate IsSpace(c: char)
  {
    c == ' ' || ('\t' <= c <= '\r') || ('\U{1C}' <= c <= '\U{1F}')
    || c == '\U{85}' || c == '\U{A0}' || c == '\U{1680}'
    || ('\U{2000}' <= c <= '\U{200A}') || c == '\U{2028}' || c == '\U{2029}'
    || c == '\U{202F}' || c == '\U{205F}' || c == '\U{3000}'
  }

  /** Leading whitespace dropped. */
  function StripStart(s: string): (r: string)
    ensures |r| <= |s| && r == s[|s| - |r|..]
    ensures forall k :: 0 <= k < |s| - |r| ==> IsSpace(s[k])
    ensures r == [] || !IsSpace(r[0])
  {
    if s == [] || !IsSpace(s[0]) then s
    else
      var r := StripStart(s[1..]);
      assert forall k :: 1 <= k < |s| ==> s[k] == s[1..][k - 1];
      r
  }

  /** Trailing whitespace dropped. */
  function StripEnd(s: string): (r: string)
    ensures |r| <= |s| && r == s[..|r|]
    ensures forall k :: |r| <= k < |s| ==> IsSpace(s[k])
    ensures r == [] || !IsSpace(r[|r| - 1])
  {
    if s == [] || !IsSpace(s[|s| - 1]) then s
    else
      var r := StripEnd(s[..|s| - 1]);
      assert forall k :: 0 <= k < |s| - 1 ==> s[k] == s[..|s| - 1][k];
      r
  }

  /** Whitespace dropped from both ends, as `str.strip()` does. */
  function Strip(s: string): string
  {
    StripEnd(StripStart(s))
  }

  /**
   * The stripped text is what lies between a whitespace-only prefix (of
   * length n) and a whitespace-only suffix.
   */
  lemma StripIsTrim(s: string)
    ensures var r, n := Strip(s), |s| - |StripStart(s)|;
      n + |r| <= |s| && r == s[n..n + |r|]
      && (forall k :: 0 <= k < n ==> IsSpace(s[k]))
      && (forall k :: n + |r| <= k < |s| ==> IsSpace(s[k]))
  {
    var t := StripStart(s);
    var r := StripEnd(t);
    var n := |s| - |t|;
    SliceOfSuffix(s, n, |r|);
    SpaceCarriesOver(s, n, t, |r|);
  }

  lemma SliceOfSuffix<T>(s: seq<T>, n: nat, m: nat)
    requires n + m <= |s|
    ensures s[n..][..m] == s[n..n + m]
  {
  }

  lemma SpaceCarriesOver(s: string, n: nat, t: string, m: nat)
    requires n <= |s| && t == s[n..] && m <= |t|
    requires forall k :: m <= k < |t| ==> IsSpace(t[k])
    ensures forall k :: n + m <= k < |s| ==> IsSpace(s[k])
  {
    forall k | n + m <= k < |s|
      ensures IsSpace(s[k])
    {
      assert s[k] == t[k - n];
    }
  }

  /** The stripped text neither begins nor ends with whitespace. */
  lemma StripHasNoSpaceAtEnds(s: string)
    ensures var r := Strip(s);
      r == [] || (!IsSpace(r[0]) && !IsSpace(r[|r| - 1]))
  {
    var t := StripStart(s);
    var r := StripEnd(t);
    assert r != [] ==> r[0] == t[0];
  }

  /** Stripping twice is stripping once. */
  lemma StripIdempotent(s: string)
    ensures Strip(Strip(s)) == Strip(s)
  {
    var r := Strip(s);
    StripHasNoSpaceAtEnds(s);
    if r != [] {
      assert StripStart(r) == r;
      assert StripEnd(r) == r;
    }
  }

  /** The text `research` parses: the collected deltas, stripped. */
  method AccumulateText(events: seq<StreamEvent>) returns (text: string)
    ensures text == Strip(CollectDeltas(events))
  {
    var buffer: seq<string> := [];
    var i := 0;
    while i < |events|
      invariant 0 <= i <= |events|
      invariant Concat(buffer) + CollectDeltas(events[i..]) == CollectDeltas(events)
    {
      var event := events[i];
      assert events[i..][0] == event;
      assert events[i..][1..] == events[i + 1..];
      if event.kind == OutputTextDelta {
        ghost var previous := buffer;
        ghost var before := Concat(buffer);
        buffer := buffer + [event.delta];
        assert buffer[..|buffer| - 1] == previous;
        assert Concat(buffer) == before + event.delta;
        assert CollectDeltas(events[i..]) == event.delta + CollectDeltas(events[i + 1..]);
        assert before + event.delta + CollectDeltas(events[i + 1..])
            == before + (event.delta + CollectDeltas(events[i + 1..]));
      } else if event.kind == ResponseCompleted {
        break;
      }
      i := i + 1;
    }
    assert i == |events| ==> events[i..] == [];
    assert CollectDeltas(events[i..]) == "";
    assert Concat(buffer) + "" == Concat(buffer);
    ghost var collected := Concat(buffer);
    assert collected == CollectDeltas(events);
    text := Strip(Concat(buffer));
  }

  // ------------------------------------------------------------------
  // Parsing the decoded array
  // ------------------------------------------------------------------

  /** `item.get(key, default)` for a text field; None when the value is not a string. */
  function TextField(f: map<string, Json>, key: string, default: string): Option<string>
  {
    if key !in f then Some(default)
    else if f[key].JString? then Some(f[key].s)
    else None
  }

  /**
   * The snippet for the item at position `index`: the title is required;
   * url and summary default to empty; content falls back to "body" and then
   * to empty.
   */
  function SnippetOf(index: nat, item: Json): Result<ResearchSnippet, ParseError>
  {
    if !item.JObject? then Failure(NotAnObject(index))
    else
      var f := item.fields;
      if "title" !in f then Failure(MissingTitle(index, item))
      else if !f["title"].JString? then Failure(WrongType(index, "title"))
      else
        var url := TextField(f, "url", "");
        var content := if "content" in f then TextField(f, "content", "") else TextField(f, "body", "");
        var summary := TextField(f, "summary", "");
        if url.None? then Failure(WrongType(index, "url"))
        else if content.None? then Failure(WrongType(index, if "content" in f then "content" else "body"))
        else if summary.None? then Failure(WrongType(index, "summary"))
        else Success(ResearchSnippet(f["title"].s, url.value, content.value, summary.value))
  }

  /**
   * One snippet per item, in order, or the error of the first item that
   * cannot become a snippet.
   */
  function ParseItems(items: seq<Json>): Result<seq<ResearchSnippet>, ParseError>
  {
    if items == [] then Success([])
    else
      var n := |items|;
      match ParseItems(items[..n - 1])
      case Failure(e) => Failure(e)
      case Success(ss) =>
        match SnippetOf(n - 1, items[n - 1])
        case Failure(e) => Failure(e)
        case Success(s) => Success(ss + [s])
  }

  /**
   * Parsing succeeds exactly when every item makes a snippet, and then gives
   * one snippet per item, in order.
   */
  lemma {:induction false} ParseItemsSucceeds(items: seq<Json>)
    ensures ParseItems(items).Success? <==> forall i :: 0 <= i < |items| ==> SnippetOf(i, items[i]).Success?
    ensures ParseItems(items).Success? ==> (|ParseItems(items).value| == |items|
      && (forall i :: 0 <= i < |items| ==> ParseItems(items).value[i] == SnippetOf(i, items[i]).value))
  {
    if items != [] {
      var n := |items|;
      var front := items[..n - 1];
      assert forall i :: 0 <= i < n - 1 ==> front[i] == items[i];
      ParseItemsSucceeds(front);
    }
  }

  /** A failed parse reports the first item that does not make a snippet. */
  lemma {:induction false} ParseItemsFailsFirst(items: seq<Json>)
    ensures ParseItems(items).Failure? ==> exists i :: (0 <= i < |items| && SnippetOf(i, items[i]).Failure?
      && (forall j :: 0 <= j < i ==> SnippetOf(j, items[j]).Success?)
      && ParseItems(items).error == SnippetOf(i, items[i]).error)
  {
    if items != [] {
      var n := |items|;
      var front := items[..n - 1];
      assert forall i :: 0 <= i < n - 1 ==> front[i] == items[i];
      if ParseItems(front).Failure? {
        ParseItemsFailsFirst(front);
        var k :| 0 <= k < |front| && SnippetOf(k, front[k]).Failure?
          && (forall j :: 0 <= j < k ==> SnippetOf(j, front[j]).Success?)
          && ParseItems(front).error == SnippetOf(k, front[k]).error;
        assert SnippetOf(k, items[k]).Failure?;
      } else {
        ParseItemsSucceeds(front);
      }
    }
  }

  /** What `iter(raw)` yields, as far as the item loop can tell. */
  function Iterate(raw: Json): Result<seq<Json>, ParseError>
  {
    match raw
    case JArray(items) => Success(items)
    case JString(s) => if s == "" then Success([]) else Failure(NotAnObject(0))
    case JObject(m) => if m == map[] then Success([]) else Failure(NotAnObject(0))
    case _ => Failure(NotIterable)
  }

  function Excerpt(text: string): (r: string)
    ensures |r| == (if |text| <= 1000 then |text| else 1000)
    ensures r == text[..|r|]
  {
    if |text| <= 1000 then text else text[..1000]
  }

  /** `_parse_json_array(text)`, given what decoding the text produced. */
  function Parse(text: string, decoded: Option<Json>): Result<seq<ResearchSnippet>, ParseError>
  {
    match decoded
    case None => Failure(InvalidJson(Excerpt(text)))
    case Some(raw) =>
      match Iterate(raw)
      case Failure(e) => Failure(e)
      case Success(items) => ParseItems(items)
  }

  lemma {:induction false} ParseFailurePersists(items: seq<Json>, j: nat)
    requires j <= |items|
    requires ParseItems(items[..j]).Failure?
    ensures ParseItems(items) == ParseItems(items[..j])
    decreases |items| - j
  {
    if j < |items| {
      var n := |items|;
      if j < n - 1 {
        assert items[..n - 1][..j] == items[..j];
        ParseFailurePersists(items[..n - 1], j);
      } else {
        assert items[..n - 1] == items[..j];
      }
    } else {
      assert items[..j] == items;
    }
  }

  /** The loop of `_parse_json_array`. */
  method ParseJsonArray(text: string, decoded: Option<Json>) returns (r: Result<seq<ResearchSnippet>, ParseError>)
    ensures r == Parse(text, decoded)
  {
    if decoded.None? {
      return Failure(InvalidJson(Excerpt(text)));
    }
    var raw := Iterate(decoded.value);
    if raw.Failure? {
      return Failure(raw.error);
    }
    var items := raw.value;
    var snippets: seq<ResearchSnippet> := [];
    var idx := 0;
    while idx < |items|
      invariant 0 <= idx <= |items|
      invariant ParseItems(items[..idx]) == Success(snippets)
    {
      var s := SnippetOf(idx, items[idx]);
      assert items[..idx + 1][..idx] == items[..idx];
      if s.Failure? {
        ParseFailurePersists(items, idx + 1);
        return Failure(s.error);
      }
      snippets := snippets + [s.value];
      idx := idx + 1;
    }
    assert items[..idx] == items;
    return Success(snippets);
  }

  /** `research(query)` once the stream has been read: collect, strip, parse. */
  method Research(events: seq<StreamEvent>, loads: string -> Option<Json>)
      returns (r: Result<seq<ResearchSnippet>, ParseError>)
    ensures r == Parse(Strip(CollectDeltas(events)), loads(Strip(CollectDeltas(events))))
  {
    var text := AccumulateText(events);
    r := ParseJsonArray(text, loads(text));
  }

  // ------------------------------------------------------------------
  // Partners: the object an agent is asked to return for a snippet
  // ------------------------------------------------------------------

  function SnippetObject(s: ResearchSnippet): Json
  {
    JObject(map["title" := JString(s.title), "url" := JString(s.url),
                "content" := JString(s.content), "summary" := JString(s.summary)])
  }

  /** A well-formed array of snippet objects parses back to the same snippets. */
  lemma ParseSnippetObjects(text: string, snippets: seq<ResearchSnippet>)
    ensures Parse(text, Some(JArray(seq(|snippets|, i requires 0 <= i < |snippets| => SnippetObject(snippets[i])))))
         == Success(snippets)
  {
    var items := seq(|snippets|, i requires 0 <= i < |snippets| => SnippetObject(snippets[i]));
    assert forall i :: 0 <= i < |items| ==> SnippetOf(i, items[i]) == Success(snippets[i]);
    ParseItemsSucceeds(items);
    var r := ParseItems(items);
    assert r.value == snippets;
  }

  /** Only the title is required; the other fields default to empty text. */
  lemma TitleOnlyItem(index: nat, title: string)
    ensures SnippetOf(index, JObject(map["title" := JString(title)]))
         == Success(ResearchSnippet(title, "", "", ""))
  {
  }

  /**
   * For any object with a string title: an absent url or summary becomes
   * empty text, and a string "content" is the content whatever "body" holds.
   */
  lemma SnippetDefaults(index: nat, f: map<string, Json>)
    requires "title" in f && f["title"].JString?
    requires SnippetOf(index, JObject(f)).Success?
    ensures SnippetOf(index, JObject(f)).value.title == f["title"].s
    ensures "url" !in f ==> SnippetOf(index, JObject(f)).value.url == ""
    ensures "summary" !in f ==> SnippetOf(index, JObject(f)).value.summary == ""
    ensures "content" in f ==> SnippetOf(index, JObject(f)).value.content == f["content"].s
    ensures "content" !in f && "body" !in f ==> SnippetOf(index, JObject(f)).value.content == ""
  {
  }

  /** Without "content", the "body" field supplies the content. */
  lemma BodyStandsInForContent(index: nat, f: map<string, Json>, body: string)
    requires "title" in f && f["title"].JString?
    requires "content" !in f && "body" in f && f["body"] == JString(body)
    requires TextField(f, "url", "").Some? && TextField(f, "summary", "").Some?
    ensures SnippetOf(index, JObject(f)).Success?
    ensures SnippetOf(index, JObject(f)).value.content == body
  {
  }

  /** An item without a title stops parsing with that item's position. */
  lemma MissingTitleReported(items: seq<Json>, k: nat)
    requires k < |items| && items[k].JObject? && "title" !in items[k].fields
    requires forall j :: 0 <= j < k ==> SnippetOf(j, items[j]).Success?
    ensures ParseItems(items) == Failure(MissingTitle(k, items[k]))
  {
    ParseItemsSucceeds(items);
    ParseItemsFailsFirst(items);
    var r := ParseItems(items);
    assert r.Failure?;
  }
}
