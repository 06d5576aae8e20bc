/**
 * The holiday extractor of holidays.py: `_HolidayAnchorParser`, a state
 * machine driven by the tag and text events of an HTML tokenizer, and
 * `_parse_holidays`, which runs it for the container of one calendar date.
 *
 * The tokenizer itself is not modelled: a page is the sequence of events it
 * would report (tag and attribute names lower-cased, character references
 * already decoded).
 */
module Extractor {
  import opened Wrappers
  import opened Text
  import opened Calendar

  /** An attribute as HTMLParser reports it; a valueless attribute has value None. */
  datatype Attr = Attr(name: string, value: Option<string>)

  datatype Token =
    | StartTag(tag: string, attrs: seq<Attr>)
    | EndTag(tag: string)
    | Data(text: string)

  /** `dict(attrs).get(key)`: None when absent; the last occurrence wins. */
  function AttrGet(attrs: seq<Attr>, key: string): (r: Option<Option<string>>)
    ensures r.Some? <==> exists i :: 0 <= i < |attrs| && attrs[i].name == key
    ensures r.Some? ==> exists i :: && 0 <= i < |attrs| && attrs[i].name == key && r.value == attrs[i].value
                                   && forall j :: i < j < |attrs| ==> attrs[j].name != key
    decreases |attrs|
  {
    if attrs == [] then None
    else
      match AttrGet(attrs[1..], key)
      case Some(v) => Some(v)
      case None => if attrs[0].name == key then Some(attrs[0].value) else None
  }

  /** `dict(attrs).get("href") or ""`. */
  function Href(attrs: seq<Attr>): string {
    match AttrGet(attrs, "href")
    case Some(Some(v)) => v
    case _ => ""
  }

  /** The marker that identifies a link to a holiday page. */
  const HolidayLinkMarker := "/holidays/0/0/"

  /** The id of the container of date d: `div_{year}-{month}-{day}`, no leading zeros. */
  function DivId(d: Date): string
    requires ValidDate(d)
  {
    "div_" + Join([NatToString(d.year), NatToString(d.month), NatToString(d.day)], '-')
  }

  /** The parser's fields: _inside_target, _target_depth, _capture, _buffer, _holidays. */
  datatype ParserState = ParserState(
    insideTarget: bool,
    targetDepth: int,
    capture: bool,
    buffer: seq<string>,
    holidays: seq<string>)

  const Initial := ParserState(false, 0, false, [], [])

  /**
   * What every reachable state satisfies: the depth is positive exactly
   * inside the target container, and every name collected so far is
   * non-empty and trimmed.
   */
  predicate Consistent(s: ParserState) {
    && s.targetDepth >= 0
    && (s.insideTarget <==> s.targetDepth > 0)
    && forall i :: 0 <= i < |s.holidays| ==> s.holidays[i] != "" && IsTrimmed(s.holidays[i])
  }

  /** handle_starttag. */
  function OnStartTag(s: ParserState, targetId: string, tag: string, attrs: seq<Attr>): ParserState {
    if tag == "div" then
      if s.insideTarget then s.(targetDepth := s.targetDepth + 1)
      else if AttrGet(attrs, "id") == Some(Some(targetId)) then s.(insideTarget := true, targetDepth := 1)
      else s
    else if !s.insideTarget then s
    else if tag == "a" && Contains(Href(attrs), HolidayLinkMarker) then s.(capture := true, buffer := [])
    else s
  }

  /** "".join(parts). */
  function Concat(parts: seq<string>): string
    decreases |parts|
  {
    if parts == [] then "" else Concat(parts[..|parts| - 1]) + parts[|parts| - 1]
  }

  /** handle_endtag. */
  function OnEndTag(s: ParserState, tag: string): ParserState {
    if s.insideTarget && tag == "div" then
      if s.targetDepth - 1 <= 0 then s.(insideTarget := false, targetDepth := 0)
      else s.(targetDepth := s.targetDepth - 1)
    else if tag == "a" && s.capture then
      var text := Strip(Concat(s.buffer));
      s.(holidays := if text != "" then s.holidays + [text] else s.holidays, capture := false, buffer := [])
    else s
  }

  /** handle_data. */
  function OnData(s: ParserState, text: string): ParserState {
    if s.capture then s.(buffer := s.buffer + [text]) else s
  }

  function Step(s: ParserState, targetId: string, t: Token): ParserState {
    match t
    case StartTag(tag, attrs) => OnStartTag(s, targetId, tag, attrs)
    case EndTag(tag) => OnEndTag(s, tag)
    case Data(text) => OnData(s, text)
  }

  /** The state after feeding the events ts, in order, to a parser in state s. */
  function Run(s: ParserState, targetId: string, ts: seq<Token>): ParserState
    decreases |ts|
  {
    if ts == [] then s else Run(Step(s, targetId, ts[0]), targetId, ts[1..])
  }

  /** `_parse_holidays(html, d)`: the names a fresh parser collects for the container of d. */
  function Extract(ts: seq<Token>, d: Date): seq<string>
    requires ValidDate(d)
  {
    Run(Initial, DivId(d), ts).holidays
  }

  /** One event keeps the state consistent and only ever appends to the collected names. */
  lemma StepConsistent(s: ParserState, targetId: string, t: Token)
    requires Consistent(s)
    ensures Consistent(Step(s, targetId, t))
    ensures s.holidays <= Step(s, targetId, t).holidays
  {
    match t
    case StartTag(tag, attrs) =>
      assert OnStartTag(s, targetId, tag, attrs).holidays == s.holidays;
    case Data(text) =>
    case EndTag(tag) =>
      EndTagConsistent(s, tag);
  }

  lemma EndTagConsistent(s: ParserState, tag: string)
    requires Consistent(s)
    ensures Consistent(OnEndTag(s, tag))
    ensures s.holidays <= OnEndTag(s, tag).holidays
  {
    var r := OnEndTag(s, tag);
    if !(s.insideTarget && tag == "div") && tag == "a" && s.capture {
      var text := Strip(Concat(s.buffer));
      if text != "" {
        assert r.holidays == s.holidays + [text];
        assert forall i :: 0 <= i < |s.holidays| ==> r.holidays[i] == s.holidays[i];
      } else {
        assert r.holidays == s.holidays;
      }
    }
  }

  lemma {:induction false} RunConsistent(s: ParserState, targetId: string, ts: seq<Token>)
    requires Consistent(s)
    ensures Consistent(Run(s, targetId, ts))
    ensures s.holidays <= Run(s, targetId, ts).holidays
    decreases |ts|
  {
    if ts != [] {
      StepConsistent(s, targetId, ts[0]);
      RunConsistent(Step(s, targetId, ts[0]), targetId, ts[1..]);
    }
  }

  /** Every extracted name is non-empty and carries no surrounding white space. */
  lemma ExtractedNamesTrimmed(ts: seq<Token>, d: Date)
    requires ValidDate(d)
    ensures forall h :: h in Extract(ts, d) ==> h != "" && IsTrimmed(h)
  {
    RunConsistent(Initial, DivId(d), ts);
  }

  /** Feeding a + b is feeding a, then b: the parse is a left fold over the events. */
  lemma {:induction false} RunAppend(s: ParserState, targetId: string, a: seq<Token>, b: seq<Token>)
    ensures Run(s, targetId, a + b) == Run(Run(s, targetId, a), targetId, b)
    decreases |a|
  {
    if a == [] {
      assert a + b == b;
    } else {
      assert (a + b)[0] == a[0] && (a + b)[1..] == a[1..] + b;
      assert Run(s, targetId, a + b) == Run(Step(s, targetId, a[0]), targetId, a[1..] + b);
      RunAppend(Step(s, targetId, a[0]), targetId, a[1..], b);
    }
  }

  /** Names found in a prefix of the page stay, in the same order, at the front of the result. */
  lemma ExtractPrefixMonotone(a: seq<Token>, b: seq<Token>, d: Date)
    requires ValidDate(d)
    ensures Extract(a, d) <= Extract(a + b, d)
  {
    RunAppend(Initial, DivId(d), a, b);
    RunConsistent(Initial, DivId(d), a);
    RunConsistent(Run(Initial, DivId(d), a), DivId(d), b);
  }

  /** The event opens the container whose id is targetId. */
  predicate OpensTarget(targetId: string, t: Token) {
    t.StartTag? && t.tag == "div" && AttrGet(t.attrs, "id") == Some(Some(targetId))
  }

  /** While outside the target and not capturing, events that do not open the target change nothing. */
  lemma {:induction false} OutsideEventsIgnored(s: ParserState, targetId: string, ts: seq<Token>)
    requires !s.insideTarget && !s.capture
    requires forall i :: 0 <= i < |ts| ==> !OpensTarget(targetId, ts[i])
    ensures Run(s, targetId, ts) == s
    decreases |ts|
  {
    if ts != [] {
      assert !OpensTarget(targetId, ts[0]);
      OutsideEventsIgnored(s, targetId, ts[1..]);
    }
  }

  /**
   * Anchors, containers and text before the target container opens
   * contribute nothing: extracting from pre + rest is extracting from rest.
   */
  lemma ExtractIgnoresPrefix(pre: seq<Token>, rest: seq<Token>, d: Date)
    requires ValidDate(d)
    requires forall i :: 0 <= i < |pre| ==> !OpensTarget(DivId(d), pre[i])
    ensures Extract(pre + rest, d) == Extract(rest, d)
  {
    RunAppend(Initial, DivId(d), pre, rest);
    OutsideEventsIgnored(Initial, DivId(d), pre);
  }

  /**
   * Inside the target and not capturing, a holiday link with text t adds
   * Strip(t) to the names when that is non-empty, and nothing otherwise.
   */
  lemma AnchorCaptured(s: ParserState, targetId: string, attrs: seq<Attr>, t: string)
    requires s.insideTarget && Contains(Href(attrs), HolidayLinkMarker)
    ensures var s' := Run(s, targetId, [StartTag("a", attrs), Data(t), EndTag("a")]);
      && s'.holidays == (if Strip(t) != "" then s.holidays + [Strip(t)] else s.holidays)
      && !s'.capture && s'.buffer == [] && s'.insideTarget == s.insideTarget && s'.targetDepth == s.targetDepth
  {
    var s1 := OnStartTag(s, targetId, "a", attrs);
    var s2 := OnData(s1, t);
    assert s2.buffer == [t];
    assert [t][..0] == [];
    assert Concat(s2.buffer) == t;
    var s3 := OnEndTag(s2, "a");
    var ts := [StartTag("a", attrs), Data(t), EndTag("a")];
    assert Run(s, targetId, ts) == Run(s1, targetId, ts[1..]);
    assert ts[1..] == [Data(t), EndTag("a")];
    assert Run(s1, targetId, ts[1..]) == Run(s2, targetId, [EndTag("a")]);
    assert Run(s2, targetId, [EndTag("a")]) == Run(s3, targetId, []);
  }

  /** A nested container opened and closed inside the target leaves the parser inside it. */
  lemma NestedContainerKeepsTarget(s: ParserState, targetId: string, attrs: seq<Attr>)
    requires Consistent(s) && s.insideTarget
    ensures Run(s, targetId, [StartTag("div", attrs), EndTag("div")]) == s
  {
    var s1 := OnStartTag(s, targetId, "div", attrs);
    var ts := [StartTag("div", attrs), EndTag("div")];
    assert Run(s, targetId, ts) == Run(s1, targetId, ts[1..]);
    assert ts[1..] == [EndTag("div")];
    assert Run(s1, targetId, [EndTag("div")]) == Run(OnEndTag(s1, "div"), targetId, []);
  }

  /** Container ids are written without leading zeros, as the calendar site does. */
  lemma DivIdWithoutLeadingZeros()
    ensures DivId(Date(2025, 12, 2)) == "div_2025-12-2"
    ensures DivId(Date(2025, 1, 1)) == "div_2025-1-1"
  {
    Year2025Digits();
    Join3("2025", "12", "2", '-');
    Join3("2025", "1", "1", '-');
    assert NatToString(12) == "12";
  }

  lemma Year2025Digits()
    ensures NatToString(2025) == "2025"
  {
    assert NatToString(20) == "20";
    assert NatToString(202) == "202";
  }

  lemma Join3(a: string, b: string, c: string, sep: char)
    ensures Join([a, b, c], sep) == a + [sep] + b + [sep] + c
  {
    assert [a, b, c][1..] == [b, c] && [b, c][1..] == [c];
    assert Join([c], sep) == c;
    assert Join([b, c], sep) == b + [sep] + c;
    assert Join([a, b, c], sep) == a + [sep] + (b + [sep] + c);
  }

  /** Distinct dates have distinct container ids, so the parser never enters another day's container. */
  lemma DigitsHaveNoDash(s: string)
    requires AllDigits(s)
    ensures '-' !in s
  {
  }

  lemma DivIdInjective(a: Date, b: Date)
    requires ValidDate(a) && ValidDate(b) && DivId(a) == DivId(b)
    ensures a == b
  {
    var pa := [NatToString(a.year), NatToString(a.month), NatToString(a.day)];
    var pb := [NatToString(b.year), NatToString(b.month), NatToString(b.day)];
    var ja, jb := Join(pa, '-'), Join(pb, '-');
    assert DivId(a) == "div_" + ja && DivId(b) == "div_" + jb;
    assert ja == DivId(a)[4..] == DivId(b)[4..] == jb;
    DigitsHaveNoDash(pa[0]);
    DigitsHaveNoDash(pa[1]);
    DigitsHaveNoDash(pa[2]);
    DigitsHaveNoDash(pb[0]);
    DigitsHaveNoDash(pb[1]);
    DigitsHaveNoDash(pb[2]);
    SplitJoin(pa, '-');
    SplitJoin(pb, '-');
    assert pa == pb;
    NatToStringInjective(a.year, b.year);
    NatToStringInjective(a.month, b.month);
    NatToStringInjective(a.day, b.day);
  }

  /**
   * A sample page: the target container for 2025-01-01 holds a nested
   * container and one holiday link; a second holiday link follows after
   * the container has closed.
   */
  const ExampleOpen: seq<Token> := [StartTag("div", [Attr("id", Some("div_2025-1-1"))])]
  const ExampleNested: seq<Token> := [StartTag("div", [Attr("class", Some("inner"))]), EndTag("div")]
  const ExampleAnchor: seq<Token> :=
    [StartTag("a", [Attr("href", Some("/holidays/0/0/1/"))]), Data(ExampleText), EndTag("a")]
  const ExampleClose: seq<Token> := [EndTag("div")]
  const ExampleAfter: seq<Token> :=
    [StartTag("a", [Attr("href", Some("/holidays/0/0/2/"))]), Data("Ignored"), EndTag("a")]

  function ExamplePage(): seq<Token> {
    ExampleOpen + ExampleNested + ExampleAnchor + ExampleClose + ExampleAfter
  }

  const ExampleId := "div_2025-1-1"
  const ExampleInside := ParserState(true, 1, false, [], [])
  const ExampleName := "Holiday A"
  /** The link's text, with a blank on either side. */
  const ExampleText := " " + ExampleName + " "
  const ExampleFound := ParserState(true, 1, false, [], [ExampleName])
  const ExampleDone := ParserState(false, 0, false, [], [ExampleName])

  lemma ExampleOpenEnters()
    ensures Run(Initial, ExampleId, ExampleOpen) == ExampleInside
  {
    assert ExampleOpen[1..] == [];
    assert Run(Initial, ExampleId, ExampleOpen) == Run(Step(Initial, ExampleId, ExampleOpen[0]), ExampleId, []);
  }

  lemma ExampleTextStripped()
    ensures Strip(ExampleText) == ExampleName
  {
    assert IsTrimmed(ExampleName);
    StripPadded(ExampleName);
  }

  lemma ExampleLinkMarked()
    ensures Contains(Href([Attr("href", Some("/holidays/0/0/1/"))]), HolidayLinkMarker)
  {
    var href := "/holidays/0/0/1/";
    assert Href([Attr("href", Some(href))]) == href;
    assert href[..|HolidayLinkMarker|] == HolidayLinkMarker;
    ContainsAt(href, HolidayLinkMarker, 0);
  }

  lemma ExampleAnchorFound()
    ensures Run(ExampleInside, ExampleId, ExampleAnchor) == ExampleFound
  {
    ExampleLinkMarked();
    ExampleTextStripped();
    AnchorCaptured(ExampleInside, ExampleId, [Attr("href", Some("/holidays/0/0/1/"))], ExampleText);
    assert |ExampleName| == 9 && ExampleInside.holidays + [ExampleName] == [ExampleName];
  }

  lemma ExampleCloseLeaves()
    ensures Run(ExampleFound, ExampleId, ExampleClose) == ExampleDone
  {
    assert ExampleClose[1..] == [];
    assert Run(ExampleFound, ExampleId, ExampleClose) == Run(OnEndTag(ExampleFound, "div"), ExampleId, []);
  }

  lemma ExampleAfterIgnored()
    ensures Run(ExampleDone, ExampleId, ExampleAfter) == ExampleDone
  {
    forall i | 0 <= i < |ExampleAfter|
      ensures !OpensTarget(ExampleId, ExampleAfter[i])
    {
    }
    OutsideEventsIgnored(ExampleDone, ExampleId, ExampleAfter);
  }

  /** Only the link inside the target container is extracted, trimmed. */
  lemma ExamplePageExtraction()
    ensures Extract(ExamplePage(), Date(2025, 1, 1)) == [ExampleName]
  {
    DivIdWithoutLeadingZeros();
    var id := ExampleId;
    ExampleOpenEnters();
    NestedContainerKeepsTarget(ExampleInside, id, [Attr("class", Some("inner"))]);
    ExampleAnchorFound();
    ExampleCloseLeaves();
    ExampleAfterIgnored();
    var p1 := ExampleOpen + ExampleNested;
    var p2 := p1 + ExampleAnchor;
    var p3 := p2 + ExampleClose;
    RunAppend(Initial, id, ExampleOpen, ExampleNested);
    RunAppend(Initial, id, p1, ExampleAnchor);
    RunAppend(Initial, id, p2, ExampleClose);
    RunAppend(Initial, id, p3, ExampleAfter);
  }

  /** `_HolidayAnchorParser`: the callbacks update the parser's fields in place. */
  class AnchorParser {
    const targetDivId: string
    var insideTarget: bool
    var targetDepth: int
    var capture: bool
    var buffer: seq<string>
    var holidays: seq<string>

    function State(): ParserState
      reads this
    {
      ParserState(insideTarget, targetDepth, capture, buffer, holidays)
    }

    constructor (targetDivId: string)
      ensures this.targetDivId == targetDivId && State() == Initial
    {
      this.targetDivId := targetDivId;
      insideTarget := false;
      targetDepth := 0;
      capture := false;
      buffer := [];
      holidays := [];
    }

    method HandleStartTag(tag: string, attrs: seq<Attr>)
      modifies this
      ensures State() == OnStartTag(old(State()), targetDivId, tag, attrs)
    {
      if tag == "div" {
        var divId := AttrGet(attrs, "id");
        if insideTarget {
          targetDepth := targetDepth + 1;
        } else if divId == Some(Some(targetDivId)) {
          insideTarget := true;
          targetDepth := 1;
        }
        return;
      }
      if !insideTarget {
        return;
      }
      if tag == "a" {
        var href := Href(attrs);
        if Contains(href, HolidayLinkMarker) {
          capture := true;
          buffer := [];
        }
      }
    }

    method HandleEndTag(tag: string)
      modifies this
      ensures State() == OnEndTag(old(State()), tag)
    {
      if insideTarget && tag == "div" {
        targetDepth := targetDepth - 1;
        if targetDepth <= 0 {
          insideTarget := false;
          targetDepth := 0;
        }
      } else if tag == "a" && capture {
        var text := Strip(Concat(buffer));
        if text != "" {
          holidays := holidays + [text];
        }
        capture := false;
        buffer := [];
      }
    }

    method HandleData(data: string)
      modifies this
      ensures State() == OnData(old(State()), data)
    {
      if capture {
        buffer := buffer + [data];
      }
    }

    /** feed(): hand every event to its callback, then return the names collected. */
    method Feed(tokens: seq<Token>) returns (result: seq<string>)
      modifies this
      ensures State() == Run(old(State()), targetDivId, tokens)
      ensures result == holidays
    {
      var i := 0;
      while i < |tokens|
        invariant 0 <= i <= |tokens|
        invariant Run(State(), targetDivId, tokens[i..]) == Run(old(State()), targetDivId, tokens)
      {
        assert tokens[i..][0] == tokens[i] && tokens[i..][1..] == tokens[i + 1..];
        match tokens[i] {
          case StartTag(tag, attrs) => HandleStartTag(tag, attrs);
          case EndTag(tag) => HandleEndTag(tag);
          case Data(text) => HandleData(text);
        }
        i := i + 1;
      }
      result := holidays;
    }
  }

  /** `_parse_holidays`: a fresh parser for the container of d, fed the whole page. */
  method ParseHolidays(tokens: seq<Token>, d: Date) returns (holidays: seq<string>)
    requires ValidDate(d)
    ensures holidays == Extract(tokens, d)
  {
    var parser := new AnchorParser(DivId(d));
    holidays := parser.Feed(tokens);
  }
}
